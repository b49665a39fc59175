/** A caller's value brought to the type a property or a parameter declares. How numbers, dates and
    timestamps are spelled as text is a parameter of the model. */
module Coercion {
  import opened Wrappers
  import opened Values
  import opened Types
  import opened Model
  import opened Decimals
  import Lexer
  import Parser

  /** The spellings the host language reads and writes. */
  datatype Host = Host(
    readInt: string -> Option<int>,
    readDouble: string -> Option<real>,
    readDecimal: Value -> Option<Decimal>,
    readDate: string -> Option<int>,
    readStamp: string -> Option<int>,
    show: Value -> string)
  {
    /** `str(value)`. */
    function Text(v: Value): string {
      if v.Str? then v.s else show(v)
    }
  }

  function Lowercase(s: string): string {
    seq(|s|, k requires 0 <= k < |s| => if 'A' <= s[k] <= 'Z' then (s[k] as int + 32) as char else s[k])
  }

  function AsInteger(h: Host, v: Value): Result<Value> {
    match v
    case Num(_, n) => if n == n.Floor as real then Ok(Num(IntNum, n)) else Err
    case Str(s) => (match h.readInt(s) case Some(k) => Ok(Num(IntNum, k as real)) case None => Err)
    case _ => Err
  }

  function AsDouble(h: Host, v: Value): Result<Value> {
    match v
    case Num(_, n) => Ok(Num(DoubleNum, n))
    case Str(s) => (match h.readDouble(s) case Some(r) => Ok(Num(DoubleNum, r)) case None => Err)
    case _ => Err
  }

  /** A double is refused: it could not be read without losing precision. */
  function AsDecimalValue(h: Host, v: Value, precision: nat, scale: nat): Result<Value> {
    if v.Num? && v.kind == DoubleNum then Err
    else
      match h.readDecimal(v)
      case None => Err
      case Some(d) =>
        var out :- AsDecimal(d, precision, scale);
        Ok(Num(DecimalNum, ToReal(out, scale)))
  }

  function AsBoolean(h: Host, v: Value): Result<Value> {
    match v
    case Bool(_) => Ok(v)
    case Str(s) =>
      var text := Lowercase(Parser.Strip(s));
      if text == "true" then Ok(Bool(true)) else if text == "false" then Ok(Bool(false)) else Err
    case Num(_, n) => Ok(Bool(n != 0.0))
    case _ => Ok(Bool(true))
  }

  function AsDate(h: Host, v: Value): Result<Value> {
    match v
    case Stamp(instant) => Ok(Date(instant / MICROS_PER_DAY))
    case Date(_) => Ok(v)
    case _ => (match h.readDate(h.Text(v)) case Some(day) => Ok(Date(day)) case None => Err)
  }

  function AsStamp(h: Host, v: Value): Result<Value> {
    match v
    case Stamp(_) => Ok(v)
    case Date(day) => Ok(Stamp(day * MICROS_PER_DAY))
    case _ => (match h.readStamp(h.Text(v)) case Some(t) => Ok(Stamp(t)) case None => Err)
  }

  function CoerceScalar(h: Host, t: PropType, v: Value): Result<Value>
    requires !t.ObjectRefT?
  {
    match t
    case IntT | LongT => AsInteger(h, v)
    case DoubleT => AsDouble(h, v)
    case DecimalT(precision, scale) => AsDecimalValue(h, v, precision, scale)
    case BooleanT => AsBoolean(h, v)
    case DateT => AsDate(h, v)
    case TimestampT => AsStamp(h, v)
    case EnumT(values) =>
      var text := h.Text(v);
      if values != [] && text !in values then Err else Ok(Str(text))
    case StringT => Ok(Str(h.Text(v)))
  }

  /** Null passes; a list has no reading as a scalar; a boolean is nothing but a boolean. */
  function Coerce(h: Host, objects: map<string, ObjectType>, t: PropType, v: Value): Result<Value> {
    if v.Null? then Ok(Null)
    else if v.List? then Err
    else if v.Bool? && !t.BooleanT? then Err
    else
      match Carrier(objects, t, objects.Keys)
      case Some(carried) => CoerceScalar(h, carried, v)
      case None => Err
  }

  /** Whatever coercion returns is null, and only for null, or a value of the type the declared one is
      carried as: an enum's is one of its values, a whole number's is whole. */
  lemma CoercedIsTyped(h: Host, objects: map<string, ObjectType>, t: PropType, v: Value)
    requires Coerce(h, objects, t, v).Ok?
    ensures var out := Coerce(h, objects, t, v).value;
            (out.Null? <==> v.Null?) && Holds(out, t, objects)
    ensures !v.Null? ==>
      match Carrier(objects, t, objects.Keys)
      case None => false
      case Some(EnumT(values)) => values != [] ==> Coerce(h, objects, t, v).value.s in values
      case _ => true
  {
  }

  /** The host reads the decimal it was given back as it spells it: at the type's scale, the same number. */
  predicate ReadsBack(h: Host, carried: PropType, out: Value) {
    carried.DecimalT? && out.Num? ==>
      match h.readDecimal(out)
      case Some(d) => d.exponent == -(carried.scale as int) && ToReal(d, carried.scale) == out.n
      case None => false
  }

  lemma SameMagnitude(a: Decimal, b: Decimal, scale: nat)
    requires ToReal(a, scale) == ToReal(b, scale)
    ensures a.coefficient == b.coefficient
  {
    var p := Lexer.Pow10(scale) as real;
    assert (a.coefficient as real / p) * p == a.coefficient as real;
    assert (b.coefficient as real / p) * p == b.coefficient as real;
  }

  /** A decimal the coercion produced is produced again from what the host reads back. */
  lemma DecimalAgain(h: Host, precision: nat, scale: nat, v: Value)
    requires AsDecimalValue(h, v, precision, scale).Ok?
    requires ReadsBack(h, DecimalT(precision, scale), AsDecimalValue(h, v, precision, scale).value)
    ensures AsDecimalValue(h, AsDecimalValue(h, v, precision, scale).value, precision, scale)
         == AsDecimalValue(h, v, precision, scale)
  {
    hide ToReal, AsDecimal;
    var out := AsDecimalValue(h, v, precision, scale).value;
    var first, again := h.readDecimal(v).value, h.readDecimal(out).value;
    var held := AsDecimal(first, precision, scale).value;
    AcceptedExactly(first, precision, scale);
    SameMagnitude(held, again, scale);
    Decimals.CoercedAgain(first, precision, scale);
    SignAside(held, precision, scale);
    assert again == held || again == Decimal(!held.negative, held.coefficient, held.exponent);
    assert AsDecimal(again, precision, scale) == Ok(again);
  }

  /** A value that coercion returned is returned again, whatever the type, but for one: a boolean that
      stands for a reference is refused, because only a declared boolean may be one. */
  lemma CoercedAgain(h: Host, objects: map<string, ObjectType>, t: PropType, v: Value)
    requires Coerce(h, objects, t, v).Ok?
    requires !v.Null? ==> ReadsBack(h, Carrier(objects, t, objects.Keys).value, Coerce(h, objects, t, v).value)
    ensures var out := Coerce(h, objects, t, v);
            Coerce(h, objects, t, out.value) == out <==> !(t.ObjectRefT? && out.value.Bool?)
  {
    if !v.Null? {
      var carried := Carrier(objects, t, objects.Keys).value;
      if carried.DecimalT? {
        DecimalAgain(h, carried.precision, carried.scale, v);
      }
    }
  }
}
