/** The canonical types a property, a parameter or a claim may be declared as, and which of them an
    expression may compare. */
module Types {
  import opened Wrappers
  import opened Values

  datatype PropType =
    | StringT | BooleanT | IntT | LongT | DoubleT | DateT | TimestampT
    | DecimalT(precision: nat, scale: nat)
    | EnumT(values: seq<string>)
    | ObjectRefT(target: string)

  datatype Kind =
    | StringKind | BooleanKind | IntKind | LongKind | DoubleKind | DateKind | TimestampKind
    | DecimalKind | ObjectRefKind

  /** The kind a value of this type is stored as: an enum is stored as a string. */
  function BaseKind(t: PropType): Kind {
    match t
    case StringT | EnumT(_) => StringKind
    case BooleanT => BooleanKind
    case IntT => IntKind
    case LongT => LongKind
    case DoubleT => DoubleKind
    case DateT => DateKind
    case TimestampT => TimestampKind
    case DecimalT(_, _) => DecimalKind
    case ObjectRefT(_) => ObjectRefKind
  }

  predicate IsNumericKind(k: Kind) {
    k in {IntKind, LongKind, DoubleKind, DecimalKind}
  }

  predicate Promotes(a: Kind, b: Kind) {
    (a == IntKind && b in {LongKind, DoubleKind}) || (a == LongKind && b == DoubleKind)
  }

  /** Two types of one kind, or of two numeric kinds of which one widens to the other. */
  predicate ComparableTo(a: PropType, b: PropType) {
    var x, y := BaseKind(a), BaseKind(b);
    x == y || Promotes(x, y) || Promotes(y, x)
  }

  /** Whether a comparison between the two types has an answer: any two numbers compare. */
  predicate ComparableInAComparison(a: PropType, b: PropType) {
    (IsNumericKind(BaseKind(a)) && IsNumericKind(BaseKind(b))) || ComparableTo(a, b)
  }

  /** The type of a literal, or nothing for `null`, which constrains nothing. */
  function OfLiteral(v: Value): Option<PropType> {
    match v
    case Bool(_) => Some(BooleanT)
    case Num(IntNum, _) => Some(LongT)
    case Num(DoubleNum, _) => Some(DoubleT)
    case Str(_) => Some(StringT)
    case _ => None
  }

  /** What a non-null value of a declared type is carried as. A reference is carried as the key it
      refers to, so it has no carrier of its own. */
  predicate HasType(v: Value, t: PropType) {
    match t
    case StringT => v.Str?
    case EnumT(_) => v.Str?
    case BooleanT => v.Bool?
    case IntT | LongT => v.Num? && v.kind == IntNum && v.n == v.n.Floor as real
    case DoubleT => v.Num? && v.kind == DoubleNum
    case DecimalT(_, _) => v.Num? && v.kind == DecimalNum
    case DateT => v.Date?
    case TimestampT => v.Stamp?
    case ObjectRefT(_) => true
  }

  predicate Typed(v: Value, t: PropType) {
    v.Null? || HasType(v, t)
  }
}
