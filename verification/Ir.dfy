/** The read plan's predicate nodes and their meaning. `==` and `!=` are null-safe; the orderings are
    unknown on null, as in section 8.2 of ISO/IEC 9075-2. A comparison of two values with no common
    type is an error of the engine. */
module Ir {
  import opened Wrappers
  import opened Values
  import opened ExprAst
  import opened Model
  import opened Kleene

  datatype Operand = ColumnRef(alias: string, column: string) | Const(value: Value)

  datatype Predicate =
    | Compare(op: BinOp, left: Operand, right: Operand)
    | Both(l: Predicate, r: Predicate)
    | Either(l: Predicate, r: Predicate)
    | Negated(term: Predicate)

  /** The row each alias of a query stands at. */
  type Env = map<string, Row>

  function At(env: Env, alias: string): Row {
    if alias in env then env[alias] else map[]
  }

  function OperandValue(operand: Operand, env: Env): Value {
    match operand
    case ColumnRef(alias, column) => Cell(At(env, alias), column)
    case Const(value) => value
  }

  /** Two non-null values an engine can compare. Unlike the evaluator, SQL orders booleans. */
  predicate SqlComparable(a: Value, b: Value) {
    || (a.Num? && b.Num?)
    || (IsTime(a) && IsTime(b))
    || (a.Str? && b.Str?)
    || (a.Bool? && b.Bool?)
  }

  predicate SqlLess(a: Value, b: Value)
    requires SqlComparable(a, b)
  {
    if a.Num? then a.n < b.n
    else if IsTime(a) then Instant(a) < Instant(b)
    else if a.Str? then StrLess(a.s, b.s)
    else !a.b && b.b
  }

  predicate SqlEqual(a: Value, b: Value)
    requires SqlComparable(a, b)
  {
    if a.Num? then a.n == b.n
    else if IsTime(a) then Instant(a) == Instant(b)
    else a == b
  }

  function NullSafeEqual(a: Value, b: Value): Result<bool> {
    if a.Null? || b.Null? then Ok(a.Null? && b.Null?)
    else if SqlComparable(a, b) then Ok(SqlEqual(a, b))
    else Err
  }

  function SqlOrder(op: BinOp, a: Value, b: Value): Result<Truth>
    requires IsOrdering(op)
  {
    if a.Null? || b.Null? then Ok(Undecided)
    else if !SqlComparable(a, b) then Err
    else
      match op
      case Lt => Ok(FromBool(SqlLess(a, b)))
      case Le => Ok(FromBool(SqlLess(a, b) || SqlEqual(a, b)))
      case Gt => Ok(FromBool(SqlLess(b, a)))
      case Ge => Ok(FromBool(SqlLess(b, a) || SqlEqual(a, b)))
  }

  function CompareMeaning(op: BinOp, a: Value, b: Value): Result<Truth> {
    if op.Eq? then
      var equal :- NullSafeEqual(a, b);
      Ok(FromBool(equal))
    else if op.Ne? then
      var equal :- NullSafeEqual(a, b);
      Ok(FromBool(!equal))
    else if IsOrdering(op) then SqlOrder(op, a, b)
    else Err
  }

  function Meaning(pred: Predicate, env: Env): Result<Truth> {
    match pred
    case Compare(op, left, right) => CompareMeaning(op, OperandValue(left, env), OperandValue(right, env))
    case Both(left, right) =>
      var a :- Meaning(left, env);
      var b :- Meaning(right, env);
      Ok(And3(a, b))
    case Either(left, right) =>
      var a :- Meaning(left, env);
      var b :- Meaning(right, env);
      Ok(Or3(a, b))
    case Negated(term) =>
      var a :- Meaning(term, env);
      Ok(Not3(a))
  }

  /** The `(alias, column)` pairs a predicate reads. */
  function ColumnsOf(pred: Predicate): set<(string, string)> {
    match pred
    case Compare(_, left, right) => OperandColumns(left) + OperandColumns(right)
    case Both(left, right) => ColumnsOf(left) + ColumnsOf(right)
    case Either(left, right) => ColumnsOf(left) + ColumnsOf(right)
    case Negated(term) => ColumnsOf(term)
  }

  function OperandColumns(operand: Operand): set<(string, string)> {
    match operand
    case ColumnRef(alias, column) => {(alias, column)}
    case Const(_) => {}
  }
}
