/** The expression language, evaluated. Null can be tested and coalesced; ordering it or computing
    with it is a refusal. */
module Evaluate {
  import opened Wrappers
  import opened Values
  import opened ExprAst

  /** What names resolve to. Each evaluation reads one instant for `now()`. */
  datatype Scope = Scope(
    parameters: map<string, Value>,
    objectRow: Option<map<string, Value>>,
    claims: Option<map<string, Value>>,
    now: int)

  function Eval(node: Node, scope: Scope): Result<Value> {
    match node
    case Literal(value) => Ok(value)
    case Ref(path) => EvalRef(path, scope)
    case Call(name, args) =>
      if name == "coalesce" then EvalCoalesce(args, scope)
      else
        var values :- EvalAll(args, scope);
        Apply(name, values, scope)
    case Unary(uop, operand) =>
      var value :- Eval(operand, scope);
      EvalUnary(uop, value)
    case Binary(op, left, right) =>
      var l :- Eval(left, scope);
      if IsConnective(op) then
        if !l.Bool? then Err
        else if op.And? != l.b then Ok(l)
        else
          var r :- Eval(right, scope);
          if r.Bool? then Ok(r) else Err
      else
        var r :- Eval(right, scope);
        EvalBinary(op, l, r)
  }

  function EvalAll(nodes: seq<Node>, scope: Scope): Result<seq<Value>> {
    if nodes == [] then Ok([])
    else
      var first :- Eval(nodes[0], scope);
      var rest :- EvalAll(nodes[1..], scope);
      Ok([first] + rest)
  }

  function EvalCoalesce(nodes: seq<Node>, scope: Scope): Result<Value> {
    if nodes == [] then Ok(Null)
    else
      var first :- Eval(nodes[0], scope);
      if first.Null? then EvalCoalesce(nodes[1..], scope) else Ok(first)
  }

  function Lookup(m: map<string, Value>, name: string): Result<Value> {
    if name in m then Ok(m[name]) else Err
  }

  /** A property missing from the row and a claim missing from the token are refusals, not nulls. */
  function EvalRef(path: seq<string>, scope: Scope): Result<Value> {
    if |path| == 1 then Lookup(scope.parameters, path[0])
    else if IsObjectRef(path) then
      if scope.objectRow.None? then Err else Lookup(scope.objectRow.value, path[1])
    else if IsPrincipalRef(path) then
      if scope.claims.None? then Err else Lookup(scope.claims.value, path[1])
    else Err
  }

  function EvalUnary(uop: UnOp, value: Value): Result<Value> {
    match uop
    case Not => if value.Bool? then Ok(Bool(!value.b)) else Err
    case Neg => if value.Num? then Ok(Num(value.kind, -value.n)) else Err
  }

  function EvalBinary(op: BinOp, left: Value, right: Value): Result<Value>
    requires !IsConnective(op)
  {
    match op
    case Eq => Ok(Bool(Equal(left, right)))
    case Ne => Ok(Bool(!Equal(left, right)))
    case Contains => ListContains(left, right)
    case Lt | Le | Gt | Ge => Ordered(op, left, right)
    case Add | Sub | Mul | Div => Arithmetic(op, left, right)
  }

  /** Null equals only null; a boolean equals only a boolean; numbers compare across their kinds,
      and dates and timestamps on one axis. */
  predicate Equal(left: Value, right: Value) {
    if left.Null? || right.Null? then left.Null? && right.Null?
    else if left.Num? && right.Num? then left.n == right.n
    else if IsTime(left) && IsTime(right) then Instant(left) == Instant(right)
    else left == right
  }

  /** Whether an order is defined between two values: never for null or a boolean. */
  predicate Orderable(left: Value, right: Value) {
    || (left.Num? && right.Num?)
    || (IsTime(left) && IsTime(right))
    || (left.Str? && right.Str?)
  }

  predicate Less(left: Value, right: Value)
    requires Orderable(left, right)
  {
    if left.Num? then left.n < right.n
    else if IsTime(left) then Instant(left) < Instant(right)
    else StrLess(left.s, right.s)
  }

  predicate OrderHolds(op: BinOp, left: Value, right: Value)
    requires IsOrdering(op) && Orderable(left, right)
  {
    match op
    case Lt => Less(left, right)
    case Le => !Less(right, left)
    case Gt => Less(right, left)
    case Ge => !Less(left, right)
  }

  function Ordered(op: BinOp, left: Value, right: Value): Result<Value>
    requires IsOrdering(op)
  {
    if Orderable(left, right) then Ok(Bool(OrderHolds(op, left, right))) else Err
  }

  /** Membership of a string in a list of strings; anything else is a refusal, not a no. */
  function ListContains(left: Value, right: Value): Result<Value> {
    if left.List? && (forall k | 0 <= k < |left.items| :: left.items[k].Str?) && right.Str?
    then Ok(Bool(right in left.items))
    else Err
  }

  /** A decimal and a double do not mix; dividing two integers gives a double. */
  function Arithmetic(op: BinOp, left: Value, right: Value): Result<Value>
    requires op in {Add, Sub, Mul, Div}
  {
    if op.Add? && left.Str? && right.Str? then Ok(Str(left.s + right.s))
    else if !left.Num? || !right.Num? then Err
    else if {left.kind, right.kind} == {DecimalNum, DoubleNum} then Err
    else
      var kind :=
        if DecimalNum in {left.kind, right.kind} then DecimalNum
        else if DoubleNum in {left.kind, right.kind} || op.Div? then DoubleNum
        else IntNum;
      match op
      case Add => Ok(Num(kind, left.n + right.n))
      case Sub => Ok(Num(kind, left.n - right.n))
      case Mul => Ok(Num(kind, left.n * right.n))
      case Div => if right.n == 0.0 then Err else Ok(Num(kind, left.n / right.n))
  }

  function MapChars(s: string, low: char, high: char, shift: int): string
    requires 0 <= low as int + shift && high as int + shift < 0xD800
  {
    seq(|s|, k requires 0 <= k < |s| => if low <= s[k] <= high then (s[k] as int + shift) as char else s[k])
  }

  function Apply(name: string, args: seq<Value>, scope: Scope): Result<Value> {
    if name == "now" then Ok(Stamp(scope.now))
    else if name in {"lower", "upper", "len"} && |args| == 1 && args[0].Str? then
      var s := args[0].s;
      Ok(if name == "lower" then Str(MapChars(s, 'A', 'Z', 32))
         else if name == "upper" then Str(MapChars(s, 'a', 'z', -32))
         else Num(IntNum, |s| as real))
    else Err
  }
}
