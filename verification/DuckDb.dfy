/** A predicate as SQL with positional parameters, and what that SQL answers. */
module DuckDb {
  import opened Wrappers
  import opened Values
  import opened ExprAst
  import opened Kleene
  import opened Ir

  /** A column, or the next `?` of the statement. */
  datatype SqlOperand = SqlColumn(alias: string, column: string) | Placeholder

  datatype Sql =
    | IsNull(operand: SqlOperand, negated: bool)
    | IsDistinct(left: SqlOperand, right: SqlOperand, negated: bool)
    | Ordering(op: BinOp, left: SqlOperand, right: SqlOperand)
    | SqlAnd(l: Sql, r: Sql)
    | SqlOr(l: Sql, r: Sql)
    | SqlNot(term: Sql)

  /** A fragment of a statement and the parameters its placeholders take, in order. */
  datatype Compiled = Compiled(sql: Sql, params: seq<Value>)

  function CompileOperand(operand: Operand): SqlOperand {
    match operand
    case ColumnRef(alias, column) => SqlColumn(alias, column)
    case Const(_) => Placeholder
  }

  function OperandParams(operand: Operand): seq<Value> {
    if operand.Const? then [operand.value] else []
  }

  function CompileCompare(op: BinOp, left: Operand, right: Operand): Compiled {
    if op in {Eq, Ne} then
      if left == Const(Null) then
        Compiled(IsNull(CompileOperand(right), op.Ne?), OperandParams(right))
      else if right == Const(Null) then
        Compiled(IsNull(CompileOperand(left), op.Ne?), OperandParams(left))
      else
        Compiled(IsDistinct(CompileOperand(left), CompileOperand(right), op.Eq?),
                 OperandParams(left) + OperandParams(right))
    else
      Compiled(Ordering(op, CompileOperand(left), CompileOperand(right)),
               OperandParams(left) + OperandParams(right))
  }

  function Compile(pred: Predicate): Compiled {
    match pred
    case Compare(op, left, right) => CompileCompare(op, left, right)
    case Both(left, right) =>
      var l, r := Compile(left), Compile(right);
      Compiled(SqlAnd(l.sql, r.sql), l.params + r.params)
    case Either(left, right) =>
      var l, r := Compile(left), Compile(right);
      Compiled(SqlOr(l.sql, r.sql), l.params + r.params)
    case Negated(term) =>
      var t := Compile(term);
      Compiled(SqlNot(t.sql), t.params)
  }

  // ---- what the statement answers --------------------------------------------------------

  datatype Bound = Bound(value: Value, rest: seq<Value>)

  datatype Answer = Answer(truth: Result<Truth>, rest: seq<Value>)

  /** A placeholder takes the first parameter not yet taken; none left binds null. */
  function Bind(operand: SqlOperand, env: Env, params: seq<Value>): Bound {
    match operand
    case SqlColumn(alias, column) => Bound(OperandValue(ColumnRef(alias, column), env), params)
    case Placeholder => if params == [] then Bound(Null, []) else Bound(params[0], params[1..])
  }

  function Lift(f: (Truth, Truth) -> Truth, a: Result<Truth>, b: Result<Truth>): Result<Truth> {
    if a.Err? || b.Err? then Err else Ok(f(a.value, b.value))
  }

  function Run(sql: Sql, env: Env, params: seq<Value>): Answer {
    match sql
    case IsNull(operand, negated) =>
      var x := Bind(operand, env, params);
      Answer(Ok(FromBool(x.value.Null? != negated)), x.rest)
    case IsDistinct(left, right, negated) =>
      var x := Bind(left, env, params);
      var y := Bind(right, env, x.rest);
      (match NullSafeEqual(x.value, y.value)
       case Ok(same) => Answer(Ok(FromBool(same == negated)), y.rest)
       case Err => Answer(Err, y.rest))
    case Ordering(op, left, right) =>
      var x := Bind(left, env, params);
      var y := Bind(right, env, x.rest);
      Answer(if IsOrdering(op) then SqlOrder(op, x.value, y.value) else Err, y.rest)
    case SqlAnd(l, r) =>
      var a := Run(l, env, params);
      var b := Run(r, env, a.rest);
      Answer(Lift(And3, a.truth, b.truth), b.rest)
    case SqlOr(l, r) =>
      var a := Run(l, env, params);
      var b := Run(r, env, a.rest);
      Answer(Lift(Or3, a.truth, b.truth), b.rest)
    case SqlNot(term) =>
      var a := Run(term, env, params);
      Answer(if a.truth.Ok? then Ok(Not3(a.truth.value)) else Err, a.rest)
  }

  /** The statement answers what the predicate means, and takes exactly its own parameters. */
  lemma {:induction false} SqlMeansPredicate(pred: Predicate, env: Env, tail: seq<Value>)
    ensures Run(Compile(pred).sql, env, Compile(pred).params + tail) == Answer(Meaning(pred, env), tail)
    decreases pred, 1
  {
    match pred
    case Compare(op, left, right) => CompareMeansPredicate(op, left, right, env, tail);
    case Both(l, r) =>
      PairRuns(pred, l, r, env, tail);
      assert Compile(pred).params == Compile(l).params + Compile(r).params;
    case Either(l, r) =>
      PairRuns(pred, l, r, env, tail);
      assert Compile(pred).params == Compile(l).params + Compile(r).params;
    case Negated(term) =>
      SqlMeansPredicate(term, env, tail);
  }

  /** Of two statements in a row, the first leaves the second its parameters. */
  lemma {:induction false} PairRuns(pred: Predicate, l: Predicate, r: Predicate, env: Env, tail: seq<Value>)
    requires pred == Both(l, r) || pred == Either(l, r)
    ensures var first := Run(Compile(l).sql, env, Compile(l).params + Compile(r).params + tail);
            && first.truth == Meaning(l, env)
            && Run(Compile(r).sql, env, first.rest) == Answer(Meaning(r, env), tail)
    decreases pred, 0
  {
    hide Run, Compile, Meaning;
    SqlMeansPredicate(l, env, Compile(r).params + tail);
    SqlMeansPredicate(r, env, tail);
    assert Compile(l).params + Compile(r).params + tail == Compile(l).params + (Compile(r).params + tail);
  }

  lemma BindTakesOwn(operand: Operand, env: Env, tail: seq<Value>)
    ensures Bind(CompileOperand(operand), env, OperandParams(operand) + tail)
         == Bound(OperandValue(operand, env), tail)
  {
    if operand.Const? {
      assert ([operand.value] + tail)[1..] == tail;
    } else {
      assert [] + tail == tail;
    }
  }

  lemma ConstValue(v: Value, env: Env)
    ensures OperandValue(Const(v), env) == v
  {
  }

  lemma CompareMeansPredicate(op: BinOp, left: Operand, right: Operand, env: Env, tail: seq<Value>)
    ensures var c := CompileCompare(op, left, right);
            Run(c.sql, env, c.params + tail)
            == Answer(CompareMeaning(op, OperandValue(left, env), OperandValue(right, env)), tail)
  {
    hide Bind, OperandValue, SqlOrder, SqlComparable, SqlEqual;
    BindTakesOwn(left, env, tail);
    BindTakesOwn(right, env, tail);
    assert OperandValue(Const(Null), env) == Null by {
      ConstValue(Null, env);
    }
    BindTakesOwn(left, env, OperandParams(right) + tail);
    assert OperandParams(left) + OperandParams(right) + tail == OperandParams(left) + (OperandParams(right) + tail);
  }
}
