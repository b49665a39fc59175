/** One attempt at an action, as a function of what it is given: the caller's arguments, the readings of
    the clock, and the rows it reads. It ends as a refusal or as a plan to write one row. */
module Attempt {
  import opened Wrappers
  import opened Values
  import opened ExprAst
  import opened Model
  import opened Evaluate
  import opened Governance
  import opened Coercion

  datatype Argument = Argument(name: string, value: Value)

  /** What one caller's runtime is built from. */
  datatype Deployment = Deployment(ontology: Ontology, policies: PolicySet, host: Host)

  datatype Request = Request(action: Action, supplied: seq<Argument>, dryRun: bool, recordRefusals: bool)

  /** Where an expression or a value of an attempt came from. */
  datatype Place = KeyPlace | RulePlace(k: nat) | EffectPlace(property: string) | ParameterPlace(name: string)

  /** The instant `now()` reads, for each expression the attempt evaluates. */
  type Clock = Place -> int

  datatype Failure =
    | UnknownParameter(name: string)
    | MissingParameter(name: string)
    | TypeError(at: Place)
    | ExpressionError(at: Place)
    | ValidationFailed(message: string)
    | AmbiguousKey(matched: nat)
    | ObjectExists
    | ObjectNotFound
    | Conflict(expected: Option<nat>, attempts: nat, changed: Option<set<string>>, contended: bool)
    | WriteFailed
    | LogFailed

  function Target(d: Deployment, req: Request): ObjectType
    requires req.action.target in d.ontology.objectTypes
  {
    d.ontology.objectTypes[req.action.target]
  }

  /** What the validator leaves true of an action, and the runtime demands of the policies it holds. */
  predicate Runnable(d: Deployment, req: Request) {
    && req.action.target in d.ontology.objectTypes
    && Target(d, req).Valid()
    && Target(d, req).apiName == req.action.target
    && (forall a | a in req.action.sets :: a.property in Target(d, req).properties)
    && (forall i, j | 0 <= i < j < |req.action.sets| :: req.action.sets[i].property != req.action.sets[j].property)
    && d.policies.decided
  }

  // ---- 1. bind ---------------------------------------------------------------------------

  predicate Declares(params: seq<Parameter>, name: string) {
    exists k :: 0 <= k < |params| && params[k].name == name
  }

  function Supplied(supplied: seq<Argument>, name: string): Option<Value> {
    if supplied == [] then None
    else if supplied[0].name == name then Some(supplied[0].value)
    else Supplied(supplied[1..], name)
  }

  function Unknown(params: seq<Parameter>, supplied: seq<Argument>): seq<Failure> {
    if supplied == [] then []
    else
      var front, a := supplied[..|supplied| - 1], supplied[|supplied| - 1];
      Unknown(params, front) + if Declares(params, a.name) then [] else [UnknownParameter(a.name)]
  }

  /** Values by name, and what went wrong on the way. */
  datatype Gathered = Gathered(values: View, failures: seq<Failure>)

  /** A value given as null is null; only a parameter not given at all takes its default. */
  function Raw(p: Parameter, supplied: seq<Argument>): Value {
    match Supplied(supplied, p.name)
    case Some(v) => v
    case None => p.default
  }

  function BindOne(d: Deployment, p: Parameter, supplied: seq<Argument>, g: Gathered): Gathered {
    var raw := Raw(p, supplied);
    if raw.Null? then
      Gathered(g.values[p.name := Null], g.failures + if p.required then [MissingParameter(p.name)] else [])
    else
      match Coerce(d.host, d.ontology.objectTypes, p.propType, raw)
      case Ok(v) => Gathered(g.values[p.name := v], g.failures)
      case Err => Gathered(g.values[p.name := Null], g.failures + [TypeError(ParameterPlace(p.name))])
  }

  function BindAll(d: Deployment, params: seq<Parameter>, supplied: seq<Argument>, g: Gathered): Gathered {
    if params == [] then g
    else BindOne(d, params[|params| - 1], supplied, BindAll(d, params[..|params| - 1], supplied, g))
  }

  function Bind(d: Deployment, req: Request): Gathered {
    var params := req.action.parameters;
    BindAll(d, params, req.supplied, Gathered(map[], Unknown(params, req.supplied)))
  }

  // ---- the key ---------------------------------------------------------------------------

  function SetExpr(sets: seq<Assignment>, property: string): Option<Node> {
    if sets == [] then None
    else if sets[0].property == property then Some(sets[0].expr)
    else SetExpr(sets[1..], property)
  }

  /** The expression that names the object: the effect's key, or what a create sets the key to. */
  function KeyExpr(action: Action, obj: ObjectType): Option<Node> {
    if action.key.Some? then action.key else SetExpr(action.sets, obj.primaryKey)
  }

  function EvalTo(d: Deployment, at: Place, t: Property, expr: Node, scope: Scope): (r: (Option<Value>, seq<Failure>))
    ensures r.0.None? <==> r.1 != []
  {
    match Eval(expr, scope)
    case Err => (None, [ExpressionError(at)])
    case Ok(v) =>
      match Coerce(d.host, d.ontology.objectTypes, t.propType, v)
      case Err => (None, [TypeError(at)])
      case Ok(out) => (Some(out), [])
  }

  function KeyOf(d: Deployment, req: Request, params: View, clock: Clock): (r: (Option<Value>, seq<Failure>))
    requires Runnable(d, req)
    ensures r.0.Some? ==> r.1 == []
  {
    var obj := Target(d, req);
    match KeyExpr(req.action, obj)
    case None => (None, [])
    case Some(expr) => EvalTo(d, KeyPlace, obj.Pk(), expr, Scope(params, None, None, clock(KeyPlace)))
  }

  // ---- 2. read ---------------------------------------------------------------------------

  /** Equality of two keys: numbers by value, everything else as it is. */
  predicate SameKey(a: Value, b: Value) {
    if a.Num? && b.Num? then a.n == b.n else a == b
  }

  predicate Keyed(row: Row, column: string, key: Value) {
    SameKey(Cell(row, column), key)
  }

  function Matching(rows: seq<Row>, column: string, key: Value): (r: seq<Row>)
    ensures forall row :: row in r <==> row in rows && Keyed(row, column, key)
  {
    if rows == [] then []
    else
      assert rows == [rows[0]] + rows[1..];
      (if Keyed(rows[0], column, key) then [rows[0]] else []) + Matching(rows[1..], column, key)
  }

  function Without(rows: seq<Row>, column: string, key: Value): (r: seq<Row>)
    ensures forall row :: row in r <==> row in rows && !Keyed(row, column, key)
  {
    if rows == [] then []
    else
      assert rows == [rows[0]] + rows[1..];
      (if Keyed(rows[0], column, key) then [] else [rows[0]]) + Without(rows[1..], column, key)
  }

  predicate Admitted(d: Deployment, obj: ObjectType, row: Row) {
    d.policies.Shows(obj.apiName, PropertiesOf(obj, row))
  }

  /** A row's properties, less those a mask withholds. */
  function Project(d: Deployment, obj: ObjectType, row: Row): View {
    map name | name in obj.properties && name !in d.policies.Masked(obj.apiName)
      :: Cell(row, obj.properties[name].column)
  }

  function Projected(d: Deployment, obj: ObjectType, row: Option<Row>): Option<View> {
    match row
    case Some(r) => Some(Project(d, obj, r))
    case None => None
  }

  // ---- 3. evaluate -----------------------------------------------------------------------

  function RuleScope(params: View, view: Option<View>, clock: Clock, at: Place): Scope {
    Scope(params, view, None, clock(at))
  }

  function RuleFailure(rules: seq<Rule>, k: nat, params: View, view: Option<View>, clock: Clock): seq<Failure>
    requires k < |rules|
  {
    match Eval(rules[k].expr, RuleScope(params, view, clock, RulePlace(k)))
    case Ok(Bool(true)) => []
    case Ok(Bool(false)) => [ValidationFailed(rules[k].message)]
    case _ => [ExpressionError(RulePlace(k))]
  }

  /** Every rule of the first `n`, not the first failing one. */
  function RuleFailures(rules: seq<Rule>, n: nat, params: View, view: Option<View>, clock: Clock): seq<Failure>
    requires n <= |rules|
  {
    if n == 0 then []
    else RuleFailures(rules, n - 1, params, view, clock) + RuleFailure(rules, n - 1, params, view, clock)
  }

  function EffectOne(d: Deployment, obj: ObjectType, a: Assignment, params: View, view: Option<View>, clock: Clock,
                     g: Gathered): Gathered
    requires a.property in obj.properties
  {
    var at, prop := EffectPlace(a.property), obj.properties[a.property];
    match EvalTo(d, at, prop, a.expr, RuleScope(params, view, clock, at))
    case (Some(v), _) =>
      if v.Null? && !prop.nullable then Gathered(g.values, g.failures + [TypeError(at)])
      else Gathered(g.values[a.property := v], g.failures)
    case (None, failures) => Gathered(g.values, g.failures + failures)
  }

  function EffectValues(d: Deployment, obj: ObjectType, sets: seq<Assignment>, params: View, view: Option<View>,
                        clock: Clock, g: Gathered): Gathered
    requires forall a | a in sets :: a.property in obj.properties
  {
    if sets == [] then g
    else
      EffectOne(d, obj, sets[|sets| - 1], params, view, clock,
                EffectValues(d, obj, sets[..|sets| - 1], params, view, clock, g))
  }

  /** What the run reports the object to be afterwards. */
  function After(d: Deployment, obj: ObjectType, op: Operation, before: Option<View>, values: View, key: Value)
    : Option<View>
  {
    if op.Delete? then None
    else
      var base := if before.Some? then before.value else Project(d, obj, map[]);
      Some((base + values)[obj.primaryKey := key])
  }

  // ---- 4. write --------------------------------------------------------------------------

  /** Property-named values over the row that was read, on physical columns. */
  function Columns(obj: ObjectType, row: Row, values: View): Row
    requires obj.Valid()
  {
    row + map name | name in values && name in obj.properties :: obj.properties[name].column := values[name]
  }

  /** One verb on one row. */
  datatype RowWrite = Insert(row: Row) | Replace(key: Value, row: Row) | Remove(key: Value)

  function WriteOf(op: Operation, obj: ObjectType, key: Value, row: Option<Row>, values: View): RowWrite
    requires obj.Valid()
  {
    match op
    case Create => Insert(Columns(obj, map[], values))
    case Modify => Replace(key, Columns(obj, if row.Some? then row.value else map[], values))
    case Delete => Remove(key)
  }

  /** The verb, as one transaction on the table's rows. */
  function Perform(w: RowWrite, column: string, rows: seq<Row>): seq<Row> {
    match w
    case Insert(row) => rows + [row]
    case Replace(key, row) => Without(rows, column, key) + [row]
    case Remove(key) => Without(rows, column, key)
  }

  // ---- the whole attempt -----------------------------------------------------------------

  datatype Addressing = Unaddressed(failures: seq<Failure>) | Addressed(params: View, key: Value)

  /** Bind the arguments and name the object. */
  function Address(d: Deployment, req: Request, clock: Clock): Addressing
    requires Runnable(d, req)
  {
    var bound := Bind(d, req);
    if bound.failures != [] then Unaddressed(bound.failures)
    else
      match KeyOf(d, req, bound.values, clock)
      case (Some(key), _) => Addressed(bound.values, key)
      case (None, failures) => Unaddressed(failures)
  }

  datatype Judgement =
    | Refuse(failures: seq<Failure>, before: Option<View>)
    | Plan(before: Option<View>, after: Option<View>, write: RowWrite)

  /** What the rows a run reads hold under its key, as far as its deployment lets it act on them. */
  function ReadRow(d: Deployment, req: Request, key: Value, rows: seq<Row>): Option<Row>
    requires Runnable(d, req)
  {
    var obj := Target(d, req);
    var found := Matching(rows, obj.Pk().column, key);
    if |found| == 1 && (req.action.operation.Create? || Admitted(d, obj, found[0])) then Some(found[0]) else None
  }

  /** The decision on the rows an addressed attempt reads. */
  function Judge(d: Deployment, req: Request, clock: Clock, params: View, key: Value, rows: seq<Row>): Judgement
    requires Runnable(d, req)
  {
    var action, obj := req.action, Target(d, req);
    var found := Matching(rows, obj.Pk().column, key);
    var row := ReadRow(d, req, key, rows);
    var before := Projected(d, obj, row);
    if |found| > 1 then Refuse([AmbiguousKey(|found|)], None)
    else if action.operation.Create? && row.Some? then Refuse([ObjectExists], before)
    else if !action.operation.Create? && row.None? then Refuse([ObjectNotFound], None)
    else
      var rules := RuleFailures(action.validation, |action.validation|, params, before, clock);
      var effects := EffectValues(d, obj, action.sets, params, before, clock, Gathered(map[], rules));
      if effects.failures != [] then Refuse(effects.failures, before)
      else Plan(before, After(d, obj, action.operation, before, effects.values, key),
                WriteOf(action.operation, obj, key, row, effects.values))
  }

  /** The whole action in one step on one version of the table: the rows it leaves, if it writes. */
  function Atomic(d: Deployment, req: Request, clock: Clock, rows: seq<Row>): Option<seq<Row>>
    requires Runnable(d, req)
  {
    match Address(d, req, clock)
    case Unaddressed(_) => None
    case Addressed(params, key) =>
      match Judge(d, req, clock, params, key, rows)
      case Refuse(_, _) => None
      case Plan(_, _, write) => Some(Perform(write, Target(d, req).Pk().column, rows))
  }
}
