/** What one action does to one version of its table: exactly one row is added, replaced or removed, the
    rules held of it, and nothing the effect does not set is touched. */
module Atomicity {
  import opened Wrappers
  import opened Values
  import opened ExprAst
  import opened Types
  import opened Model
  import opened Evaluate
  import opened Governance
  import opened Coercion
  import opened Attempt

  // ---- rules and effects -----------------------------------------------------------------

  ghost predicate RuleHolds(rules: seq<Rule>, k: nat, params: View, view: Option<View>, clock: Clock)
    requires k < |rules|
  {
    Eval(rules[k].expr, RuleScope(params, view, clock, RulePlace(k))) == Ok(Bool(true))
  }

  lemma NoFailureIffHolds(rules: seq<Rule>, k: nat, params: View, view: Option<View>, clock: Clock)
    requires k < |rules|
    ensures RuleFailure(rules, k, params, view, clock) == [] <==> RuleHolds(rules, k, params, view, clock)
  {
    hide Eval;
  }

  /** The first `n` rules hold. */
  ghost predicate FirstHold(rules: seq<Rule>, n: nat, params: View, view: Option<View>, clock: Clock)
    requires n <= |rules|
  {
    forall k | 0 <= k < n :: RuleHolds(rules, k, params, view, clock)
  }

  lemma FirstHoldStep(rules: seq<Rule>, n: nat, params: View, view: Option<View>, clock: Clock)
    requires 0 < n <= |rules|
    ensures FirstHold(rules, n, params, view, clock) <==>
            FirstHold(rules, n - 1, params, view, clock) && RuleHolds(rules, n - 1, params, view, clock)
  {
    hide RuleHolds;
  }

  lemma {:induction false} NoFailureIffRulesHold(rules: seq<Rule>, n: nat, params: View, view: Option<View>,
                                                 clock: Clock)
    requires n <= |rules|
    ensures RuleFailures(rules, n, params, view, clock) == [] <==> FirstHold(rules, n, params, view, clock)
  {
    hide RuleFailure, RuleHolds, RuleFailures, FirstHold;
    if n == 0 {
      NoRules(rules, params, view, clock);
    } else {
      NoFailureIffRulesHold(rules, n - 1, params, view, clock);
      NoFailureIffHolds(rules, n - 1, params, view, clock);
      FailuresJoin(rules, n, params, view, clock);
      FirstHoldStep(rules, n, params, view, clock);
    }
  }

  lemma NoRules(rules: seq<Rule>, params: View, view: Option<View>, clock: Clock)
    ensures RuleFailures(rules, 0, params, view, clock) == [] && FirstHold(rules, 0, params, view, clock)
  {
  }

  lemma FailuresJoin(rules: seq<Rule>, n: nat, params: View, view: Option<View>, clock: Clock)
    requires 0 < n <= |rules|
    ensures RuleFailures(rules, n, params, view, clock) == [] <==>
      && RuleFailures(rules, n - 1, params, view, clock) == []
      && RuleFailure(rules, n - 1, params, view, clock) == []
  {
    hide RuleFailure;
  }

  /** The value an effect assigns: evaluated, coerced, and null only where the property may be. */
  ghost predicate Assigns(d: Deployment, obj: ObjectType, a: Assignment, params: View, view: Option<View>,
                          clock: Clock, v: Value)
    requires a.property in obj.properties
  {
    var at, prop := EffectPlace(a.property), obj.properties[a.property];
    EvalTo(d, at, prop, a.expr, RuleScope(params, view, clock, at)).0 == Some(v) && (v.Null? ==> prop.nullable)
  }

  lemma EffectOneAssigns(d: Deployment, obj: ObjectType, a: Assignment, params: View, view: Option<View>,
                         clock: Clock, g: Gathered)
    requires a.property in obj.properties
    requires EffectOne(d, obj, a, params, view, clock, g).failures == []
    ensures g.failures == []
    ensures var values := EffectOne(d, obj, a, params, view, clock, g).values;
      && a.property in values && values == g.values[a.property := values[a.property]]
      && Assigns(d, obj, a, params, view, clock, values[a.property])
  {
    hide Eval, Coerce;
  }

  lemma {:induction false} EffectsAssign(d: Deployment, obj: ObjectType, sets: seq<Assignment>, params: View,
                                         view: Option<View>, clock: Clock, g: Gathered)
    requires forall a | a in sets :: a.property in obj.properties
    requires forall i, j | 0 <= i < j < |sets| :: sets[i].property != sets[j].property
    requires EffectValues(d, obj, sets, params, view, clock, g).failures == []
    ensures g.failures == []
    ensures var values := EffectValues(d, obj, sets, params, view, clock, g).values;
      && values.Keys == g.values.Keys + SetNames(sets)
      && forall a | a in sets :: a.property in values && Assigns(d, obj, a, params, view, clock, values[a.property])
  {
    hide EvalTo, Assigns, EffectOne, SetNames;
    if sets == [] {
      assert SetNames(sets) == {} by { NoNames(); }
    } else {
      var front, last := sets[..|sets| - 1], sets[|sets| - 1];
      var before := EffectValues(d, obj, front, params, view, clock, g);
      EffectOneAssigns(d, obj, last, params, view, clock, before);
      EffectsAssign(d, obj, front, params, view, clock, g);
      LastIsNew(sets);
      SetNamesSnoc(front, last);
      var values := EffectOne(d, obj, last, params, view, clock, before).values;
      forall a | a in sets
        ensures a.property in values && Assigns(d, obj, a, params, view, clock, values[a.property])
      {
        if a in front {
          assert values[a.property] == before.values[a.property];
        }
      }
    }
  }

  lemma NoNames()
    ensures SetNames([]) == {}
  {
  }

  lemma LastIsNew(sets: seq<Assignment>)
    requires sets != []
    requires forall i, j | 0 <= i < j < |sets| :: sets[i].property != sets[j].property
    ensures var front, last := sets[..|sets| - 1], sets[|sets| - 1];
      && sets == front + [last]
      && (forall a | a in sets :: a in front || a == last)
      && (forall a | a in front :: a in sets && a.property != last.property)
  {
  }

  lemma SetNamesSnoc(front: seq<Assignment>, last: Assignment)
    ensures SetNames(front + [last]) == SetNames(front) + {last.property}
  {
    var sets := front + [last];
    forall name | name in SetNames(front) + {last.property}
      ensures name in SetNames(sets)
    {
      if name in SetNames(front) {
        var k :| 0 <= k < |front| && front[k].property == name;
        assert sets[k].property == name;
      } else {
        assert sets[|front|].property == name;
      }
    }
  }

  // ---- the written row -------------------------------------------------------------------

  function SetColumns(obj: ObjectType, sets: seq<Assignment>): set<string>
    requires forall a | a in sets :: a.property in obj.properties
  {
    set a | a in sets :: obj.properties[a.property].column
  }

  /** A row that holds what the effect assigns, and `old` everywhere else: mapped or not. */
  ghost predicate WrittenOver(d: Deployment, req: Request, params: View, view: Option<View>, clock: Clock,
                              old': Row, new': Row)
    requires Runnable(d, req)
  {
    var obj, sets := Target(d, req), req.action.sets;
    && (forall a | a in sets ::
          Assigns(d, obj, a, params, view, clock, Cell(new', obj.properties[a.property].column)))
    && (forall column :: column !in SetColumns(obj, sets) ==> Cell(new', column) == Cell(old', column))
  }

  lemma ColumnsAt(obj: ObjectType, row: Row, values: View, name: string)
    requires obj.Valid() && name in obj.properties
    ensures Cell(Columns(obj, row, values), obj.properties[name].column)
         == if name in values then values[name] else Cell(row, obj.properties[name].column)
  {
  }

  lemma ColumnsElsewhere(obj: ObjectType, row: Row, values: View, column: string)
    requires obj.Valid()
    requires forall name | name in values && name in obj.properties :: obj.properties[name].column != column
    ensures Cell(Columns(obj, row, values), column) == Cell(row, column)
  {
  }

  lemma EffectWritesOver(d: Deployment, req: Request, params: View, view: Option<View>, clock: Clock, row: Row)
    requires Runnable(d, req)
    requires EffectValues(d, Target(d, req), req.action.sets, params, view, clock, Gathered(map[], [])).failures == []
    ensures var none := Gathered(map[], []);
            var values := EffectValues(d, Target(d, req), req.action.sets, params, view, clock, none).values;
            WrittenOver(d, req, params, view, clock, row, Columns(Target(d, req), row, values))
  {
    var obj, sets := Target(d, req), req.action.sets;
    EffectsAssign(d, obj, sets, params, view, clock, Gathered(map[], []));
    var values := EffectValues(d, obj, sets, params, view, clock, Gathered(map[], [])).values;
    var out := Columns(obj, row, values);
    forall a | a in sets
      ensures Assigns(d, obj, a, params, view, clock, Cell(out, obj.properties[a.property].column))
    {
      ColumnsAt(obj, row, values, a.property);
    }
    forall column | column !in SetColumns(obj, sets)
      ensures Cell(out, column) == Cell(row, column)
    {
      forall name | name in values && name in obj.properties
        ensures obj.properties[name].column != column
      {
        var k :| 0 <= k < |sets| && sets[k].property == name;
        assert sets[k] in sets;
      }
      ColumnsElsewhere(obj, row, values, column);
    }
  }

  // ---- one row of the table --------------------------------------------------------------

  lemma {:induction false} RowsPartition(rows: seq<Row>, column: string, key: Value)
    ensures multiset(rows) == multiset(Matching(rows, column, key)) + multiset(Without(rows, column, key))
  {
    if rows != [] {
      RowsPartition(rows[1..], column, key);
      assert multiset(rows) == multiset{rows[0]} + multiset(rows[1..]) by {
        assert rows == [rows[0]] + rows[1..];
      }
    }
  }

  ghost predicate RulesHold(req: Request, params: View, view: Option<View>, clock: Clock) {
    FirstHold(req.action.validation, |req.action.validation|, params, view, clock)
  }

  /** A row was appended, under a key no row had. */
  ghost predicate Created(d: Deployment, req: Request, clock: Clock, params: View, key: Value,
                          rows: seq<Row>, rows': seq<Row>)
    requires Runnable(d, req)
  {
    && Matching(rows, Target(d, req).Pk().column, key) == []
    && RulesHold(req, params, None, clock)
    && |rows'| == |rows| + 1 && rows'[..|rows|] == rows
    && WrittenOver(d, req, params, None, clock, map[], rows'[|rows|])
  }

  /** `old` is the only row under its key, and one the caller is shown. */
  ghost predicate Addresses(d: Deployment, req: Request, key: Value, rows: seq<Row>, old': Row)
    requires Runnable(d, req)
  {
    Matching(rows, Target(d, req).Pk().column, key) == [old'] && Admitted(d, Target(d, req), old')
  }

  /** The one row under the key was written over. */
  ghost predicate Replaced(d: Deployment, req: Request, clock: Clock, params: View, key: Value,
                           rows: seq<Row>, rows': seq<Row>, old': Row, new': Row)
    requires Runnable(d, req)
  {
    var view := Some(Project(d, Target(d, req), old'));
    && Addresses(d, req, key, rows, old')
    && RulesHold(req, params, view, clock)
    && multiset(rows) + multiset{new'} == multiset(rows') + multiset{old'}
    && WrittenOver(d, req, params, view, clock, old', new')
  }

  /** The one row under the key was removed. */
  ghost predicate Removed(d: Deployment, req: Request, clock: Clock, params: View, key: Value,
                          rows: seq<Row>, rows': seq<Row>, old': Row)
    requires Runnable(d, req)
  {
    && Addresses(d, req, key, rows, old')
    && RulesHold(req, params, Some(Project(d, Target(d, req), old')), clock)
    && multiset(rows) == multiset(rows') + multiset{old'}
  }

  /** What an applied action says about the rows before and after it: the rules held of the row it read,
      the deployment showed that row, it was the only one under its key, and it alone changed. */
  ghost predicate ChangesOneRow(d: Deployment, req: Request, clock: Clock, params: View, key: Value,
                                rows: seq<Row>, rows': seq<Row>)
    requires Runnable(d, req)
  {
    match req.action.operation
    case Create => Created(d, req, clock, params, key, rows, rows')
    case Modify => exists old', new' :: Replaced(d, req, clock, params, key, rows, rows', old', new')
    case Delete => exists old' :: Removed(d, req, clock, params, key, rows, rows', old')
  }

  lemma PlanHasNoFailures(d: Deployment, req: Request, clock: Clock, params: View, key: Value, rows: seq<Row>)
    requires Runnable(d, req) && Judge(d, req, clock, params, key, rows).Plan?
    ensures var obj, action := Target(d, req), req.action;
      var view := Projected(d, obj, ReadRow(d, req, key, rows));
      && RuleFailures(action.validation, |action.validation|, params, view, clock) == []
      && EffectValues(d, obj, action.sets, params, view, clock, Gathered(map[], [])).failures == []
  {
    var obj, action := Target(d, req), req.action;
    var view := Projected(d, obj, ReadRow(d, req, key, rows));
    var rules := RuleFailures(action.validation, |action.validation|, params, view, clock);
    EffectsAssign(d, obj, action.sets, params, view, clock, Gathered(map[], rules));
  }

  lemma PlanIsTheEffect(d: Deployment, req: Request, clock: Clock, params: View, key: Value, rows: seq<Row>)
    requires Runnable(d, req) && Judge(d, req, clock, params, key, rows).Plan?
    ensures var obj, op, row := Target(d, req), req.action.operation, ReadRow(d, req, key, rows);
      var view := Projected(d, obj, row);
      var plan := Judge(d, req, clock, params, key, rows);
      && (op.Create? <==> row.None?)
      && RulesHold(req, params, view, clock)
      && (op.Create? ==> plan.write.Insert? && WrittenOver(d, req, params, view, clock, map[], plan.write.row))
      && (op.Modify? ==> plan.write.Replace? && plan.write.key == key &&
                         WrittenOver(d, req, params, view, clock, row.value, plan.write.row))
      && (op.Delete? ==> plan.write == Remove(key))
  {
    var obj, action := Target(d, req), req.action;
    var row := ReadRow(d, req, key, rows);
    var view := Projected(d, obj, row);
    PlanHasNoFailures(d, req, clock, params, key, rows);
    NoFailureIffRulesHold(action.validation, |action.validation|, params, view, clock);
    EffectWritesOver(d, req, params, view, clock, if row.Some? then row.value else map[]);
  }

  lemma PlanReads(d: Deployment, req: Request, clock: Clock, params: View, key: Value, rows: seq<Row>)
    requires Runnable(d, req) && Judge(d, req, clock, params, key, rows).Plan?
    ensures var obj, row := Target(d, req), ReadRow(d, req, key, rows);
      && Matching(rows, obj.Pk().column, key) == (if row.Some? then [row.value] else [])
      && (!req.action.operation.Create? ==> row.Some? && Admitted(d, obj, row.value))
      && Projected(d, obj, row) == if row.Some? then Some(Project(d, obj, row.value)) else None
  {
    hide EffectValues, RuleFailures, After, WriteOf, Admitted;
  }

  lemma PlanReplaces(d: Deployment, req: Request, clock: Clock, params: View, key: Value, rows: seq<Row>,
                     old': Row, new': Row)
    requires Runnable(d, req) && Addresses(d, req, key, rows, old')
    requires RulesHold(req, params, Some(Project(d, Target(d, req), old')), clock)
    ensures var rows' := Without(rows, Target(d, req).Pk().column, key);
      Removed(d, req, clock, params, key, rows, rows', old')
    ensures WrittenOver(d, req, params, Some(Project(d, Target(d, req), old')), clock, old', new') ==>
      Replaced(d, req, clock, params, key, rows, Without(rows, Target(d, req).Pk().column, key) + [new'], old', new')
  {
    hide RulesHold, WrittenOver, Project, Admitted, Matching, Without;
    RowsPartition(rows, Target(d, req).Pk().column, key);
  }

  lemma PlanChangesOneRow(d: Deployment, req: Request, clock: Clock, params: View, key: Value, rows: seq<Row>)
    requires Runnable(d, req) && Judge(d, req, clock, params, key, rows).Plan?
    ensures ChangesOneRow(d, req, clock, params, key, rows,
                          Perform(Judge(d, req, clock, params, key, rows).write, Target(d, req).Pk().column, rows))
  {
    hide Judge, ReadRow, RulesHold, WrittenOver, Project, Admitted, Matching, Without, Replaced, Removed;
    var column := Target(d, req).Pk().column;
    var write := Judge(d, req, clock, params, key, rows).write;
    var row := ReadRow(d, req, key, rows);
    PlanIsTheEffect(d, req, clock, params, key, rows);
    PlanReads(d, req, clock, params, key, rows);
    match req.action.operation
    case Create =>
      assert (rows + [write.row])[..|rows|] == rows;
    case Modify =>
      PlanReplaces(d, req, clock, params, key, rows, row.value, write.row);
    case Delete =>
      PlanReplaces(d, req, clock, params, key, rows, row.value, row.value);
  }

  /** The action taken as one step on one version of the table. */
  lemma AtomicChangesOneRow(d: Deployment, req: Request, clock: Clock, rows: seq<Row>)
    requires Runnable(d, req) && Atomic(d, req, clock, rows).Some?
    ensures Address(d, req, clock).Addressed?
    ensures ChangesOneRow(d, req, clock, Address(d, req, clock).params, Address(d, req, clock).key,
                          rows, Atomic(d, req, clock, rows).value)
  {
    PlanChangesOneRow(d, req, clock, Address(d, req, clock).params, Address(d, req, clock).key, rows);
  }

  // ---- exactly when an attempt writes ----------------------------------------------------

  ghost predicate CanAssign(d: Deployment, obj: ObjectType, a: Assignment, params: View, view: Option<View>,
                            clock: Clock)
    requires a.property in obj.properties
  {
    exists v :: Assigns(d, obj, a, params, view, clock, v)
  }

  lemma EffectOneFails(d: Deployment, obj: ObjectType, a: Assignment, params: View, view: Option<View>,
                       clock: Clock, g: Gathered)
    requires a.property in obj.properties
    ensures EffectOne(d, obj, a, params, view, clock, g).failures == [] <==>
            g.failures == [] && CanAssign(d, obj, a, params, view, clock)
  {
    hide Eval, Coerce;
    if EffectOne(d, obj, a, params, view, clock, g).failures == [] {
      EffectOneAssigns(d, obj, a, params, view, clock, g);
    }
  }

  lemma {:induction false} EffectsFail(d: Deployment, obj: ObjectType, sets: seq<Assignment>, params: View,
                                       view: Option<View>, clock: Clock, g: Gathered)
    requires forall a | a in sets :: a.property in obj.properties
    ensures EffectValues(d, obj, sets, params, view, clock, g).failures == [] <==>
            g.failures == [] && forall a | a in sets :: CanAssign(d, obj, a, params, view, clock)
  {
    hide EffectOne, CanAssign;
    if sets != [] {
      var front, last := sets[..|sets| - 1], sets[|sets| - 1];
      assert sets == front + [last];
      EffectsFail(d, obj, front, params, view, clock, g);
      EffectOneFails(d, obj, last, params, view, clock, EffectValues(d, obj, front, params, view, clock, g));
    }
  }

  /** The object is one the attempt may act on: absent for a create, otherwise the only row under the key
      and one the caller is shown. */
  ghost predicate Actable(d: Deployment, req: Request, key: Value, rows: seq<Row>)
    requires Runnable(d, req)
  {
    var found := Matching(rows, Target(d, req).Pk().column, key);
    if req.action.operation.Create? then found == []
    else |found| == 1 && Admitted(d, Target(d, req), found[0])
  }

  /** An addressed attempt writes exactly when its object may be acted on, every rule holds and every effect
      assigns a value; and where the object may not be acted on, the refusal says which way. */
  lemma PlansExactly(d: Deployment, req: Request, clock: Clock, params: View, key: Value, rows: seq<Row>)
    requires Runnable(d, req)
    ensures var obj, j := Target(d, req), Judge(d, req, clock, params, key, rows);
      var view, found := Projected(d, obj, ReadRow(d, req, key, rows)), Matching(rows, obj.Pk().column, key);
      && (j.Plan? <==> Actable(d, req, key, rows) && RulesHold(req, params, view, clock) &&
                       forall a | a in req.action.sets :: CanAssign(d, obj, a, params, view, clock))
      && (!Actable(d, req, key, rows) ==>
            j.Refuse? && j.failures == [if |found| > 1 then AmbiguousKey(|found|)
                                        else if req.action.operation.Create? then ObjectExists else ObjectNotFound])
  {
    hide Matching, Admitted, RuleFailures, EffectValues, CanAssign, Project;
    var obj, action := Target(d, req), req.action;
    var view := Projected(d, obj, ReadRow(d, req, key, rows));
    var rules := RuleFailures(action.validation, |action.validation|, params, view, clock);
    NoFailureIffRulesHold(action.validation, |action.validation|, params, view, clock);
    EffectsFail(d, obj, action.sets, params, view, clock, Gathered(map[], rules));
  }

  // ---- exactly when a call binds ---------------------------------------------------------

  /** What a parameter is given, or takes by default, reads as its type; and it is not a required null. */
  ghost predicate Binds(d: Deployment, p: Parameter, supplied: seq<Argument>) {
    var raw := Raw(p, supplied);
    if raw.Null? then !p.required else Coerce(d.host, d.ontology.objectTypes, p.propType, raw).Ok?
  }

  lemma {:induction false} UnknownNone(params: seq<Parameter>, supplied: seq<Argument>)
    ensures Unknown(params, supplied) == [] <==> forall a | a in supplied :: Declares(params, a.name)
  {
    if supplied != [] {
      var front, last := supplied[..|supplied| - 1], supplied[|supplied| - 1];
      assert supplied == front + [last];
      UnknownNone(params, front);
    }
  }

  lemma BindOneFails(d: Deployment, p: Parameter, supplied: seq<Argument>, g: Gathered)
    ensures var out := BindOne(d, p, supplied, g);
      && (out.failures == [] <==> g.failures == [] && Binds(d, p, supplied))
      && out.values.Keys == g.values.Keys + {p.name}
      && (forall name | name in g.values && name != p.name :: out.values[name] == g.values[name])
      && (Binds(d, p, supplied) ==>
            Ok(out.values[p.name]) == Coerce(d.host, d.ontology.objectTypes, p.propType, Raw(p, supplied)))
  {
    hide Raw;
    var raw := Raw(p, supplied);
    if raw.Null? {
      assert Coerce(d.host, d.ontology.objectTypes, p.propType, raw) == Ok(Null);
    }
  }

  lemma {:induction false} BindAllFails(d: Deployment, params: seq<Parameter>, supplied: seq<Argument>, g: Gathered)
    requires forall i, j | 0 <= i < j < |params| :: params[i].name != params[j].name
    ensures var out := BindAll(d, params, supplied, g);
      && (out.failures == [] <==> g.failures == [] && forall p | p in params :: Binds(d, p, supplied))
      && (forall p | p in params :: p.name in out.values)
      && (forall p | p in params && Binds(d, p, supplied) ::
            Ok(out.values[p.name]) == Coerce(d.host, d.ontology.objectTypes, p.propType, Raw(p, supplied)))
  {
    hide BindOne, Binds, Coerce, Raw;
    if params != [] {
      var front, last := params[..|params| - 1], params[|params| - 1];
      assert params == front + [last];
      BindAllFails(d, front, supplied, g);
      BindOneFails(d, last, supplied, BindAll(d, front, supplied, g));
      forall p | p in front
        ensures p.name != last.name
      {
        var i :| 0 <= i < |front| && front[i] == p;
        assert params[i] == p && params[|front|] == last;
      }
    }
  }

  /** A call binds exactly when it names only declared parameters and each of them binds; each is then bound
      to what it was given, or its default, read as its declared type. */
  lemma BindsExactly(d: Deployment, req: Request)
    requires forall i, j | 0 <= i < j < |req.action.parameters| ::
      req.action.parameters[i].name != req.action.parameters[j].name
    ensures var params, bound := req.action.parameters, Bind(d, req);
      && (bound.failures == [] <==> (forall a | a in req.supplied :: Declares(params, a.name)) &&
                                    (forall p | p in params :: Binds(d, p, req.supplied)))
      && (forall p | p in params :: p.name in bound.values)
      && (forall p | p in params && Binds(d, p, req.supplied) ::
            Ok(bound.values[p.name]) == Coerce(d.host, d.ontology.objectTypes, p.propType, Raw(p, req.supplied)))
  {
    hide Binds, Coerce, Raw, Unknown, BindAll;
    UnknownNone(req.action.parameters, req.supplied);
    BindAllFails(d, req.action.parameters, req.supplied, Gathered(map[], Unknown(req.action.parameters, req.supplied)));
  }

  // ---- what the run reports --------------------------------------------------------------

  /** The row a plan leaves under its key, if it leaves one. */
  function Written(write: RowWrite): Option<Row> {
    match write
    case Insert(row) => Some(row)
    case Replace(_, row) => Some(row)
    case Remove(_) => None
  }

  /** The reported `after` is the written row as the caller sees it exactly when the row is written under
      the key that was addressed: an effect that sets the key of an object it modifies writes one key and
      reports the other. */
  lemma AfterReportsTheRow(d: Deployment, req: Request, clock: Clock, params: View, key: Value, rows: seq<Row>)
    requires Runnable(d, req) && Judge(d, req, clock, params, key, rows).Plan?
    requires var obj := Target(d, req);
             obj.primaryKey !in d.policies.Masked(obj.apiName) &&
             forall a | a in req.action.sets :: a.property !in d.policies.Masked(obj.apiName)
    ensures var plan, obj := Judge(d, req, clock, params, key, rows), Target(d, req);
      && (plan.after.None? <==> req.action.operation.Delete?)
      && (plan.after.None? <==> Written(plan.write).None?)
      && (plan.after.Some? ==>
            var row := Written(plan.write).value;
            plan.after.value == Project(d, obj, row) <==> Cell(row, obj.Pk().column) == key)
  {
    hide EffectValues, RuleFailures, Project, Admitted, Columns;
    var obj, action := Target(d, req), req.action;
    if !action.operation.Delete? {
      var plan := Judge(d, req, clock, params, key, rows);
      var read := ReadRow(d, req, key, rows);
      var view := Projected(d, obj, read);
      PlanHasNoFailures(d, req, clock, params, key, rows);
      EffectsAssign(d, obj, action.sets, params, view, clock, Gathered(map[], []));
      var values := EffectValues(d, obj, action.sets, params, view, clock, Gathered(map[], [])).values;
      ProjectionOverlays(d, obj, if read.Some? then read.value else map[], values, key);
    }
  }

  lemma ProjectionOverlays(d: Deployment, obj: ObjectType, row: Row, values: View, key: Value)
    requires obj.Valid() && obj.primaryKey !in d.policies.Masked(obj.apiName)
    requires forall name | name in values :: name in obj.properties && name !in d.policies.Masked(obj.apiName)
    ensures var out := Columns(obj, row, values);
      (Project(d, obj, row) + values)[obj.primaryKey := key] == Project(d, obj, out)
      <==> Cell(out, obj.Pk().column) == key
  {
    hide Project, Columns, ObjectType.Valid;
    var out := Project(d, obj, Columns(obj, row, values));
    var reported := (Project(d, obj, row) + values)[obj.primaryKey := key];
    OverlayAgrees(d, obj, row, values, key);
    if out[obj.primaryKey] == key {
      assert reported == out;
    } else {
      assert reported[obj.primaryKey] != out[obj.primaryKey];
    }
  }

  lemma OverlayAgrees(d: Deployment, obj: ObjectType, row: Row, values: View, key: Value)
    requires obj.Valid() && obj.primaryKey !in d.policies.Masked(obj.apiName)
    requires forall name | name in values :: name in obj.properties && name !in d.policies.Masked(obj.apiName)
    ensures var out := Project(d, obj, Columns(obj, row, values));
      var reported := (Project(d, obj, row) + values)[obj.primaryKey := key];
      && reported.Keys == out.Keys && obj.primaryKey in out
      && out[obj.primaryKey] == Cell(Columns(obj, row, values), obj.Pk().column)
      && forall name | name in out && name != obj.primaryKey :: reported[name] == out[name]
  {
    var out := Project(d, obj, Columns(obj, row, values));
    var base := Project(d, obj, row);
    assert (base + values)[obj.primaryKey := key].Keys == out.Keys;
    forall name | name in out
      ensures (base + values)[name] == out[name]
    {
      ColumnsAt(obj, row, values, name);
    }
  }

  // ---- keys stay unique ------------------------------------------------------------------

  ghost predicate KeysUnique(rows: seq<Row>, column: string) {
    forall i, j | 0 <= i < j < |rows| :: !SameKey(Cell(rows[i], column), Cell(rows[j], column))
  }

  lemma {:induction false} WithoutKeepsUnique(rows: seq<Row>, column: string, key: Value)
    requires KeysUnique(rows, column)
    ensures KeysUnique(Without(rows, column, key), column)
  {
    if rows != [] {
      WithoutKeepsUnique(rows[1..], column, key);
      var rest := Without(rows[1..], column, key);
      forall row | row in rest
        ensures !SameKey(Cell(rows[0], column), Cell(row, column))
      {
        var j :| 0 <= j < |rows[1..]| && rows[1..][j] == row;
        assert row == rows[j + 1];
      }
    }
  }

  lemma AppendKeepsUnique(rows: seq<Row>, row: Row, column: string)
    requires KeysUnique(rows, column)
    ensures KeysUnique(rows + [row], column) <==> forall r | r in rows :: !Keyed(r, column, Cell(row, column))
  {
    var out := rows + [row];
    if KeysUnique(out, column) {
      forall r | r in rows
        ensures !Keyed(r, column, Cell(row, column))
      {
        var i :| 0 <= i < |rows| && rows[i] == r;
        assert out[i] == r && out[|rows|] == row;
      }
    }
    if forall r | r in rows :: !Keyed(r, column, Cell(row, column)) {
      forall i, j | 0 <= i < j < |out|
        ensures !SameKey(Cell(out[i], column), Cell(out[j], column))
      {
        if j < |rows| {
          assert out[i] == rows[i] && out[j] == rows[j];
        } else {
          assert rows[i] in rows && out[i] == rows[i];
        }
      }
    }
  }

  /** Over unique keys, a write keeps them unique exactly when no row it leaves alone holds the key of
      the row it writes. */
  lemma WriteKeepsKeysUnique(w: RowWrite, column: string, rows: seq<Row>)
    requires KeysUnique(rows, column)
    ensures KeysUnique(Perform(w, column, rows), column) <==>
      match w
      case Insert(row) => forall r | r in rows :: !Keyed(r, column, Cell(row, column))
      case Replace(key, row) => forall r | r in rows && !Keyed(r, column, key) :: !Keyed(r, column, Cell(row, column))
      case Remove(_) => true
  {
    match w
    case Insert(row) => AppendKeepsUnique(rows, row, column);
    case Replace(key, row) =>
      WithoutKeepsUnique(rows, column, key);
      AppendKeepsUnique(Without(rows, column, key), row, column);
    case Remove(key) => WithoutKeepsUnique(rows, column, key);
  }

  /** No call of `now()` anywhere, so every evaluation sees the same thing. */
  predicate NowFree(node: Node) {
    match node
    case Call(name, args) => name != "now" && forall k | 0 <= k < |args| :: NowFree(args[k])
    case Unary(_, operand) => NowFree(operand)
    case Binary(_, left, right) => NowFree(left) && NowFree(right)
    case _ => true
  }

  lemma {:induction false} NowFreeIgnoresClock(node: Node, scope: Scope, now: int)
    requires NowFree(node)
    ensures Eval(node, scope.(now := now)) == Eval(node, scope)
    decreases node, 1
  {
    match node
    case Literal(_) =>
    case Ref(_) =>
    case Call(_, args) => NowFreeArgs(node, args, scope, now);
    case Unary(_, operand) => NowFreeIgnoresClock(operand, scope, now);
    case Binary(_, left, right) =>
      NowFreeIgnoresClock(left, scope, now);
      NowFreeIgnoresClock(right, scope, now);
  }

  lemma {:induction false} NowFreeArgs(call: Node, args: seq<Node>, scope: Scope, now: int)
    requires forall k | 0 <= k < |args| :: args[k] < call && NowFree(args[k])
    ensures EvalAll(args, scope.(now := now)) == EvalAll(args, scope)
    ensures EvalCoalesce(args, scope.(now := now)) == EvalCoalesce(args, scope)
    decreases call, 0, |args|
  {
    if args != [] {
      NowFreeIgnoresClock(args[0], scope, now);
      NowFreeArgs(call, args[1..], scope, now);
    }
  }

  /** What keeps an action's written key the addressed one: a create names its object by what it sets the
      key to, without `now()`; a modify does not set the key. */
  ghost predicate KeepsItsKey(d: Deployment, req: Request)
    requires Runnable(d, req)
  {
    var obj, sets := Target(d, req), req.action.sets;
    match req.action.operation
    case Create =>
      req.action.key.None? &&
      exists a :: a in sets && a.property == obj.primaryKey && NowFree(a.expr)
    case Modify => forall a | a in sets :: a.property != obj.primaryKey
    case Delete => true
  }

  lemma {:induction false} SetExprFinds(sets: seq<Assignment>, a: Assignment)
    requires a in sets
    requires forall i, j | 0 <= i < j < |sets| :: sets[i].property != sets[j].property
    ensures SetExpr(sets, a.property) == Some(a.expr)
  {
    var k :| 0 <= k < |sets| && sets[k] == a;
    if k > 0 {
      assert sets[0].property != sets[k].property;
      assert sets[1..][k - 1] == a;
      SetExprFinds(sets[1..], a);
    }
  }

  /** An expression without `now()` gives a create's key and its key property the same value. */
  lemma SameValueTwice(d: Deployment, obj: ObjectType, a: Assignment, params: View, clock: Clock, v: Value)
    requires obj.Valid() && a.property == obj.primaryKey && NowFree(a.expr)
    requires Assigns(d, obj, a, params, None, clock, v)
    ensures EvalTo(d, KeyPlace, obj.Pk(), a.expr, Scope(params, None, None, clock(KeyPlace))).0 == Some(v)
  {
    NowFreeIgnoresClock(a.expr, Scope(params, None, None, clock(KeyPlace)), clock(EffectPlace(a.property)));
  }

  lemma CreateWritesItsKey(d: Deployment, req: Request, clock: Clock, rows: seq<Row>)
    requires Runnable(d, req) && req.action.operation.Create? && KeepsItsKey(d, req)
    requires Address(d, req, clock).Addressed?
    requires Judge(d, req, clock, Address(d, req, clock).params, Address(d, req, clock).key, rows).Plan?
    ensures var plan := Judge(d, req, clock, Address(d, req, clock).params, Address(d, req, clock).key, rows);
      plan.write.Insert? && Cell(plan.write.row, Target(d, req).Pk().column) == Address(d, req, clock).key
  {
    var obj, sets := Target(d, req), req.action.sets;
    var params, key := Address(d, req, clock).params, Address(d, req, clock).key;
    var a :| a in sets && a.property == obj.primaryKey && NowFree(a.expr);
    SetExprFinds(sets, a);
    PlanIsTheEffect(d, req, clock, params, key, rows);
    var plan := Judge(d, req, clock, params, key, rows);
    SameValueTwice(d, obj, a, params, clock, Cell(plan.write.row, obj.Pk().column));
  }

  lemma ModifyKeepsItsKey(d: Deployment, req: Request, clock: Clock, params: View, key: Value, rows: seq<Row>)
    requires Runnable(d, req) && req.action.operation.Modify? && KeepsItsKey(d, req)
    requires Judge(d, req, clock, params, key, rows).Plan?
    ensures var plan := Judge(d, req, clock, params, key, rows);
      plan.write.Replace? && plan.write.key == key && Keyed(plan.write.row, Target(d, req).Pk().column, key)
  {
    var obj, sets := Target(d, req), req.action.sets;
    var row := ReadRow(d, req, key, rows);
    PlanIsTheEffect(d, req, clock, params, key, rows);
    assert row.value in Matching(rows, obj.Pk().column, key);
    assert obj.Pk().column !in SetColumns(obj, sets);
  }

  lemma SameKeyIsEquivalence(a: Value, b: Value, c: Value)
    ensures SameKey(a, a)
    ensures SameKey(a, b) ==> SameKey(b, a)
    ensures SameKey(a, b) && SameKey(b, c) ==> SameKey(a, c)
  {
  }

  /** An action that keeps its key takes a table with unique keys to one with unique keys. */
  lemma AtomicKeepsKeysUnique(d: Deployment, req: Request, clock: Clock, rows: seq<Row>)
    requires Runnable(d, req) && KeepsItsKey(d, req) && KeysUnique(rows, Target(d, req).Pk().column)
    requires Atomic(d, req, clock, rows).Some?
    ensures KeysUnique(Atomic(d, req, clock, rows).value, Target(d, req).Pk().column)
  {
    var obj := Target(d, req);
    var column := obj.Pk().column;
    var params, key := Address(d, req, clock).params, Address(d, req, clock).key;
    var plan := Judge(d, req, clock, params, key, rows);
    WriteKeepsKeysUnique(plan.write, column, rows);
    match req.action.operation
    case Create =>
      CreateWritesItsKey(d, req, clock, rows);
      assert Matching(rows, column, key) == [];
    case Modify =>
      ModifyKeepsItsKey(d, req, clock, params, key, rows);
      forall r | r in rows && !Keyed(r, column, key)
        ensures !Keyed(r, column, Cell(plan.write.row, column))
      {
        SameKeyIsEquivalence(Cell(r, column), Cell(plan.write.row, column), key);
      }
    case Delete =>
  }

  // ---- a modify that sets the key --------------------------------------------------------

  const THING := ObjectType("T", "id", "t", map["id" := Property("id", StringT, "id", false)], {}, None)
  const TO_B := Assignment("id", Literal(Str("b")))
  const RENAME := Request(Action("rename", "T", Modify, [], Some(Literal(Str("a"))), [TO_B], []), [], false, false)
  const ROW_A: Row := map["id" := Str("a")]
  const ROW_B: Row := map["id" := Str("b")]

  function Renaming(host: Host): Deployment {
    Deployment(Ontology(map["T" := THING], [], [RENAME.action]), NO_POLICIES, host)
  }

  lemma RenameRuns(host: Host)
    ensures Runnable(Renaming(host), RENAME)
  {
    assert forall a | a in RENAME.action.sets :: a == TO_B;
  }

  lemma RenameNames(host: Host, clock: Clock)
    requires Runnable(Renaming(host), RENAME)
    ensures Address(Renaming(host), RENAME, clock) == Addressed(map[], Str("a"))
  {
    assert Bind(Renaming(host), RENAME) == Gathered(map[], []);
    var scope := Scope(map[], None, None, clock(KeyPlace));
    assert Eval(Literal(Str("a")), scope) == Ok(Str("a"));
  }

  lemma RenameEffect(host: Host, clock: Clock, before: Option<View>)
    ensures EffectValues(Renaming(host), THING, [TO_B], map[], before, clock, Gathered(map[], []))
         == Gathered(map["id" := Str("b")], [])
  {
    assert [TO_B][..0] == [];
    assert Eval(Literal(Str("b")), RuleScope(map[], before, clock, EffectPlace("id"))) == Ok(Str("b"));
  }

  lemma RenameRows()
    ensures Matching([ROW_A, ROW_B], "id", Str("a")) == [ROW_A] && Without([ROW_A, ROW_B], "id", Str("a")) == [ROW_B]
    ensures KeysUnique([ROW_A, ROW_B], "id")
  {
    assert [ROW_A, ROW_B][1..] == [ROW_B] && [ROW_B][1..] == [];
    assert "a"[0] != "b"[0];
    assert !Keyed(ROW_B, "id", Str("a")) && Keyed(ROW_A, "id", Str("a"));
    assert Matching([], "id", Str("a")) == [] && Without([], "id", Str("a")) == [];
    assert Matching([ROW_B], "id", Str("a")) == [];
    assert Without([ROW_B], "id", Str("a")) == [ROW_B];
  }

  lemma RenamedRow()
    ensures THING.Valid() && Columns(THING, ROW_A, map["id" := Str("b")]) == ROW_B
  {
  }

  lemma NothingWithheld(d: Deployment, obj: ObjectType, row: Row)
    requires d.policies == NO_POLICIES
    ensures Admitted(d, obj, row)
  {
    assert obj.apiName !in NO_POLICIES.filters;
    assert d.policies.PredicateFor(obj.apiName).None?;
  }

  lemma RenamePlan(host: Host, clock: Clock)
    requires Runnable(Renaming(host), RENAME)
    ensures Judge(Renaming(host), RENAME, clock, map[], Str("a"), [ROW_A, ROW_B]).Plan?
    ensures Judge(Renaming(host), RENAME, clock, map[], Str("a"), [ROW_A, ROW_B]).write == Replace(Str("a"), ROW_B)
  {
    hide EffectValues, EffectOne, Matching, Without, After, Runnable, Admitted, Project, Columns;
    var d, before := Renaming(host), Some(Project(Renaming(host), THING, ROW_A));
    RenameRows();
    RenameEffect(host, clock, before);
    RenamedRow();
    NothingWithheld(d, THING, ROW_A);
    assert ReadRow(d, RENAME, Str("a"), [ROW_A, ROW_B]) == Some(ROW_A);
    assert RuleFailures([], 0, map[], before, clock) == [];
  }

  /** On rows `a` and `b`, it rewrites `a` as a second `b`. */
  lemma SettingTheKeyMayDoubleIt(host: Host, clock: Clock)
    ensures Runnable(Renaming(host), RENAME) && KeysUnique([ROW_A, ROW_B], "id")
    ensures Atomic(Renaming(host), RENAME, clock, [ROW_A, ROW_B]) == Some([ROW_B, ROW_B])
  {
    hide Judge, Address, Matching, Without;
    RenameRuns(host);
    RenameNames(host, clock);
    RenameRows();
    RenamePlan(host, clock);
    assert Perform(Replace(Str("a"), ROW_B), "id", [ROW_A, ROW_B]) == [ROW_B, ROW_B];
  }
}
