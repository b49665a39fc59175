/** What a mask withholds, no run tells. Take two lakes that differ only in columns of masked properties that
    no row predicate reads: whatever anyone does, every run ends the same way on both, previews, conflict
    details and log rows included. */
module NonInterference {
  import opened Wrappers
  import opened Values
  import opened ExprAst
  import opened Model
  import opened Evaluate
  import opened Predicate
  import opened Governance
  import opened Attempt
  import opened Protocol
  import opened Serializability

  // ---- an expression sees only what it names ---------------------------------------------

  /** Two objects with the same properties, equal on these. */
  predicate Agree(a: View, b: View, names: set<string>) {
    a.Keys == b.Keys && forall name | name in names && name in a :: a[name] == b[name]
  }

  lemma {:induction false} EvalLocal(node: Node, scope: Scope, a: View, b: View)
    requires Agree(a, b, ObjectReads(node))
    ensures Eval(node, scope.(objectRow := Some(a))) == Eval(node, scope.(objectRow := Some(b)))
    decreases node, 1
  {
    match node
    case Literal(_) =>
    case Ref(path) =>
      assert path in Refs(node);
    case Call(_, args) =>
      assert Refs(node) == RefsOfAll(args);
      EvalAllLocal(node, args, scope, a, b);
    case Unary(_, operand) =>
      assert Refs(node) == Refs(operand);
      EvalLocal(operand, scope, a, b);
    case Binary(_, left, right) =>
      ReadsSplit(node);
      EvalLocal(left, scope, a, b);
      EvalLocal(right, scope, a, b);
  }

  lemma ReadsSplit(node: Node)
    requires node.Binary?
    ensures ObjectReads(node.left) <= ObjectReads(node) && ObjectReads(node.right) <= ObjectReads(node)
  {
    assert Refs(node) == Refs(node.left) + Refs(node.right);
    assert forall path | path in Refs(node.left) || path in Refs(node.right) :: path in Refs(node);
  }

  function ReadsOfAll(nodes: seq<Node>): set<string> {
    set path | path in RefsOfAll(nodes) && IsObjectRef(path) :: path[1]
  }

  lemma {:induction false} EvalAllLocal(call: Node, nodes: seq<Node>, scope: Scope, a: View, b: View)
    requires forall k | 0 <= k < |nodes| :: nodes[k] < call
    requires Agree(a, b, ReadsOfAll(nodes))
    ensures EvalAll(nodes, scope.(objectRow := Some(a))) == EvalAll(nodes, scope.(objectRow := Some(b)))
    ensures EvalCoalesce(nodes, scope.(objectRow := Some(a))) == EvalCoalesce(nodes, scope.(objectRow := Some(b)))
    decreases call, 0, |nodes|
  {
    if nodes != [] {
      assert RefsOfAll(nodes) == Refs(nodes[0]) + RefsOfAll(nodes[1..]);
      assert forall path | path in Refs(nodes[0]) || path in RefsOfAll(nodes[1..]) :: path in RefsOfAll(nodes);
      assert ObjectReads(nodes[0]) <= ReadsOfAll(nodes) && ReadsOfAll(nodes[1..]) <= ReadsOfAll(nodes);
      EvalLocal(nodes[0], scope, a, b);
      EvalAllLocal(call, nodes[1..], scope, a, b);
    }
  }

  /** A predicate says the same of two objects equal on the properties it reads. */
  lemma {:induction false} TruthLocal(node: Node, a: View, b: View)
    requires Agree(a, b, ObjectReads(node))
    ensures RowTruth(node, a) == RowTruth(node, b)
  {
    if node.Unary? && node.uop.Not? {
      assert Refs(node) == Refs(node.operand);
      TruthLocal(node.operand, a, b);
    } else if node.Binary? && IsConnective(node.op) {
      ReadsSplit(node);
      TruthLocal(node.left, a, b);
      TruthLocal(node.right, a, b);
    } else {
      EvalLocal(node, Scope(map[], None, None, 0), a, b);
    }
  }

  // ---- rows that differ in secret only ---------------------------------------------------

  predicate Alike(a: Row, b: Row, hidden: set<string>) {
    forall column | column in a.Keys + b.Keys && column !in hidden :: Cell(a, column) == Cell(b, column)
  }

  predicate AlikeRows(a: seq<Row>, b: seq<Row>, hidden: set<string>) {
    |a| == |b| && forall k | 0 <= k < |a| :: Alike(a[k], b[k], hidden)
  }

  /** These columns are hidden from whoever this deployment serves: a property they hold is masked, and is
      neither the key nor read by the caller's row predicate. */
  ghost predicate HiddenFrom(d: Deployment, obj: ObjectType, hidden: set<string>) {
    forall name | name in obj.properties && obj.properties[name].column in hidden ::
      && name in d.policies.Masked(obj.apiName)
      && name != obj.primaryKey
      && (d.policies.PredicateFor(obj.apiName).Some? ==>
            name !in ObjectReads(d.policies.PredicateFor(obj.apiName).value))
  }

  /** They are secret from a run too: its action does not write them. */
  ghost predicate Secret(d: Deployment, req: Request, hidden: set<string>) {
    && Runnable(d, req) && HiddenFrom(d, Target(d, req), hidden)
    && forall name | name in Target(d, req).properties && Target(d, req).properties[name].column in hidden ::
         name !in SetNames(req.action.sets)
  }

  lemma CellAlike(a: Row, b: Row, hidden: set<string>, column: string)
    requires Alike(a, b, hidden) && column !in hidden
    ensures Cell(a, column) == Cell(b, column)
  {
  }

  lemma ProjectAlike(d: Deployment, obj: ObjectType, hidden: set<string>, a: Row, b: Row)
    requires HiddenFrom(d, obj, hidden) && Alike(a, b, hidden)
    ensures Project(d, obj, a) == Project(d, obj, b)
    ensures Admitted(d, obj, a) == Admitted(d, obj, b)
  {
    var p := d.policies.PredicateFor(obj.apiName);
    if p.Some? {
      TruthLocal(p.value, PropertiesOf(obj, a), PropertiesOf(obj, b));
    }
  }

  lemma {:induction false} MatchingAlike(a: seq<Row>, b: seq<Row>, hidden: set<string>, column: string, key: Value)
    requires AlikeRows(a, b, hidden) && column !in hidden
    ensures AlikeRows(Matching(a, column, key), Matching(b, column, key), hidden)
    ensures AlikeRows(Without(a, column, key), Without(b, column, key), hidden)
  {
    if a != [] {
      hide Alike, AlikeRows;
      assert AlikeRows(a[1..], b[1..], hidden) && Alike(a[0], b[0], hidden) by {
        TailAlike(a, b, hidden);
      }
      MatchingAlike(a[1..], b[1..], hidden, column, key);
      CellAlike(a[0], b[0], hidden, column);
      ConsAlike(a[0], b[0], Matching(a[1..], column, key), Matching(b[1..], column, key), hidden);
      ConsAlike(a[0], b[0], Without(a[1..], column, key), Without(b[1..], column, key), hidden);
      SkipNothing(Matching(a[1..], column, key), Without(a[1..], column, key));
      SkipNothing(Matching(b[1..], column, key), Without(b[1..], column, key));
    }
  }

  lemma SkipNothing(x: seq<Row>, y: seq<Row>)
    ensures [] + x == x && [] + y == y
  {
  }

  lemma TailAlike(a: seq<Row>, b: seq<Row>, hidden: set<string>)
    requires AlikeRows(a, b, hidden) && a != []
    ensures b != [] && Alike(a[0], b[0], hidden) && AlikeRows(a[1..], b[1..], hidden)
  {
  }

  lemma ConsAlike(r: Row, t: Row, a: seq<Row>, b: seq<Row>, hidden: set<string>)
    requires AlikeRows(a, b, hidden) && Alike(r, t, hidden)
    ensures AlikeRows([r] + a, [t] + b, hidden)
  {
  }

  ghost predicate AlikeWrites(v: RowWrite, w: RowWrite, hidden: set<string>) {
    match (v, w)
    case (Insert(a), Insert(b)) => Alike(a, b, hidden)
    case (Replace(k, a), Replace(l, b)) => k == l && Alike(a, b, hidden)
    case (Remove(k), Remove(l)) => k == l
    case _ => false
  }

  lemma PerformAlike(v: RowWrite, w: RowWrite, a: seq<Row>, b: seq<Row>, hidden: set<string>, column: string)
    requires AlikeWrites(v, w, hidden) && AlikeRows(a, b, hidden) && column !in hidden
    ensures AlikeRows(Perform(v, column, a), Perform(w, column, b), hidden)
  {
    match v
    case Insert(_) =>
    case Replace(key, _) => MatchingAlike(a, b, hidden, column, key);
    case Remove(key) => MatchingAlike(a, b, hidden, column, key);
  }

  lemma ColumnsAlike(obj: ObjectType, a: Row, b: Row, values: View, hidden: set<string>)
    requires obj.Valid() && Alike(a, b, hidden)
    ensures Alike(Columns(obj, a, values), Columns(obj, b, values), hidden)
  {
  }

  // ---- a run decides alike ---------------------------------------------------------------

  ghost predicate AlikeJudgements(i: Judgement, j: Judgement, hidden: set<string>) {
    match (i, j)
    case (Refuse(_, _), Refuse(_, _)) => i == j
    case (Plan(b, a, v), Plan(b', a', w)) => b == b' && a == a' && AlikeWrites(v, w, hidden)
    case _ => false
  }

  ghost predicate AlikeRow(a: Option<Row>, b: Option<Row>, hidden: set<string>) {
    a.Some? == b.Some? && (a.Some? ==> Alike(a.value, b.value, hidden))
  }

  lemma ReadAlike(d: Deployment, req: Request, hidden: set<string>, key: Value, a: seq<Row>, b: seq<Row>)
    requires Secret(d, req, hidden) && AlikeRows(a, b, hidden)
    ensures |Matching(a, Target(d, req).Pk().column, key)| == |Matching(b, Target(d, req).Pk().column, key)|
    ensures AlikeRow(ReadRow(d, req, key, a), ReadRow(d, req, key, b), hidden)
    ensures var obj := Target(d, req);
            Projected(d, obj, ReadRow(d, req, key, a)) == Projected(d, obj, ReadRow(d, req, key, b))
  {
    hide Project, Admitted;
    var obj := Target(d, req);
    MatchingAlike(a, b, hidden, obj.Pk().column, key);
    var m, n := Matching(a, obj.Pk().column, key), Matching(b, obj.Pk().column, key);
    if |m| == 1 {
      ProjectAlike(d, obj, hidden, m[0], n[0]);
    }
  }

  lemma WriteAlike(obj: ObjectType, op: Operation, key: Value, a: Option<Row>, b: Option<Row>, values: View,
                   hidden: set<string>)
    requires obj.Valid() && AlikeRow(a, b, hidden)
    ensures AlikeWrites(WriteOf(op, obj, key, a, values), WriteOf(op, obj, key, b, values), hidden)
  {
    ColumnsAlike(obj, map[], map[], values, hidden);
    if a.Some? {
      ColumnsAlike(obj, a.value, b.value, values, hidden);
    }
  }

  lemma JudgeAlike(d: Deployment, req: Request, hidden: set<string>, clock: Clock, params: View, key: Value,
                   a: seq<Row>, b: seq<Row>)
    requires Secret(d, req, hidden) && AlikeRows(a, b, hidden)
    ensures AlikeJudgements(Judge(d, req, clock, params, key, a), Judge(d, req, clock, params, key, b), hidden)
  {
    hide ReadRow, Projected, EffectValues, RuleFailures, After, WriteOf, AlikeWrites;
    var obj, action := Target(d, req), req.action;
    ReadAlike(d, req, hidden, key, a, b);
    var row, row' := ReadRow(d, req, key, a), ReadRow(d, req, key, b);
    var before := Projected(d, obj, row);
    var rules := RuleFailures(action.validation, |action.validation|, params, before, clock);
    var effects := EffectValues(d, obj, action.sets, params, before, clock, Gathered(map[], rules));
    WriteAlike(obj, action.operation, key, row, row', effects.values, hidden);
  }

  // ---- the whole machine runs alike ------------------------------------------------------

  ghost predicate AlikePhases(p: Phase, q: Phase, hidden: set<string>) {
    match (p, q)
    case (Planned(at, snap, before, after, v), Planned(at', snap', before', after', w)) =>
      (at, snap, before, after) == (at', snap', before', after') && AlikeWrites(v, w, hidden)
    case (Staged(at, snap, before, after, v, a), Staged(at', snap', before', after', w, b)) =>
      (at, snap, before, after) == (at', snap', before', after') && AlikeWrites(v, w, hidden) && AlikeRows(a, b, hidden)
    case _ => p == q
  }

  /** The same caller's same request, as far along and with the same to show for it. */
  ghost predicate AlikeRuns(r: Run, t: Run, hidden: set<string>) {
    && r.d == t.d && r.req == t.req && r.landed == t.landed && r.appended == t.appended && r.unanswered == t.unanswered
    && AlikePhases(r.phase, t.phase, hidden)
  }

  predicate AlikeVersions(v: seq<Version>, w: seq<Version>, hidden: set<string>) {
    |v| == |w| && forall k | 0 <= k < |v| ::
      v[k].id == w[k].id && v[k].stamp == w[k].stamp && AlikeRows(v[k].rows, w[k].rows, hidden)
  }

  /** Two lakes with the same runs and the same log, whose tables differ in secret only. */
  ghost predicate AlikeStates(s: State, t: State, hidden: set<string>) {
    && s.present == t.present && s.log == t.log && AlikeVersions(s.versions, t.versions, hidden)
    && s.runs.Keys == t.runs.Keys
    && (forall e | e in s.runs :: AlikeRuns(s.runs[e], t.runs[e], hidden) && Secret(s.runs[e].d, s.runs[e].req, hidden))
  }

  /** The same step, or another writer's version that differs in secret only. */
  ghost predicate AlikeSteps(p: Step, q: Step, hidden: set<string>) {
    match (p, q)
    case (Foreign(id, a), Foreign(id', b)) => id == id' && AlikeRows(a, b, hidden)
    case (Begin(_, d, req), _) => p == q && Secret(d, req, hidden)
    case _ => p == q
  }

  lemma HeadAlike(v: seq<Version>, w: seq<Version>, hidden: set<string>)
    requires AlikeVersions(v, w, hidden)
    ensures Head(v) == Head(w) && AlikeRows(Rows(v), Rows(w), hidden)
    ensures forall id :: Knows(v, id) <==> Knows(w, id)
  {
    forall id
      ensures Knows(v, id) <==> Knows(w, id)
    {
      if Knows(v, id) {
        var i :| 0 <= i < |v| && v[i].id == id;
        assert w[i].id == id;
      }
      if Knows(w, id) {
        var i :| 0 <= i < |w| && w[i].id == id;
        assert v[i].id == id;
      }
    }
  }

  lemma ChangedAlike(r: Run, t: Run, hidden: set<string>, key: Value, before: Option<View>, a: seq<Row>, b: seq<Row>,
                     readable: bool)
    requires Secret(r.d, r.req, hidden) && r.d == t.d && r.req == t.req && AlikeRows(a, b, hidden)
    ensures Changed(r, key, before, a, readable) == Changed(t, key, before, b, readable)
  {
    hide Project;
    MatchingAlike(a, b, hidden, KeyColumn(r), key);
    var m, n := Matching(a, KeyColumn(r), key), Matching(b, KeyColumn(r), key);
    if |m| == 1 {
      ProjectAlike(r.d, Target(r.d, r.req), hidden, m[0], n[0]);
    }
  }

  lemma ScanAlike(e: EditId, r: Run, t: Run, hidden: set<string>, a: seq<Row>, b: seq<Row>)
    requires AlikeRuns(r, t, hidden) && Secret(r.d, r.req, hidden) && AlikeRows(a, b, hidden) && r.phase.Snapped?
    ensures AlikeRuns(ScanIt(e, r, r.phase.at, r.phase.snap, a), ScanIt(e, t, r.phase.at, r.phase.snap, b), hidden)
  {
    hide Judge, Secret, AlikeWrites;
    var at := r.phase.at;
    JudgeAlike(r.d, r.req, hidden, at.clock, at.params, at.key, a, b);
  }

  lemma DiagnoseAlike(e: EditId, r: Run, t: Run, hidden: set<string>, a: seq<Row>, b: seq<Row>, readable: bool)
    requires AlikeRuns(r, t, hidden) && Secret(r.d, r.req, hidden) && AlikeRows(a, b, hidden) && r.phase.Conflicted?
    ensures AlikeRuns(DiagnoseIt(e, r, r.phase, a, readable), DiagnoseIt(e, t, t.phase, b, readable), hidden)
  {
    hide Changed, PropertiesInPlay;
    ChangedAlike(r, t, hidden, r.phase.at.key, r.phase.before, a, b, readable);
  }

  /** A step that leaves the table and the log alone leaves alike runs. */
  lemma SteppedAlike(s: State, t: State, hidden: set<string>, e: EditId, step: Step)
    requires AlikeStates(s, t, hidden) && e in s.runs && Secret(s.runs[e].d, s.runs[e].req, hidden)
    ensures var p, q := Stepped(s, e, s.runs[e], step), Stepped(t, e, t.runs[e], step);
      p.Some? == q.Some? && (p.Some? ==> AlikeRuns(p.value, q.value, hidden))
  {
    hide NameIt, ScanIt, DiagnoseIt, FailWrite, Secret, AlikeVersions, AlikeWrites, AlikeRows, AlikeStates, Head, Rows;
    RunsAlike(s, t, hidden, e);
    var r, u := s.runs[e], t.runs[e];
    HeadAlike(s.versions, t.versions, hidden);
    match (step, r.phase)
    case (ScanRows(_), Snapped(_, _)) => ScanAlike(e, r, u, hidden, Rows(s.versions), Rows(t.versions));
    case (Diagnose(_, readable), Conflicted(_, _, _)) =>
      DiagnoseAlike(e, r, u, hidden, Rows(s.versions), Rows(t.versions), readable);
    case (NameObject(_, clock), Ready(attempt)) =>
      SameRunsAlike(r, u, hidden);
      NameAlike(e, r, hidden, attempt, clock);
    case (LoadTable(_, _), Planned(at, snap, before, _, _)) => FailAlike(e, r, u, hidden, at, snap, before);
    case (Commit(_, _, _), Staged(at, snap, before, _, _, _)) => FailAlike(e, r, u, hidden, at, snap, before);
    case _ =>
  }

  lemma RunsAlike(s: State, t: State, hidden: set<string>, e: EditId)
    requires AlikeStates(s, t, hidden) && e in s.runs
    ensures e in t.runs && AlikeRuns(s.runs[e], t.runs[e], hidden) && Runnable(s.runs[e].d, s.runs[e].req)
    ensures s.present == t.present && AlikeVersions(s.versions, t.versions, hidden)
  {
    SecretRuns(s.runs[e].d, s.runs[e].req, hidden);
  }

  lemma SecretRuns(d: Deployment, req: Request, hidden: set<string>)
    requires Secret(d, req, hidden)
    ensures Runnable(d, req)
  {
  }

  lemma SameRunsAlike(r: Run, u: Run, hidden: set<string>)
    requires AlikeRuns(r, u, hidden) && !r.phase.Planned? && !r.phase.Staged?
    ensures r == u
  {
  }

  lemma NameAlike(e: EditId, r: Run, hidden: set<string>, attempt: nat, clock: Clock)
    requires Runnable(r.d, r.req)
    ensures AlikeRuns(NameIt(e, r, attempt, clock), NameIt(e, r, attempt, clock), hidden)
  {
    hide Address;
  }

  lemma FailAlike(e: EditId, r: Run, u: Run, hidden: set<string>, at: Context, snap: Option<nat>, before: Option<View>)
    requires AlikeRuns(r, u, hidden)
    ensures AlikeRuns(FailWrite(e, r, at, snap, before), FailWrite(e, u, at, snap, before), hidden)
  {
  }

  lemma PutAlike(s: State, t: State, hidden: set<string>, e: EditId, r: Run, u: Run)
    requires AlikeStates(s, t, hidden) && AlikeRuns(r, u, hidden) && Secret(r.d, r.req, hidden)
    ensures AlikeStates(Put(s, e, r), Put(t, e, u), hidden)
  {
    hide AlikeRuns, Secret, AlikeVersions;
  }

  lemma LandAlike(s: State, t: State, hidden: set<string>, e: EditId, id: nat, answered: bool)
    requires AlikeStates(s, t, hidden) && e in s.runs && s.runs[e].phase.Staged?
    requires Secret(s.runs[e].d, s.runs[e].req, hidden)
    ensures t.runs[e].phase.Staged?
    ensures AlikeStates(
      Put(s.(versions := s.versions + [Committed(s, e, id)]), e, Land(e, s.runs[e], s.runs[e].phase, answered)),
      Put(t.(versions := t.versions + [Committed(t, e, id)]), e, Land(e, t.runs[e], t.runs[e].phase, answered)), hidden)
  {
    var r, u := s.runs[e], t.runs[e];
    CommittedAlike(s, t, hidden, e, id);
    hide Secret, Committed, AlikeRows, AlikeWrites, FailWrite;
    var s' := s.(versions := s.versions + [Committed(s, e, id)]);
    var t' := t.(versions := t.versions + [Committed(t, e, id)]);
    VersionAlike(s, t, hidden, Committed(s, e, id), Committed(t, e, id));
    LandsAlike(e, r, u, hidden, answered);
    hide AlikeStates, Land, AlikeRuns;
    PutAlike(s', t', hidden, e, Land(e, r, r.phase, answered), Land(e, u, u.phase, answered));
  }

  lemma VersionAlike(s: State, t: State, hidden: set<string>, v: Version, w: Version)
    requires AlikeStates(s, t, hidden)
    requires v.id == w.id && v.stamp == w.stamp && AlikeRows(v.rows, w.rows, hidden)
    ensures AlikeStates(s.(versions := s.versions + [v]), t.(versions := t.versions + [w]), hidden)
  {
    hide Alike, AlikeRows, AlikeRuns, Secret;
  }

  lemma LandsAlike(e: EditId, r: Run, u: Run, hidden: set<string>, answered: bool)
    requires AlikeRuns(r, u, hidden) && r.phase.Staged?
    ensures u.phase.Staged?
    ensures AlikeRuns(Land(e, r, r.phase, answered), Land(e, u, u.phase, answered), hidden)
    ensures Land(e, r, r.phase, answered).d == r.d && Land(e, r, r.phase, answered).req == r.req
  {
    hide AlikeRows, AlikeWrites;
  }

  lemma CommittedAlike(s: State, t: State, hidden: set<string>, e: EditId, id: nat)
    requires AlikeStates(s, t, hidden) && e in s.runs && s.runs[e].phase.Staged?
    requires Secret(s.runs[e].d, s.runs[e].req, hidden)
    ensures t.runs[e].phase.Staged? && Runnable(s.runs[e].d, s.runs[e].req) && Runnable(t.runs[e].d, t.runs[e].req)
    ensures AlikeRows(Committed(s, e, id).rows, Committed(t, e, id).rows, hidden)
    ensures Committed(s, e, id).id == id == Committed(t, e, id).id
    ensures Committed(s, e, id).stamp == Some(e) == Committed(t, e, id).stamp
  {
    hide Alike;
    assert AlikeRuns(s.runs[e], t.runs[e], hidden);
    PerformAlike(s.runs[e].phase.write, t.runs[e].phase.write, s.runs[e].phase.loaded, t.runs[e].phase.loaded, hidden,
                 KeyColumn(s.runs[e]));
  }

  lemma AppendAlike(s: State, t: State, hidden: set<string>, e: EditId, fate: Fate)
    requires AlikeStates(s, t, hidden) && e in s.runs && s.runs[e].phase.Logging?
    requires Secret(s.runs[e].d, s.runs[e].req, hidden)
    ensures t.runs[e] == s.runs[e]
    ensures var run := s.runs[e];
      var row := if fate.Acknowledged? || fate.AnswerLost? then [LogRow(e, run.phase.result)] else [];
      var run' := AppendIt(run, run.phase.result, run.phase.tries, fate);
      AlikeStates(Put(s.(log := s.log + row), e, run'), Put(t.(log := t.log + row), e, run'), hidden)
  {
    hide Secret, AlikeVersions;
    SameRunsAlike(s.runs[e], t.runs[e], hidden);
  }

  /** A run's own step is open in both lakes or in neither, and leaves them alike. */
  lemma RunStepAlike(s: State, t: State, hidden: set<string>, e: EditId, step: Step)
    requires AlikeStates(s, t, hidden) && e in s.runs && Secret(s.runs[e].d, s.runs[e].req, hidden)
    requires Runnable(s.runs[e].d, s.runs[e].req) && Runnable(t.runs[e].d, t.runs[e].req)
    ensures RunStep(s, e, s.runs[e], step).Some? <==> RunStep(t, e, t.runs[e], step).Some?
    ensures RunStep(s, e, s.runs[e], step).Some? ==>
      AlikeStates(RunStep(s, e, s.runs[e], step).value, RunStep(t, e, t.runs[e], step).value, hidden)
  {
    hide Runnable, Secret, NameIt, ScanIt, DiagnoseIt, FailWrite, AppendIt, Land, Perform, AlikeVersions,
         AlikeRows, AlikeWrites;
    var r, u := s.runs[e], t.runs[e];
    SteppedAlike(s, t, hidden, e, step);
    if Stepped(s, e, r, step).Some? {
      StepIsStepped(s, e, r, step);
      StepIsStepped(t, e, u, step);
      PutAlike(s, t, hidden, e, Stepped(s, e, r, step).value, Stepped(t, e, u, step).value);
    } else {
      HeadAlike(s.versions, t.versions, hidden);
      match (step, r.phase)
      case (Commit(_, fate, id), Staged(_, _, _, _, _, _)) => LandAlike(s, t, hidden, e, id, fate.Acknowledged?);
      case (AppendLog(_, fate), Logging(_, _)) => AppendAlike(s, t, hidden, e, fate);
      case _ =>
    }
  }

  lemma NextAlike(s: State, t: State, hidden: set<string>, p: Step, q: Step)
    requires AlikeStates(s, t, hidden) && AlikeSteps(p, q, hidden)
    ensures Next(s, p).Some? <==> Next(t, q).Some?
    ensures Next(s, p).Some? ==> AlikeStates(Next(s, p).value, Next(t, q).value, hidden)
  {
    hide RunStep, AlikeVersions, AlikeRows, Secret, Runnable;
    HeadAlike(s.versions, t.versions, hidden);
    match p
    case Begin(e, d, req) =>
      SecretRuns(d, req, hidden);
      PutAlike(s, t, hidden, e, Run(d, req, Ready(1), None, 0, 0), Run(d, req, Ready(1), None, 0, 0));
    case Foreign(id, rows) => VersionAlike(s, t, hidden, Version(id, rows, None), Version(id, q.rows, None));
    case CreateTable =>
    case _ =>
      if p.e in s.runs {
        SecretRuns(s.runs[p.e].d, s.runs[p.e].req, hidden);
        RunStepAlike(s, t, hidden, p.e, p);
      }
  }

  ghost predicate AlikeTraces(p: seq<Step>, q: seq<Step>, hidden: set<string>) {
    |p| == |q| && forall k | 0 <= k < |p| :: AlikeSteps(p[k], q[k], hidden)
  }

  lemma {:induction false} TracesAlike(s: State, t: State, hidden: set<string>, p: seq<Step>, q: seq<Step>)
    requires AlikeStates(s, t, hidden) && AlikeTraces(p, q, hidden)
    ensures Execute(s, p).Some? <==> Execute(t, q).Some?
    ensures Execute(s, p).Some? ==> AlikeStates(Execute(s, p).value, Execute(t, q).value, hidden)
  {
    hide Next, AlikeSteps, AlikeStates;
    if p != [] {
      var n := |p| - 1;
      TracesAlike(s, t, hidden, p[..n], q[..n]);
      if Execute(s, p[..n]).Some? {
        NextAlike(Execute(s, p[..n]).value, Execute(t, q[..n]).value, hidden, p[n], q[n]);
      }
    }
  }

  /** The same steps taken in two lakes that differ in secret only can be taken in one exactly when they
      can in the other, and then every run that has ended has ended the same, and the logs are equal. */
  lemma {:induction false} MaskedNeverTold(s: State, t: State, hidden: set<string>, p: seq<Step>, q: seq<Step>)
    requires AlikeStates(s, t, hidden) && AlikeTraces(p, q, hidden)
    ensures Execute(s, p).Some? <==> Execute(t, q).Some?
    ensures Execute(s, p).Some? ==>
      var s', t' := Execute(s, p).value, Execute(t, q).value;
      && s'.log == t'.log && s'.runs.Keys == t'.runs.Keys
      && forall e | e in s'.runs ::
           (s'.runs[e].phase.Done? <==> t'.runs[e].phase.Done?) &&
           (s'.runs[e].phase.Done? ==> s'.runs[e].phase.result == t'.runs[e].phase.result)
  {
    hide Execute, Secret, AlikeVersions;
    TracesAlike(s, t, hidden, p, q);
    if Execute(s, p).Some? {
      var s', t' := Execute(s, p).value, Execute(t, q).value;
      forall e | e in s'.runs
        ensures (s'.runs[e].phase.Done? <==> t'.runs[e].phase.Done?) &&
                (s'.runs[e].phase.Done? ==> s'.runs[e].phase.result == t'.runs[e].phase.result)
      {
        assert AlikeRuns(s'.runs[e], t'.runs[e], hidden);
      }
    }
  }

  // ---- binding makes it so ---------------------------------------------------------------

  /** What `BindPolicies` refuses is what makes a masked column secret: a mask on the key, or on anything
      a rule of an action reads or an action writes. */
  lemma BoundMasksAreSecret(program: Program, d: Deployment, req: Request, hidden: set<string>)
    requires Bound(program, d.ontology, program.policies, program.claims)
    requires d.policies.masks == program.masks && Runnable(d, req) && req.action in d.ontology.actions
    requires var obj := Target(d, req); forall name | name in obj.properties && obj.properties[name].column in hidden ::
      && name in d.policies.Masked(obj.apiName)
      && (d.policies.PredicateFor(obj.apiName).Some? ==>
            name !in ObjectReads(d.policies.PredicateFor(obj.apiName).value))
    ensures Secret(d, req, hidden)
  {
    var obj := Target(d, req);
    forall name | name in obj.properties && obj.properties[name].column in hidden
      ensures name != obj.primaryKey && name !in SetNames(req.action.sets)
    {
      assert MaskAt(program.masks, obj.apiName, name).Some?;
      var p :| p in program.policies && MaskedBy(p, obj.apiName, name);
      var k :| 0 <= k < |program.policies| && program.policies[k] == p;
      assert Fits(d.ontology, program.claims, p);
      var j :| 0 <= j < |p.mask| && p.mask[j] == name;
      assert Maskable(d.ontology, obj, p.mask[j]);
      var i :| 0 <= i < |d.ontology.actions| && d.ontology.actions[i] == req.action;
      assert !(name in PropertiesInPlay(d.ontology.actions[i], obj));
    }
  }
}
