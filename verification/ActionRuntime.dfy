/** The action runtime as it runs: each attempt gathers its failures as it goes, a conflict is retried, and
    the last word is recorded once. Every port call lets other writers act first. The runtime is proved to
    be one of the machine's runs, so all that holds of every execution holds of what it returns. */
module ActionRuntime {
  import opened Wrappers
  import opened Values
  import opened Model
  import opened Evaluate
  import opened Coercion
  import opened Attempt
  import opened Atomicity
  import opened Protocol
  import opened Serializability

  predicate StepOf(step: Step, e: EditId) {
    !step.Foreign? && !step.CreateTable? && step.e == e
  }

  /** The catalog a run reaches through its ports, and everybody else who writes to it. */
  class Lake {
    var state: State
    ghost const start: State
    ghost var trace: seq<Step>

    constructor (s: State)
      requires Initial(s)
      ensures Valid() && state == s
    {
      state, start, trace := s, s, [];
    }

    ghost predicate Valid()
      reads this
    {
      Initial(start) && Execute(start, trace) == Some(state)
    }

    method Take(step: Step)
      requires Valid() && Next(state, step).Some?
      modifies this
      ensures Valid() && state == Next(old(state), step).value
      ensures trace == old(trace) + [step]
    {
      state := Next(state, step).value;
      assert (trace + [step])[..|trace|] == trace;
      trace := trace + [step];
    }

    /** Any number of steps of anybody but this run. */
    method Pass(e: EditId)
      requires Valid()
      modifies this
      ensures Valid() && old(trace) <= trace
      ensures e in state.runs <==> e in old(state).runs
      ensures e in state.runs ==> state.runs[e] == old(state).runs[e]
    {
      var others: seq<Step> := *;
      var k := 0;
      while k < |others|
        invariant Valid() && old(trace) <= trace
        invariant e in state.runs <==> e in old(state).runs
        invariant e in state.runs ==> state.runs[e] == old(state).runs[e]
      {
        if !StepOf(others[k], e) && Next(state, others[k]).Some? {
          OthersMove(state, others[k], e);
          Take(others[k]);
        }
        k := k + 1;
      }
    }

    /** A run of this id is under way, and this is where it stands. */
    ghost predicate At(e: EditId, d: Deployment, req: Request, phase: Phase)
      reads this
    {
      e in state.runs && Runnable(d, req) && state.runs[e] == Run(d, req, phase, None, 0, 0)
    }

    /** The run is over, with this result yet to be recorded or not at all. */
    ghost predicate Over(e: EditId, d: Deployment, req: Request, result: ActionResult, addressed: bool)
      reads this
    {
      && e in state.runs && state.runs[e].d == d && state.runs[e].req == req
      && state.runs[e].appended == 0 == state.runs[e].unanswered
      && state.runs[e].phase == (if Recordable(req, result, addressed) then Logging(result.(editId := Some(e)), 0)
                                 else Done(result, Unrecorded))
    }

    /** The steps a run takes without touching the catalog. */
    method Name(e: EditId, d: Deployment, req: Request, attempt: nat, clock: Clock)
      requires Valid() && At(e, d, req, Ready(attempt))
      modifies this
      ensures Valid() && old(trace) <= trace
      ensures match Address(d, req, clock)
              case Addressed(params, key) => At(e, d, req, Named(Context(attempt, clock, params, key)))
              case Unaddressed(failures) =>
                Over(e, d, req, ActionResult(Refused, Null, None, None, None, attempt, failures, None), false)
    {
      Take(NameObject(e, clock));
    }

    method CurrentSnapshotId(e: EditId, ghost d: Deployment, ghost req: Request, ghost at: Context)
      returns (snap: Option<nat>)
      requires Valid() && At(e, d, req, Named(at))
      modifies this
      ensures Valid() && old(trace) <= trace && At(e, d, req, Snapped(at, snap))
    {
      Pass(e);
      snap := Head(state.versions);
      Take(ReadSnapshot(e));
    }

    /** The rows, of the version whose id was read or of a later one. */
    method Scan(e: EditId, ghost d: Deployment, ghost req: Request, ghost at: Context, ghost snap: Option<nat>)
      returns (rows: seq<Row>)
      requires Valid() && At(e, d, req, Snapped(at, snap))
      modifies this
      ensures Valid() && old(trace) <= trace
      ensures match Judge(d, req, at.clock, at.params, at.key, rows)
              case Refuse(failures, before) =>
                Over(e, d, req, Outcome(Refused, at, snap, before, None, failures), true)
              case Plan(before, after, write) =>
                if req.dryRun then Over(e, d, req, Outcome(Previewed, at, snap, before, after, []), true)
                else At(e, d, req, Planned(at, snap, before, after, write))
    {
      Pass(e);
      rows := Rows(state.versions);
      Take(ScanRows(e));
    }

    /** The table a write is staged on: another version, perhaps, from the one that was read. */
    method Load(e: EditId, ghost d: Deployment, ghost req: Request, ghost p: Phase) returns (loaded: bool,
                ghost q: Phase)
      requires Valid() && p.Planned? && At(e, d, req, p)
      modifies this
      ensures Valid() && old(trace) <= trace
      ensures !loaded ==> Over(e, d, req, Outcome(Failed, p.at, p.snap, p.before, None, [WriteFailed]), true)
      ensures loaded ==>
        && At(e, d, req, q) && q.Staged?
        && q.at == p.at && q.snap == p.snap && q.before == p.before && q.after == p.after
    {
      Pass(e);
      var reachable: bool := *;
      loaded := state.present && reachable;
      q := if loaded then Staged(p.at, p.snap, p.before, p.after, p.write, Rows(state.versions)) else p;
      Take(LoadTable(e, reachable));
    }

    /** The newest version is this run's staged write, and the one before it is the one the run read. */
    ghost predicate Follows(e: EditId, d: Deployment, req: Request, p: Phase)
      requires p.Staged? && Runnable(d, req)
      reads this
    {
      var n := |state.versions|;
      && n > 0 && Head(state.versions[..n - 1]) == p.snap && state.versions[n - 1].stamp == Some(e)
      && Rows(state.versions) == Perform(p.write, Target(d, req).Pk().column, p.loaded)
    }

    /** The commit, which asserts that the table is still at the version that was read. */
    method CommitWrite(e: EditId, ghost d: Deployment, ghost req: Request, ghost p: Phase) returns (fate: Fate)
      requires Valid() && p.Staged? && At(e, d, req, p)
      modifies this
      ensures Valid() && old(trace) <= trace
      ensures fate.Acknowledged? ==>
        Over(e, d, req, Outcome(Applied, p.at, p.snap, p.before, p.after, []), true)
      ensures fate.AnswerLost? || fate.Errored? ==>
        Over(e, d, req, Outcome(Failed, p.at, p.snap, p.before, None, [WriteFailed]), true)
      ensures fate.Declined? ==> At(e, d, req, Conflicted(p.at, p.snap, p.before))
      ensures fate.Acknowledged? || fate.AnswerLost? ==> Follows(e, d, req, p)
    {
      hide Initial, Execute, RunStep;
      Pass(e);
      fate := *;
      var id: nat := *;
      if fate.Acknowledged? || fate.AnswerLost? {
        if !state.present || Head(state.versions) != state.runs[e].phase.snap {
          fate := Declined;
        } else if Knows(state.versions, id) {
          fate := Errored;
        }
      }
      CommitTaken(state, e, fate, id);
      ghost var read := state.versions;
      assert (read + [Version(id, [], Some(e))])[..|read|] == read;
      Take(Commit(e, fate, id));
    }

    method WriteRow(e: EditId, ghost d: Deployment, ghost req: Request, ghost p: Phase) returns (fate: Fate)
      requires Valid() && p.Planned? && At(e, d, req, p)
      modifies this
      ensures Valid() && old(trace) <= trace
      ensures fate.Acknowledged? ==>
        Over(e, d, req, Outcome(Applied, p.at, p.snap, p.before, p.after, []), true)
      ensures fate.AnswerLost? || fate.Errored? ==>
        Over(e, d, req, Outcome(Failed, p.at, p.snap, p.before, None, [WriteFailed]), true)
      ensures fate.Declined? ==> At(e, d, req, Conflicted(p.at, p.snap, p.before))
    {
      hide At, Over;
      var loaded, q := Load(e, d, req, p);
      if !loaded {
        return Errored;
      }
      fate := CommitWrite(e, d, req, q);
    }

    /** The read that follows a refused commit: the run has another attempt, or is refused for good. */
    method Rescan(e: EditId, d: Deployment, req: Request, ghost p: Phase) returns (rows: seq<Row>, readable: bool)
      requires Valid() && p.Conflicted? && Runnable(d, req) && At(e, d, req, p)
      modifies this
      ensures Valid() && old(trace) <= trace
      ensures p.at.attempt < MAX_ATTEMPTS ==> At(e, d, req, Ready(p.at.attempt + 1))
      ensures p.at.attempt >= MAX_ATTEMPTS ==>
        Over(e, d, req, Outcome(Refused, p.at, p.snap, p.before, None, [Explained(d, req, p, rows, readable)]), true)
    {
      hide Runnable, Explained, DiagnoseIt;
      Pass(e);
      readable := *;
      rows := Rows(state.versions);
      DiagnoseTaken(state, e, readable);
      Diagnosed(e, d, req, p, rows, readable);
      Take(Diagnose(e, readable));
    }

    method AppendEdit(e: EditId, ghost result: ActionResult, ghost tries: nat) returns (accepted: bool)
      requires Valid() && e in state.runs && Runnable(state.runs[e].d, state.runs[e].req)
      requires state.runs[e].phase == Logging(result, tries)
      modifies this
      ensures Valid() && old(trace) <= trace
      ensures e in state.runs && state.runs[e].d == old(state.runs[e]).d && state.runs[e].req == old(state.runs[e]).req
      ensures state.runs[e].phase ==
        if accepted then Done(result, Recorded)
        else if tries + 1 < MAX_LOG_ATTEMPTS then Logging(result, tries + 1)
        else Done(result.(failures := result.failures + [LogFailed]), LogLost)
      ensures state.runs[e].appended <= old(state.runs[e].appended) + 1
    {
      Pass(e);
      var fate: Fate := *;
      AppendTaken(state, e, fate);
      Take(AppendLog(e, fate));
      accepted := fate.Acknowledged?;
    }
  }

  lemma OthersMove(s: State, step: Step, e: EditId)
    requires !StepOf(step, e) && Next(s, step).Some?
    ensures var t := Next(s, step).value;
      (e in t.runs <==> e in s.runs) && (e in t.runs ==> t.runs[e] == s.runs[e])
  {
    hide Runnable, NameIt, ScanIt, DiagnoseIt, FailWrite, AppendIt, Land, Perform;
  }

  /** A commit can always be taken whose fate the table allows. */
  lemma CommitTaken(s: State, e: EditId, fate: Fate, id: nat)
    requires e in s.runs && s.runs[e].phase.Staged? && Runnable(s.runs[e].d, s.runs[e].req)
    requires fate.Acknowledged? || fate.AnswerLost? ==>
      s.present && Head(s.versions) == s.runs[e].phase.snap && !Knows(s.versions, id)
    ensures Next(s, Commit(e, fate, id)).Some? && e in Next(s, Commit(e, fate, id)).value.runs
    ensures var run, run' := s.runs[e], Next(s, Commit(e, fate, id)).value.runs[e];
      run' == match fate
              case Declined => run.(phase := Conflicted(run.phase.at, run.phase.snap, run.phase.before))
              case Errored => FailWrite(e, run, run.phase.at, run.phase.snap, run.phase.before)
              case _ => Land(e, run, run.phase, fate.Acknowledged?)
    ensures fate.Acknowledged? || fate.AnswerLost? ==>
      var run := s.runs[e];
      Next(s, Commit(e, fate, id)).value.versions
      == s.versions + [Version(id, Perform(run.phase.write, KeyColumn(run), run.phase.loaded), Some(e))]
  {
    hide Runnable, Perform, FailWrite, Land;
  }

  lemma AppendTaken(s: State, e: EditId, fate: Fate)
    requires e in s.runs && s.runs[e].phase.Logging? && Runnable(s.runs[e].d, s.runs[e].req)
    ensures Next(s, AppendLog(e, fate)).Some?
    ensures Next(s, AppendLog(e, fate)).value.runs
         == s.runs[e := AppendIt(s.runs[e], s.runs[e].phase.result, s.runs[e].phase.tries, fate)]
  {
    hide Runnable, AppendIt;
  }

  lemma DiagnoseTaken(s: State, e: EditId, readable: bool)
    requires e in s.runs && s.runs[e].phase.Conflicted? && Runnable(s.runs[e].d, s.runs[e].req)
    ensures Next(s, Diagnose(e, readable)) ==
            Some(Put(s, e, DiagnoseIt(e, s.runs[e], s.runs[e].phase, Rows(s.versions), readable)))
  {
    hide Runnable, DiagnoseIt;
  }

  /** What the caller is told of a conflict. */
  function Explained(d: Deployment, req: Request, p: Phase, rows: seq<Row>, readable: bool): Failure
    requires p.Conflicted? && Runnable(d, req)
  {
    var changed := Changed(Run(d, req, Ready(p.at.attempt), None, 0, 0), p.at.key, p.before, rows, readable);
    Conflict(p.snap, p.at.attempt, changed,
             changed.Some? && changed.value * PropertiesInPlay(req.action, Target(d, req)) != {})
  }

  /** Where the second read leaves a run. */
  lemma Diagnosed(e: EditId, d: Deployment, req: Request, p: Phase, rows: seq<Row>, readable: bool)
    requires p.Conflicted? && Runnable(d, req)
    ensures var run := Run(d, req, p, None, 0, 0);
      DiagnoseIt(e, run, p, rows, readable) ==
        if p.at.attempt < MAX_ATTEMPTS then run.(phase := Ready(p.at.attempt + 1))
        else
          Finish(e, run, Outcome(Refused, p.at, p.snap, p.before, None, [Explained(d, req, p, rows, readable)]), true)
  {
    hide Matching, Project, PropertiesInPlay;
  }

  // ---- one attempt -----------------------------------------------------------------------

  /** One attempt. Every refusal it meets is kept; only without one does it go on to write. */
  class RunAttempt {
    const d: Deployment
    const req: Request
    const attempt: nat
    const editId: EditId
    var failures: seq<Failure>
    var conflicted: bool
    var addressed: bool

    constructor (d: Deployment, req: Request, attempt: nat, editId: EditId)
      ensures this.d == d && this.req == req && this.attempt == attempt && this.editId == editId
      ensures failures == [] && !conflicted && !addressed
    {
      this.d, this.req, this.attempt, this.editId := d, req, attempt, editId;
      failures, conflicted, addressed := [], false, false;
    }

    method Fail(f: Failure)
      modifies this`failures
      ensures failures == old(failures) + [f]
    {
      failures := failures + [f];
    }

    method BindParameters() returns (bound: View)
      requires failures == []
      modifies this`failures
      ensures Gathered(bound, failures) == Attempt.Bind(d, req)
    {
      var params, supplied := req.action.parameters, req.supplied;
      var i := 0;
      while i < |supplied|
        invariant 0 <= i <= |supplied|
        invariant failures == Unknown(params, supplied[..i])
      {
        if !Declares(params, supplied[i].name) {
          Fail(UnknownParameter(supplied[i].name));
        }
        i := i + 1;
        assert supplied[..i][..i - 1] == supplied[..i - 1];
      }
      assert supplied[..i] == supplied;
      ghost var from := Gathered(map[], failures);
      bound := map[];
      i := 0;
      while i < |params|
        invariant 0 <= i <= |params|
        invariant Gathered(bound, failures) == BindAll(d, params[..i], supplied, from)
      {
        var p := params[i];
        i := i + 1;
        assert params[..i][..i - 1] == params[..i - 1];
        var raw := Raw(p, supplied);
        if raw.Null? {
          if p.required {
            Fail(MissingParameter(p.name));
          }
          bound := bound[p.name := Null];
          continue;
        }
        match Coerce(d.host, d.ontology.objectTypes, p.propType, raw) {
          case Ok(v) => bound := bound[p.name := v];
          case Err =>
            Fail(TypeError(ParameterPlace(p.name)));
            bound := bound[p.name := Null];
        }
      }
      assert params[..i] == params;
    }

    method Key(params: View, clock: Clock) returns (key: Option<Value>)
      requires Runnable(d, req)
      modifies this`failures
      ensures (key, failures) == (KeyOf(d, req, params, clock).0, old(failures) + KeyOf(d, req, params, clock).1)
    {
      var obj := Target(d, req);
      var expr := KeyExpr(req.action, obj);
      if expr.None? {
        assert failures + [] == failures;
        return None;
      }
      match Eval(expr.value, Scope(params, None, None, clock(KeyPlace))) {
        case Err =>
          Fail(ExpressionError(KeyPlace));
        case Ok(v) =>
          match Coerce(d.host, d.ontology.objectTypes, obj.Pk().propType, v) {
            case Ok(out) => return Some(out);
            case Err => Fail(TypeError(KeyPlace));
          }
      }
      return None;
    }

    method Validate(params: View, view: Option<View>, clock: Clock)
      modifies this`failures
      ensures var rules := req.action.validation;
        failures == old(failures) + RuleFailures(rules, |rules|, params, view, clock)
    {
      hide RuleFailure;
      var rules := req.action.validation;
      var k := 0;
      while k < |rules|
        invariant 0 <= k <= |rules|
        invariant failures == old(failures) + RuleFailures(rules, k, params, view, clock)
      {
        ghost var before := RuleFailures(rules, k, params, view, clock);
        Judged(rules, k, params, view, clock);
        assert (old(failures) + before) + RuleFailure(rules, k, params, view, clock)
            == old(failures) + (before + RuleFailure(rules, k, params, view, clock));
        k := k + 1;
      }
    }

    /** One rule: it must evaluate, and to true. */
    method Judged(rules: seq<Rule>, k: nat, params: View, view: Option<View>, clock: Clock)
      requires k < |rules|
      modifies this`failures
      ensures failures == old(failures) + RuleFailure(rules, k, params, view, clock)
    {
      hide Eval;
      match Eval(rules[k].expr, RuleScope(params, view, clock, RulePlace(k))) {
        case Err => Fail(ExpressionError(RulePlace(k)));
        case Ok(outcome) =>
          if !outcome.Bool? {
            Fail(ExpressionError(RulePlace(k)));
          } else if !outcome.b {
            Fail(ValidationFailed(rules[k].message));
          }
      }
    }

    method Effects(params: View, view: Option<View>, clock: Clock) returns (values: View)
      requires Runnable(d, req)
      modifies this`failures
      ensures Gathered(values, failures) ==
        EffectValues(d, Target(d, req), req.action.sets, params, view, clock, Gathered(map[], old(failures)))
    {
      var obj, sets := Target(d, req), req.action.sets;
      values := map[];
      var k := 0;
      while k < |sets|
        invariant 0 <= k <= |sets|
        invariant Gathered(values, failures) ==
          EffectValues(d, obj, sets[..k], params, view, clock, Gathered(map[], old(failures)))
      {
        var a := sets[k];
        k := k + 1;
        assert sets[..k][..k - 1] == sets[..k - 1];
        values := Assign(a, params, view, clock, values);
      }
      assert sets[..k] == sets;
    }

    method Assign(a: Assignment, params: View, view: Option<View>, clock: Clock, values: View) returns (out: View)
      requires Runnable(d, req) && a.property in Target(d, req).properties
      modifies this`failures
      ensures Gathered(out, failures) ==
        EffectOne(d, Target(d, req), a, params, view, clock, Gathered(values, old(failures)))
    {
      var at, prop := EffectPlace(a.property), Target(d, req).properties[a.property];
      match Eval(a.expr, RuleScope(params, view, clock, at)) {
        case Err => Fail(ExpressionError(at));
        case Ok(raw) =>
          match Coerce(d.host, d.ontology.objectTypes, prop.propType, raw) {
            case Err => Fail(TypeError(at));
            case Ok(v) =>
              if v.Null? && !prop.nullable {
                Fail(TypeError(at));
              } else {
                return values[a.property := v];
              }
          }
      }
      return values;
    }

    method Read(rows: seq<Row>, key: Value) returns (row: Option<Row>)
      requires Runnable(d, req)
      modifies this`failures
      ensures var found := Matching(rows, Target(d, req).Pk().column, key);
        && row == (if |found| == 1 then Some(found[0]) else None)
        && failures == old(failures) + if |found| > 1 then [AmbiguousKey(|found|)] else []
    {
      var found := Matching(rows, Target(d, req).Pk().column, key);
      if |found| > 1 {
        Fail(AmbiguousKey(|found|));
        return None;
      }
      return if |found| == 1 then Some(found[0]) else None;
    }

    /** Everything between the read and the write. */
    method Decide(params: View, key: Value, rows: seq<Row>, clock: Clock) returns (j: Judgement)
      requires Runnable(d, req) && failures == []
      modifies this`failures
      ensures j == Judge(d, req, clock, params, key, rows)
      ensures failures == if j.Refuse? then j.failures else []
    {
      hide Eval, Coerce, RuleFailures, EffectValues, After, WriteOf, Admitted, Project, Matching;
      var obj, creating := Target(d, req), req.action.operation.Create?;
      var row := Read(rows, key);
      if failures != [] {
        return Refuse(failures, None);
      }
      if row.Some? && !creating && !Admitted(d, obj, row.value) {
        row := None;
      }
      assert row == ReadRow(d, req, key, rows);
      if creating && row.Some? {
        Fail(ObjectExists);
        return Refuse(failures, Projected(d, obj, row));
      }
      if !creating && row.None? {
        Fail(ObjectNotFound);
        return Refuse(failures, None);
      }
      j := Propose(params, key, row, clock);
    }

    /** Every rule and every effect, and the write they add up to if none of them failed. */
    method Propose(params: View, key: Value, row: Option<Row>, clock: Clock) returns (j: Judgement)
      requires Runnable(d, req) && failures == []
      modifies this`failures
      ensures var obj, action := Target(d, req), req.action;
        var before := Projected(d, obj, row);
        var rules := RuleFailures(action.validation, |action.validation|, params, before, clock);
        var effects := EffectValues(d, obj, action.sets, params, before, clock, Gathered(map[], rules));
        && failures == effects.failures
        && j == if effects.failures != [] then Refuse(effects.failures, before)
                else Plan(before, After(d, obj, action.operation, before, effects.values, key),
                          WriteOf(action.operation, obj, key, row, effects.values))
    {
      hide Eval, Coerce, RuleFailures, EffectValues, After, WriteOf, Projected;
      var obj := Target(d, req);
      var before := Projected(d, obj, row);
      Validate(params, before, clock);
      assert failures == RuleFailures(req.action.validation, |req.action.validation|, params, before, clock);
      var values := Effects(params, before, clock);
      if failures != [] {
        return Refuse(failures, before);
      }
      return Plan(before, After(d, obj, req.action.operation, before, values, key),
                  WriteOf(req.action.operation, obj, key, row, values));
    }

    /** The one retryable failure, with what moved under the run. */
    method Conflicting(lake: Lake, ghost at: Context, key: Value, snap: Option<nat>, before: Option<View>)
      returns (result: ActionResult)
      requires lake.Valid() && failures == [] && Runnable(d, req)
      requires lake.At(editId, d, req, Conflicted(at, snap, before)) && at.key == key && at.attempt == attempt
      modifies this, lake
      ensures lake.Valid() && old(lake.trace) <= lake.trace
      ensures conflicted && addressed == old(addressed)
      ensures attempt < MAX_ATTEMPTS ==> lake.At(editId, d, req, Ready(attempt + 1))
      ensures attempt >= MAX_ATTEMPTS ==> lake.Over(editId, d, req, result, true)
      ensures result.attempts == attempt
    {
      hide Changed, PropertiesInPlay, Lake.Valid, Lake.At, Lake.Over;
      var rows, readable := lake.Rescan(editId, d, req, Conflicted(at, snap, before));
      var changed := Changed(Run(d, req, Ready(attempt), None, 0, 0), key, before, rows, readable);
      var inPlay := PropertiesInPlay(req.action, Target(d, req));
      Fail(Conflict(snap, attempt, changed, changed.Some? && changed.value * inPlay != {}));
      assert failures == [Explained(d, req, Conflicted(at, snap, before), rows, readable)];
      conflicted := true;
      return ActionResult(Refused, key, before, None, snap, attempt, failures, None);
    }

    method Execute(lake: Lake, clock: Clock) returns (result: ActionResult)
      requires lake.Valid() && lake.At(editId, d, req, Ready(attempt))
      requires failures == [] && !conflicted && !addressed
      modifies this, lake
      ensures lake.Valid() && old(lake.trace) <= lake.trace
      ensures conflicted && attempt < MAX_ATTEMPTS ==> lake.At(editId, d, req, Ready(attempt + 1))
      ensures !(conflicted && attempt < MAX_ATTEMPTS) ==> lake.Over(editId, d, req, result, addressed)
      ensures result.attempts == attempt
    {
      hide Judge, KeyOf, Attempt.Bind;
      assert Runnable(d, req);
      var params := BindParameters();
      if failures != [] {
        lake.Name(editId, d, req, attempt, clock);
        return ActionResult(Refused, Null, None, None, None, attempt, failures, None);
      }
      var key := Key(params, clock);
      assert [] + KeyOf(d, req, params, clock).1 == KeyOf(d, req, params, clock).1;
      lake.Name(editId, d, req, attempt, clock);
      if key.None? {
        return ActionResult(Refused, Null, None, None, None, attempt, failures, None);
      }
      addressed := true;
      result := ReadAndWrite(lake, params, key.value, clock);
    }

    /** What follows once the object has a name: the version's id, then the rows, then the write. */
    method ReadAndWrite(lake: Lake, params: View, key: Value, clock: Clock) returns (result: ActionResult)
      requires lake.Valid() && failures == [] && !conflicted && addressed
      requires lake.At(editId, d, req, Named(Context(attempt, clock, params, key)))
      modifies this, lake
      ensures lake.Valid() && old(lake.trace) <= lake.trace && addressed
      ensures conflicted && attempt < MAX_ATTEMPTS ==> lake.At(editId, d, req, Ready(attempt + 1))
      ensures !(conflicted && attempt < MAX_ATTEMPTS) ==> lake.Over(editId, d, req, result, true)
      ensures result.attempts == attempt
    {
      hide Judge, Address, Runnable;
      ghost var at := Context(attempt, clock, params, key);
      var snap := lake.CurrentSnapshotId(editId, d, req, at);
      var rows := lake.Scan(editId, d, req, at, snap);
      var decision := Decide(params, key, rows, clock);
      if decision.Refuse? {
        return ActionResult(Refused, key, decision.before, None, snap, attempt, failures, None);
      }
      if req.dryRun {
        return ActionResult(Previewed, key, decision.before, decision.after, snap, attempt, failures, None);
      }
      var fate := lake.WriteRow(editId, d, req, Planned(at, snap, decision.before, decision.after, decision.write));
      if fate.Declined? {
        result := Conflicting(lake, at, key, snap, decision.before);
        return;
      }
      if !fate.Acknowledged? {
        Fail(WriteFailed);
        return ActionResult(Failed, key, decision.before, None, snap, attempt, failures, None);
      }
      return ActionResult(Applied, key, decision.before, decision.after, snap, attempt, failures, None);
    }
  }

  // ---- what a result tells ---------------------------------------------------------------

  /** Version `i` is this run's commit: its action, in one step, on the version before. */
  ghost predicate TookEffect(s: State, e: EditId, i: nat)
    requires i < |s.versions| && e in s.runs
  {
    var run, rows := s.runs[e], RowsBefore(s.versions, i);
    && s.versions[i].stamp == Some(e) && Runnable(run.d, run.req) && run.landed.Some?
    && Address(run.d, run.req, run.landed.value).Addressed?
    && ChangesOneRow(run.d, run.req, run.landed.value, Address(run.d, run.req, run.landed.value).params,
                     Address(run.d, run.req, run.landed.value).key, rows, s.versions[i].rows)
    && Reports(run, rows, IdBefore(s.versions, i))
  }

  ghost predicate EffectFound(s: State, e: EditId)
    requires e in s.runs
  {
    exists i :: 0 <= i < |s.versions| && TookEffect(s, e, i)
  }

  lemma ResultTells(start: State, trace: seq<Step>, e: EditId)
    requires Initial(start) && Execute(start, trace).Some?
    requires e in Execute(start, trace).value.runs && Execute(start, trace).value.runs[e].phase.Done?
    ensures var t := Execute(start, trace).value;
      var p := t.runs[e].phase;
      && (p.result.status.Applied? ==> EffectFound(t, e))
      && (p.result.status.Refused? || p.result.status.Previewed? ==> !Stamps(t.versions, e))
      && (p.record.Recorded? ==> Logged(t.log, e))
      && (p.record.LogLost? ==> LogFailed in p.result.failures)
  {
    hide Invariant, ChangesOneRow, Reports, Runnable;
    StampsTell(start, trace, e);
    LogTells(start, trace, e);
    var t := Execute(start, trace).value;
    if Stamps(t.versions, e) {
      var i :| 0 <= i < |t.versions| && t.versions[i].stamp == Some(e);
      Serializable(start, trace, i);
      assert TookEffect(t, e, i);
    }
  }

  // ---- one run ---------------------------------------------------------------------------

  /** One row in the edit log, if the run named an object; the append is tried three times. */
  method RecordRun(lake: Lake, e: EditId, run: RunAttempt, result: ActionResult) returns (recorded: ActionResult)
    requires lake.Valid() && lake.Over(e, run.d, run.req, result, run.addressed)
    requires Runnable(run.d, run.req) && (run.req.dryRun ==> run.req.recordRefusals && !result.Fine())
    modifies lake
    ensures lake.Valid() && old(lake.trace) <= lake.trace
    ensures e in lake.state.runs && lake.state.runs[e].d == run.d && lake.state.runs[e].req == run.req
    ensures lake.state.runs[e].phase.Done? && lake.state.runs[e].phase.result == recorded
    ensures lake.state.runs[e].appended <= MAX_LOG_ATTEMPTS
    ensures recorded.(failures := result.failures, editId := result.editId) == result
    ensures recorded.failures == result.failures + (
      if lake.state.runs[e].phase.record.LogLost? then [LogFailed] else [])
  {
    if !run.addressed {
      return result;
    }
    recorded := result.(editId := Some(e));
    var tries := 0;
    while tries < MAX_LOG_ATTEMPTS
      invariant 0 <= tries <= MAX_LOG_ATTEMPTS
      invariant lake.Valid() && old(lake.trace) <= lake.trace
      invariant e in lake.state.runs && lake.state.runs[e].d == run.d && lake.state.runs[e].req == run.req
      invariant lake.state.runs[e].appended <= tries
      invariant lake.state.runs[e].phase ==
        if tries < MAX_LOG_ATTEMPTS then Logging(recorded, tries)
        else Done(recorded.(failures := recorded.failures + [LogFailed]), LogLost)
    {
      var accepted := lake.AppendEdit(e, recorded, tries);
      if accepted {
        return;
      }
      tries := tries + 1;
    }
    return recorded.(failures := recorded.failures + [LogFailed]);
  }

  /** Up to three attempts, each a fresh one, as long as the last was refused for a conflict. */
  method TryAction(lake: Lake, e: EditId, d: Deployment, req: Request, clocks: nat -> Clock)
    returns (run: RunAttempt, result: ActionResult)
    requires lake.Valid() && lake.At(e, d, req, Ready(1))
    modifies lake
    ensures lake.Valid() && old(lake.trace) <= lake.trace
    ensures run.d == d && run.req == req && lake.Over(e, d, req, result, run.addressed)
    ensures 1 <= result.attempts == run.attempt <= MAX_ATTEMPTS
    ensures run.conflicted ==> run.attempt == MAX_ATTEMPTS
  {
    hide Execute, Runnable, Lake.Valid, Lake.At, Lake.Over;
    var attempt := 1;
    run := new RunAttempt(d, req, attempt, e);
    result := run.Execute(lake, clocks(attempt));
    while run.conflicted && attempt < MAX_ATTEMPTS
      invariant 1 <= attempt <= MAX_ATTEMPTS && result.attempts == run.attempt == attempt
      invariant run.d == d && run.req == req && run.editId == e && fresh(run)
      invariant lake.Valid() && old(lake.trace) <= lake.trace
      invariant run.conflicted && attempt < MAX_ATTEMPTS ==> lake.At(e, d, req, Ready(attempt + 1))
      invariant !(run.conflicted && attempt < MAX_ATTEMPTS) ==> lake.Over(e, d, req, result, run.addressed)
      decreases MAX_ATTEMPTS - attempt
    {
      attempt := attempt + 1;
      run := new RunAttempt(d, req, attempt, e);
      result := run.Execute(lake, clocks(attempt));
    }
  }

  /** One action: tried, and recorded once. What comes back is what the machine's run ended on, so what
      holds of every execution holds of it. */
  method RunAction(lake: Lake, e: EditId, d: Deployment, req: Request, clocks: nat -> Clock)
    returns (result: ActionResult)
    requires lake.Valid() && e !in lake.state.runs && Runnable(d, req)
    modifies lake
    ensures lake.Valid() && old(lake.trace) <= lake.trace
    ensures e in lake.state.runs && lake.state.runs[e].d == d && lake.state.runs[e].req == req
    ensures lake.state.runs[e].phase.Done? && lake.state.runs[e].phase.result == result
    ensures 1 <= result.attempts <= MAX_ATTEMPTS && lake.state.runs[e].appended <= MAX_LOG_ATTEMPTS
    ensures result.status.Applied? ==> EffectFound(lake.state, e)
    ensures result.status.Refused? || result.status.Previewed? ==> !Stamps(lake.state.versions, e)
    ensures lake.state.runs[e].phase.record.Recorded? ==> Logged(lake.state.log, e)
  {
    hide Execute, EffectFound, Stamps, Logged, Initial, RunStep;
    lake.Take(Begin(e, d, req));
    var run, tried := TryAction(lake, e, d, req, clocks);
    result := tried;
    if !req.dryRun || (req.recordRefusals && !result.Fine()) {
      result := RecordRun(lake, e, run, tried);
    }
    ResultTells(lake.start, lake.trace, e);
  }
}
