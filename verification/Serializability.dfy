/** What every execution of the protocol keeps: each version an action made is that action, whole, on the
    version just before it; keys stay unique; and stamps and log rows say what happened. */
module Serializability {
  import opened Wrappers
  import opened Values
  import opened Model
  import opened Attempt
  import opened Atomicity
  import opened Protocol

  // ---- counting --------------------------------------------------------------------------

  function StampCount(versions: seq<Version>, e: EditId): nat {
    if versions == [] then 0
    else StampCount(versions[..|versions| - 1], e) + (if versions[|versions| - 1].stamp == Some(e) then 1 else 0)
  }

  function LogCount(log: seq<LogRow>, e: EditId): nat {
    if log == [] then 0
    else LogCount(log[..|log| - 1], e) + (if log[|log| - 1].editId == e then 1 else 0)
  }

  lemma StampSnoc(versions: seq<Version>, v: Version, e: EditId)
    ensures StampCount(versions + [v], e) == StampCount(versions, e) + if v.stamp == Some(e) then 1 else 0
  {
    assert (versions + [v])[..|versions|] == versions;
  }

  lemma LogSnoc(log: seq<LogRow>, row: LogRow, e: EditId)
    ensures LogCount(log + [row], e) == LogCount(log, e) + if row.editId == e then 1 else 0
  {
    assert (log + [row])[..|log|] == log;
  }

  lemma {:induction false} StampCountZero(versions: seq<Version>, e: EditId)
    ensures StampCount(versions, e) == 0 <==> forall i | 0 <= i < |versions| :: versions[i].stamp != Some(e)
  {
    if versions != [] {
      StampCountZero(versions[..|versions| - 1], e);
    }
  }

  lemma {:induction false} LogCountZero(log: seq<LogRow>, e: EditId)
    ensures LogCount(log, e) == 0 <==> forall i | 0 <= i < |log| :: log[i].editId != e
  {
    if log != [] {
      LogCountZero(log[..|log| - 1], e);
    }
  }

  // ---- the invariant, run by run ---------------------------------------------------------

  /** A version read earlier: none, or one that is still in the history. */
  predicate Read(versions: seq<Version>, snap: Option<nat>) {
    snap.Some? ==> Knows(versions, snap.value)
  }

  ghost predicate Addresses(run: Run, at: Context)
    requires Runnable(run.d, run.req)
  {
    Address(run.d, run.req, at.clock) == Addressed(at.params, at.key)
  }

  /** The plan is the one the latest rows call for, as long as the version read is still the latest. */
  ghost predicate PlanStands(versions: seq<Version>, run: Run, at: Context, snap: Option<nat>, before: Option<View>,
                             after: Option<View>, write: RowWrite)
    requires Runnable(run.d, run.req)
  {
    && Addresses(run, at) && Read(versions, snap) && !run.req.dryRun
    && (Head(versions) == snap ==>
          Judge(run.d, run.req, at.clock, at.params, at.key, Rows(versions)) == Plan(before, after, write))
  }

  ghost predicate PhaseOk(versions: seq<Version>, run: Run)
    requires Runnable(run.d, run.req)
  {
    match run.phase
    case Ready(attempt) => 1 <= attempt <= MAX_ATTEMPTS
    case Named(at) => at.attempt <= MAX_ATTEMPTS && Addresses(run, at)
    case Snapped(at, snap) => at.attempt <= MAX_ATTEMPTS && Addresses(run, at) && Read(versions, snap)
    case Planned(at, snap, before, after, write) =>
      at.attempt <= MAX_ATTEMPTS && PlanStands(versions, run, at, snap, before, after, write)
    case Staged(at, snap, before, after, write, loaded) =>
      && at.attempt <= MAX_ATTEMPTS && PlanStands(versions, run, at, snap, before, after, write)
      && (Head(versions) == snap ==> loaded == Rows(versions))
    case Conflicted(at, snap, before) => at.attempt <= MAX_ATTEMPTS && !run.req.dryRun
    case _ => true
  }

  predicate Running(p: Phase) {
    !p.Logging? && !p.Done? && !p.Crashed?
  }

  /** What a finished run's status says of its commit. */
  ghost predicate StatusTells(run: Run, result: ActionResult) {
    match result.status
    case Applied => run.landed.Some? && !run.req.dryRun && result.failures == []
    case Refused => run.landed.None?
    case Previewed => run.landed.None? && run.req.dryRun && result.failures == []
    case Failed => !run.req.dryRun && result.failures == [WriteFailed]
  }

  ghost predicate RecordOk(e: EditId, run: Run) {
    (run.landed.Some? ==> !run.req.dryRun) &&
    match run.phase
    case Logging(result, tries) =>
      && StatusTells(run, result) && result.editId == Some(e) && Recordable(run.req, result, true)
      && tries < MAX_LOG_ATTEMPTS && run.appended == run.unanswered <= tries
    case Done(result, Recorded) =>
      && StatusTells(run, result) && result.editId == Some(e) && Recordable(run.req, result, true)
      && run.appended == run.unanswered + 1 <= MAX_LOG_ATTEMPTS
    case Done(result, LogLost) =>
      && result.failures != []
      && result.failures[|result.failures| - 1] == LogFailed && result.editId == Some(e)
      && StatusTells(run, result.(failures := result.failures[..|result.failures| - 1]))
      && Recordable(run.req, result, true)
      && run.appended == run.unanswered <= MAX_LOG_ATTEMPTS
    case Done(result, Unrecorded) =>
      StatusTells(run, result) && result.editId == None && run.appended == 0 == run.unanswered && run.landed.None?
    case Crashed => run.unanswered <= run.appended
    case _ => run.landed.None? && run.appended == 0 == run.unanswered
  }

  /** Everything a run's own state says about the table and the log. */
  ghost predicate RunOk(s: State, e: EditId, run: Run) {
    && Runnable(run.d, run.req)
    && PhaseOk(s.versions, run)
    && RecordOk(e, run)
    && StampCount(s.versions, e) == (if run.landed.Some? then 1 else 0)
    && LogCount(s.log, e) == run.appended
  }

  ghost predicate RunsOk(s: State) {
    forall e | e in s.runs :: RunOk(s, e, s.runs[e])
  }

  /** What a landed run reports is what its action did to the version it replaced, and that version's id. */
  ghost predicate Reports(run: Run, rows: seq<Row>, snap: Option<nat>)
    requires Runnable(run.d, run.req) && run.landed.Some?
  {
    run.phase.Logging? || run.phase.Done? ==>
      var result := run.phase.result;
      var address := Address(run.d, run.req, run.landed.value);
      && address.Addressed? && result.key == address.key && result.snapshot == snap
      && var plan := Judge(run.d, run.req, run.landed.value, address.params, address.key, rows);
         && plan.Plan? && result.before == plan.before
         && (result.status.Applied? ==> result.after == plan.after)
  }

  function RowsBefore(versions: seq<Version>, i: nat): seq<Row>
    requires i < |versions|
  {
    if i == 0 then [] else versions[i - 1].rows
  }

  function IdBefore(versions: seq<Version>, i: nat): Option<nat>
    requires i < |versions|
  {
    if i == 0 then None else Some(versions[i - 1].id)
  }

  /** A stamped version is its action, taken as one step on the version immediately before it. */
  ghost predicate StampOk(s: State, i: nat)
    requires i < |s.versions|
  {
    s.versions[i].stamp.Some? ==>
      && s.versions[i].stamp.value in s.runs
      && var run := s.runs[s.versions[i].stamp.value];
         && Runnable(run.d, run.req) && run.landed.Some?
         && Atomic(run.d, run.req, run.landed.value, RowsBefore(s.versions, i)) == Some(s.versions[i].rows)
         && Reports(run, RowsBefore(s.versions, i), IdBefore(s.versions, i))
  }

  ghost predicate StampsOk(s: State) {
    forall i | 0 <= i < |s.versions| :: StampOk(s, i)
  }

  /** A log row names a run that got as far as being recorded, with the result it ended on. */
  ghost predicate LogRowOk(s: State, row: LogRow) {
    && row.editId in s.runs
    && var run := s.runs[row.editId];
       && (run.phase.Logging? ==> row.result == run.phase.result)
       && (run.phase.Done? ==> EndedAs(row, run.phase.result))
  }

  /** What was logged is what the run ended on, but for a word that logging itself then failed. */
  predicate EndedAs(row: LogRow, result: ActionResult) {
    result == row.result || result == row.result.(failures := row.result.failures + [LogFailed])
  }

  ghost predicate LogOk(s: State) {
    forall i | 0 <= i < |s.log| :: LogRowOk(s, s.log[i])
  }

  ghost predicate Invariant(s: State) {
    && (!s.present ==> s.versions == [])
    && DistinctIds(s.versions)
    && RunsOk(s)
    && StampsOk(s)
    && LogOk(s)
  }

  // ---- one run moves, the table and the log stay -----------------------------------------

  /** A run still running has left no trace on the table or in the log. */
  lemma NoTrace(s: State, e: EditId)
    requires e in s.runs && RunOk(s, e, s.runs[e]) && Running(s.runs[e].phase)
    ensures s.runs[e].landed.None?
    ensures forall i | 0 <= i < |s.versions| :: s.versions[i].stamp != Some(e)
    ensures forall i | 0 <= i < |s.log| :: s.log[i].editId != e
  {
    StampCountZero(s.versions, e);
    LogCountZero(s.log, e);
  }

  lemma RunMoves(s: State, e: EditId, run: Run)
    requires Invariant(s) && e in s.runs && RunOk(s, e, run)
    requires run.d == s.runs[e].d && run.req == s.runs[e].req && run.landed == s.runs[e].landed
    requires Running(s.runs[e].phase) || run.phase.Crashed?
    ensures Invariant(Put(s, e, run))
  {
    hide Runnable, Address, Judge, Atomic, PhaseOk, RecordOk;
    var s' := Put(s, e, run);
    assert RunOk(s, e, s.runs[e]);
    if Running(s.runs[e].phase) {
      NoTrace(s, e);
    }
    forall i | 0 <= i < |s.versions|
      ensures StampOk(s', i)
    {
      assert StampOk(s, i);
    }
    forall i | 0 <= i < |s.log|
      ensures LogRowOk(s', s.log[i])
    {
      assert LogRowOk(s, s.log[i]);
    }
    forall x | x in s'.runs
      ensures RunOk(s', x, s'.runs[x])
    {
      assert x != e ==> RunOk(s, x, s.runs[x]);
    }
  }

  lemma Begins(s: State, e: EditId, d: Deployment, req: Request)
    requires Invariant(s) && e !in s.runs && Runnable(d, req)
    ensures Invariant(Put(s, e, Run(d, req, Ready(1), None, 0, 0)))
  {
    hide Runnable, Address, Judge, Atomic;
    var s' := Put(s, e, Run(d, req, Ready(1), None, 0, 0));
    forall i | 0 <= i < |s.versions|
      ensures StampOk(s', i) && s.versions[i].stamp != Some(e)
    {
      assert StampOk(s, i);
    }
    forall i | 0 <= i < |s.log|
      ensures LogRowOk(s', s.log[i]) && s.log[i].editId != e
    {
      assert LogRowOk(s, s.log[i]);
    }
    StampCountZero(s.versions, e);
    LogCountZero(s.log, e);
    forall x | x in s'.runs
      ensures RunOk(s', x, s'.runs[x])
    {
      assert x != e ==> RunOk(s, x, s.runs[x]);
    }
  }

  // ---- a version arrives -----------------------------------------------------------------

  /** Whatever was read before it, a fresh version is not it. */
  lemma PhaseSurvives(versions: seq<Version>, v: Version, run: Run)
    requires Runnable(run.d, run.req) && PhaseOk(versions, run) && !Knows(versions, v.id)
    ensures PhaseOk(versions + [v], run)
  {
    hide Runnable, Address, Judge;
    var after := versions + [v];
    assert forall id | Knows(versions, id) :: Knows(after, id) by {
      forall id | Knows(versions, id)
        ensures Knows(after, id)
      {
        var i :| 0 <= i < |versions| && versions[i].id == id;
        assert after[i].id == id;
      }
    }
    assert Head(after) == Some(v.id);
    assert forall snap | Read(versions, snap) :: Read(after, snap) && snap != Some(v.id);
  }

  lemma RunSurvives(s: State, v: Version, e: EditId)
    requires e in s.runs && RunOk(s, e, s.runs[e]) && !Knows(s.versions, v.id) && v.stamp != Some(e)
    ensures RunOk(s.(versions := s.versions + [v]), e, s.runs[e])
  {
    PhaseSurvives(s.versions, v, s.runs[e]);
    StampSnoc(s.versions, v, e);
  }

  lemma DistinctGrow(versions: seq<Version>, v: Version)
    requires DistinctIds(versions) && !Knows(versions, v.id)
    ensures DistinctIds(versions + [v])
  {
  }

  lemma BeforeKept(s: State, s': State, v: Version, i: nat)
    requires s'.versions == s.versions + [v] && i < |s.versions| && StampOk(s, i)
    requires s.versions[i].stamp.Some? ==>
      var e := s.versions[i].stamp.value; e in s'.runs && s'.runs[e] == s.runs[e]
    ensures StampOk(s', i)
  {
    hide Runnable, Address, Judge, Atomic;
    assert s'.versions[i] == s.versions[i];
    assert RowsBefore(s'.versions, i) == RowsBefore(s.versions, i);
    assert IdBefore(s'.versions, i) == IdBefore(s.versions, i);
  }

  lemma ForeignArrives(s: State, v: Version)
    requires Invariant(s) && s.present && !Knows(s.versions, v.id) && v.stamp.None?
    ensures Invariant(s.(versions := s.versions + [v]))
  {
    var s' := s.(versions := s.versions + [v]);
    DistinctGrow(s.versions, v);
    forall x | x in s'.runs
      ensures RunOk(s', x, s'.runs[x])
    {
      RunSurvives(s, v, x);
    }
    forall i | 0 <= i < |s'.versions|
      ensures StampOk(s', i)
    {
      if i < |s.versions| {
        assert StampOk(s, i);
        BeforeKept(s, s', v, i);
      }
    }
    forall i | 0 <= i < |s.log|
      ensures LogRowOk(s', s.log[i])
    {
      assert LogRowOk(s, s.log[i]);
    }
  }

  /** The commit of a staged plan over the version it read. */
  function Committed(s: State, e: EditId, id: nat): Version
    requires e in s.runs && s.runs[e].phase.Staged? && Runnable(s.runs[e].d, s.runs[e].req)
  {
    Version(id, Perform(s.runs[e].phase.write, KeyColumn(s.runs[e]), s.runs[e].phase.loaded), Some(e))
  }

  lemma CommittedStamp(s: State, e: EditId, id: nat)
    requires e in s.runs && s.runs[e].phase.Staged? && Runnable(s.runs[e].d, s.runs[e].req)
    ensures Committed(s, e, id).id == id && Committed(s, e, id).stamp == Some(e)
  {
  }

  lemma Lands(s: State, e: EditId, id: nat, answered: bool)
    requires Invariant(s) && e in s.runs && s.runs[e].phase.Staged? && Runnable(s.runs[e].d, s.runs[e].req)
    requires Head(s.versions) == s.runs[e].phase.snap && !Knows(s.versions, id)
    requires s.present
    ensures var v := Committed(s, e, id);
      Invariant(Put(s.(versions := s.versions + [v]), e, Land(e, s.runs[e], s.runs[e].phase, answered)))
  {
    hide Runnable, Address, Judge, Atomic, PhaseOk, RecordOk, Land, Committed, StampCount;
    var run, v := s.runs[e], Committed(s, e, id);
    assert v.id == id && v.stamp == Some(e) by {
      CommittedStamp(s, e, id);
    }
    var run' := Land(e, run, run.phase, answered);
    var grown := s.(versions := s.versions + [v]);
    var s' := Put(grown, e, run');
    assert RunOk(s, e, run);
    NoTrace(s, e);
    DistinctGrow(s.versions, v);
    StampSnoc(s.versions, v, e);
    LandedOk(s, e, id, answered);
    forall x | x in s'.runs
      ensures RunOk(s', x, s'.runs[x])
    {
      if x != e {
        RunSurvives(s, v, x);
      }
    }
    forall i | 0 <= i < |s'.versions|
      ensures StampOk(s', i)
    {
      if i < |s.versions| {
        assert StampOk(s, i);
        BeforeKept(s, s', v, i);
      }
    }
    forall i | 0 <= i < |s.log|
      ensures LogRowOk(s', s.log[i])
    {
      assert LogRowOk(s, s.log[i]);
    }
  }

  /** The rows loaded and judged are those of the version being replaced, so the new version is the
      action's doing on it, and the run reports just that. */
  lemma LandedOk(s: State, e: EditId, id: nat, answered: bool)
    requires Invariant(s) && e in s.runs && s.runs[e].phase.Staged? && Runnable(s.runs[e].d, s.runs[e].req)
    requires Head(s.versions) == s.runs[e].phase.snap
    ensures var run, v := s.runs[e], Committed(s, e, id);
      var run' := Land(e, run, run.phase, answered);
      && Atomic(run.d, run.req, run.phase.at.clock, Rows(s.versions)) == Some(v.rows)
      && run'.landed == Some(run.phase.at.clock) && run'.d == run.d && run'.req == run.req
      && Reports(run', Rows(s.versions), Head(s.versions))
      && RecordOk(e, run') && run'.appended == run.appended
      && PhaseOk(s.versions + [v], run')
  {
    hide Runnable, Address, Judge, Perform;
    assert RunOk(s, e, s.runs[e]);
  }

  // ---- the log ---------------------------------------------------------------------------

  lemma AppendOk(s: State, e: EditId, fate: Fate)
    requires Invariant(s) && e in s.runs && s.runs[e].phase.Logging?
    ensures var run := s.runs[e];
      var row := if fate.Acknowledged? || fate.AnswerLost? then [LogRow(e, run.phase.result)] else [];
      RunOk(s.(log := s.log + row), e, AppendIt(run, run.phase.result, run.phase.tries, fate))
  {
    hide Runnable, Address, Judge, StampCount, LogCount;
    var run := s.runs[e];
    var result := run.phase.result;
    assert RunOk(s, e, run);
    assert result.(failures := (result.failures + [LogFailed])[..|result.failures|]) == result;
    LogSnoc(s.log, LogRow(e, result), e);
    assert s.log + [] == s.log;
  }

  lemma Logs(s: State, e: EditId, fate: Fate)
    requires Invariant(s) && e in s.runs && s.runs[e].phase.Logging?
    ensures var run := s.runs[e];
      var row := if fate.Acknowledged? || fate.AnswerLost? then [LogRow(e, run.phase.result)] else [];
      Invariant(Put(s.(log := s.log + row), e, AppendIt(run, run.phase.result, run.phase.tries, fate)))
  {
    hide Runnable, Address, Judge, Atomic, PhaseOk, StampCount, LogCount;
    AppendOk(s, e, fate);
    var run := s.runs[e];
    var result := run.phase.result;
    var row := if fate.Acknowledged? || fate.AnswerLost? then [LogRow(e, result)] else [];
    var run' := AppendIt(run, result, run.phase.tries, fate);
    var s' := Put(s.(log := s.log + row), e, run');
    assert RunOk(s, e, run);
    forall x | x in s'.runs
      ensures RunOk(s', x, s'.runs[x])
    {
      assert RunOk(s, x, s.runs[x]);
      LogSnoc(s.log, LogRow(e, result), x);
      assert s.log + [] == s.log;
    }
    forall i | 0 <= i < |s.versions|
      ensures StampOk(s', i)
    {
      assert StampOk(s, i);
    }
    forall i | 0 <= i < |s'.log|
      ensures LogRowOk(s', s'.log[i])
    {
      if i < |s.log| {
        assert LogRowOk(s, s.log[i]);
      }
    }
  }

  // ---- every step ------------------------------------------------------------------------

  /** A step that settles a run without a commit leaves it as the invariant asks. */
  lemma FinishOk(s: State, e: EditId, run: Run, result: ActionResult, addressed: bool)
    requires RunOk(s, e, run) && Running(run.phase)
    requires StatusTells(run, result) && result.editId.None?
    ensures RunOk(s, e, Finish(e, run, result, addressed))
  {
    hide Runnable, Address, Judge;
  }

  lemma NameOk(s: State, e: EditId, run: Run, attempt: nat, clock: Clock)
    requires RunOk(s, e, run) && run.phase == Ready(attempt)
    ensures RunOk(s, e, NameIt(e, run, attempt, clock))
  {
    hide Runnable, Address, Judge;
    match Address(run.d, run.req, clock)
    case Unaddressed(failures) =>
      FinishOk(s, e, run, ActionResult(Refused, Null, None, None, None, attempt, failures, None), false);
    case Addressed(_, _) =>
  }

  lemma ScanOk(s: State, e: EditId, run: Run)
    requires RunOk(s, e, run) && run.phase.Snapped?
    ensures RunOk(s, e, ScanIt(e, run, run.phase.at, run.phase.snap, Rows(s.versions)))
  {
    hide Runnable, Address, Judge;
    var at, snap := run.phase.at, run.phase.snap;
    match Judge(run.d, run.req, at.clock, at.params, at.key, Rows(s.versions))
    case Refuse(failures, before) => FinishOk(s, e, run, Outcome(Refused, at, snap, before, None, failures), true);
    case Plan(before, after, _) =>
      if run.req.dryRun {
        FinishOk(s, e, run, Outcome(Previewed, at, snap, before, after, []), true);
      }
  }

  lemma FailOk(s: State, e: EditId, run: Run)
    requires RunOk(s, e, run) && (run.phase.Planned? || run.phase.Staged?)
    ensures RunOk(s, e, FailWrite(e, run, run.phase.at, run.phase.snap, run.phase.before))
  {
    hide Runnable, Address, Judge;
    FinishOk(s, e, run, Outcome(Failed, run.phase.at, run.phase.snap, run.phase.before, None, [WriteFailed]), true);
  }

  lemma DiagnoseOk(s: State, e: EditId, run: Run, readable: bool)
    requires RunOk(s, e, run) && run.phase.Conflicted?
    ensures RunOk(s, e, DiagnoseIt(e, run, run.phase, Rows(s.versions), readable))
  {
    hide Address, Judge, Changed, PropertiesInPlay;
    var out := DiagnoseIt(e, run, run.phase, Rows(s.versions), readable);
    if run.phase.at.attempt >= MAX_ATTEMPTS {
      var changed := Changed(run, run.phase.at.key, run.phase.before, Rows(s.versions), readable);
      var contended := changed.Some? && changed.value * PropertiesInPlay(run.req.action, Target(run.d, run.req)) != {};
      FinishOk(s, e, run, Outcome(Refused, run.phase.at, run.phase.snap, run.phase.before, None,
                                 [Conflict(run.phase.snap, run.phase.at.attempt, changed, contended)]), true);
    }
  }

  lemma SnapOk(s: State, e: EditId, run: Run)
    requires RunOk(s, e, run) && run.phase.Named?
    ensures RunOk(s, e, run.(phase := Snapped(run.phase.at, Head(s.versions))))
  {
    hide Runnable, Address, Judge;
    if s.versions != [] {
      assert s.versions[|s.versions| - 1].id == Head(s.versions).value;
    }
  }

  lemma StageOk(s: State, e: EditId, run: Run)
    requires RunOk(s, e, run) && run.phase.Planned?
    ensures var p := run.phase;
      RunOk(s, e, run.(phase := Staged(p.at, p.snap, p.before, p.after, p.write, Rows(s.versions))))
  {
    hide Runnable, Address, Judge;
  }

  lemma DeclineOk(s: State, e: EditId, run: Run)
    requires RunOk(s, e, run) && run.phase.Staged?
    ensures RunOk(s, e, run.(phase := Conflicted(run.phase.at, run.phase.snap, run.phase.before)))
  {
    hide Runnable, Address, Judge;
  }

  lemma CrashOk(s: State, e: EditId, run: Run)
    requires RunOk(s, e, run) && !run.phase.Done?
    ensures RunOk(s, e, run.(phase := Crashed))
  {
    hide Runnable, Address, Judge;
  }

  /** Where a run's step leaves the table and the log alone, this is the run it leaves. */
  function Stepped(s: State, e: EditId, run: Run, step: Step): Option<Run>
    requires Runnable(run.d, run.req)
  {
    match (step, run.phase)
    case (NameObject(_, clock), Ready(attempt)) => Some(NameIt(e, run, attempt, clock))
    case (ReadSnapshot(_), Named(at)) => Some(run.(phase := Snapped(at, Head(s.versions))))
    case (ScanRows(_), Snapped(at, snap)) => Some(ScanIt(e, run, at, snap, Rows(s.versions)))
    case (LoadTable(_, reachable), Planned(at, snap, before, after, write)) =>
      Some(if s.present && reachable then run.(phase := Staged(at, snap, before, after, write, Rows(s.versions)))
           else FailWrite(e, run, at, snap, before))
    case (Commit(_, Declined, _), Staged(at, snap, before, _, _, _)) =>
      Some(run.(phase := Conflicted(at, snap, before)))
    case (Commit(_, Errored, _), Staged(at, snap, before, _, _, _)) => Some(FailWrite(e, run, at, snap, before))
    case (Diagnose(_, readable), Conflicted(_, _, _)) => Some(DiagnoseIt(e, run, run.phase, Rows(s.versions), readable))
    case (Crash(_), _) => if run.phase.Done? then None else Some(run.(phase := Crashed))
    case _ => None
  }

  lemma SteppedOk(s: State, e: EditId, run: Run, step: Step)
    requires RunOk(s, e, run) && Stepped(s, e, run, step).Some?
    ensures var run' := Stepped(s, e, run, step).value;
      RunOk(s, e, run') && SameRun(run, run') && (Running(run.phase) || run'.phase.Crashed?)
  {
    hide Runnable, Address, Judge, RunOk, NameIt, ScanIt, DiagnoseIt, FailWrite;
    match (step, run.phase)
    case (NameObject(_, clock), Ready(attempt)) => NameOk(s, e, run, attempt, clock);
    case (ReadSnapshot(_), Named(_)) => SnapOk(s, e, run);
    case (ScanRows(_), Snapped(_, _)) => ScanOk(s, e, run);
    case (LoadTable(_, _), Planned(_, _, _, _, _)) => StageOk(s, e, run); FailOk(s, e, run);
    case (Commit(_, Declined, _), Staged(_, _, _, _, _, _)) => DeclineOk(s, e, run);
    case (Commit(_, Errored, _), Staged(_, _, _, _, _, _)) => FailOk(s, e, run);
    case (Diagnose(_, readable), Conflicted(_, _, _)) => DiagnoseOk(s, e, run, readable);
    case (Crash(_), _) => CrashOk(s, e, run);
    case _ =>
  }

  lemma StepIsStepped(s: State, e: EditId, run: Run, step: Step)
    requires Runnable(run.d, run.req) && RunStep(s, e, run, step).Some?
    requires Stepped(s, e, run, step).Some?
    ensures RunStep(s, e, run, step) == Some(Put(s, e, Stepped(s, e, run, step).value))
  {
    hide Runnable, NameIt, ScanIt, DiagnoseIt, FailWrite, Land, AppendIt, Perform;
  }

  lemma EveryRunOk(s: State, e: EditId)
    requires Invariant(s) && e in s.runs
    ensures RunOk(s, e, s.runs[e])
  {
  }

  lemma RunStepKeeps(s: State, e: EditId, step: Step)
    requires Invariant(s) && e in s.runs && Runnable(s.runs[e].d, s.runs[e].req)
    requires RunStep(s, e, s.runs[e], step).Some?
    ensures Invariant(RunStep(s, e, s.runs[e], step).value)
  {
    hide Runnable, NameIt, ScanIt, DiagnoseIt, FailWrite, AppendIt, Land, Perform, Invariant;
    var run := s.runs[e];
    EveryRunOk(s, e);
    if Stepped(s, e, run, step).Some? {
      SteppedOk(s, e, run, step);
      StepIsStepped(s, e, run, step);
      RunMoves(s, e, Stepped(s, e, run, step).value);
    } else {
      match (step, run.phase)
      case (Commit(_, fate, id), Staged(_, _, _, _, _, _)) => Lands(s, e, id, fate.Acknowledged?);
      case (AppendLog(_, fate), Logging(_, _)) => Logs(s, e, fate);
    }
  }

  // ---- whole executions ------------------------------------------------------------------

  lemma NextKeeps(s: State, step: Step)
    requires Invariant(s) && Next(s, step).Some?
    ensures Invariant(Next(s, step).value)
  {
    hide RunStep, Runnable, Invariant;
    match step
    case Begin(e, d, req) => Begins(s, e, d, req);
    case Foreign(id, rows) => ForeignArrives(s, Version(id, rows, None));
    case CreateTable => TableCreated(s);
    case _ => RunStepKeeps(s, step.e, step);
  }

  lemma TableCreated(s: State)
    requires Invariant(s)
    ensures Invariant(s.(present := true))
  {
    hide Runnable, Address, Judge, Atomic, PhaseOk, RecordOk;
    var s' := s.(present := true);
    forall x | x in s'.runs
      ensures RunOk(s', x, s'.runs[x])
    {
      assert RunOk(s, x, s.runs[x]);
    }
    forall i | 0 <= i < |s'.versions|
      ensures StampOk(s', i)
    {
      assert StampOk(s, i);
    }
    forall i | 0 <= i < |s.log|
      ensures LogRowOk(s', s.log[i])
    {
      assert LogRowOk(s, s.log[i]);
    }
  }

  lemma {:induction false} ExecutionKeeps(s: State, steps: seq<Step>)
    requires Initial(s) && Execute(s, steps).Some?
    ensures Invariant(Execute(s, steps).value)
  {
    hide Next;
    if steps != [] {
      ExecutionKeeps(s, steps[..|steps| - 1]);
      NextKeeps(Execute(s, steps[..|steps| - 1]).value, steps[|steps| - 1]);
    }
  }

  /** Serializability. However any number of runs, other writers and crashes interleave, a version an
      action made is that action taken in one step on the version immediately before it: its rules held
      there, it changed exactly one row, and it kept that version's value of every other row and of every
      column its effect does not set. Its run reports just that. */
  lemma {:induction false} Serializable(s: State, steps: seq<Step>, i: nat)
    requires Initial(s) && Execute(s, steps).Some?
    requires var t := Execute(s, steps).value; i < |t.versions| && t.versions[i].stamp.Some?
    ensures var t := Execute(s, steps).value;
      && t.versions[i].stamp.value in t.runs
      && var run, rows := t.runs[t.versions[i].stamp.value], RowsBefore(t.versions, i);
         && Runnable(run.d, run.req) && !run.req.dryRun
         && run.landed.Some? && Address(run.d, run.req, run.landed.value).Addressed?
         && var address := Address(run.d, run.req, run.landed.value);
            && ChangesOneRow(run.d, run.req, run.landed.value, address.params, address.key, rows, t.versions[i].rows)
            && Reports(run, rows, IdBefore(t.versions, i))
  {
    ExecutionKeeps(s, steps);
    var t := Execute(s, steps).value;
    LandedVersion(t, i);
  }

  lemma LandedVersion(t: State, i: nat)
    requires Invariant(t) && i < |t.versions| && t.versions[i].stamp.Some?
    ensures t.versions[i].stamp.value in t.runs
    ensures var run, rows := t.runs[t.versions[i].stamp.value], RowsBefore(t.versions, i);
         && Runnable(run.d, run.req) && run.landed.Some? && !run.req.dryRun
         && Address(run.d, run.req, run.landed.value).Addressed?
         && var address := Address(run.d, run.req, run.landed.value);
            && ChangesOneRow(run.d, run.req, run.landed.value, address.params, address.key, rows, t.versions[i].rows)
            && Reports(run, rows, IdBefore(t.versions, i))
  {
    hide Runnable, Address, Judge, ChangesOneRow, PhaseOk;
    assert StampOk(t, i);
    var run := t.runs[t.versions[i].stamp.value];
    AtomicChangesOneRow(run.d, run.req, run.landed.value, RowsBefore(t.versions, i));
    assert RunOk(t, t.versions[i].stamp.value, run);
  }

  // ---- keys ------------------------------------------------------------------------------

  /** Every run acts on this key column and keeps its key; every other writer keeps keys unique. */
  ghost predicate KeysMinded(t: State, column: string) {
    && (forall e | e in t.runs ::
          var run := t.runs[e];
          Runnable(run.d, run.req) && KeyColumn(run) == column && KeepsItsKey(run.d, run.req))
    && (forall i | 0 <= i < |t.versions| ::
          t.versions[i].stamp.None? && KeysUnique(RowsBefore(t.versions, i), column)
          ==> KeysUnique(t.versions[i].rows, column))
  }

  /** No interleaving of creates, modifies and deletes puts one key on two rows. */
  lemma KeysStayUnique(s: State, steps: seq<Step>, column: string)
    requires Initial(s) && Execute(s, steps).Some? && KeysMinded(Execute(s, steps).value, column)
    ensures var t := Execute(s, steps).value;
      forall i | 0 <= i < |t.versions| :: KeysUnique(t.versions[i].rows, column)
  {
    ExecutionKeeps(s, steps);
    var t := Execute(s, steps).value;
    forall i | 0 <= i < |t.versions|
      ensures KeysUnique(t.versions[i].rows, column)
    {
      UniqueAt(t, i, column);
    }
  }

  lemma {:induction false} UniqueAt(t: State, i: nat, column: string)
    requires Invariant(t) && i < |t.versions| && KeysMinded(t, column)
    ensures KeysUnique(t.versions[i].rows, column)
    decreases i
  {
    hide Atomic, Runnable, KeepsItsKey;
    if i > 0 {
      UniqueAt(t, i - 1, column);
    }
    assert KeysUnique(RowsBefore(t.versions, i), column);
    if t.versions[i].stamp.Some? {
      assert StampOk(t, i);
      var run := t.runs[t.versions[i].stamp.value];
      AtomicKeepsKeysUnique(run.d, run.req, run.landed.value, RowsBefore(t.versions, i));
    }
  }

  // ---- stamps and the log ----------------------------------------------------------------

  ghost predicate Stamps(versions: seq<Version>, e: EditId) {
    exists i :: 0 <= i < |versions| && versions[i].stamp == Some(e)
  }

  ghost predicate Logged(log: seq<LogRow>, e: EditId) {
    exists i :: 0 <= i < |log| && log[i].editId == e
  }

  /** An edit id stamps at most one version over all the attempts of its run. An applied run stamped
      one, a refused or previewed run none; a failed run landed exactly when its stamp is there. */
  lemma {:induction false} StampsTell(s: State, steps: seq<Step>, e: EditId)
    requires Initial(s) && Execute(s, steps).Some? && e in Execute(s, steps).value.runs
    ensures var t := Execute(s, steps).value;
      && (forall i, j | 0 <= i < j < |t.versions| :: !(t.versions[i].stamp == t.versions[j].stamp == Some(e)))
      && (Stamps(t.versions, e) <==> t.runs[e].landed.Some?)
      && (t.runs[e].phase.Logging? || t.runs[e].phase.Done? ==>
            var status := t.runs[e].phase.result.status;
            (status.Applied? ==> Stamps(t.versions, e)) &&
            (status.Refused? || status.Previewed? ==> !Stamps(t.versions, e)))
  {
    hide Runnable, Address, PhaseOk;
    ExecutionKeeps(s, steps);
    var t := Execute(s, steps).value;
    assert RunOk(t, e, t.runs[e]);
    StampCountZero(t.versions, e);
    AtMostOne(t.versions, e);
  }

  lemma {:induction false} AtMostOne(versions: seq<Version>, e: EditId)
    requires StampCount(versions, e) <= 1
    ensures forall i, j | 0 <= i < j < |versions| :: !(versions[i].stamp == versions[j].stamp == Some(e))
  {
    if versions != [] {
      AtMostOne(versions[..|versions| - 1], e);
      StampCountZero(versions[..|versions| - 1], e);
    }
  }

  /** A run that has finished recording has its row in the log, or says that it could not be logged with
      its status unchanged. So a stamped version without a log row belongs to a run that crashed, is
      still in flight, or says so. It has exactly one row just when no append went unanswered. */
  lemma LogTellsOf(t: State, e: EditId)
    requires Invariant(t) && e in t.runs && t.runs[e].phase.Done?
    ensures var run := t.runs[e];
      match run.phase.record
      case Recorded => LogCount(t.log, e) == 1 + run.unanswered
      case LogLost => run.phase.result.failures != [] &&
                      run.phase.result.failures[|run.phase.result.failures| - 1] == LogFailed
      case Unrecorded => LogCount(t.log, e) == 0 == StampCount(t.versions, e)
  {
    hide Runnable, Address, PhaseOk, LogCount, StampCount;
    assert RunOk(t, e, t.runs[e]);
  }

  lemma {:induction false} LogTells(s: State, steps: seq<Step>, e: EditId)
    requires Initial(s) && Execute(s, steps).Some? && e in Execute(s, steps).value.runs
    ensures var t := Execute(s, steps).value;
      var run := t.runs[e];
      && (run.phase.Done? ==>
            match run.phase.record
            case Recorded => Logged(t.log, e) && (LogCount(t.log, e) == 1 <==> run.unanswered == 0)
            case LogLost => run.phase.result.failures != [] &&
                            run.phase.result.failures[|run.phase.result.failures| - 1] == LogFailed
            case Unrecorded => !Logged(t.log, e) && !Stamps(t.versions, e))
      && (Stamps(t.versions, e) && !Logged(t.log, e) ==>
            !run.phase.Done? || run.phase.record.LogLost?)
  {
    hide Invariant, LogCount, StampCount;
    ExecutionKeeps(s, steps);
    var t := Execute(s, steps).value;
    StampCountZero(t.versions, e);
    LogCountZero(t.log, e);
    if t.runs[e].phase.Done? {
      LogTellsOf(t, e);
    }
  }

  /** What the log says of a finished run is the result it was given. */
  lemma LogAgrees(s: State, steps: seq<Step>, i: nat)
    requires Initial(s) && Execute(s, steps).Some? && i < |Execute(s, steps).value.log|
    ensures var t := Execute(s, steps).value;
      && t.log[i].editId in t.runs
      && var p := t.runs[t.log[i].editId].phase;
         p.Done? ==> EndedAs(t.log[i], p.result)
  {
    ExecutionKeeps(s, steps);
    assert LogRowOk(Execute(s, steps).value, Execute(s, steps).value.log[i]);
  }
}
