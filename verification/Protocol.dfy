/** Runs of actions against one table, as a machine over its steps. Any number of runs interleave, with
    commits by other writers, crashes, and commits whose answer never arrives.

    A table is the history of its versions. A run reads a version's id, then the rows (of that version or
    a later one), decides, loads the table, and commits on condition that the id it read is still the
    latest. Afterwards it appends its record to the edit log, in a second commit. */
module Protocol {
  import opened Wrappers
  import opened Values
  import opened Model
  import opened Attempt

  type EditId = nat

  const MAX_ATTEMPTS: nat := 3
  const MAX_LOG_ATTEMPTS: nat := 3

  /** One snapshot of the table; `stamp` is the edit id its commit carried, if an action made it. */
  datatype Version = Version(id: nat, rows: seq<Row>, stamp: Option<EditId>)

  datatype Status = Applied | Previewed | Refused | Failed

  datatype ActionResult = ActionResult(
    status: Status,
    key: Value,
    before: Option<View>,
    after: Option<View>,
    snapshot: Option<nat>,
    attempts: nat,
    failures: seq<Failure>,
    editId: Option<EditId>)
  {
    predicate Fine() {
      status.Applied? || status.Previewed?
    }
  }

  /** What one attempt has settled by the time it touches the table. */
  datatype Context = Context(attempt: nat, clock: Clock, params: View, key: Value)

  datatype Record = Unrecorded | Recorded | LogLost

  datatype Phase =
    | Ready(attempt: nat)
    | Named(at: Context)
    | Snapped(at: Context, snap: Option<nat>)
    | Planned(at: Context, snap: Option<nat>, before: Option<View>, after: Option<View>, write: RowWrite)
    | Staged(at: Context, snap: Option<nat>, before: Option<View>, after: Option<View>, write: RowWrite,
             loaded: seq<Row>)
    | Conflicted(at: Context, snap: Option<nat>, before: Option<View>)
    | Logging(result: ActionResult, tries: nat)
    | Done(result: ActionResult, record: Record)
    | Crashed

  /** `landed` is the clock of the attempt whose commit took, `appended` and `unanswered` the log rows
      that took and those of them that were never acknowledged. */
  datatype Run = Run(d: Deployment, req: Request, phase: Phase, landed: Option<Clock>, appended: nat, unanswered: nat)

  datatype LogRow = LogRow(editId: EditId, result: ActionResult)

  datatype State = State(present: bool, versions: seq<Version>, runs: map<EditId, Run>, log: seq<LogRow>)

  /** What becomes of a commit: it lands and says so, it lands and the answer is lost, it is declined
      because the table moved, or it fails without landing. */
  datatype Fate = Acknowledged | AnswerLost | Declined | Errored

  datatype Step =
    | Begin(e: EditId, d: Deployment, req: Request)
    | NameObject(e: EditId, clock: Clock)
    | ReadSnapshot(e: EditId)
    | ScanRows(e: EditId)
    | LoadTable(e: EditId, reachable: bool)
    | Commit(e: EditId, fate: Fate, id: nat)
    | Diagnose(e: EditId, readable: bool)
    | AppendLog(e: EditId, fate: Fate)
    | Crash(e: EditId)
    | Foreign(id: nat, rows: seq<Row>)
    | CreateTable

  function Rows(versions: seq<Version>): seq<Row> {
    if versions == [] then [] else versions[|versions| - 1].rows
  }

  function Head(versions: seq<Version>): Option<nat> {
    if versions == [] then None else Some(versions[|versions| - 1].id)
  }

  predicate Knows(versions: seq<Version>, id: nat) {
    exists i :: 0 <= i < |versions| && versions[i].id == id
  }

  function KeyColumn(run: Run): string
    requires Runnable(run.d, run.req)
  {
    Target(run.d, run.req).Pk().column
  }

  /** The same caller's same request, whose commits fared the same. */
  ghost predicate SameRun(run: Run, run': Run) {
    run'.d == run.d && run'.req == run.req && run'.landed == run.landed
  }

  // ---- one run's steps -------------------------------------------------------------------

  /** A run is recorded if it named an object, unless it is a preview that nobody asked to record. */
  predicate Recordable(req: Request, result: ActionResult, addressed: bool) {
    addressed && (req.dryRun ==> req.recordRefusals && !result.Fine())
  }

  function Finish(e: EditId, run: Run, result: ActionResult, addressed: bool): (r: Run)
    ensures SameRun(run, r)
  {
    run.(phase :=
      if Recordable(run.req, result, addressed) then Logging(result.(editId := Some(e)), 0)
      else Done(result, Unrecorded))
  }

  function Outcome(status: Status, at: Context, snap: Option<nat>, before: Option<View>, after: Option<View>,
                  failures: seq<Failure>): ActionResult
  {
    ActionResult(status, at.key, before, after, snap, at.attempt, failures, None)
  }

  function NameIt(e: EditId, run: Run, attempt: nat, clock: Clock): (r: Run)
    requires Runnable(run.d, run.req)
    ensures SameRun(run, r)
  {
    match Address(run.d, run.req, clock)
    case Unaddressed(failures) =>
      Finish(e, run, ActionResult(Refused, Null, None, None, None, attempt, failures, None), false)
    case Addressed(params, key) => run.(phase := Named(Context(attempt, clock, params, key)))
  }

  function ScanIt(e: EditId, run: Run, at: Context, snap: Option<nat>, rows: seq<Row>): (r: Run)
    requires Runnable(run.d, run.req)
    ensures SameRun(run, r)
  {
    match Judge(run.d, run.req, at.clock, at.params, at.key, rows)
    case Refuse(failures, before) => Finish(e, run, Outcome(Refused, at, snap, before, None, failures), true)
    case Plan(before, after, write) =>
      if run.req.dryRun then Finish(e, run, Outcome(Previewed, at, snap, before, after, []), true)
      else run.(phase := Planned(at, snap, before, after, write))
  }

  function FailWrite(e: EditId, run: Run, at: Context, snap: Option<nat>, before: Option<View>): (r: Run)
    ensures SameRun(run, r)
  {
    Finish(e, run, Outcome(Failed, at, snap, before, None, [WriteFailed]), true)
  }

  /** The commit took: the run knows it only if the answer arrives. */
  function Land(e: EditId, run: Run, p: Phase, answered: bool): Run
    requires p.Staged?
  {
    var done := run.(landed := Some(p.at.clock));
    if answered then Finish(e, done, Outcome(Applied, p.at, p.snap, p.before, p.after, []), true)
    else FailWrite(e, done, p.at, p.snap, p.before)
  }

  /** The properties of the caller's view that moved, if the row can still be told. */
  function Changed(run: Run, key: Value, before: Option<View>, rows: seq<Row>, readable: bool): Option<set<string>>
    requires Runnable(run.d, run.req)
  {
    var found := Matching(rows, KeyColumn(run), key);
    if before.None? || !readable || |found| != 1 then None
    else
      var now := Project(run.d, Target(run.d, run.req), found[0]);
      Some(set name | name in before.value && (name !in now || now[name] != before.value[name]))
  }

  function DiagnoseIt(e: EditId, run: Run, p: Phase, rows: seq<Row>, readable: bool): (r: Run)
    requires Runnable(run.d, run.req) && p.Conflicted?
    ensures SameRun(run, r)
  {
    if p.at.attempt < MAX_ATTEMPTS then run.(phase := Ready(p.at.attempt + 1))
    else
      var changed := Changed(run, p.at.key, p.before, rows, readable);
      var contended := changed.Some? && changed.value * PropertiesInPlay(run.req.action, Target(run.d, run.req)) != {};
      Finish(e, run, Outcome(Refused, p.at, p.snap, p.before, None,
                            [Conflict(p.snap, p.at.attempt, changed, contended)]), true)
  }

  function AppendIt(run: Run, result: ActionResult, tries: nat, fate: Fate): (r: Run)
    ensures SameRun(run, r)
  {
    var took := run.(appended := run.appended + (if fate.Acknowledged? || fate.AnswerLost? then 1 else 0),
                     unanswered := run.unanswered + (if fate.AnswerLost? then 1 else 0));
    took.(phase :=
      if fate.Acknowledged? then Done(result, Recorded)
      else if tries + 1 < MAX_LOG_ATTEMPTS then Logging(result, tries + 1)
      else Done(result.(failures := result.failures + [LogFailed]), LogLost))
  }

  // ---- the machine -----------------------------------------------------------------------

  function Put(s: State, e: EditId, run: Run): State {
    s.(runs := s.runs[e := run])
  }

  /** A run's own step, or nothing where the step is not the run's next one. */
  function RunStep(s: State, e: EditId, run: Run, step: Step): Option<State>
    requires Runnable(run.d, run.req)
  {
    match (step, run.phase)
    case (NameObject(_, clock), Ready(attempt)) => Some(Put(s, e, NameIt(e, run, attempt, clock)))
    case (ReadSnapshot(_), Named(at)) => Some(Put(s, e, run.(phase := Snapped(at, Head(s.versions)))))
    case (ScanRows(_), Snapped(at, snap)) => Some(Put(s, e, ScanIt(e, run, at, snap, Rows(s.versions))))
    case (LoadTable(_, reachable), Planned(at, snap, before, after, write)) =>
      Some(Put(s, e, if s.present && reachable
                     then run.(phase := Staged(at, snap, before, after, write, Rows(s.versions)))
                     else FailWrite(e, run, at, snap, before)))
    case (Commit(_, fate, id), Staged(at, snap, before, after, write, loaded)) =>
      if fate.Declined? then Some(Put(s, e, run.(phase := Conflicted(at, snap, before))))
      else if fate.Errored? then Some(Put(s, e, FailWrite(e, run, at, snap, before)))
      else if !s.present || Head(s.versions) != snap || Knows(s.versions, id) then None
      else
        var v := Version(id, Perform(write, KeyColumn(run), loaded), Some(e));
        Some(Put(s.(versions := s.versions + [v]), e, Land(e, run, run.phase, fate.Acknowledged?)))
    case (Diagnose(_, readable), Conflicted(_, _, _)) =>
      Some(Put(s, e, DiagnoseIt(e, run, run.phase, Rows(s.versions), readable)))
    case (AppendLog(_, fate), Logging(result, tries)) =>
      var row := if fate.Acknowledged? || fate.AnswerLost? then [LogRow(e, result)] else [];
      Some(Put(s.(log := s.log + row), e, AppendIt(run, result, tries, fate)))
    case (Crash(_), _) => if run.phase.Done? then None else Some(Put(s, e, run.(phase := Crashed)))
    case _ => None
  }

  function Next(s: State, step: Step): Option<State> {
    match step
    case Begin(e, d, req) =>
      if e in s.runs || !Runnable(d, req) then None
      else Some(Put(s, e, Run(d, req, Ready(1), None, 0, 0)))
    case Foreign(id, rows) =>
      if !s.present || Knows(s.versions, id) then None
      else Some(s.(versions := s.versions + [Version(id, rows, None)]))
    case CreateTable => if s.present then None else Some(s.(present := true))
    case _ =>
      if step.e !in s.runs || !Runnable(s.runs[step.e].d, s.runs[step.e].req) then None
      else RunStep(s, step.e, s.runs[step.e], step)
  }

  /** Where a sequence of steps leads, if every one of them can be taken. */
  function Execute(s: State, steps: seq<Step>): Option<State> {
    if steps == [] then Some(s)
    else
      match Execute(s, steps[..|steps| - 1])
      case None => None
      case Some(before) => Next(before, steps[|steps| - 1])
  }

  /** A table nobody has acted on yet: it may not exist, or hold what other writers put there. */
  ghost predicate Initial(s: State) {
    && s.runs == map[] && s.log == []
    && (!s.present ==> s.versions == [])
    && DistinctIds(s.versions)
    && (forall i | 0 <= i < |s.versions| :: s.versions[i].stamp.None?)
  }

  ghost predicate DistinctIds(versions: seq<Version>) {
    forall i, j | 0 <= i < j < |versions| :: versions[i].id != versions[j].id
  }
}
