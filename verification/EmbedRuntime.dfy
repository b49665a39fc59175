/** The reconcile as it runs: scan the text, refuse an unannounced change of model, prune what outlived its
    row, then embed and commit in batches. Others may act before every port call, any port call may fail,
    and a commit may land without saying so. Each type's reconcile is proved to be one of the machine's
    runs, and to reach what it should wherever nobody else acts. */
module EmbedRuntime {
  import opened Wrappers
  import opened Values
  import opened VectorStore
  import opened TextScan
  import opened Batches
  import opened Freshness

  const BATCH_ROWS: nat := 256

  datatype Outcome = Fine | Moved | Broken

  predicate StepOf(step: Step, run: nat) {
    !step.EditTable? && !step.PruneVector? && step.run == run
  }

  /** One object type's table and sidecar, behind the ports, with everybody else who uses them. `landed`
      counts the vectors that commits made here ever wrote. */
  class Warehouse {
    const w: Embedder
    var state: State
    var landed: nat
    ghost const start: State
    ghost var trace: seq<Step>
    ghost var disturbed: bool

    constructor (w: Embedder, s: State)
      requires Initial(w, s)
      ensures Valid() && this.w == w && state == s && landed == 0 && !disturbed
    {
      this.w, state, start, trace, landed, disturbed := w, s, s, [], 0, false;
    }

    ghost predicate Valid()
      reads this
    {
      Initial(w, start) && Execute(w, start, trace) == Some(state)
    }

    ghost predicate At(run: nat, r: Reconcile)
      reads this
    {
      run in state.runs && state.runs[run] == r
    }

    /** Steps were taken, and were all of the machine's. */
    twostate predicate Advanced()
      reads this
    {
      Valid() && old(trace) <= trace && (old(disturbed) ==> disturbed) && landed >= old(landed)
    }

    /** Nobody else acted, and the sidecar now holds this. */
    twostate predicate Undisturbed(stored: Stored)
      reads this
    {
      !disturbed ==> !old(disturbed) && state.rows == old(state.rows) && state.stored == stored
    }

    method Take(step: Step)
      requires Valid() && Next(w, state, step).Some?
      modifies this
      ensures Advanced() && state == Next(w, old(state), step).value
      ensures landed == old(landed) && disturbed == old(disturbed)
    {
      hide Next, Execute;
      ExecutesOn(w, start, trace, step);
      state := Next(w, state, step).value;
      trace := trace + [step];
    }

    /** Any number of steps of anybody but this run. */
    method Pass(run: nat)
      requires Valid()
      modifies this
      ensures Advanced() && Undisturbed(old(state.stored)) && landed == old(landed)
      ensures !disturbed ==> state == old(state)
      ensures run in state.runs <==> run in old(state).runs
      ensures run in state.runs ==> state.runs[run] == old(state).runs[run]
    {
      var others: seq<Step> := *;
      var k := 0;
      while k < |others|
        invariant Advanced() && landed == old(landed)
        invariant !disturbed ==> !old(disturbed) && state == old(state)
        invariant run in state.runs <==> run in old(state).runs
        invariant run in state.runs ==> state.runs[run] == old(state).runs[run]
      {
        if !StepOf(others[k], run) && Next(w, state, others[k]).Some? {
          OthersMove(w, state, others[k], run);
          Take(others[k]);
          disturbed := true;
        }
        k := k + 1;
      }
    }

    // ---- the read port -------------------------------------------------------------------

    /** The stored hashes and models, before a run begins. */
    method Existing(run: nat) returns (stored: Stored)
      requires Valid()
      modifies this
      ensures Advanced() && landed == old(landed) && Undisturbed(old(state.stored))
      ensures !disturbed ==> stored == old(state.stored)
      ensures run in state.runs <==> run in old(state).runs
    {
      Pass(run);
      stored := state.stored;
    }

    method ScanRows(run: nat, ghost c: Config) returns (rows: seq<TextRow>)
      requires Valid() && At(run, Started(c))
      modifies this
      ensures Advanced() && landed == old(landed) && Undisturbed(old(state.stored))
      ensures At(run, Scanned(c, Current(rows))) && (!disturbed ==> rows == old(state.rows))
    {
      hide Current;
      Pass(run);
      rows := state.rows;
      Take(Scan(run));
    }

    method ReadStored(run: nat, ghost c: Config, ghost current: map<Value, string>) returns (stored: Stored)
      requires Valid() && At(run, Scanned(c, current))
      modifies this
      ensures Advanced() && landed == old(landed) && Undisturbed(old(state.stored))
      ensures At(run, Diffed(c, current, Orphans(current, stored), Pending(c, current, stored)))
      ensures !disturbed ==> stored == old(state.stored)
    {
      hide Orphans, Pending;
      Pass(run);
      stored := state.stored;
      Take(Diff(run));
    }

    method SnapshotId(run: nat, ghost r: Reconcile) returns (snap: nat)
      requires Valid() && r.Embedded? && At(run, r)
      modifies this
      ensures Advanced() && landed == old(landed) && Undisturbed(old(state.stored))
      ensures At(run, Poised(r.c, r.current, r.pending, r.keys, r.vectors, snap))
    {
      Pass(run);
      snap := state.version;
      Take(ReadSnapshot(run));
    }

    // ---- the provider --------------------------------------------------------------------

    /** One vector for each text, in order; or it fails, or answers with the wrong number of them. */
    method Embed(run: nat, ghost r: Reconcile, keys: seq<Value>, texts: seq<string>) returns (vectors: seq<Vector>)
      requires Valid() && r.Writing? && At(run, r)
      requires HaveText(r.current, keys) && Elements(keys) <= r.pending && texts == Texts(r.current, keys)
      modifies this
      ensures Advanced() && landed == old(landed) && Undisturbed(old(state.stored))
      ensures |vectors| == |keys| ==>
        vectors == Vectors(w, r.c, texts) && At(run, Embedded(r.c, r.current, r.pending, keys, vectors))
      ensures |vectors| != |keys| ==> At(run, r)
    {
      hide Elements, Vectors, Texts;
      Pass(run);
      var answers: bool := *;
      if !answers {
        vectors := *;
        if |vectors| == |keys| {
          vectors := vectors + [[]];
        }
        return;
      }
      vectors := Vectors(w, state.runs[run].c, texts);
      assert |vectors| == |keys| by { VectorsLength(w, state.runs[run].c, r.current, keys); }
      Take(AskModel(run, keys));
    }

    // ---- the write port ------------------------------------------------------------------

    /** Remove the orphans, unconditionally. */
    method Prune(run: nat, ghost r: Reconcile) returns (outcome: Outcome)
      requires Valid() && r.Diffed? && r.orphans != {} && At(run, r)
      modifies this
      ensures Advanced() && landed == old(landed)
      ensures outcome.Fine? ==>
        At(run, Writing(r.c, r.current, r.pending)) && Undisturbed(old(state.stored) - r.orphans)
      ensures run in state.runs && (Undisturbed(old(state.stored) - r.orphans) || Undisturbed(old(state.stored)))
    {
      Pass(run);
      outcome := *;
      var lands: bool := *;
      if outcome.Fine? || lands {
        Take(PruneOrphans(run));
      }
    }

    method PruneNothing(run: nat, ghost r: Reconcile)
      requires Valid() && r.Diffed? && r.orphans == {} && At(run, r)
      modifies this
      ensures Advanced() && landed == old(landed) && Undisturbed(old(state.stored))
      ensures At(run, Writing(r.c, r.current, r.pending))
    {
      Take(PruneOrphans(run));
    }

    /** One commit over the version that was read. It lands as a whole, if at all, and a failure may hide
        that it landed. */
    method Merge(run: nat, ghost r: Reconcile, rows: Stored) returns (outcome: Outcome, ghost took: bool)
      requires Valid() && r.Poised? && At(run, r) && HaveText(r.current, r.keys) && |r.vectors| == |r.keys|
      requires rows == Zipped(r.c, r.current, r.keys, r.vectors)
      modifies this
      ensures Advanced() && run in state.runs && (outcome.Fine? ==> took)
      ensures took ==> At(run, Writing(r.c, r.current, r.pending - Elements(r.keys)))
      ensures took ==> landed == old(landed) + |rows| && Undisturbed(old(state.stored) + rows)
      ensures !took ==> landed == old(landed) && Undisturbed(old(state.stored))
    {
      hide Zipped, Elements;
      Pass(run);
      outcome := *;
      var lands: bool := *;
      if (outcome.Fine? || lands) && state.version != state.runs[run].snap {
        outcome, lands := Moved, false;
      }
      took := outcome.Fine? || lands;
      if outcome.Fine? || lands {
        Take(MergeBatch(run));
        landed := landed + |rows|;
      }
    }

    method Begin(run: nat, c: Config)
      requires Valid() && run !in state.runs
      modifies this
      ensures Advanced() && landed == old(landed) && Undisturbed(old(state.stored)) && At(run, Started(c))
      ensures disturbed == old(disturbed)
    {
      Take(Start(run, c));
    }

    method End(run: nat)
      requires Valid() && run in state.runs
      modifies this
      ensures Advanced() && landed == old(landed) && Undisturbed(old(state.stored)) && run !in state.runs
      ensures disturbed == old(disturbed)
    {
      Take(Stop(run));
    }
  }

  lemma ExecutesOn(w: Embedder, s: State, steps: seq<Step>, step: Step)
    requires Execute(w, s, steps).Some?
    ensures Execute(w, s, steps + [step]) == Next(w, Execute(w, s, steps).value, step)
  {
    hide Next;
    assert (steps + [step])[..|steps|] == steps;
  }

  lemma VectorsLength(w: Embedder, c: Config, current: map<Value, string>, keys: seq<Value>)
    requires HaveText(current, keys)
    ensures |Vectors(w, c, Texts(current, keys))| == |keys|
  {
  }

  lemma OthersMove(w: Embedder, s: State, step: Step, run: nat)
    requires !StepOf(step, run) && Next(w, s, step).Some?
    ensures var t := Next(w, s, step).value;
      (run in t.runs <==> run in s.runs) && (run in t.runs ==> t.runs[run] == s.runs[run])
  {
    hide Current, Orphans, Pending, Vectors, Texts, Zipped, Elements, HaveText;
  }

  /** The one check before anything is written. */
  method CheckModel(stored: Stored, model: string, remodel: bool) returns (refused: bool)
    ensures refused <==> !remodel && ModelChanged(stored, model)
  {
    if remodel || stored == map[] {
      return false;
    }
    var todo := stored.Keys;
    while todo != {}
      invariant todo <= stored.Keys
      invariant forall k | k in stored && k !in todo :: !OtherModel(stored[k], model)
      decreases todo
    {
      var k :| k in todo;
      if OtherModel(stored[k], model) {
        return true;
      }
      todo := todo - {k};
    }
    return false;
  }

  // ---- the batches -----------------------------------------------------------------------

  /** Ask for one batch's vectors and commit them, paired with the keys they were asked for. */
  method WriteBatch(wh: Warehouse, run: nat, c: Config, current: map<Value, string>, ghost pending: set<Value>,
                    keys: seq<Value>)
    returns (outcome: Outcome, ghost took: bool)
    requires wh.Valid() && wh.At(run, Writing(c, current, pending))
    requires pending <= current.Keys && Elements(keys) <= pending
    modifies wh
    ensures wh.Advanced() && run in wh.state.runs && (outcome.Fine? ==> took)
    ensures Elements(keys) <= current.Keys
    ensures took ==>
      && wh.At(run, Writing(c, current, pending - Elements(keys)))
      && wh.landed == old(wh.landed) + |Elements(keys)|
      && wh.Undisturbed(old(wh.state.stored) + FreshRows(wh.w, c, current, Elements(keys)))
    ensures !took ==> wh.landed == old(wh.landed) && wh.Undisturbed(old(wh.state.stored))
  {
    hide Zipped, Elements, FreshRows, Vectors, Texts, HaveText, Execute, Next;
    HaveTextElements(current, keys);
    var texts := Texts(current, keys);
    ghost var writing := Writing(c, current, pending);
    var vectors := wh.Embed(run, writing, keys, texts);
    if |vectors| != |keys| {
      return Broken, false;
    }
    ZippedIsFresh(wh.w, c, current, keys);
    FreshRowsSize(wh.w, c, current, Elements(keys));
    var rows := Zip(c, current, keys, vectors);
    var snap := wh.SnapshotId(run, Embedded(c, current, pending, keys, vectors));
    outcome, took := wh.Merge(run, Poised(c, current, pending, keys, vectors, snap), rows);
  }

  /** The sidecar once the first `n` keys of the list have landed. */
  function LandedUpTo(w: Embedder, c: Config, current: map<Value, string>, was: Stored, gone: set<Value>,
                      list: seq<Value>, n: nat): Stored
    requires n <= |list| && Elements(list[..n]) <= current.Keys
  {
    MidWay(w, c, current, was, gone, Elements(list[..n]))
  }

  /** One batch of the list, from where the last one ended. */
  method WriteNext(wh: Warehouse, run: nat, c: Config, current: map<Value, string>, list: seq<Value>, from: nat,
                   to: nat,
                   ghost was: Stored, ghost gone: set<Value>)
    returns (outcome: Outcome, ghost took: bool)
    requires from <= to <= |list| && Distinct(list) && Elements(list) <= current.Keys
    requires Elements(list[..from]) <= current.Keys && Elements(list[..to]) <= current.Keys
    requires wh.Valid() && wh.At(run, Writing(c, current, Elements(list) - Elements(list[..from])))
    requires !wh.disturbed ==> wh.state.stored == LandedUpTo(wh.w, c, current, was, gone, list, from)
    modifies wh
    ensures wh.Advanced() && run in wh.state.runs && (outcome.Fine? ==> took)
    ensures took ==>
      && wh.At(run, Writing(c, current, Elements(list) - Elements(list[..to])))
      && wh.landed == old(wh.landed) + to - from
      && wh.Undisturbed(LandedUpTo(wh.w, c, current, was, gone, list, to))
    ensures !took ==>
      wh.landed == old(wh.landed) && wh.Undisturbed(LandedUpTo(wh.w, c, current, was, gone, list, from))
  {
    hide Elements, Distinct, MidWay, FreshRows, Warehouse.Valid, HaveText;
    BatchMovesOn(wh.w, c, current, was, gone, list, from, to, Elements(list));
    outcome, took := WriteBatch(wh, run, c, current, Elements(list) - Elements(list[..from]), list[from..to]);
  }

  /** Embed and commit what is due, batch by batch. `written` is what landed. */
  method Write(wh: Warehouse, run: nat, c: Config, current: map<Value, string>, pending: set<Value>,
               ghost was: Stored, ghost gone: set<Value>)
    returns (embedded: nat, outcome: Outcome, ghost written: set<Value>)
    requires wh.Valid() && wh.At(run, Writing(c, current, pending)) && pending <= current.Keys
    requires !wh.disturbed ==> wh.state.stored == MidWay(wh.w, c, current, was, gone, {})
    modifies wh
    ensures wh.Advanced() && run in wh.state.runs
    ensures written <= pending && wh.Undisturbed(MidWay(wh.w, c, current, was, gone, written))
    ensures wh.landed == old(wh.landed) + |written| && embedded <= |written|
    ensures outcome.Fine? ==> written == pending && embedded == |pending|
  {
    var list := Listed(pending);
    assert Elements(list[..0]) == {};
    hide Elements, Distinct, MidWay, Warehouse.Valid;
    BatchIsDue(list, 0, 0, pending);
    embedded, written := 0, {};
    while embedded < |list|
      invariant embedded <= |list| && written == Elements(list[..embedded]) <= pending && |written| == embedded
      invariant wh.Advanced() && wh.At(run, Writing(c, current, pending - written))
      invariant wh.landed == old(wh.landed) + embedded
      invariant wh.Undisturbed(LandedUpTo(wh.w, c, current, was, gone, list, embedded))
    {
      var to := if embedded + BATCH_ROWS <= |list| then embedded + BATCH_ROWS else |list|;
      BatchIsDue(list, embedded, to, pending);
      ghost var took;
      outcome, took := WriteNext(wh, run, c, current, list, embedded, to, was, gone);
      if took {
        written := Elements(list[..to]);
      }
      if !outcome.Fine? {
        return;
      }
      embedded := to;
    }
    assert list[..embedded] == list;
    outcome := Fine;
  }

  /** The next batch of a list is still due, and is counted once. */
  lemma BatchIsDue(list: seq<Value>, from: nat, to: nat, pending: set<Value>)
    requires from <= to <= |list| && Distinct(list)
    requires Elements(list) == pending
    ensures var written, batch, after := Elements(list[..from]), Elements(list[from..to]), Elements(list[..to]);
      && batch <= pending - written && |batch| == to - from
      && after == written + batch && |after| == to && after <= pending
      && pending - after == pending - written - batch
  {
    hide Elements;
    SliceElements(list, 0, from);
    SliceElements(list, from, to);
    SliceElements(list, to, |list|);
    assert list[..|list|] == list;
    var written, batch := Elements(list[..from]), Elements(list[from..to]);
    assert |written + batch| == |written| + |batch| - |written * batch|;
    assert written * batch == {};
    forall k | k in batch
      ensures k !in written
    {
      assert k in written ==> k in written * batch;
    }
  }

  /** What the batch leaves, once landed, is a stopping place further on. */
  lemma BatchMovesOn(w: Embedder, c: Config, current: map<Value, string>, was: Stored, gone: set<Value>,
                     list: seq<Value>, from: nat, to: nat, pending: set<Value>)
    requires from <= to <= |list| && Distinct(list)
    requires Elements(list) == pending <= current.Keys
    ensures var written, batch, after := Elements(list[..from]), Elements(list[from..to]), Elements(list[..to]);
      && batch <= pending - written && |batch| == to - from && |after| == to && after <= pending
      && pending - after == pending - written - batch
      && MidWay(w, c, current, was, gone, written) + FreshRows(w, c, current, batch)
         == MidWay(w, c, current, was, gone, after)
  {
    hide Elements, MidWay, FreshRows;
    BatchIsDue(list, from, to, pending);
    MergeMidWay(w, c, current, was, gone, Elements(list[..from]), Elements(list[from..to]));
  }

  // ---- one type --------------------------------------------------------------------------

  datatype Report = Report(rowsRead: nat, embedded: nat, pruned: nat, current: int, skipped: Skipped)

  /** What a reconcile left, as a stopping place between the sidecar it found and the level one. */
  ghost predicate LeftOff(w: Embedder, c: Config, current: map<Value, string>, was: Stored, now: Stored,
                          gone: set<Value>, written: set<Value>)
  {
    && gone <= Orphans(current, was) && written <= Pending(c, current, was)
    && now == MidWay(w, c, current, was, gone, written)
    && (written != {} ==> gone == Orphans(current, was))
  }

  /** A stopping place that so many vectors were written to get to. */
  ghost predicate LeftAfter(w: Embedder, c: Config, current: map<Value, string>, was: Stored, now: Stored, count: int) {
    exists gone, written :: LeftOff(w, c, current, was, now, gone, written) && |written| == count
  }

  /** What is due, diffed from what was scanned and what was stored. */
  datatype Due = Due(current: map<Value, string>, orphans: set<Value>, pending: set<Value>, skipped: Skipped)

  method DiffType(wh: Warehouse, run: nat, c: Config) returns (due: Due, ghost rows: seq<TextRow>, ghost stored: Stored)
    requires wh.Valid() && run !in wh.state.runs
    modifies wh
    ensures wh.Advanced() && wh.landed == old(wh.landed) && wh.Undisturbed(old(wh.state.stored))
    ensures wh.At(run, Diffed(c, due.current, due.orphans, due.pending))
    ensures var current := Current(rows);
            due == Due(current, Orphans(current, stored), Pending(c, current, stored), PassedOver(rows))
    ensures |due.current| + due.skipped.Sum() == |rows| - |Withdrawn(rows)|
    ensures !wh.disturbed ==> rows == old(wh.state.rows) && stored == old(wh.state.stored)
  {
    hide Current, PassedOver, Withdrawn, Orphans, Pending, Warehouse.Valid;
    wh.Begin(run, c);
    var scanned := wh.ScanRows(run, c);
    var current, skipped := CurrentText(scanned);
    var found := wh.ReadStored(run, c, current);
    return Due(current, Orphans(current, found), Pending(c, current, found), skipped), scanned, found;
  }

  /** The reconcile of a single type. Orphans are gone before the first batch is asked for. */
  method One(wh: Warehouse, run: nat, c: Config, dryRun: bool)
    returns (report: Report, outcome: Outcome, ghost rows: seq<TextRow>, ghost stored: Stored)
    requires wh.Valid() && run !in wh.state.runs
    modifies wh
    ensures wh.Advanced() && run !in wh.state.runs
    ensures !wh.disturbed ==> !old(wh.disturbed) && wh.state.rows == old(wh.state.rows)
    ensures !wh.disturbed ==> rows == old(wh.state.rows) && stored == old(wh.state.stored)
    ensures !wh.disturbed ==>
      LeftAfter(wh.w, c, Current(rows), stored, wh.state.stored, wh.landed - old(wh.landed))
    ensures outcome.Fine? && !dryRun && !wh.disturbed ==> wh.state.stored == Level(wh.w, c, Current(rows), stored)
    ensures outcome.Fine? ==>
      report.pruned == |Orphans(Current(rows), stored)| && report.embedded == |Pending(c, Current(rows), stored)|
    ensures dryRun ==> outcome.Fine? && wh.landed == old(wh.landed)
    ensures dryRun && !wh.disturbed ==> wh.state.stored == stored
    ensures !dryRun ==> report.embedded <= wh.landed - old(wh.landed)
    ensures report.rowsRead == |rows| - |Withdrawn(rows)| && report.skipped == PassedOver(rows)
    ensures report.current == |Current(rows)| - |Pending(c, Current(rows), stored)|
  {
    hide Current, PassedOver, Withdrawn, Warehouse.Valid, LeftAfter, Level, Pending, Orphans, Skipped.Sum;
    var due;
    due, rows, stored := DiffType(wh, run, c);
    var embedded, pruned;
    embedded, pruned, outcome := Act(wh, run, c, due, dryRun, stored);
    report := Report(|due.current| + due.skipped.Sum(), embedded, pruned, |due.current| - |due.pending|, due.skipped);
    wh.End(run);
  }

  /** A preview counts what is due; a run prunes and writes it. */
  method Act(wh: Warehouse, run: nat, c: Config, due: Due, dryRun: bool, ghost was: Stored)
    returns (embedded: nat, pruned: nat, outcome: Outcome)
    requires wh.Valid() && wh.At(run, Diffed(c, due.current, due.orphans, due.pending))
    requires due.orphans == Orphans(due.current, was) && due.pending == Pending(c, due.current, was)
    requires !wh.disturbed ==> wh.state.stored == was
    modifies wh
    ensures wh.Advanced() && run in wh.state.runs
    ensures !wh.disturbed ==> !old(wh.disturbed) && wh.state.rows == old(wh.state.rows)
    ensures !wh.disturbed ==>
      LeftAfter(wh.w, c, due.current, was, wh.state.stored, wh.landed - old(wh.landed))
    ensures outcome.Fine? && !dryRun && !wh.disturbed ==> wh.state.stored == Level(wh.w, c, due.current, was)
    ensures outcome.Fine? ==> pruned == |due.orphans| && embedded == |due.pending|
    ensures dryRun ==> outcome.Fine? && wh.landed == old(wh.landed)
    ensures dryRun && !wh.disturbed ==> wh.state.stored == was
    ensures !dryRun ==> embedded <= wh.landed - old(wh.landed)
  {
    hide Warehouse.Valid, LeftAfter, Level, Pending, Orphans;
    if dryRun {
      StopsBefore(wh.w, c, due.current, was);
      return |due.pending|, |due.orphans|, Fine;
    }
    embedded, pruned, outcome := PruneThenWrite(wh, run, c, due, was);
  }

  /** Prune before writing: an orphan is text that outlived its row. */
  method PruneThenWrite(wh: Warehouse, run: nat, c: Config, due: Due, ghost was: Stored)
    returns (embedded: nat, pruned: nat, outcome: Outcome)
    requires wh.Valid() && wh.At(run, Diffed(c, due.current, due.orphans, due.pending))
    requires due.orphans == Orphans(due.current, was) && due.pending == Pending(c, due.current, was)
    requires !wh.disturbed ==> wh.state.stored == was
    modifies wh
    ensures wh.Advanced() && run in wh.state.runs
    ensures !wh.disturbed ==> !old(wh.disturbed) && wh.state.rows == old(wh.state.rows)
    ensures !wh.disturbed ==>
      LeftAfter(wh.w, c, due.current, was, wh.state.stored, wh.landed - old(wh.landed))
    ensures embedded <= wh.landed - old(wh.landed)
    ensures outcome.Fine? ==> pruned == |due.orphans| && embedded == |due.pending|
    ensures outcome.Fine? && !wh.disturbed ==> wh.state.stored == Level(wh.w, c, due.current, was)
  {
    hide Warehouse.Valid, Pending, Orphans, MidWay, Level, LeftAfter;
    embedded, pruned := 0, 0;
    PendingHasText(c, due.current, was);
    StopsBefore(wh.w, c, due.current, was);
    StopsPruned(wh.w, c, due.current, was);
    ghost var diffed := Diffed(c, due.current, due.orphans, due.pending);
    if due.orphans != {} {
      outcome := wh.Prune(run, diffed);
      if !outcome.Fine? {
        return;
      }
      pruned := |due.orphans|;
    } else {
      wh.PruneNothing(run, diffed);
    }
    ghost var written;
    embedded, outcome, written := Write(wh, run, c, due.current, due.pending, was, due.orphans);
    StopsWriting(wh.w, c, due.current, was, written);
    AllDoneIsLevel(wh.w, c, due.current, was);
  }

  lemma PendingHasText(c: Config, current: map<Value, string>, stored: Stored)
    ensures Pending(c, current, stored) <= current.Keys
  {
  }

  lemma StopsBefore(w: Embedder, c: Config, current: map<Value, string>, was: Stored)
    ensures MidWay(w, c, current, was, {}, {}) == was && LeftAfter(w, c, current, was, was, 0)
  {
    assert MidWay(w, c, current, was, {}, {}) == was;
    assert LeftOff(w, c, current, was, was, {}, {});
  }

  lemma StopsPruned(w: Embedder, c: Config, current: map<Value, string>, was: Stored)
    ensures var gone := Orphans(current, was);
      MidWay(w, c, current, was, gone, {}) == was - gone && LeftAfter(w, c, current, was, was - gone, 0)
    ensures Orphans(current, was) == {} ==> was - Orphans(current, was) == was
  {
    var gone := Orphans(current, was);
    NothingWritten(w, c, current, was, gone);
    hide MidWay, Orphans, Pending;
    assert LeftOff(w, c, current, was, was - gone, gone, {});
  }

  lemma NothingWritten(w: Embedder, c: Config, current: map<Value, string>, was: Stored, gone: set<Value>)
    ensures MidWay(w, c, current, was, gone, {}) == was - gone
    ensures gone == {} ==> was - gone == was
  {
  }

  lemma StopsWriting(w: Embedder, c: Config, current: map<Value, string>, was: Stored, written: set<Value>)
    requires written <= Pending(c, current, was)
    ensures LeftAfter(w, c, current, was, MidWay(w, c, current, was, Orphans(current, was), written), |written|)
  {
    assert LeftOff(w, c, current, was, MidWay(w, c, current, was, Orphans(current, was), written),
                   Orphans(current, was), written);
  }

  // ---- stopping and starting over --------------------------------------------------------

  /** Two stopping places in a row are one, as far on as both. */
  lemma StopsAdd(w: Embedder, c: Config, current: map<Value, string>, was: Stored, mid: Stored, now: Stored, a: int,
                 b: int)
    requires LeftAfter(w, c, current, was, mid, a) && LeftAfter(w, c, current, mid, now, b)
    ensures LeftAfter(w, c, current, was, now, a + b)
  {
    hide LeftOff;
    var gone, written :| LeftOff(w, c, current, was, mid, gone, written) && |written| == a;
    var more, after :| LeftOff(w, c, current, mid, now, more, after) && |after| == b;
    LeavesOn(w, c, current, was, mid, now, gone, written, more, after);
  }

  lemma LeavesOn(w: Embedder, c: Config, current: map<Value, string>, was: Stored, mid: Stored, now: Stored,
                 gone: set<Value>, written: set<Value>, more: set<Value>, after: set<Value>)
    requires LeftOff(w, c, current, was, mid, gone, written) && LeftOff(w, c, current, mid, now, more, after)
    ensures LeftOff(w, c, current, was, now, gone + more, written + after) && |written + after| == |written| + |after|
  {
    hide Pending, Orphans, MidWay;
    PendingHasText(c, current, was);
    OrphansHaveNoText(current, was);
    ResumesWhereItStopped(w, c, current, was, gone, written);
    MidWayTwice(w, c, current, was, gone, written, more, after);
    assert written * after == {};
    assert |written + after| == |written| + |after| - |written * after|;
  }

  lemma OrphansHaveNoText(current: map<Value, string>, stored: Stored)
    ensures Orphans(current, stored) !! current.Keys
  {
  }

  lemma MidWayTwice(w: Embedder, c: Config, current: map<Value, string>, was: Stored, gone: set<Value>,
                    written: set<Value>,
                    more: set<Value>, after: set<Value>)
    requires written <= current.Keys && after <= current.Keys && more !! current.Keys
    ensures MidWay(w, c, current, MidWay(w, c, current, was, gone, written), more, after)
         == MidWay(w, c, current, was, gone + more, written + after)
  {
    hide FreshRow;
    var twice := MidWay(w, c, current, MidWay(w, c, current, was, gone, written), more, after);
    var once := MidWay(w, c, current, was, gone + more, written + after);
    forall k
      ensures k in twice <==> k in once
      ensures k in twice ==> twice[k] == once[k]
    {
      MidWayAt(w, c, current, was, gone, written, k);
      MidWayAt(w, c, current, MidWay(w, c, current, was, gone, written), more, after, k);
      MidWayAt(w, c, current, was, gone + more, written + after, k);
    }
    hide MidWay;
    assert twice.Keys == once.Keys;
  }

  /** What a stopping place holds under one key. */
  lemma MidWayAt(w: Embedder, c: Config, current: map<Value, string>, was: Stored, gone: set<Value>,
                 written: set<Value>,
                 k: Value)
    requires written <= current.Keys
    ensures var mid := MidWay(w, c, current, was, gone, written);
      && (k in mid <==> k in written || (k in was && k !in gone))
      && (k in mid ==> mid[k] == if k in written then FreshRow(w, c, current[k]) else was[k])
  {
    hide FreshRow;
  }

  /** A stopping place that is level was reached by writing all that was due. */
  lemma LevelWroteAll(w: Embedder, c: Config, current: map<Value, string>, was: Stored, count: int)
    requires LeftAfter(w, c, current, was, Level(w, c, current, was), count)
    ensures count == |Pending(c, current, was)|
  {
    hide Pending, Orphans, MidWay, Level;
    var gone, written :| LeftOff(w, c, current, was, Level(w, c, current, was), gone, written) && |written| == count;
    LevelIsDone(w, c, current, was);
    ResumesWhereItStopped(w, c, current, was, gone, written);
  }

  /** Level is where every stopping place leads, and the model check lets a run through again there. */
  lemma LeadsOn(w: Embedder, c: Config, current: map<Value, string>, was: Stored, mid: Stored, count: int)
    requires LeftAfter(w, c, current, was, mid, count)
    ensures Level(w, c, current, mid) == Level(w, c, current, was)
    ensures !ModelChanged(was, c.model) ==> !ModelChanged(mid, c.model)
  {
    hide Pending, Orphans, MidWay, Level, ModelChanged;
    var gone, written :| LeftOff(w, c, current, was, mid, gone, written) && |written| == count;
    ResumesWhereItStopped(w, c, current, was, gone, written);
    PendingHasText(c, current, was);
    if !ModelChanged(was, c.model) {
      StaysUnchanged(w, c, current, was, gone, written);
    }
  }

  // ---- every type ------------------------------------------------------------------------

  /** One type to reconcile: where its rows and its sidecar are, and the property embedded. */
  datatype Source = Source(warehouse: Warehouse, property: string)

  datatype Status = Applied | Previewed | ModelRefused | Interrupted(outcome: Outcome)

  function Warehouses(types: seq<Source>): set<Warehouse> {
    set i | 0 <= i < |types| :: types[i].warehouse
  }

  function ConfigOf(t: Source, model: string, dims: nat): Config {
    Config(model, dims, t.property)
  }

  /** A type as it was found: its rows, its sidecar, the vectors written so far and the steps taken. */
  datatype Found = Found(rows: seq<TextRow>, stored: Stored, landed: nat, trace: seq<Step>, disturbed: bool)

  ghost function AsFound(t: Source): Found
    reads t.warehouse
  {
    var wh := t.warehouse;
    Found(wh.state.rows, wh.state.stored, wh.landed, wh.trace, wh.disturbed)
  }

  /** This run may begin on the type. */
  ghost predicate Free(t: Source, w: Embedder, run: nat)
    reads t.warehouse
  {
    t.warehouse.Valid() && t.warehouse.w == w && run !in t.warehouse.state.runs
  }

  /** Nobody else has acted on this type. */
  ghost predicate Quiet(t: Source)
    reads t.warehouse
  {
    !t.warehouse.disturbed
  }

  /** Only steps of the machine have been taken since. */
  ghost predicate Since(t: Source, was: Found)
    reads t.warehouse
  {
    var now := AsFound(t);
    was.trace <= now.trace && (was.disturbed ==> now.disturbed) && was.landed <= now.landed
    && (Quiet(t) ==> now.rows == was.rows)
  }

  /** Unless somebody else acted, it is as it was found. */
  ghost predicate Untouched(t: Source, was: Found)
    reads t.warehouse
  {
    Since(t, was) && t.warehouse.landed == was.landed && (Quiet(t) ==> t.warehouse.state.stored == was.stored)
  }

  /** Unless somebody else acted, it was left at a stopping place. */
  ghost predicate Stopped(t: Source, was: Found, model: string, dims: nat)
    reads t.warehouse
  {
    Since(t, was) &&
    (Quiet(t) ==> LeftAfter(t.warehouse.w, ConfigOf(t, model, dims), Current(was.rows), was.stored,
                            t.warehouse.state.stored, t.warehouse.landed - was.landed))
  }

  /** Unless somebody else acted, it is level with its text. */
  ghost predicate Levelled(t: Source, was: Found, model: string, dims: nat)
    reads t.warehouse
  {
    Since(t, was) &&
    (Quiet(t) ==> t.warehouse.state.stored ==
                  Level(t.warehouse.w, ConfigOf(t, model, dims), Current(was.rows), was.stored))
  }

  predicate OwnWarehouses(types: seq<Source>) {
    forall i, j | 0 <= i < j < |types| :: types[i].warehouse != types[j].warehouse
  }

  ghost predicate AllFree(types: seq<Source>, w: Embedder, run: nat)
    reads Warehouses(types)
  {
    forall i | 0 <= i < |types| :: Free(types[i], w, run)
  }

  ghost predicate AllQuiet(types: seq<Source>)
    reads Warehouses(types)
  {
    forall i | 0 <= i < |types| :: Quiet(types[i])
  }

  ghost predicate AllAsFound(types: seq<Source>, was: seq<Found>)
    reads Warehouses(types)
  {
    |was| == |types| && forall i | 0 <= i < |types| :: AsFound(types[i]) == was[i]
  }

  predicate AnyChanged(was: seq<Found>, model: string) {
    exists i :: 0 <= i < |was| && ModelChanged(was[i].stored, model)
  }

  /** Look at one type's stored models. */
  method LookAt(t: Source, ghost w: Embedder, run: nat, model: string, remodel: bool, ghost was: Found)
    returns (refused: bool)
    requires Free(t, w, run) && Untouched(t, was)
    modifies t.warehouse
    ensures Free(t, w, run) && Untouched(t, was)
    ensures Quiet(t) ==> (refused <==> !remodel && ModelChanged(was.stored, model))
  {
    var stored := t.warehouse.Existing(run);
    refused := CheckModel(stored, model, remodel);
  }

  /** Look at every type before anything is written. */
  method CheckModels(types: seq<Source>, ghost w: Embedder, run: nat, model: string, remodel: bool,
                     ghost was: seq<Found>)
    returns (refused: bool)
    requires OwnWarehouses(types) && AllFree(types, w, run) && AllAsFound(types, was)
    modifies Warehouses(types)
    ensures AllFree(types, w, run) && forall i | 0 <= i < |types| :: Untouched(types[i], was[i])
    ensures AllQuiet(types) ==> (refused <==> !remodel && AnyChanged(was, model))
  {
    hide ModelChanged, Warehouse.Valid;
    refused := false;
    var k := 0;
    while k < |types|
      invariant 0 <= k <= |types| && AllFree(types, w, run)
      invariant forall i | 0 <= i < |types| :: Untouched(types[i], was[i])
      invariant forall i | 0 <= i < k :: Quiet(types[i]) ==> remodel || !ModelChanged(was[i].stored, model)
    {
      refused := LookAt(types[k], w, run, model, remodel, was[k]);
      if refused {
        return;
      }
      k := k + 1;
    }
  }

  /** One type's turn: it is brought level, or left at a stopping place. */
  method Turn(t: Source, ghost w: Embedder, run: nat, model: string, dims: nat, dryRun: bool, ghost was: Found)
    returns (report: Report, outcome: Outcome)
    requires Free(t, w, run) && Untouched(t, was)
    modifies t.warehouse
    ensures Free(t, w, run) && Stopped(t, was, model, dims) && (Quiet(t) ==> old(Quiet(t)))
    ensures outcome.Fine? && !dryRun ==> Levelled(t, was, model, dims)
    ensures dryRun ==> outcome.Fine? && Untouched(t, was)
  {
    hide Current, PassedOver, Withdrawn, LeftAfter, Level, Orphans, Pending, Warehouse.Valid;
    ghost var rows, stored;
    report, outcome, rows, stored := One(t.warehouse, run, ConfigOf(t, model, dims), dryRun);
  }

  lemma UntouchedIsStopped(t: Source, was: Found, model: string, dims: nat)
    requires Untouched(t, was)
    ensures Stopped(t, was, model, dims)
  {
    StopsBefore(t.warehouse.w, ConfigOf(t, model, dims), Current(was.rows), was.stored);
  }

  /** Each type in its turn, until one of them fails. */
  method TakeTurns(types: seq<Source>, ghost w: Embedder, run: nat, model: string, dims: nat, dryRun: bool,
                   ghost was: seq<Found>)
    returns (outcome: Outcome, reports: seq<Report>)
    requires OwnWarehouses(types) && AllFree(types, w, run) && |was| == |types|
    requires forall i | 0 <= i < |types| :: Untouched(types[i], was[i])
    modifies Warehouses(types)
    ensures AllFree(types, w, run) && |reports| <= |types| && (AllQuiet(types) ==> old(AllQuiet(types)))
    ensures forall i | 0 <= i < |reports| :: Stopped(types[i], was[i], model, dims)
    ensures forall i | |reports| <= i < |types| :: Untouched(types[i], was[i])
    ensures if outcome.Fine? then |reports| == |types| else |reports| > 0
    ensures dryRun ==> outcome.Fine? && forall i | 0 <= i < |types| :: Untouched(types[i], was[i])
    ensures !dryRun ==> forall i | 0 <= i < |reports| - (if outcome.Fine? then 0 else 1) ::
      Levelled(types[i], was[i], model, dims)
  {
    hide Free, Since, Levelled, Stopped, Untouched;
    reports := [];
    outcome := Fine;
    while |reports| < |types|
      invariant |reports| <= |types| && AllFree(types, w, run) && outcome.Fine?
      invariant AllQuiet(types) ==> old(AllQuiet(types))
      invariant forall i | 0 <= i < |reports| :: Stopped(types[i], was[i], model, dims)
      invariant forall i | |reports| <= i < |types| :: Untouched(types[i], was[i])
      invariant dryRun ==> forall i | 0 <= i < |reports| :: Untouched(types[i], was[i])
      invariant !dryRun ==> forall i | 0 <= i < |reports| :: Levelled(types[i], was[i], model, dims)
    {
      var k := |reports|;
      var report;
      report, outcome := Turn(types[k], w, run, model, dims, dryRun, was[k]);
      reports := reports + [report];
      if !outcome.Fine? {
        return;
      }
    }
  }

  /** The models of all types come first, so a refusal wrote nothing anywhere. Applied
      leaves every sidecar level with its text; stopped leaves the types before the one it stopped at level,
      that one at a stopping place, and those after it untouched. `was` is how the types were found. */
  method ReconcileAll(types: seq<Source>, ghost w: Embedder, run: nat, model: string, dims: nat, dryRun: bool,
                      remodel: bool, ghost was: seq<Found>)
    returns (status: Status, reports: seq<Report>)
    requires OwnWarehouses(types) && AllFree(types, w, run) && AllAsFound(types, was)
    modifies Warehouses(types)
    ensures AllFree(types, w, run) && |reports| <= |types|
    ensures forall i | 0 <= i < |types| :: Stopped(types[i], was[i], model, dims)
    ensures AllQuiet(types) ==> (status.ModelRefused? <==> !remodel && AnyChanged(was, model))
    ensures status.ModelRefused? || status.Previewed? ==> forall i | 0 <= i < |types| :: Untouched(types[i], was[i])
    ensures status.Previewed? <==> dryRun && !status.ModelRefused?
    ensures status.Applied? ==> |reports| == |types|
    ensures status.Interrupted? ==> |reports| > 0
    ensures status.Applied? || status.Interrupted? ==>
      forall i | 0 <= i < |reports| - (if status.Applied? then 0 else 1) :: Levelled(types[i], was[i], model, dims)
    ensures forall i | |reports| <= i < |types| :: Untouched(types[i], was[i])
  {
    hide AnyChanged, Free, Since, Levelled, Stopped, Untouched;
    reports := [];
    var refused := CheckModels(types, w, run, model, remodel, was);
    var outcome := Fine;
    if !refused {
      outcome, reports := TakeTurns(types, w, run, model, dims, dryRun, was);
    }
    status := if refused then ModelRefused else if !outcome.Fine? then Interrupted(outcome)
              else if dryRun then Previewed else Applied;
    forall i | |reports| <= i < |types|
      ensures Stopped(types[i], was[i], model, dims)
    {
      UntouchedIsStopped(types[i], was[i], model, dims);
    }
  }

  // ---- until applied ---------------------------------------------------------------------

  /** Stopping twice is stopping once, further on. */
  lemma StoppedTwice(t: Source, was: Found, mid: Found, model: string, dims: nat)
    requires Stopped(t, mid, model, dims)
    requires was.trace <= mid.trace && (was.disturbed ==> mid.disturbed) && was.landed <= mid.landed
    requires !mid.disturbed ==> mid.rows == was.rows
    requires !mid.disturbed ==>
      LeftAfter(t.warehouse.w, ConfigOf(t, model, dims), Current(was.rows), was.stored, mid.stored,
                mid.landed - was.landed)
    ensures Stopped(t, was, model, dims)
    ensures Levelled(t, mid, model, dims) ==> Levelled(t, was, model, dims)
    ensures Quiet(t) ==> (!ModelChanged(was.stored, model) ==> !ModelChanged(mid.stored, model))
  {
    hide LeftAfter, Level, Current, ModelChanged;
    if Quiet(t) {
      var w, c, current := t.warehouse.w, ConfigOf(t, model, dims), Current(was.rows);
      StopsAdd(w, c, current, was.stored, mid.stored, t.warehouse.state.stored,
               mid.landed - was.landed, t.warehouse.landed - mid.landed);
      LeadsOn(w, c, current, was.stored, mid.stored, mid.landed - was.landed);
    }
  }

  /** Level, and exactly what was due at first was ever written. */
  ghost predicate Finished(t: Source, was: Found, model: string, dims: nat)
    reads t.warehouse
  {
    Quiet(t) ==>
      && t.warehouse.state.stored == Level(t.warehouse.w, ConfigOf(t, model, dims), Current(was.rows), was.stored)
      && t.warehouse.landed == was.landed + |Pending(ConfigOf(t, model, dims), Current(was.rows), was.stored)|
  }

  lemma LevelledIsFinished(t: Source, was: Found, model: string, dims: nat)
    requires Stopped(t, was, model, dims) && Levelled(t, was, model, dims)
    ensures Finished(t, was, model, dims)
  {
    hide LeftAfter, Level, Current, Pending;
    if Quiet(t) {
      LevelWroteAll(t.warehouse.w, ConfigOf(t, model, dims), Current(was.rows), was.stored,
                    t.warehouse.landed - was.landed);
    }
  }

  /** Run the reconcile again, with the same flag, for as long as it is interrupted. Wherever it stopped
      each time, once it is applied every sidecar is the one a single run would have left, and all the runs
      together wrote exactly what the first set out to write. Only the first can be refused for its model. */
  method ReconcileAgain(types: seq<Source>, ghost w: Embedder, run: nat, model: string, dims: nat, remodel: bool,
                        tries: nat, ghost was: seq<Found>)
    returns (status: Status)
    requires OwnWarehouses(types) && AllFree(types, w, run) && AllAsFound(types, was)
    modifies Warehouses(types)
    ensures AllFree(types, w, run) && !status.Previewed?
    ensures forall i | 0 <= i < |types| :: Stopped(types[i], was[i], model, dims)
    ensures status.Applied? ==> forall i | 0 <= i < |types| :: Finished(types[i], was[i], model, dims)
    ensures AllQuiet(types) ==> (status.ModelRefused? <==> !remodel && AnyChanged(was, model))
  {
    hide AnyChanged, Free, Since, Levelled, Stopped, Untouched, Finished;
    var reports;
    status, reports := ReconcileAll(types, w, run, model, dims, false, remodel, was);
    var k := 0;
    while status.Interrupted? && k < tries
      invariant AllFree(types, w, run) && !status.Previewed?
      invariant forall i | 0 <= i < |types| :: Stopped(types[i], was[i], model, dims)
      invariant status.Applied? ==> forall i | 0 <= i < |types| :: Levelled(types[i], was[i], model, dims)
      invariant AllQuiet(types) ==> (status.ModelRefused? <==> !remodel && AnyChanged(was, model))
    {
      status := ReconcileMore(types, w, run, model, dims, remodel, was);
      k := k + 1;
    }
    if status.Applied? {
      forall i | 0 <= i < |types|
        ensures Finished(types[i], was[i], model, dims)
      {
        LevelledIsFinished(types[i], was[i], model, dims);
      }
    }
  }

  /** A run over what an interrupted one left. */
  method ReconcileMore(types: seq<Source>, ghost w: Embedder, run: nat, model: string, dims: nat, remodel: bool,
                       ghost was: seq<Found>)
    returns (status: Status)
    requires OwnWarehouses(types) && AllFree(types, w, run) && |was| == |types|
    requires forall i | 0 <= i < |types| :: Stopped(types[i], was[i], model, dims)
    requires AllQuiet(types) ==> remodel || !AnyChanged(was, model)
    modifies Warehouses(types)
    ensures AllFree(types, w, run) && !status.Previewed?
    ensures forall i | 0 <= i < |types| :: Stopped(types[i], was[i], model, dims)
    ensures status.Applied? ==> forall i | 0 <= i < |types| :: Levelled(types[i], was[i], model, dims)
    ensures AllQuiet(types) ==> old(AllQuiet(types)) && (status.ModelRefused? <==> !remodel && AnyChanged(was, model))
  {
    hide Free, ModelChanged, Levelled, LeftAfter, Level, Current;
    ghost var mid: seq<Found> := [];
    ghost var k := 0;
    while k < |types|
      invariant 0 <= k <= |types| && |mid| == k
      invariant forall i | 0 <= i < k :: mid[i] == AsFound(types[i])
    {
      mid := mid + [AsFound(types[k])];
      k := k + 1;
    }
    label Before:
    assert forall i | 0 <= i < |types| :: Stopped(types[i], was[i], model, dims);
    var reports;
    status, reports := ReconcileAll(types, w, run, model, dims, false, remodel, mid);
    forall i | 0 <= i < |types|
      ensures Stopped(types[i], was[i], model, dims)
      ensures status.Applied? ==> Levelled(types[i], was[i], model, dims)
      ensures Quiet(types[i]) ==> (!ModelChanged(was[i].stored, model) ==> !ModelChanged(mid[i].stored, model))
    {
      assert old(Stopped(types[i], was[i], model, dims));
      assert mid[i] == old(AsFound(types[i]));
      StoppedTwice(types[i], was[i], mid[i], model, dims);
    }
  }
}
