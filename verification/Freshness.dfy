/** A fresh vector is a correct one. Reconciles under any models interleave with each other, with edits of
    the table, with deletes that prune and with crashes; whatever their order, a stored hash that matches a
    text stands beside the vector its model makes of that text. */
module Freshness {
  import opened Wrappers
  import opened Values
  import opened VectorStore
  import opened TextScan
  import opened Batches

  /** A reconcile under way: the text it scanned, what it means to prune and to embed, the batch it holds
      vectors for, and the sidecar's version it will assert. */
  datatype Reconcile =
    | Started(c: Config)
    | Scanned(c: Config, current: map<Value, string>)
    | Diffed(c: Config, current: map<Value, string>, orphans: set<Value>, pending: set<Value>)
    | Writing(c: Config, current: map<Value, string>, pending: set<Value>)
    | Embedded(c: Config, current: map<Value, string>, pending: set<Value>, keys: seq<Value>, vectors: seq<Vector>)
    | Poised(c: Config, current: map<Value, string>, pending: set<Value>, keys: seq<Value>, vectors: seq<Vector>,
             snap: nat)

  /** The object's table, its sidecar and the sidecar's version, and everyone reconciling it. */
  datatype State = State(rows: seq<TextRow>, stored: Stored, version: nat, runs: map<nat, Reconcile>)

  datatype Step =
    | EditTable(rows: seq<TextRow>)
    | PruneVector(key: Value)
    | Start(run: nat, c: Config)
    | Scan(run: nat)
    | Diff(run: nat)
    | PruneOrphans(run: nat)
    | AskModel(run: nat, keys: seq<Value>)
    | ReadSnapshot(run: nat)
    | MergeBatch(run: nat)
    | Stop(run: nat)

  function Put(s: State, run: nat, r: Reconcile): State {
    s.(runs := s.runs[run := r])
  }

  /** A commit of the sidecar. */
  function Commit(s: State, stored: Stored): State {
    s.(stored := stored, version := s.version + 1)
  }

  /** A run's own step, or nothing where the step is not its next one. */
  function RunStep(w: Embedder, s: State, run: nat, r: Reconcile, step: Step): Option<State> {
    match (step, r)
    case (Scan(_), Started(c)) => Some(Put(s, run, Scanned(c, Current(s.rows))))
    case (Diff(_), Scanned(c, current)) =>
      Some(Put(s, run, Diffed(c, current, Orphans(current, s.stored), Pending(c, current, s.stored))))
    case (PruneOrphans(_), Diffed(c, current, orphans, pending)) =>
      var t := if orphans == {} then s else Commit(s, s.stored - orphans);
      Some(Put(t, run, Writing(c, current, pending)))
    case (AskModel(_, keys), Writing(c, current, pending)) =>
      if !(Elements(keys) <= pending) || !HaveText(current, keys) then None
      else Some(Put(s, run, Embedded(c, current, pending, keys, Vectors(w, c, Texts(current, keys)))))
    case (ReadSnapshot(_), Embedded(c, current, pending, keys, vectors)) =>
      Some(Put(s, run, Poised(c, current, pending, keys, vectors, s.version)))
    case (MergeBatch(_), Poised(c, current, pending, keys, vectors, snap)) =>
      if snap != s.version || |vectors| != |keys| || !HaveText(current, keys) then None
      else Some(Put(Commit(s, s.stored + Zipped(c, current, keys, vectors)), run,
                    Writing(c, current, pending - Elements(keys))))
    case (Stop(_), _) => Some(s.(runs := s.runs - {run}))
    case _ => None
  }

  function Next(w: Embedder, s: State, step: Step): Option<State> {
    match step
    case EditTable(rows) => Some(s.(rows := rows))
    case PruneVector(key) => Some(Commit(s, s.stored - {key}))
    case Start(run, c) => if run in s.runs then None else Some(Put(s, run, Started(c)))
    case _ => if step.run !in s.runs then None else RunStep(w, s, step.run, s.runs[step.run], step)
  }

  function Execute(w: Embedder, s: State, steps: seq<Step>): Option<State> {
    if steps == [] then Some(s)
    else
      match Execute(w, s, steps[..|steps| - 1])
      case None => None
      case Some(before) => Next(w, before, steps[|steps| - 1])
  }

  // ---- what is kept ----------------------------------------------------------------------

  /** A stored row with a hash holds what its model makes of the text the hash was taken of. */
  ghost predicate Honest(w: Embedder, r: VectorRow) {
    r.hash.Some? && r.model.Some? ==> exists text :: MadeOf(w, r, text)
  }

  ghost predicate MadeOf(w: Embedder, r: VectorRow, text: string)
    requires r.model.Some?
  {
    r.hash == Some(SourceHash(text, r.model.value, r.dims, r.property)) && r.vector == w(r.model.value, r.dims, text)
  }

  ghost predicate AllHonest(w: Embedder, stored: Stored) {
    forall k | k in stored :: Honest(w, stored[k])
  }

  /** The vectors a run holds are the model's, text by text. */
  ghost predicate Answered(w: Embedder, r: Reconcile) {
    r.Embedded? || r.Poised? ==> HaveText(r.current, r.keys) && r.vectors == Vectors(w, r.c, Texts(r.current, r.keys))
  }

  ghost predicate Invariant(w: Embedder, s: State) {
    AllHonest(w, s.stored) && forall run | run in s.runs :: Answered(w, s.runs[run])
  }

  /** Nobody is reconciling yet, and what is stored is honest. */
  ghost predicate Initial(w: Embedder, s: State) {
    s.runs == map[] && AllHonest(w, s.stored)
  }

  lemma FreshIsHonest(w: Embedder, c: Config, text: string)
    ensures Honest(w, FreshRow(w, c, text))
  {
    assert MadeOf(w, FreshRow(w, c, text), text);
  }

  lemma BatchIsHonest(w: Embedder, c: Config, current: map<Value, string>, keys: seq<Value>, stored: Stored)
    requires HaveText(current, keys) && AllHonest(w, stored)
    ensures AllHonest(w, stored + Zipped(c, current, keys, Vectors(w, c, Texts(current, keys))))
  {
    hide Honest, FreshRow, Zipped;
    ZippedIsFresh(w, c, current, keys);
    forall k | k in Elements(keys)
      ensures Honest(w, FreshRow(w, c, current[k]))
    {
      FreshIsHonest(w, c, current[k]);
    }
  }

  lemma NextKeeps(w: Embedder, s: State, step: Step)
    requires Invariant(w, s) && Next(w, s, step).Some?
    ensures Invariant(w, Next(w, s, step).value)
  {
    hide Honest, Zipped, Vectors, Texts, Pending, Orphans, Current, Elements;
    if step.MergeBatch? {
      var r := s.runs[step.run];
      assert Answered(w, r);
      BatchIsHonest(w, r.c, r.current, r.keys, s.stored);
    }
  }

  lemma {:induction false} ExecutionKeeps(w: Embedder, s: State, steps: seq<Step>)
    requires Initial(w, s) && Execute(w, s, steps).Some?
    ensures Invariant(w, Execute(w, s, steps).value)
  {
    hide Next, AllHonest, Answered;
    if steps != [] {
      ExecutionKeeps(w, s, steps[..|steps| - 1]);
      NextKeeps(w, Execute(w, s, steps[..|steps| - 1]).value, steps[|steps| - 1]);
    }
  }

  // ---- a ranked row ----------------------------------------------------------------------

  /** The rows a ranked read may score: those of the query's model, width and property. */
  predicate Comparable(r: VectorRow, c: Config) {
    r.model == Some(c.model) && r.dims == c.dims && r.property == c.property
  }

  /** Whether a ranked row is reported stale. A sidecar without the column cannot be decided about. */
  predicate Stale(c: Config, r: VectorRow, shown: Value) {
    var text := Embeddable(shown);
    r.hash.Some? && (text.None? || r.hash.value != Digest(c, text.value))
  }

  /** In every reachable state, a ranked row that has a hash and is not reported stale was scored by the
      vector its model makes of the text the row shows. */
  lemma FreshMatchIsCurrent(w: Embedder, s: State, steps: seq<Step>, c: Config, key: Value, shown: Value)
    requires Initial(w, s) && Execute(w, s, steps).Some?
    requires key in Execute(w, s, steps).value.stored
    requires var r := Execute(w, s, steps).value.stored[key];
             Comparable(r, c) && r.hash.Some? && !Stale(c, r, shown)
    ensures Embeddable(shown).Some?
    ensures Execute(w, s, steps).value.stored[key].vector == w(c.model, c.dims, Embeddable(shown).value)
  {
    hide SourceHash, Embeddable, Next;
    ExecutionKeeps(w, s, steps);
    var r := Execute(w, s, steps).value.stored[key];
    assert Honest(w, r);
    var text :| MadeOf(w, r, text);
    SameHashSameSource(text, c.model, c.dims, c.property, Embeddable(shown).value, c.model, c.dims, c.property);
  }

  /** A row is reported stale exactly when its text is no longer the one that was embedded. */
  lemma StaleIffTextMoved(w: Embedder, c: Config, embedded: string, shown: Value)
    ensures Stale(c, FreshRow(w, c, embedded), shown) <==> Embeddable(shown) != Some(embedded)
  {
    hide SourceHash, Embeddable;
    if Embeddable(shown).Some? && Digest(c, embedded) == Digest(c, Embeddable(shown).value) {
      SameHashSameSource(embedded, c.model, c.dims, c.property, Embeddable(shown).value, c.model, c.dims, c.property);
    }
  }
}
