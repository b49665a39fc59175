/** The sidecar of one object type: what a stored vector says of itself, and what makes it stale. */
module VectorStore {
  import opened Wrappers
  import opened Values
  import opened Lexer
  import opened Rendering
  import opened LexRoundTrip
  import Parser

  // ---- the hash --------------------------------------------------------------------------

  /** One part of what is hashed, behind its length. */
  function Part(p: string): string {
    NatToString(|p|) + ":" + p
  }

  function Payload(parts: seq<string>): string {
    if parts == [] then [] else Part(parts[0]) + Payload(parts[1..])
  }

  /** The text that is hashed. The hash is taken to be free of collisions, so this stands for it. */
  function SourceHash(text: string, model: string, dims: nat, property: string): string {
    Payload([text, model, NatToString(dims), property])
  }

  datatype Read = Read(part: string, rest: string) | Unreadable

  /** The first part of a payload and what follows it. */
  function ReadPart(s: string): Read {
    var n := SpanLen(s, IsDigit);
    var size := LeadingNat(s);
    if n == |s| || s[n] != ':' || |s| - n - 1 < size then Unreadable
    else Read(s[n + 1..n + 1 + size], s[n + 1 + size..])
  }

  function LeadingNat(s: string): nat {
    var n := SpanLen(s, IsDigit);
    assert AllDigits(s[..n]) by {
      forall k | 0 <= k < n ensures IsDigit(s[..n][k]) { assert s[..n][k] in s[..n]; }
    }
    ParseNat(s[..n])
  }

  function ReadParts(s: string, count: nat): seq<string> {
    if count == 0 then []
    else
      match ReadPart(s)
      case Unreadable => []
      case Read(part, rest) => [part] + ReadParts(rest, count - 1)
  }

  lemma PartReads(p: string, rest: string)
    ensures ReadPart(Part(p) + rest) == Read(p, rest)
  {
    var digits, tail := NatToString(|p|), ":" + p + rest;
    assert Part(p) + rest == digits + tail;
    SpanAll(digits, tail, IsDigit);
    assert (digits + tail)[..|digits|] == digits;
    NatRoundTrip(|p|);
    var s := digits + tail;
    var n := |digits|;
    assert s[n] == ':';
    assert s[n + 1..n + 1 + |p|] == p && s[n + 1 + |p|..] == rest;
  }

  /** A payload can be read back, part by part, whatever the parts contain. */
  lemma {:induction false} PayloadReads(parts: seq<string>)
    ensures ReadParts(Payload(parts), |parts|) == parts
  {
    hide ReadPart, Part;
    if parts != [] {
      PartReads(parts[0], Payload(parts[1..]));
      PayloadReads(parts[1..]);
      assert parts == [parts[0]] + parts[1..];
    }
  }

  /** Equal hashes come from equal texts, models, widths and properties. */
  lemma SameHashSameSource(t: string, m: string, d: nat, p: string, t': string, m': string, d': nat, p': string)
    requires SourceHash(t, m, d, p) == SourceHash(t', m', d', p')
    ensures t == t' && m == m' && d == d' && p == p'
  {
    var a, b := [t, m, NatToString(d), p], [t', m', NatToString(d'), p'];
    PayloadReads(a);
    PayloadReads(b);
    assert a == b;
    assert a[0] == b[0] && a[1] == b[1] && a[2] == b[2] && a[3] == b[3];
    NatRoundTrip(d);
    NatRoundTrip(d');
  }

  // ---- what is stored --------------------------------------------------------------------

  type Vector = seq<real>

  /** The models: what each makes of a text, at a width. */
  type Embedder = (string, nat, string) -> Vector

  /** What a deployment embeds a type with. */
  datatype Config = Config(model: string, dims: nat, property: string)

  /** A stored row. A sidecar that predates a column holds nothing in it. */
  datatype VectorRow = VectorRow(property: string, model: Option<string>, dims: nat, vector: Vector,
                                 hash: Option<string>)

  type Stored = map<Value, VectorRow>

  function Digest(c: Config, text: string): string {
    SourceHash(text, c.model, c.dims, c.property)
  }

  function FreshRow(w: Embedder, c: Config, text: string): VectorRow {
    VectorRow(c.property, Some(c.model), c.dims, w(c.model, c.dims, text), Some(Digest(c, text)))
  }

  /** The text to embed: null, blank and anything but a string have none. */
  function Embeddable(v: Value): Option<string> {
    if !v.Str? || Parser.Strip(v.s) == [] then None else Some(Parser.Strip(v.s))
  }

  // ---- what a reconcile owes -------------------------------------------------------------

  /** The keys whose stored hash is not that of their present text. */
  function Pending(c: Config, current: map<Value, string>, stored: Stored): set<Value> {
    set k | k in current && (k !in stored || stored[k].hash != Some(Digest(c, current[k])))
  }

  /** The stored keys that have no text any more. */
  function Orphans(current: map<Value, string>, stored: Stored): set<Value> {
    stored.Keys - current.Keys
  }

  /** The sidecar level with the text: fresh rows where they were due, the stored ones elsewhere. */
  function Level(w: Embedder, c: Config, current: map<Value, string>, stored: Stored): Stored {
    map k | k in current :: if k in Pending(c, current, stored) then FreshRow(w, c, current[k]) else stored[k]
  }

  /** What a reconcile that stopped has done: pruned what it would prune, or not yet, and written some. */
  function MidWay(w: Embedder, c: Config, current: map<Value, string>, stored: Stored, gone: set<Value>,
                  written: set<Value>)
    : Stored
    requires written <= current.Keys
  {
    (stored - gone) + (map k | k in written :: FreshRow(w, c, current[k]))
  }

  /** A level sidecar holds exactly the keys that have text, each with its present hash, and leaves
      nothing to embed and nothing to prune. */
  lemma LevelIsDone(w: Embedder, c: Config, current: map<Value, string>, stored: Stored)
    ensures var level := Level(w, c, current, stored);
      && level.Keys == current.Keys
      && (forall k | k in current :: level[k].hash == Some(Digest(c, current[k])))
      && Pending(c, current, level) == {} && Orphans(current, level) == {}
      && Level(w, c, current, level) == level
  {
  }

  lemma PendingMidWay(w: Embedder, c: Config, current: map<Value, string>, stored: Stored,
                      gone: set<Value>, written: set<Value>)
    requires gone <= Orphans(current, stored) && written <= Pending(c, current, stored)
    ensures var mid := MidWay(w, c, current, stored, gone, written);
      && Pending(c, current, mid) == Pending(c, current, stored) - written
      && Orphans(current, mid) == Orphans(current, stored) - gone
      && (forall k | k in written :: k in mid && mid[k] == FreshRow(w, c, current[k]))
      && (forall k | k in current && k !in written && k in stored :: k in mid && mid[k] == stored[k])
  {
    hide SourceHash;
    var mid := MidWay(w, c, current, stored, gone, written);
    forall k
      ensures k in Pending(c, current, mid) <==> k in Pending(c, current, stored) - written
    {
      if k in current {
        assert k in written ==> mid[k] == FreshRow(w, c, current[k]);
      }
    }
    assert Pending(c, current, mid) == Pending(c, current, stored) - written;
    assert Orphans(current, mid) == Orphans(current, stored) - gone;
  }

  lemma LevelMidWay(w: Embedder, c: Config, current: map<Value, string>, stored: Stored,
                    gone: set<Value>, written: set<Value>)
    requires gone <= Orphans(current, stored) && written <= Pending(c, current, stored)
    ensures Level(w, c, current, MidWay(w, c, current, stored, gone, written)) == Level(w, c, current, stored)
  {
    hide FreshRow, Orphans, SourceHash;
    PendingMidWay(w, c, current, stored, gone, written);
    var mid := MidWay(w, c, current, stored, gone, written);
    forall k | k in current
      ensures Level(w, c, current, mid)[k] == Level(w, c, current, stored)[k]
    {
      if k !in Pending(c, current, stored) {
        NotPendingIsStored(c, current, stored, k);
      }
    }
  }

  lemma NotPendingIsStored(c: Config, current: map<Value, string>, stored: Stored, k: Value)
    requires k in current && k !in Pending(c, current, stored)
    ensures k in stored
  {
  }

  /** Stopping anywhere and starting over ends where a single run does, and embeds exactly what is left. */
  lemma ResumesWhereItStopped(w: Embedder, c: Config, current: map<Value, string>, stored: Stored,
                              gone: set<Value>, written: set<Value>)
    requires gone <= Orphans(current, stored) && written <= Pending(c, current, stored)
    ensures var mid := MidWay(w, c, current, stored, gone, written);
      && Level(w, c, current, mid) == Level(w, c, current, stored)
      && Pending(c, current, mid) == Pending(c, current, stored) - written
      && |Pending(c, current, mid)| + |written| == |Pending(c, current, stored)|
      && Orphans(current, mid) == Orphans(current, stored) - gone
  {
    hide Pending, Orphans, MidWay, Level;
    PendingMidWay(w, c, current, stored, gone, written);
    LevelMidWay(w, c, current, stored, gone, written);
    assert (Pending(c, current, stored) - written) + written == Pending(c, current, stored);
  }

  /** Everything due written and every orphan gone is the level sidecar. */
  lemma AllDoneIsLevel(w: Embedder, c: Config, current: map<Value, string>, stored: Stored)
    ensures MidWay(w, c, current, stored, Orphans(current, stored), Pending(c, current, stored))
         == Level(w, c, current, stored)
  {
  }

  // ---- model changes ---------------------------------------------------------------------

  /** Vectors of another model: a missing or empty model is not one. */
  predicate OtherModel(r: VectorRow, model: string) {
    r.model.Some? && r.model.value != "" && r.model.value != model
  }

  predicate ModelChanged(stored: Stored, model: string) {
    exists k :: k in stored && OtherModel(stored[k], model)
  }

  /** A run that was let through is let through again wherever it stopped. */
  lemma StaysUnchanged(w: Embedder, c: Config, current: map<Value, string>, stored: Stored, gone: set<Value>,
                       written: set<Value>)
    requires written <= current.Keys && !ModelChanged(stored, c.model)
    ensures !ModelChanged(MidWay(w, c, current, stored, gone, written), c.model)
  {
  }
}
