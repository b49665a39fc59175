/** Keys in batches: the list a set of keys is worked through in, and the rows a batch is written as. */
module Batches {
  import opened Values
  import opened Wrappers
  import opened VectorStore

  predicate Distinct(list: seq<Value>) {
    forall i, j | 0 <= i < j < |list| :: list[i] != list[j]
  }

  function Elements(list: seq<Value>): set<Value> {
    set i | 0 <= i < |list| :: list[i]
  }

  method Listed(keys: set<Value>) returns (list: seq<Value>)
    ensures Distinct(list) && Elements(list) == keys && |list| == |keys|
  {
    list := [];
    var todo := keys;
    while todo != {}
      invariant todo <= keys && |list| + |todo| == |keys|
      invariant Distinct(list) && Elements(list) == keys - todo
      decreases todo
    {
      var k :| k in todo;
      ElementsAppend(list, [k]);
      assert Elements([k]) == {k} by {
        assert [k][0] == k;
      }
      forall i | 0 <= i < |list|
        ensures list[i] != k
      {
        assert list[i] in Elements(list);
      }
      list := list + [k];
      todo := todo - {k};
    }
  }

  lemma {:induction false} DistinctCount(list: seq<Value>)
    requires Distinct(list)
    ensures |Elements(list)| == |list|
  {
    if list != [] {
      var front, last := list[..|list| - 1], list[|list| - 1];
      DistinctCount(front);
      assert Elements(list) == Elements(front) + {last};
      assert last !in Elements(front);
    } else {
      assert Elements(list) == {};
    }
  }

  lemma ElementsAppend(a: seq<Value>, b: seq<Value>)
    ensures Elements(a + b) == Elements(a) + Elements(b)
  {
    forall k | k in Elements(b)
      ensures k in Elements(a + b)
    {
      var i :| 0 <= i < |b| && b[i] == k;
      assert (a + b)[|a| + i] == k;
    }
    forall k | k in Elements(a)
      ensures k in Elements(a + b)
    {
      var i :| 0 <= i < |a| && a[i] == k;
      assert (a + b)[i] == k;
    }
  }

  lemma SliceElements(list: seq<Value>, a: nat, b: nat)
    requires a <= b <= |list| && Distinct(list)
    ensures Elements(list[..b]) == Elements(list[..a]) + Elements(list[a..b])
    ensures |Elements(list[a..b])| == b - a && |Elements(list[..b])| == b
    ensures Elements(list[a..b]) <= Elements(list)
  {
    hide Elements;
    DistinctCount(list[a..b]);
    DistinctCount(list[..b]);
    assert list[..b] == list[..a] + list[a..b];
    ElementsAppend(list[..a], list[a..b]);
    assert list == list[..b] + list[b..];
    ElementsAppend(list[..b], list[b..]);
  }

  // ---- a batch as rows -------------------------------------------------------------------

  /** Every key of a batch has text. */
  predicate HaveText(current: map<Value, string>, keys: seq<Value>) {
    forall i | 0 <= i < |keys| :: keys[i] in current
  }

  function Texts(current: map<Value, string>, keys: seq<Value>): seq<string>
    requires HaveText(current, keys)
  {
    seq(|keys|, i requires 0 <= i < |keys| => current[keys[i]])
  }

  /** What a provider answers: one vector for each text, in order. */
  function Vectors(w: Embedder, c: Config, texts: seq<string>): seq<Vector> {
    seq(|texts|, i requires 0 <= i < |texts| => w(c.model, c.dims, texts[i]))
  }

  /** Keys, vectors and hashes paired by position. */
  function Zipped(c: Config, current: map<Value, string>, keys: seq<Value>, vectors: seq<Vector>): Stored
    requires HaveText(current, keys) && |vectors| == |keys|
  {
    if keys == [] then map[]
    else
      var n := |keys| - 1;
      Zipped(c, current, keys[..n], vectors[..n])[keys[n] :=
        VectorRow(c.property, Some(c.model), c.dims, vectors[n], Some(Digest(c, current[keys[n]])))]
  }

  method Zip(c: Config, current: map<Value, string>, keys: seq<Value>, vectors: seq<Vector>) returns (rows: Stored)
    requires HaveText(current, keys) && |vectors| == |keys|
    ensures rows == Zipped(c, current, keys, vectors)
  {
    rows := map[];
    var i := 0;
    while i < |keys|
      invariant 0 <= i <= |keys| && rows == Zipped(c, current, keys[..i], vectors[..i])
    {
      var digest := Digest(c, current[keys[i]]);
      rows := rows[keys[i] := VectorRow(c.property, Some(c.model), c.dims, vectors[i], Some(digest))];
      i := i + 1;
      assert keys[..i][..i - 1] == keys[..i - 1] && vectors[..i][..i - 1] == vectors[..i - 1];
    }
    assert keys[..i] == keys && vectors[..i] == vectors;
  }

  /** The rows due for these keys. */
  function FreshRows(w: Embedder, c: Config, current: map<Value, string>, keys: set<Value>): Stored
    requires keys <= current.Keys
  {
    map k | k in keys :: FreshRow(w, c, current[k])
  }

  lemma HaveTextElements(current: map<Value, string>, keys: seq<Value>)
    ensures HaveText(current, keys) <==> Elements(keys) <= current.Keys
  {
    if Elements(keys) <= current.Keys {
      forall i | 0 <= i < |keys|
        ensures keys[i] in current
      {
        assert keys[i] in Elements(keys);
      }
    }
  }

  lemma FreshRowsGrow(w: Embedder, c: Config, current: map<Value, string>, keys: set<Value>, key: Value)
    requires keys <= current.Keys && key in current
    ensures FreshRows(w, c, current, keys + {key})
         == FreshRows(w, c, current, keys)[key := FreshRow(w, c, current[key])]
  {
    hide FreshRow;
  }

  lemma VectorsOfFirst(w: Embedder, c: Config, current: map<Value, string>, keys: seq<Value>, n: nat)
    requires HaveText(current, keys) && n <= |keys|
    ensures Vectors(w, c, Texts(current, keys[..n])) == Vectors(w, c, Texts(current, keys))[..n]
    ensures n < |keys| ==> Vectors(w, c, Texts(current, keys))[n] == w(c.model, c.dims, current[keys[n]])
  {
  }

  /** Answered one vector per text, a batch zips up to the fresh rows of its keys: no vector lands under
      another key's hash. */
  lemma {:induction false} ZippedIsFresh(w: Embedder, c: Config, current: map<Value, string>, keys: seq<Value>)
    requires HaveText(current, keys)
    ensures Elements(keys) <= current.Keys
    ensures Zipped(c, current, keys, Vectors(w, c, Texts(current, keys))) == FreshRows(w, c, current, Elements(keys))
  {
    HaveTextElements(current, keys);
    if keys == [] {
      assert Elements(keys) == {};
    } else {
      hide Elements, FreshRows, Digest;
      var n := |keys| - 1;
      ZippedIsFresh(w, c, current, keys[..n]);
      VectorsOfFirst(w, c, current, keys, n);
      assert keys == keys[..n] + [keys[n]];
      ElementsAppend(keys[..n], [keys[n]]);
      OneElement(keys[n]);
      FreshRowsGrow(w, c, current, Elements(keys[..n]), keys[n]);
    }
  }

  lemma OneElement(key: Value)
    ensures Elements([key]) == {key}
  {
    assert [key][0] == key;
  }

  lemma FreshRowsSize(w: Embedder, c: Config, current: map<Value, string>, keys: set<Value>)
    requires keys <= current.Keys
    ensures |FreshRows(w, c, current, keys)| == |keys|
  {
    assert FreshRows(w, c, current, keys).Keys == keys;
  }

  lemma MergeMidWay(w: Embedder, c: Config, current: map<Value, string>, stored: Stored, gone: set<Value>,
                    written: set<Value>, batch: set<Value>)
    requires written <= current.Keys && batch <= current.Keys
    ensures MidWay(w, c, current, stored, gone, written) + FreshRows(w, c, current, batch)
         == MidWay(w, c, current, stored, gone, written + batch)
  {
  }
}
