/** The scan of a table's text: which keys are to have a vector and of what, and how every row is accounted
    for. */
module TextScan {
  import opened Wrappers
  import opened Values
  import opened VectorStore

  /** A row of the object's table as the scan projects it: its key and its text column. */
  datatype TextRow = TextRow(key: Value, cell: Value)

  // ---- what the scan makes of the rows ---------------------------------------------------

  function Count(rows: seq<TextRow>, key: Value): nat {
    if rows == [] then 0
    else Count(rows[..|rows| - 1], key) + if rows[|rows| - 1].key == key then 1 else 0
  }

  /** The text of the first row under a key. */
  function FirstText(rows: seq<TextRow>, key: Value): Option<string> {
    if rows == [] then None
    else
      var front, last := rows[..|rows| - 1], rows[|rows| - 1];
      if Count(front, key) > 0 then FirstText(front, key)
      else if last.key == key then Embeddable(last.cell)
      else None
  }

  function Keys(rows: seq<TextRow>): set<Value> {
    set i | 0 <= i < |rows| && !rows[i].key.Null? :: rows[i].key
  }

  /** The keys that occur once and have text, with their text. */
  function Current(rows: seq<TextRow>): map<Value, string> {
    map k | k in Keys(rows) && Count(rows, k) == 1 && FirstText(rows, k).Some? :: FirstText(rows, k).value
  }

  /** The keys that occur more than once, and whose first row had text. */
  function Withdrawn(rows: seq<TextRow>): set<Value> {
    set k | k in Keys(rows) && Count(rows, k) > 1 && FirstText(rows, k).Some?
  }

  datatype Skipped = Skipped(withoutText: nat, unkeyed: nat, ambiguous: nat) {
    function Sum(): nat {
      withoutText + unkeyed + ambiguous
    }
  }

  /** The rows passed over: without a key, repeating a key, or first under a key and without text. */
  function PassedOver(rows: seq<TextRow>): Skipped {
    if rows == [] then Skipped(0, 0, 0)
    else
      var front, last := rows[..|rows| - 1], rows[|rows| - 1];
      var s := PassedOver(front);
      if last.key.Null? then s.(unkeyed := s.unkeyed + 1)
      else if last.key in Keys(front) then s.(ambiguous := s.ambiguous + 1)
      else if Embeddable(last.cell).None? then s.(withoutText := s.withoutText + 1)
      else s
  }

  lemma {:induction false} CountIsKeys(rows: seq<TextRow>, key: Value)
    ensures !key.Null? ==> (key in Keys(rows) <==> Count(rows, key) > 0)
  {
    if rows != [] {
      var front, last := rows[..|rows| - 1], rows[|rows| - 1];
      CountIsKeys(front, key);
      assert rows == front + [last];
      KeysSnoc(front, last);
    }
  }

  lemma KeysSnoc(rows: seq<TextRow>, row: TextRow)
    ensures Keys(rows + [row]) == Keys(rows) + if row.key.Null? then {} else {row.key}
  {
    var all := rows + [row];
    assert all[|rows|] == row;
    forall k | k in Keys(rows)
      ensures k in Keys(all)
    {
      var i :| 0 <= i < |rows| && rows[i].key == k;
      assert all[i].key == k;
    }
  }

  lemma SnocParts(rows: seq<TextRow>, row: TextRow, k: Value)
    ensures Count(rows + [row], k) == Count(rows, k) + if row.key == k then 1 else 0
    ensures FirstText(rows + [row], k) ==
      if Count(rows, k) > 0 then FirstText(rows, k) else if row.key == k then Embeddable(row.cell) else None
    ensures PassedOver(rows + [row]) ==
      var s := PassedOver(rows);
      if row.key.Null? then s.(unkeyed := s.unkeyed + 1)
      else if row.key in Keys(rows) then s.(ambiguous := s.ambiguous + 1)
      else if Embeddable(row.cell).None? then s.(withoutText := s.withoutText + 1)
      else s
  {
    assert (rows + [row])[..|rows|] == rows && (rows + [row])[|rows|] == row;
  }

  lemma CurrentAt(rows: seq<TextRow>, k: Value)
    ensures k in Current(rows) <==> !k.Null? && Count(rows, k) == 1 && FirstText(rows, k).Some?
    ensures k in Current(rows) ==> Current(rows)[k] == FirstText(rows, k).value
    ensures k in Withdrawn(rows) <==> !k.Null? && Count(rows, k) > 1 && FirstText(rows, k).Some?
  {
    hide Count, FirstText;
    CountIsKeys(rows, k);
  }

  /** What one more row does to the map: nothing, a withdrawal, or an entry. */
  function NextCurrent(rows: seq<TextRow>, row: TextRow): map<Value, string> {
    if row.key.Null? then Current(rows)
    else if row.key in Keys(rows) then Current(rows) - {row.key}
    else if Embeddable(row.cell).None? then Current(rows)
    else Current(rows)[row.key := Embeddable(row.cell).value]
  }

  lemma SnocAt(rows: seq<TextRow>, row: TextRow, k: Value)
    ensures k in Current(rows + [row]) <==> k in NextCurrent(rows, row)
    ensures k in Current(rows + [row]) ==> Current(rows + [row])[k] == NextCurrent(rows, row)[k]
    ensures k in Withdrawn(rows + [row]) <==> k in Withdrawn(rows) || (k == row.key && k in Current(rows))
  {
    hide Count, FirstText, Current, Withdrawn, Keys, Embeddable;
    CurrentAt(rows, k);
    CurrentAt(rows + [row], k);
    SnocParts(rows, row, k);
    CountIsKeys(rows, k);
  }

  lemma CurrentSnoc(rows: seq<TextRow>, row: TextRow)
    ensures Current(rows + [row]) == NextCurrent(rows, row)
    ensures Withdrawn(rows + [row]) == Withdrawn(rows) + if row.key in Current(rows) then {row.key} else {}
  {
    hide Current, Withdrawn, NextCurrent;
    forall k: Value
      ensures k in Current(rows + [row]) <==> k in NextCurrent(rows, row)
      ensures k in Current(rows + [row]) ==> Current(rows + [row])[k] == NextCurrent(rows, row)[k]
      ensures k in Withdrawn(rows + [row]) <==> k in Withdrawn(rows) || (k == row.key && k in Current(rows))
    {
      SnocAt(rows, row, k);
    }
  }

  /** Row `i` is under this key and has this text. */
  predicate TextAt(rows: seq<TextRow>, i: nat, key: Value, text: string)
    requires i < |rows|
  {
    rows[i].key == key && Embeddable(rows[i].cell) == Some(text)
  }

  /** Exactly which keys are to have a vector, and of what: those that occur once, are not null, and have
      text. Every order of the rows gives the same. */
  lemma {:induction false} CurrentExactly(rows: seq<TextRow>, key: Value, text: string)
    ensures key in Current(rows) && Current(rows)[key] == text <==>
      && !key.Null? && Count(rows, key) == 1
      && exists i :: 0 <= i < |rows| && TextAt(rows, i, key, text)
  {
    hide Embeddable, Current;
    CurrentAt(rows, key);
    if Count(rows, key) == 1 {
      var i := Place(rows, key);
      OnlyText(rows, key, i);
      assert FirstText(rows, key) == Some(text) ==> TextAt(rows, i, key, text);
      forall j | 0 <= j < |rows| && TextAt(rows, j, key, text)
        ensures FirstText(rows, key) == Some(text)
      {
        OnlyText(rows, key, j);
      }
    }
  }

  /** Where a key occurs. */
  function Place(rows: seq<TextRow>, key: Value): (i: nat)
    requires Count(rows, key) > 0
    ensures i < |rows| && rows[i].key == key
  {
    var last := |rows| - 1;
    if rows[last].key == key then last else Place(rows[..last], key)
  }

  lemma {:induction false} OnlyText(rows: seq<TextRow>, key: Value, i: nat)
    requires i < |rows| && rows[i].key == key && Count(rows, key) == 1
    ensures FirstText(rows, key) == Embeddable(rows[i].cell)
  {
    hide Embeddable;
    var front, last := rows[..|rows| - 1], rows[|rows| - 1];
    if i < |front| {
      assert front[i].key == key;
      CountPositive(front, key, i);
      OnlyText(front, key, i);
    }
  }

  lemma {:induction false} CountPositive(rows: seq<TextRow>, key: Value, i: nat)
    requires i < |rows| && rows[i].key == key
    ensures Count(rows, key) > 0
  {
    if i < |rows| - 1 {
      CountPositive(rows[..|rows| - 1], key, i);
    }
  }

  /** Entries, rows passed over and withdrawn keys. */
  function Accounted(rows: seq<TextRow>): int {
    |Current(rows)| + PassedOver(rows).Sum() + |Withdrawn(rows)|
  }

  lemma WithdrawalCounts(current: map<Value, string>, withdrawn: set<Value>, key: Value)
    requires key in current && key !in withdrawn
    ensures |current - {key}| == |current| - 1 && |withdrawn + {key}| == |withdrawn| + 1
  {
    var less := current - {key};
    assert current.Keys == less.Keys + {key} && key !in less.Keys;
  }

  lemma EntryCounts(current: map<Value, string>, key: Value, text: string)
    requires key !in current
    ensures |current[key := text]| == |current| + 1
  {
    assert current[key := text].Keys == current.Keys + {key};
  }

  lemma NothingChanges(current: map<Value, string>, withdrawn: set<Value>, key: Value)
    ensures key !in current ==> current - {key} == current
    ensures withdrawn + {} == withdrawn
  {
  }

  /** One more row is one more accounted for. */
  lemma RowCounts(rows: seq<TextRow>, row: TextRow)
    ensures Accounted(rows + [row]) == Accounted(rows) + 1
  {
    hide Current, Withdrawn, Embeddable, Keys, PassedOver, Count, FirstText;
    CurrentSnoc(rows, row);
    SnocParts(rows, row, row.key);
    CurrentAt(rows, row.key);
    CountIsKeys(rows, row.key);
    NothingChanges(Current(rows), Withdrawn(rows), row.key);
    if row.key in Current(rows) {
      WithdrawalCounts(Current(rows), Withdrawn(rows), row.key);
    } else if Embeddable(row.cell).Some? {
      EntryCounts(Current(rows), row.key, Embeddable(row.cell).value);
    }
  }

  /** Every row scanned is accounted for once, except the first row of a duplicated key whose text was
      taken up and then withdrawn: that one is in no count. */
  lemma {:induction false} Accounting(rows: seq<TextRow>)
    ensures |Current(rows)| + PassedOver(rows).Sum() + |Withdrawn(rows)| == |rows|
  {
    if rows == [] {
      assert Current(rows).Keys == {} && Withdrawn(rows) == {};
    } else {
      hide Current, Withdrawn, PassedOver, Skipped.Sum;
      var front, last := rows[..|rows| - 1], rows[|rows| - 1];
      assert rows == front + [last];
      Accounting(front);
      RowCounts(front, last);
    }
  }

  method CurrentText(rows: seq<TextRow>) returns (out: map<Value, string>, skipped: Skipped)
    ensures out == Current(rows) && skipped == PassedOver(rows)
    ensures |out| + skipped.Sum() == |rows| - |Withdrawn(rows)|
  {
    out, skipped := map[], Skipped(0, 0, 0);
    var seen: set<Value> := {};
    var i := 0;
    while i < |rows|
      invariant 0 <= i <= |rows|
      invariant out == Current(rows[..i]) && skipped == PassedOver(rows[..i]) && seen == Keys(rows[..i])
    {
      var row := rows[i];
      assert rows[..i + 1] == rows[..i] + [row];
      CurrentSnoc(rows[..i], row);
      SnocParts(rows[..i], row, row.key);
      KeysSnoc(rows[..i], row);
      i := i + 1;
      if row.key.Null? {
        skipped := skipped.(unkeyed := skipped.unkeyed + 1);
        continue;
      }
      if row.key in seen {
        out := out - {row.key};
        skipped := skipped.(ambiguous := skipped.ambiguous + 1);
        continue;
      }
      seen := seen + {row.key};
      var text := Embeddable(row.cell);
      if text.None? {
        skipped := skipped.(withoutText := skipped.withoutText + 1);
        continue;
      }
      out := out[row.key := text.value];
    }
    assert rows[..i] == rows;
    Accounting(rows);
  }
}
