/** From the columns an ontology declares to the edits that bring a live table to them: the rename rules,
    the plan, and what applying the plan reaches. */
module Migration {
  import opened Wrappers
  import opened SchemaEdits

  datatype Column = Column(name: string, fieldType: string, required: bool, renamedFrom: Option<string>)

  function Get(fields: seq<Field>, name: string): (f: Option<Field>)
    ensures f.Some? ==> f.value in fields && f.value.name == name
    ensures f.None? ==> forall g | g in fields :: g.name != name
  {
    var i := Find(fields, name);
    if i == |fields| then None else Some(fields[i])
  }

  // ---- the rename rules ------------------------------------------------------------------

  predicate DistinctColumns(desired: seq<Column>) {
    forall i, j | 0 <= i < j < |desired| :: desired[i].name != desired[j].name
  }

  predicate Declares(desired: seq<Column>, name: string) {
    exists j :: 0 <= j < |desired| && desired[j].name == name
  }

  /** An earlier column is renamed from this one too. */
  predicate Taken(desired: seq<Column>, i: nat, from: string)
    requires i <= |desired|
  {
    exists j :: 0 <= j < i && desired[j].renamedFrom == Some(from)
  }

  /** A rename that takes a column nobody declares and nobody took before. */
  predicate RenameFits(desired: seq<Column>, i: nat)
    requires i < |desired|
  {
    desired[i].renamedFrom.Some? ==>
      !Declares(desired, desired[i].renamedFrom.value) && !Taken(desired, i, desired[i].renamedFrom.value)
  }

  predicate RenamesFit(desired: seq<Column>) {
    forall i | 0 <= i < |desired| :: RenameFits(desired, i)
  }

  /** The check as it runs: one pass, noting who renamed what. */
  method CheckRenames(desired: seq<Column>) returns (problems: nat)
    ensures problems == 0 <==> RenamesFit(desired)
  {
    hide Declares;
    problems := 0;
    var renamedBy: map<string, string> := map[];
    var i := 0;
    while i < |desired|
      invariant 0 <= i <= |desired|
      invariant forall from :: from in renamedBy <==> Taken(desired, i, from)
      invariant problems == 0 <==> forall j | 0 <= j < i :: RenameFits(desired, j)
    {
      var column := desired[i];
      TakenNext(desired, i);
      assert RenameFits(desired, i) <==> (column.renamedFrom.Some? ==>
        !Declares(desired, column.renamedFrom.value) && column.renamedFrom.value !in renamedBy);
      i := i + 1;
      if column.renamedFrom.Some? {
        var from := column.renamedFrom.value;
        if Declares(desired, from) {
          problems := problems + 1;
        }
        if from in renamedBy {
          problems := problems + 1;
        } else {
          renamedBy := renamedBy[from := column.name];
        }
      }
    }
  }

  lemma TakenNext(desired: seq<Column>, i: nat)
    requires i < |desired|
    ensures forall from ::
      Taken(desired, i + 1, from) <==> Taken(desired, i, from) || desired[i].renamedFrom == Some(from)
  {
  }

  // ---- the plan --------------------------------------------------------------------------

  /** The live column a declared one would be renamed from. */
  function Source(col: Column, live: seq<Field>): Option<Field> {
    if col.renamedFrom.Some? then Get(live, col.renamedFrom.value) else None
  }

  function RenameEdits(col: Column, live: seq<Field>): seq<Edit> {
    if Source(col, live).Some? then [Rename(col.name, col.renamedFrom.value)] else []
  }

  function PromoteEdits(col: Column, current: Field): seq<Edit> {
    if current.fieldType != col.fieldType then [Promote(col.name, col.fieldType)] else []
  }

  function RelaxEdits(col: Column, current: Field): seq<Edit> {
    if current.required != col.required then [Relax(col.name)] else []
  }

  /** One column's edits, or a breaking change: two live columns that cannot be merged, a required column
      to add, a type that does not widen, or a constraint to tighten. */
  function ColumnEdits(col: Column, live: seq<Field>, alterable: (string, string) -> bool): Result<seq<Edit>> {
    var old', now := Source(col, live), Get(live, col.name);
    if old'.Some? && now.Some? then Err
    else
      var current := if old'.Some? then old' else now;
      match current
      case None => if col.required then Err else Ok([Add(col.name, col.fieldType)])
      case Some(f) =>
        if f.fieldType != col.fieldType && !alterable(f.fieldType, col.fieldType) then Err
        else if !f.required && col.required then Err
        else Ok(RenameEdits(col, live) + PromoteEdits(col, f) + RelaxEdits(col, f))
  }

  /** The edits of a table, or nothing where any change is breaking: a plan is refused whole. */
  function TableEdits(desired: seq<Column>, live: seq<Field>, alterable: (string, string) -> bool): Result<seq<Edit>> {
    if desired == [] then Ok([])
    else
      var front :- TableEdits(desired[..|desired| - 1], live, alterable);
      var last :- ColumnEdits(desired[|desired| - 1], live, alterable);
      Ok(front + last)
  }

  // ---- one edit, by name -----------------------------------------------------------------

  /** Which field answers to a name after an edit that goes through. */
  lemma GetAt(fields: seq<Field>, i: nat, n: string)
    requires DistinctNames(fields) && i < |fields| && fields[i].name == n
    ensures Get(fields, n) == Some(fields[i])
  {
  }

  /** Under which names a field is found once one of the fields is another. */
  lemma GetUpdated(fields: seq<Field>, i: nat, f: Field, n: string)
    requires i < |fields| && DistinctNames(fields) && (f.name == fields[i].name || Find(fields, f.name) == |fields|)
    ensures DistinctNames(fields[i := f])
    ensures Get(fields[i := f], n) ==
      if n == f.name then Some(f) else if n == fields[i].name then None else Get(fields, n)
  {
    var after := fields[i := f];
    assert DistinctNames(after);
    if n == f.name {
      GetAt(after, i, n);
    } else if Find(fields, n) < |fields| && n != fields[i].name {
      GetAt(after, Find(fields, n), n);
    }
  }

  lemma GetAppended(fields: seq<Field>, f: Field, n: string)
    requires DistinctNames(fields) && Find(fields, f.name) == |fields|
    ensures DistinctNames(fields + [f])
    ensures Get(fields + [f], n) == if n == f.name then Some(f) else Get(fields, n)
  {
    var after := fields + [f];
    assert DistinctNames(after);
    if n == f.name {
      GetAt(after, |fields|, n);
    } else if Find(fields, n) < |fields| {
      assert after[Find(fields, n)] == fields[Find(fields, n)];
      GetAt(after, Find(fields, n), n);
    }
  }

  lemma GetAfter(s: Schema, e: Edit, n: string)
    requires DistinctNames(s.fields) && Apply(s, e).Ok?
    ensures var fields := Apply(s, e).value.fields;
      && DistinctNames(fields)
      && Get(fields, n) ==
         match e
         case Add(name, t) => if n == name then Some(NewField(s.lastId, name, t)) else Get(s.fields, n)
         case Rename(name, from) =>
           if n == name then Some(Get(s.fields, from).value.(name := name))
           else if n == from then None
           else Get(s.fields, n)
         case Promote(name, t) =>
           if n == name then Some(Get(s.fields, n).value.(fieldType := t)) else Get(s.fields, n)
         case Relax(name) =>
           if n == name then Some(Get(s.fields, n).value.(required := false)) else Get(s.fields, n)
  {
    match e
    case Add(name, t) => GetAppended(s.fields, NewField(s.lastId, name, t), n);
    case Rename(name, from) =>
      var k := Find(s.fields, from);
      GetUpdated(s.fields, k, s.fields[k].(name := name), n);
    case Promote(name, t) =>
      var k := Find(s.fields, name);
      GetUpdated(s.fields, k, s.fields[k].(fieldType := t), n);
    case Relax(name) =>
      var k := Find(s.fields, name);
      GetUpdated(s.fields, k, s.fields[k].(required := false), n);
  }

  lemma Applies(s: Schema, e: Edit)
    ensures Apply(s, e).Ok? <==>
      match e
      case Add(name, _) => Get(s.fields, name).None?
      case Rename(name, from) => Get(s.fields, name).None? && Get(s.fields, from).Some?
      case Promote(name, _) => Get(s.fields, name).Some?
      case Relax(name) => Get(s.fields, name).Some?
  {
  }

  lemma {:induction false} ApplyAppends(s: Schema, a: seq<Edit>, b: seq<Edit>)
    ensures ApplyAll(s, a + b) ==
      if ApplyAll(s, a).Ok? then ApplyAll(ApplyAll(s, a).value, b) else Err
  {
    hide Apply;
    if b == [] {
      assert a + b == a;
    } else {
      ApplyAppends(s, a, b[..|b| - 1]);
      assert (a + b)[..|a + b| - 1] == a + b[..|b| - 1];
    }
  }

  lemma ApplyAtMostOne(s: Schema, e: Edit)
    ensures ApplyAll(s, []) == Ok(s) && ApplyAll(s, [e]) == Apply(s, e)
  {
    assert [e][..0] == [];
  }

  // ---- one column ------------------------------------------------------------------------

  /** A field as a declared column wants it. */
  predicate Meets(f: Option<Field>, col: Column) {
    f.Some? && f.value.fieldType == col.fieldType && f.value.required == col.required
  }

  /** What a column's edits leave under every name, given what they find. */
  ghost predicate ColumnDone(s: Schema, s': Schema, col: Column, live: seq<Field>) {
    && DistinctNames(s'.fields)
    && Meets(Get(s'.fields, col.name), col)
    && (Source(col, live).Some? ==> Get(s'.fields, col.renamedFrom.value).None?)
    && (forall n | n != col.name && (Source(col, live).Some? ==> n != col.renamedFrom.value) ::
          Get(s'.fields, n) == Get(s.fields, n))
  }

  /** The schema still holds, under the names this column cares for, what the plan saw there. */
  ghost predicate AsSeen(s: Schema, col: Column, live: seq<Field>) {
    && DistinctNames(s.fields)
    && Get(s.fields, col.name) == Get(live, col.name)
    && (col.renamedFrom.Some? ==> col.renamedFrom.value != col.name &&
                                  Get(s.fields, col.renamedFrom.value) == Get(live, col.renamedFrom.value))
  }

  /** After the rename, if there is one. */
  lemma RenameStep(s: Schema, col: Column, live: seq<Field>, alterable: (string, string) -> bool)
    requires AsSeen(s, col, live) && ColumnEdits(col, live, alterable).Ok?
    requires Source(col, live).Some? || Get(live, col.name).Some?
    ensures ApplyAll(s, RenameEdits(col, live)).Ok?
    ensures var s', f := ApplyAll(s, RenameEdits(col, live)).value,
                         (if Source(col, live).Some? then Source(col, live) else Get(live, col.name)).value;
      && DistinctNames(s'.fields) && Get(s'.fields, col.name) == Some(f.(name := col.name))
      && (Source(col, live).Some? ==> Get(s'.fields, col.renamedFrom.value).None?)
      && (forall n | n != col.name && (Source(col, live).Some? ==> n != col.renamedFrom.value) ::
            Get(s'.fields, n) == Get(s.fields, n))
  {
    hide Apply, Get;
    if Source(col, live).Some? {
      var e := Rename(col.name, col.renamedFrom.value);
      ApplyAtMostOne(s, e);
      Applies(s, e);
      forall n
        ensures Get(Apply(s, e).value.fields, n) ==
          if n == col.name then Some(Get(s.fields, e.from).value.(name := e.name))
          else if n == e.from then None else Get(s.fields, n)
      {
        GetAfter(s, e, n);
      }
      GetAfter(s, e, col.name);
    } else {
      ApplyAtMostOne(s, Relax(col.name));
      assert Get(live, col.name).value.(name := col.name) == Get(live, col.name).value by { GetNamed(live, col.name); }
    }
  }

  lemma GetNamed(fields: seq<Field>, name: string)
    requires Get(fields, name).Some?
    ensures Get(fields, name).value.name == name
  {
  }

  /** An edit of one column's type or constraint, or none. */
  lemma ChangeStep(s: Schema, edits: seq<Edit>, e: Edit)
    requires DistinctNames(s.fields) && Get(s.fields, e.name).Some? && (e.Promote? || e.Relax?)
    requires edits == [] || edits == [e]
    ensures ApplyAll(s, edits).Ok?
    ensures var s', f := ApplyAll(s, edits).value, Get(s.fields, e.name).value;
      && DistinctNames(s'.fields)
      && Get(s'.fields, e.name) == Some(
           if edits == [] then f
           else match e case Promote(_, t) => f.(fieldType := t) case _ => f.(required := false))
      && (forall n | n != e.name :: Get(s'.fields, n) == Get(s.fields, n))
  {
    hide Apply, Get;
    ApplyAtMostOne(s, e);
    if edits != [] {
      Applies(s, e);
      GetAfter(s, e, e.name);
      forall n | n != e.name
        ensures Get(Apply(s, e).value.fields, n) == Get(s.fields, n)
      {
        GetAfter(s, e, n);
      }
    }
  }

  lemma ColumnApplies(s: Schema, col: Column, live: seq<Field>, alterable: (string, string) -> bool)
    requires AsSeen(s, col, live) && ColumnEdits(col, live, alterable).Ok?
    ensures ApplyAll(s, ColumnEdits(col, live, alterable).value).Ok?
    ensures ColumnDone(s, ApplyAll(s, ColumnEdits(col, live, alterable).value).value, col, live)
  {
    hide Apply, ApplyAll, Get;
    if Source(col, live).None? && Get(live, col.name).None? {
      var e := Add(col.name, col.fieldType);
      ApplyAtMostOne(s, e);
      Applies(s, e);
      GetAfter(s, e, col.name);
      forall n | n != col.name
        ensures Get(Apply(s, e).value.fields, n) == Get(s.fields, n)
      {
        GetAfter(s, e, n);
      }
    } else {
      var f := (if Source(col, live).Some? then Source(col, live) else Get(live, col.name)).value;
      RenameStep(s, col, live, alterable);
      var one := ApplyAll(s, RenameEdits(col, live)).value;
      ChangeStep(one, PromoteEdits(col, f), Promote(col.name, col.fieldType));
      var two := ApplyAll(one, PromoteEdits(col, f)).value;
      ChangeStep(two, RelaxEdits(col, f), Relax(col.name));
      ApplyAppends(s, RenameEdits(col, live), PromoteEdits(col, f));
      ApplyAppends(s, RenameEdits(col, live) + PromoteEdits(col, f), RelaxEdits(col, f));
    }
  }

  // ---- the whole plan --------------------------------------------------------------------

  /** A name that none of the first `k` columns concerns. */
  predicate Apart(desired: seq<Column>, k: nat, n: string)
    requires k <= |desired|
  {
    forall j | 0 <= j < k :: desired[j].name != n && desired[j].renamedFrom != Some(n)
  }

  /** After the first `k` columns: those are as declared, what they were renamed from is gone, and every
      other column is as it was. */
  ghost predicate Reached(desired: seq<Column>, k: nat, live: seq<Field>, s: Schema)
    requires k <= |desired|
  {
    && DistinctNames(s.fields)
    && (forall j | 0 <= j < k :: Meets(Get(s.fields, desired[j].name), desired[j]))
    && (forall j | 0 <= j < k && desired[j].renamedFrom.Some? :: Get(s.fields, desired[j].renamedFrom.value).None?)
    && (forall n | Apart(desired, k, n) :: Get(s.fields, n) == Get(live, n))
  }

  lemma NextColumn(desired: seq<Column>, k: nat, live: seq<Field>, s: Schema, alterable: (string, string) -> bool)
    requires DistinctColumns(desired) && RenamesFit(desired) && k < |desired| && Reached(desired, k, live, s)
    requires ColumnEdits(desired[k], live, alterable).Ok?
    ensures ApplyAll(s, ColumnEdits(desired[k], live, alterable).value).Ok?
    ensures Reached(desired, k + 1, live, ApplyAll(s, ColumnEdits(desired[k], live, alterable).value).value)
  {
    hide ApplyAll, ColumnEdits, Get;
    var col := desired[k];
    OwnNames(desired, k);
    assert AsSeen(s, col, live);
    ColumnApplies(s, col, live, alterable);
    var s' := ApplyAll(s, ColumnEdits(col, live, alterable).value).value;
    forall j | 0 <= j < k + 1
      ensures Meets(Get(s'.fields, desired[j].name), desired[j])
      ensures desired[j].renamedFrom.Some? ==> Get(s'.fields, desired[j].renamedFrom.value).None?
    {
      if j < k {
        assert Declares(desired, desired[j].name) && Declares(desired, col.name);
        assert RenameFits(desired, k) && RenameFits(desired, j);
      }
    }
    forall n | Apart(desired, k + 1, n)
      ensures Get(s'.fields, n) == Get(live, n)
    {
      assert Apart(desired, k, n);
    }
  }

  /** No earlier column concerns this one's name, or the name it is renamed from. */
  lemma OwnNames(desired: seq<Column>, k: nat)
    requires DistinctColumns(desired) && RenamesFit(desired) && k < |desired|
    ensures Apart(desired, k, desired[k].name)
    ensures desired[k].renamedFrom.Some? ==>
      desired[k].renamedFrom.value != desired[k].name && Apart(desired, k, desired[k].renamedFrom.value)
  {
    assert Declares(desired, desired[k].name);
    assert RenameFits(desired, k);
    forall j | 0 <= j < k
      ensures desired[k].renamedFrom != Some(desired[j].name) && desired[j].renamedFrom != Some(desired[k].name)
    {
      assert RenameFits(desired, j);
      assert Declares(desired, desired[j].name);
    }
  }

  lemma {:induction false} PlanReaches(desired: seq<Column>, k: nat, s: Schema, alterable: (string, string) -> bool)
    requires DistinctColumns(desired) && RenamesFit(desired) && DistinctNames(s.fields) && k <= |desired|
    requires TableEdits(desired[..k], s.fields, alterable).Ok?
    ensures var out := ApplyAll(s, TableEdits(desired[..k], s.fields, alterable).value);
      out.Ok? && Reached(desired, k, s.fields, out.value)
    decreases k
  {
    hide ColumnEdits, Reached;
    if k == 0 {
      assert Reached(desired, 0, s.fields, s) by { NothingYet(desired, s); }
    } else {
      assert desired[..k][..k - 1] == desired[..k - 1];
      PlanReaches(desired, k - 1, s, alterable);
      var front := TableEdits(desired[..k - 1], s.fields, alterable).value;
      var last := ColumnEdits(desired[k - 1], s.fields, alterable).value;
      NextColumn(desired, k - 1, s.fields, ApplyAll(s, front).value, alterable);
      ApplyAppends(s, front, last);
    }
  }

  lemma NothingYet(desired: seq<Column>, s: Schema)
    requires DistinctNames(s.fields)
    ensures Reached(desired, 0, s.fields, s)
  {
  }

  // ---- the plan as one transaction -------------------------------------------------------

  /** An edit is of a declared column, and renames what that column is renamed from. */
  predicate EditOf(e: Edit, col: Column) {
    e.name == col.name && (e.Rename? ==> col.renamedFrom == Some(e.from))
  }

  predicate EditOfSome(e: Edit, desired: seq<Column>, k: nat)
    requires k <= |desired|
  {
    exists j :: 0 <= j < k && EditOf(e, desired[j])
  }

  lemma ColumnIsPlanned(col: Column, live: seq<Field>, alterable: (string, string) -> bool)
    requires ColumnEdits(col, live, alterable).Ok? && col.renamedFrom != Some(col.name)
    ensures var edits := ColumnEdits(col, live, alterable).value;
      Planned(edits) && forall i | 0 <= i < |edits| :: EditOf(edits[i], col)
  {
    ColumnShape(col, live, alterable);
    hide Get, ColumnEdits;
  }

  /** A column's edits are all of that column: a rename can only be the first, an addition only by itself. */
  lemma ColumnShape(col: Column, live: seq<Field>, alterable: (string, string) -> bool)
    requires ColumnEdits(col, live, alterable).Ok? && col.renamedFrom != Some(col.name)
    ensures var edits := ColumnEdits(col, live, alterable).value;
      forall i | 0 <= i < |edits| ::
        && EditOf(edits[i], col) && edits[i].name == col.name
        && (edits[i].Rename? ==> i == 0 && edits[i].from != col.name)
        && (edits[i].Add? ==> |edits| == 1)
  {
    hide Get;
  }

  lemma PlannedJoin(a: seq<Edit>, b: seq<Edit>)
    requires Planned(a) && Planned(b)
    requires forall i, j | 0 <= i < |a| && 0 <= j < |b| ::
      && a[i].name != b[j].name
      && (a[i].Rename? ==> b[j].name != a[i].from)
      && (b[j].Rename? ==> a[i].name != b[j].from)
      && (a[i].Rename? && b[j].Rename? ==> a[i].from != b[j].from)
    ensures Planned(a + b)
  {
    var all := a + b;
    forall i, j | 0 <= i < |all| && 0 <= j < |all|
      ensures all[i].Rename? ==> all[j].name != all[i].from
      ensures all[i].Rename? && all[j].Rename? && i < j ==> all[i].from != all[j].from && all[i].name != all[j].name
      ensures all[i].Rename? && all[j].name == all[i].name ==> i <= j
      ensures all[i].Add? && all[j].name == all[i].name && !all[j].Rename? ==> all[j].Add?
    {
      assert all[i] == if i < |a| then a[i] else b[i - |a|];
      assert all[j] == if j < |a| then a[j] else b[j - |a|];
    }
  }

  /** Edits of two different columns do not meet. */
  lemma ColumnsApart(desired: seq<Column>, k: nat, e: Edit, f: Edit)
    requires DistinctColumns(desired) && RenamesFit(desired) && k < |desired|
    requires EditOfSome(e, desired, k) && EditOf(f, desired[k])
    ensures e.name != f.name
    ensures e.Rename? ==> f.name != e.from
    ensures f.Rename? ==> e.name != f.from
    ensures e.Rename? && f.Rename? ==> e.from != f.from
  {
    var j :| 0 <= j < k && EditOf(e, desired[j]);
    assert RenameFits(desired, j) && RenameFits(desired, k);
    assert Declares(desired, desired[j].name) && Declares(desired, desired[k].name);
  }

  /** The edits of a plan are ones a transaction can translate. */
  lemma {:induction false} PlanIsPlanned(desired: seq<Column>, k: nat, live: seq<Field>,
                                         alterable: (string, string) -> bool)
    requires DistinctColumns(desired) && RenamesFit(desired) && k <= |desired|
    requires TableEdits(desired[..k], live, alterable).Ok?
    ensures var edits := TableEdits(desired[..k], live, alterable).value;
      Planned(edits) && forall i | 0 <= i < |edits| :: EditOfSome(edits[i], desired, k)
    decreases k
  {
    hide ColumnEdits, Planned, EditOf;
    if k == 0 {
      assert TableEdits(desired[..0], live, alterable).value == [];
      EmptyIsPlanned();
    } else {
      assert desired[..k][..k - 1] == desired[..k - 1];
      PlanIsPlanned(desired, k - 1, live, alterable);
      var front := TableEdits(desired[..k - 1], live, alterable).value;
      var last := ColumnEdits(desired[k - 1], live, alterable).value;
      OwnNames(desired, k - 1);
      ColumnIsPlanned(desired[k - 1], live, alterable);
      forall i, j | 0 <= i < |front| && 0 <= j < |last|
        ensures front[i].name != last[j].name
        ensures front[i].Rename? ==> last[j].name != front[i].from
        ensures last[j].Rename? ==> front[i].name != last[j].from
        ensures front[i].Rename? && last[j].Rename? ==> front[i].from != last[j].from
      {
        ColumnsApart(desired, k - 1, front[i], last[j]);
      }
      PlannedJoin(front, last);
      var edits := TableEdits(desired[..k], live, alterable).value;
      forall i | 0 <= i < |edits|
        ensures EditOfSome(edits[i], desired, k)
      {
        if i < |front| {
          assert EditOfSome(front[i], desired, k - 1);
        } else {
          assert EditOf(last[i - |front|], desired[k - 1]);
        }
      }
    }
  }

  lemma EmptyIsPlanned()
    ensures Planned([])
  {
  }

  /** A plan that is not refused, applied in one transaction to the table it was made from, reaches the
      columns the ontology declares, keeps every column nobody declared or renamed, and keeps every
      field id. Planned again, it asks for nothing. */
  lemma MigrationReaches(desired: seq<Column>, s: Schema, alterable: (string, string) -> bool)
    requires DistinctColumns(desired) && RenamesFit(desired) && Valid(s)
    requires TableEdits(desired, s.fields, alterable).Ok?
    ensures var out := Altered(s, TableEdits(desired, s.fields, alterable).value);
      && out.Ok?
      && (forall j | 0 <= j < |desired| :: Meets(Get(out.value.fields, desired[j].name), desired[j]))
      && (forall n | Apart(desired, |desired|, n) :: Get(out.value.fields, n) == Get(s.fields, n))
      && KeepsIds(s, out.value.fields, out.value.lastId)
      && TableEdits(desired, out.value.fields, alterable) == Ok([])
  {
    hide TableEdits, Planned, Altered, ApplyAll, Get, Meets, RenamesFit;
    assert desired[..|desired|] == desired;
    PlanIsPlanned(desired, |desired|, s.fields, alterable);
    PlanReaches(desired, |desired|, s, alterable);
    var edits := TableEdits(desired, s.fields, alterable).value;
    OneTransactionIsOneByOne(s, edits);
    AlteredKeepsIds(s, edits);
    NothingLeft(desired, |desired|, s.fields, ApplyAll(s, edits).value, alterable);
  }

  lemma {:induction false} NothingLeft(desired: seq<Column>, k: nat, live: seq<Field>, s: Schema,
                                       alterable: (string, string) -> bool)
    requires k <= |desired| && Reached(desired, |desired|, live, s)
    ensures TableEdits(desired[..k], s.fields, alterable) == Ok([])
    decreases k
  {
    hide Get;
    if k > 0 {
      assert desired[..k][..k - 1] == desired[..k - 1];
      NothingLeft(desired, k - 1, live, s, alterable);
      var col := desired[k - 1];
      assert Meets(Get(s.fields, col.name), col);
      assert Source(col, s.fields).None?;
      assert RenameEdits(col, s.fields) == [] && PromoteEdits(col, Get(s.fields, col.name).value) == [];
      assert RelaxEdits(col, Get(s.fields, col.name).value) == [];
      var none: seq<Edit> := [];
      assert none + none == none;
      assert ColumnEdits(col, s.fields, alterable) == Ok(none);
    }
  }
}
