/** Schema edits in one transaction. The update resolves every path against the schema it opened with, so
    edits that follow a rename are translated back to the old name. What that commits is what applying the
    edits one by one, under the names they have by then, would leave. */
module SchemaEdits {
  import opened Wrappers

  datatype Field = Field(id: nat, name: string, fieldType: string, required: bool)

  /** `lastId` is the highest field id the table has ever used. */
  datatype Schema = Schema(fields: seq<Field>, lastId: nat)

  /** `name` is the column as the edit leaves it. */
  datatype Edit =
    | Add(name: string, fieldType: string)
    | Rename(name: string, from: string)
    | Promote(name: string, fieldType: string)
    | Relax(name: string)

  /** Where the first field of this name is, or the length if there is none. */
  function Find(fields: seq<Field>, name: string): (i: nat)
    ensures i <= |fields|
    ensures i < |fields| ==> fields[i].name == name
    ensures forall j | 0 <= j < i :: fields[j].name != name
  {
    if fields == [] || fields[0].name == name then 0 else 1 + Find(fields[1..], name)
  }

  predicate DistinctNames(fields: seq<Field>) {
    forall i, j | 0 <= i < j < |fields| :: fields[i].name != fields[j].name
  }

  ghost predicate Valid(s: Schema) {
    && DistinctNames(s.fields)
    && (forall i, j | 0 <= i < j < |s.fields| :: s.fields[i].id != s.fields[j].id)
    && (forall i | 0 <= i < |s.fields| :: s.fields[i].id <= s.lastId)
  }

  // ---- one by one ------------------------------------------------------------------------

  function NewField(lastId: nat, name: string, fieldType: string): Field {
    Field(lastId + 1, name, fieldType, false)
  }

  function Apply(s: Schema, e: Edit): Result<Schema> {
    var i := Find(s.fields, e.name);
    match e
    case Add(name, fieldType) =>
      if i < |s.fields| then Err
      else Ok(Schema(s.fields + [NewField(s.lastId, name, fieldType)], s.lastId + 1))
    case Rename(name, from) =>
      var k := Find(s.fields, from);
      if i < |s.fields| || k == |s.fields| then Err
      else Ok(s.(fields := s.fields[k := s.fields[k].(name := name)]))
    case Promote(_, fieldType) =>
      if i == |s.fields| then Err else Ok(s.(fields := s.fields[i := s.fields[i].(fieldType := fieldType)]))
    case Relax(_) =>
      if i == |s.fields| then Err else Ok(s.(fields := s.fields[i := s.fields[i].(required := false)]))
  }

  function ApplyAll(s: Schema, edits: seq<Edit>): Result<Schema> {
    if edits == [] then Ok(s)
    else
      var before :- ApplyAll(s, edits[..|edits| - 1]);
      Apply(before, edits[|edits| - 1])
  }

  // ---- one transaction -------------------------------------------------------------------

  /** What is staged: the opening fields as changed so far, the added ones, and which new names are old
      columns under another label. */
  datatype Update = Update(
    opening: seq<Field>,
    changed: seq<Field>,
    added: seq<Field>,
    lastId: nat,
    renamed: map<string, string>)
  {
    ghost predicate Fits() {
      |changed| == |opening|
    }

    /** The name a column had when the transaction opened. */
    function Path(name: string): string {
      if name in renamed then renamed[name] else name
    }
  }

  function Open(s: Schema): (u: Update)
    ensures u.Fits()
  {
    Update(s.fields, s.fields, [], s.lastId, map[])
  }

  function Stage(u: Update, e: Edit): (r: Result<Update>)
    requires u.Fits()
    ensures r.Ok? ==> r.value.Fits() && r.value.opening == u.opening
  {
    match e
    case Add(name, fieldType) =>
      if Find(u.opening, name) < |u.opening| then Err
      else Ok(u.(added := u.added + [NewField(u.lastId, name, fieldType)], lastId := u.lastId + 1))
    case Rename(name, from) =>
      var k := Find(u.opening, from);
      if k == |u.opening| then Err
      else Ok(u.(changed := u.changed[k := u.changed[k].(name := name)], renamed := u.renamed[name := from]))
    case Promote(name, fieldType) =>
      var k := Find(u.opening, u.Path(name));
      if k == |u.opening| then Err else Ok(u.(changed := u.changed[k := u.changed[k].(fieldType := fieldType)]))
    case Relax(name) =>
      var k := Find(u.opening, u.Path(name));
      if k == |u.opening| then Err else Ok(u.(changed := u.changed[k := u.changed[k].(required := false)]))
  }

  function StageAll(u: Update, edits: seq<Edit>): (r: Result<Update>)
    requires u.Fits()
    ensures r.Ok? ==> r.value.Fits() && r.value.opening == u.opening
  {
    if edits == [] then Ok(u)
    else
      var before :- StageAll(u, edits[..|edits| - 1]);
      Stage(before, edits[|edits| - 1])
  }

  /** A schema with two columns of one name is refused as it is built. */
  function Commit(u: Update): Result<Schema> {
    if DistinctNames(u.changed + u.added) then Ok(Schema(u.changed + u.added, u.lastId)) else Err
  }

  function Altered(s: Schema, edits: seq<Edit>): Result<Schema> {
    var u :- StageAll(Open(s), edits);
    Commit(u)
  }

  /** A table whose schema changes as a whole or not at all. */
  class Table {
    var schema: Schema

    constructor (s: Schema)
      ensures schema == s
    {
      schema := s;
    }

    method AlterTable(edits: seq<Edit>) returns (ok: bool)
      modifies this
      ensures ok <==> Altered(old(schema), edits).Ok?
      ensures schema == if ok then Altered(old(schema), edits).value else old(schema)
    {
      hide Find, Stage, Commit;
      var update := Open(schema);
      var k := 0;
      while k < |edits|
        invariant 0 <= k <= |edits| && schema == old(schema) && update.Fits()
        invariant StageAll(Open(schema), edits[..k]) == Ok(update)
      {
        var staged := Stage(update, edits[k]);
        assert edits[..k + 1][..k] == edits[..k];
        if staged.Err? {
          StopsAt(Open(schema), edits, k + 1);
          return false;
        }
        update := staged.value;
        k := k + 1;
      }
      assert edits[..k] == edits;
      var committed := Commit(update);
      if committed.Err? {
        return false;
      }
      schema := committed.value;
      return true;
    }
  }

  lemma {:induction false} StopsAt(u: Update, edits: seq<Edit>, k: nat)
    requires u.Fits() && k <= |edits| && StageAll(u, edits[..k]).Err?
    ensures StageAll(u, edits).Err?
    decreases |edits|
  {
    hide Stage;
    if k < |edits| {
      var front := edits[..|edits| - 1];
      assert front[..k] == edits[..k];
      StopsAt(u, front, k);
    } else {
      assert edits[..k] == edits;
    }
  }

  // ---- the lists a plan contains ---------------------------------------------------------

  /** What the two rename rules, the order of the port and the planner leave of a list of edits: no rename
      takes a column another edit is on, no column is renamed twice or from twice, a rename comes before
      any other edit of its column, and a column that is added gets no other edit. */
  predicate Planned(edits: seq<Edit>) {
    && (forall i, j | 0 <= i < |edits| && 0 <= j < |edits| && edits[i].Rename? :: edits[j].name != edits[i].from)
    && (forall i, j | 0 <= i < j < |edits| && edits[i].Rename? && edits[j].Rename? ::
          edits[i].from != edits[j].from && edits[i].name != edits[j].name)
    && (forall i, j | 0 <= i < |edits| && 0 <= j < |edits| && edits[i].Rename? && edits[j].name == edits[i].name ::
          i <= j)
    && (forall i, j | 0 <= i < |edits| && 0 <= j < |edits| && edits[i].Add? && edits[j].name == edits[i].name
          && !edits[j].Rename? :: edits[j].Add?)
  }

  /** Two fields answer to the name of some edit. */
  ghost predicate Clash(fields: seq<Field>, edits: seq<Edit>) {
    exists i, j, k :: 0 <= i < j < |fields| && 0 <= k < |edits| && fields[i].name == fields[j].name == edits[k].name
  }

  /** An opening column has its own name or that of the one rename that took it. */
  predicate Labelled(u: Update, i: nat)
    requires i < |u.opening| == |u.changed|
  {
    u.changed[i].name == u.opening[i].name ||
    (u.changed[i].name in u.renamed && u.renamed[u.changed[i].name] == u.opening[i].name)
  }

  /** A translated name leads back to the column that bears it. */
  predicate Translates(u: Update, name: string)
    requires name in u.renamed && |u.opening| == |u.changed|
  {
    var k := Find(u.opening, u.renamed[name]);
    k < |u.opening| && u.changed[k].name == name
  }

  predicate RenamedBefore(edits: seq<Edit>, k: nat, name: string, from: string)
    requires k <= |edits|
  {
    exists j :: 0 <= j < k && edits[j] == Rename(name, from)
  }

  predicate AddedBefore(edits: seq<Edit>, k: nat, name: string)
    requires k <= |edits|
  {
    exists j :: 0 <= j < k && edits[j].Add? && edits[j].name == name
  }

  /** How the staged names relate to the opening ones after `k` edits. */
  ghost predicate Labels(u: Update, edits: seq<Edit>, k: nat)
    requires k <= |edits|
  {
    && u.Fits()
    && (forall i | 0 <= i < |u.opening| :: Labelled(u, i))
    && (forall name | name in u.renamed :: Translates(u, name) && RenamedBefore(edits, k, name, u.renamed[name]))
    && (forall i | 0 <= i < |u.added| :: AddedBefore(edits, k, u.added[i].name))
  }

  /** What is staged, laid out as a schema. */
  function Staged(u: Update): Schema {
    Schema(u.changed + u.added, u.lastId)
  }

  /** A name some edit is on finds, once translated, the column that bears it now. */
  lemma PathFinds(u: Update, edits: seq<Edit>, k: nat, name: string)
    requires Planned(edits) && k <= |edits| && Labels(u, edits, k) && DistinctNames(Staged(u).fields)
    requires exists j :: 0 <= j < |edits| && edits[j].name == name
    requires !AddedBefore(edits, k, name)
    ensures var i, p := Find(Staged(u).fields, name), Find(u.opening, u.Path(name));
      if p < |u.opening| then i == p else i == |Staged(u).fields|
  {
    var j :| 0 <= j < |edits| && edits[j].name == name;
    var fields := Staged(u).fields;
    var i, p := Find(fields, name), Find(u.opening, u.Path(name));
    if name in u.renamed {
      assert Translates(u, name);
      assert fields[p] == u.changed[p];
    } else {
      if p < |u.opening| {
        assert Labelled(u, p);
        OwnName(u, edits, k, p, name);
        assert fields[p] == u.changed[p];
      }
      if i < |u.changed| {
        assert fields[i] == u.changed[i] && Labelled(u, i);
      }
    }
  }

  /** A column whose opening name some edit is on still has that name. */
  lemma OwnName(u: Update, edits: seq<Edit>, k: nat, p: nat, name: string)
    requires Planned(edits) && k <= |edits| && Labels(u, edits, k) && p < |u.opening| && u.opening[p].name == name
    requires exists j :: 0 <= j < |edits| && edits[j].name == name
    ensures u.changed[p].name == name
  {
    var j :| 0 <= j < |edits| && edits[j].name == name;
    assert Labelled(u, p);
  }

  /** The column a rename takes still has its own name, and nothing else has taken it. */
  lemma SourceFinds(u: Update, edits: seq<Edit>, k: nat)
    requires Planned(edits) && k < |edits| && Labels(u, edits, k) && DistinctNames(Staged(u).fields)
    requires edits[k].Rename?
    ensures var i, p := Find(Staged(u).fields, edits[k].from), Find(u.opening, edits[k].from);
      if p < |u.opening| then i == p else i == |Staged(u).fields|
    ensures var p := Find(u.opening, edits[k].from);
      p < |u.opening| ==> u.changed[p].name == edits[k].from
  {
    var from, fields := edits[k].from, Staged(u).fields;
    var i, p := Find(fields, from), Find(u.opening, from);
    if p < |u.opening| {
      SourceKeeps(u, edits, k, p);
      assert fields[p] == u.changed[p];
    }
    if i < |u.changed| {
      assert fields[i] == u.changed[i] && Labelled(u, i);
    }
  }

  lemma SourceKeeps(u: Update, edits: seq<Edit>, k: nat, p: nat)
    requires Planned(edits) && k < |edits| && Labels(u, edits, k)
    requires edits[k].Rename? && p < |u.opening| && u.opening[p].name == edits[k].from
    ensures u.changed[p].name == edits[k].from
  {
    assert Labelled(u, p);
    assert forall r | 0 <= r < k && edits[r].Rename? :: edits[r].from != edits[k].from;
  }

  /** Staging the next edit keeps the names related. */
  lemma LabelsStep(u: Update, edits: seq<Edit>, k: nat)
    requires Planned(edits) && k < |edits| && Labels(u, edits, k) && Stage(u, edits[k]).Ok?
    ensures Labels(Stage(u, edits[k]).value, edits, k + 1)
  {
    hide RenamedBefore;
    var e, u' := edits[k], Stage(u, edits[k]).value;
    BeforeGrows(u, edits, k);
    match e
    case Add(name, _) =>
      assert AddedBefore(edits, k + 1, name);
      assert forall i | 0 <= i < |u.added| :: u'.added[i] == u.added[i];
      assert forall i | 0 <= i < |u.opening| :: Labelled(u, i) ==> Labelled(u', i);
      assert forall n | n in u.renamed :: Translates(u, n) ==> Translates(u', n);
    case Rename(name, from) =>
      RenameLabels(u, edits, k);
    case Promote(_, _) => ChangeLabels(u, edits, k);
    case Relax(_) => ChangeLabels(u, edits, k);
  }

  lemma ChangeLabels(u: Update, edits: seq<Edit>, k: nat)
    requires k < |edits| && Labels(u, edits, k) && Stage(u, edits[k]).Ok? && (edits[k].Promote? || edits[k].Relax?)
    ensures Labels(Stage(u, edits[k]).value, edits, k + 1)
  {
    hide RenamedBefore, AddedBefore;
    var u' := Stage(u, edits[k]).value;
    BeforeGrows(u, edits, k);
    assert forall i | 0 <= i < |u.opening| :: u'.changed[i].name == u.changed[i].name;
    assert forall i | 0 <= i < |u.opening| :: Labelled(u, i) ==> Labelled(u', i);
    assert forall n | n in u.renamed :: Translates(u, n) ==> Translates(u', n);
  }

  lemma BeforeGrows(u: Update, edits: seq<Edit>, k: nat)
    requires k < |edits| && Labels(u, edits, k)
    ensures forall name | name in u.renamed :: RenamedBefore(edits, k + 1, name, u.renamed[name])
    ensures forall i | 0 <= i < |u.added| :: AddedBefore(edits, k + 1, u.added[i].name)
  {
    forall name | name in u.renamed
      ensures RenamedBefore(edits, k + 1, name, u.renamed[name])
    {
      assert RenamedBefore(edits, k, name, u.renamed[name]);
      var j :| 0 <= j < k && edits[j] == Rename(name, u.renamed[name]);
    }
    forall i | 0 <= i < |u.added|
      ensures AddedBefore(edits, k + 1, u.added[i].name)
    {
      assert AddedBefore(edits, k, u.added[i].name);
      var j :| 0 <= j < k && edits[j].Add? && edits[j].name == u.added[i].name;
    }
  }

  lemma RenameLabels(u: Update, edits: seq<Edit>, k: nat)
    requires Planned(edits) && k < |edits| && Labels(u, edits, k) && edits[k].Rename? && Stage(u, edits[k]).Ok?
    ensures Labels(Stage(u, edits[k]).value, edits, k + 1)
  {
    var e, u' := edits[k], Stage(u, edits[k]).value;
    var p := Find(u.opening, e.from);
    BeforeGrows(u, edits, k);
    SourceKeeps(u, edits, k, p);
    assert RenamedBefore(edits, k + 1, e.name, e.from);
    forall n | n in u.renamed
      ensures n != e.name && u.renamed[n] != e.from
    {
      var r :| 0 <= r < k && edits[r] == Rename(n, u.renamed[n]);
      assert edits[r].from != edits[k].from && edits[r].name != edits[k].name;
    }
    forall i | 0 <= i < |u.opening|
      ensures Labelled(u', i)
    {
      assert Labelled(u, i);
    }
    forall n | n in u'.renamed
      ensures Translates(u', n)
    {
      if n != e.name {
        assert Translates(u, n);
      }
    }
  }

  // ---- in step ---------------------------------------------------------------------------

  /** Staging an edit changes no name but that of the column a rename takes. */
  lemma NamesStay(u: Update, e: Edit, x: nat)
    requires u.Fits() && Stage(u, e).Ok? && x < |Staged(u).fields|
    requires e.Rename? ==> x != Find(u.opening, e.from)
    ensures var after := Staged(Stage(u, e).value).fields;
      x < |after| && after[x].name == Staged(u).fields[x].name
  {
    hide Find;
    var u' := Stage(u, e).value;
    assert |u'.changed| == |u.changed|;
    if x < |u.changed| {
      assert Staged(u).fields[x] == u.changed[x] && Staged(u').fields[x] == u'.changed[x];
    } else {
      assert Staged(u).fields[x] == u.added[x - |u.changed|];
      assert Staged(u').fields[x] == u'.added[x - |u.changed|];
    }
  }

  /** A column with a name some edit is on is not one a rename takes. */
  lemma NotTaken(u: Update, edits: seq<Edit>, k: nat, m: nat, x: nat)
    requires Planned(edits) && k < |edits| && Labels(u, edits, k) && Stage(u, edits[k]).Ok? && edits[k].Rename?
    requires m < |edits| && x < |Staged(u).fields| && Staged(u).fields[x].name == edits[m].name
    ensures x != Find(u.opening, edits[k].from)
  {
    hide RenamedBefore, AddedBefore;
    var p := Find(u.opening, edits[k].from);
    SourceKeeps(u, edits, k, p);
    assert Staged(u).fields[p] == u.changed[p] && edits[m].name != edits[k].from;
  }

  /** Two fields of one name, one that some edit is on, stay two: nothing can rename either away. */
  lemma ClashStays(u: Update, edits: seq<Edit>, k: nat)
    requires Planned(edits) && k < |edits| && Labels(u, edits, k) && Stage(u, edits[k]).Ok?
    requires Clash(Staged(u).fields, edits)
    ensures Clash(Staged(Stage(u, edits[k]).value).fields, edits)
  {
    LabelsFit(u, edits, k);
    hide Stage, Find, Planned, Labels, Staged;
    var before, after := Staged(u).fields, Staged(Stage(u, edits[k]).value).fields;
    var i, j, m :| 0 <= i < j < |before| && 0 <= m < |edits| && before[i].name == before[j].name == edits[m].name;
    if edits[k].Rename? {
      NotTaken(u, edits, k, m, i);
      NotTaken(u, edits, k, m, j);
    }
    NamesStay(u, edits[k], i);
    NamesStay(u, edits[k], j);
    assert after[i].name == after[j].name == edits[m].name;
  }

  /** One edit, staged and applied: both go through with the same schema, or neither does, or staging goes
      through and leaves two columns of one name. */
  lemma StageMatchesApply(u: Update, edits: seq<Edit>, k: nat)
    requires Planned(edits) && k < |edits| && Labels(u, edits, k) && DistinctNames(Staged(u).fields)
    ensures var one, all := Apply(Staged(u), edits[k]), Stage(u, edits[k]);
      if one.Ok? then all.Ok? && Staged(all.value) == one.value && DistinctNames(one.value.fields)
      else all.Ok? ==> Clash(Staged(all.value).fields, edits)
  {
    hide Clash;
    match edits[k]
    case Add(_, _) => AddMatches(u, edits, k);
    case Rename(_, _) => RenameMatches(u, edits, k);
    case Promote(name, _) => ChangeMatches(u, edits, k);
    case Relax(name) => ChangeMatches(u, edits, k);
  }

  lemma AddMatches(u: Update, edits: seq<Edit>, k: nat)
    requires Planned(edits) && k < |edits| && Labels(u, edits, k) && DistinctNames(Staged(u).fields) && edits[k].Add?
    ensures var one, all := Apply(Staged(u), edits[k]), Stage(u, edits[k]);
      if one.Ok? then all.Ok? && Staged(all.value) == one.value && DistinctNames(one.value.fields)
      else all.Ok? ==> Clash(Staged(all.value).fields, edits)
  {
    hide Labels;
    var e, fields := edits[k], Staged(u).fields;
    var i, p := Find(fields, e.name), Find(u.opening, e.name);
    if p < |u.opening| {
      OwnName(u, edits, k, p, e.name);
      assert |u.changed| == |u.opening| by { LabelsFit(u, edits, k); }
      assert fields[p] == u.changed[p];
    } else {
      var field := NewField(u.lastId, e.name, e.fieldType);
      assert u.changed + (u.added + [field]) == fields + [field];
      if i < |fields| {
        assert (fields + [field])[i].name == (fields + [field])[|fields|].name == edits[k].name;
      }
    }
  }

  lemma LabelsFit(u: Update, edits: seq<Edit>, k: nat)
    requires k <= |edits| && Labels(u, edits, k)
    ensures u.Fits()
  {
  }

  lemma RenameMatches(u: Update, edits: seq<Edit>, k: nat)
    requires Planned(edits) && k < |edits| && Labels(u, edits, k) && DistinctNames(Staged(u).fields) && edits[k].Rename?
    ensures var one, all := Apply(Staged(u), edits[k]), Stage(u, edits[k]);
      if one.Ok? then all.Ok? && Staged(all.value) == one.value && DistinctNames(one.value.fields)
      else all.Ok? ==> Clash(Staged(all.value).fields, edits)
  {
    hide Labels;
    LabelsFit(u, edits, k);
    SourceFinds(u, edits, k);
    var e, fields := edits[k], Staged(u).fields;
    var i, p := Find(fields, e.name), Find(u.opening, e.from);
    if p < |u.opening| {
      var after := Staged(Stage(u, e).value).fields;
      assert after == fields[p := fields[p].(name := e.name)];
      assert edits[k].name != edits[k].from;
      if i < |fields| {
        assert after[i].name == after[p].name == edits[k].name;
      }
    }
  }

  lemma NotAdded(edits: seq<Edit>, k: nat)
    requires Planned(edits) && k < |edits| && (edits[k].Promote? || edits[k].Relax?)
    ensures !AddedBefore(edits, k, edits[k].name)
  {
  }

  lemma ChangeMatches(u: Update, edits: seq<Edit>, k: nat)
    requires Planned(edits) && k < |edits| && Labels(u, edits, k) && DistinctNames(Staged(u).fields)
    requires edits[k].Promote? || edits[k].Relax?
    ensures var one, all := Apply(Staged(u), edits[k]), Stage(u, edits[k]);
      one.Ok? == all.Ok? && (one.Ok? ==> Staged(all.value) == one.value && DistinctNames(one.value.fields))
  {
    hide Labels;
    LabelsFit(u, edits, k);
    var e, fields := edits[k], Staged(u).fields;
    NotAdded(edits, k);
    PathFinds(u, edits, k, e.name);
    var p := Find(u.opening, u.Path(e.name));
    if p < |u.opening| {
      assert fields[p] == u.changed[p];
      var field := u.changed[p];
      var f := if e.Promote? then field.(fieldType := e.fieldType) else field.(required := false);
      assert u.changed[p := f] + u.added == fields[p := f];
    }
  }

  /** After the first `k` edits, what is staged is what applying them one by one has made. */
  ghost predicate InStep(s: Schema, edits: seq<Edit>, k: nat)
    requires k <= |edits|
  {
    var one, all := ApplyAll(s, edits[..k]), StageAll(Open(s), edits[..k]);
    && (all.Ok? ==> Labels(all.value, edits, k))
    && if one.Ok? then all.Ok? && Staged(all.value) == one.value && DistinctNames(one.value.fields)
       else all.Ok? ==> Clash(Staged(all.value).fields, edits)
  }

  lemma {:induction false} StaysInStep(s: Schema, edits: seq<Edit>, k: nat)
    requires DistinctNames(s.fields) && Planned(edits) && k <= |edits|
    ensures InStep(s, edits, k)
    decreases k
  {
    hide Apply, Stage, Clash, Labels;
    if k == 0 {
      OpensInStep(s, edits);
    } else {
      StaysInStep(s, edits, k - 1);
      assert edits[..k][..k - 1] == edits[..k - 1];
      var one, all := ApplyAll(s, edits[..k - 1]), StageAll(Open(s), edits[..k - 1]);
      if all.Ok? {
        if Stage(all.value, edits[k - 1]).Ok? {
          LabelsStep(all.value, edits, k - 1);
        }
        if one.Ok? {
          StageMatchesApply(all.value, edits, k - 1);
        } else if Stage(all.value, edits[k - 1]).Ok? {
          ClashStays(all.value, edits, k - 1);
        }
      }
    }
  }

  lemma OpensInStep(s: Schema, edits: seq<Edit>)
    requires DistinctNames(s.fields)
    ensures InStep(s, edits, 0)
  {
    assert edits[..0] == [];
    assert s.fields + [] == s.fields;
    var u := Open(s);
    assert Staged(u) == s;
    assert forall i | 0 <= i < |u.opening| :: Labelled(u, i);
  }

  /** The transaction commits the schema that applying the edits one by one, under current names, would
      leave, and is refused where that would be. */
  lemma {:induction false} OneTransactionIsOneByOne(s: Schema, edits: seq<Edit>)
    requires DistinctNames(s.fields) && Planned(edits)
    ensures Altered(s, edits) == ApplyAll(s, edits)
  {
    hide Labels, Planned, StageAll, ApplyAll;
    StaysInStep(s, edits, |edits|);
    assert edits[..|edits|] == edits;
  }

  // ---- field ids -------------------------------------------------------------------------

  /** Every column the table had keeps its field id and its place, and every id that is new is one the
      table never used. */
  ghost predicate KeepsIds(s: Schema, fields: seq<Field>, lastId: nat) {
    && |s.fields| <= |fields| && lastId == s.lastId + |fields| - |s.fields|
    && (forall i | 0 <= i < |s.fields| :: fields[i].id == s.fields[i].id)
    && (forall i | |s.fields| <= i < |fields| :: fields[i].id == s.lastId + 1 + i - |s.fields|)
  }

  lemma StageKeepsIds(u: Update, e: Edit)
    requires u.Fits() && Stage(u, e).Ok?
    ensures var u' := Stage(u, e).value;
      && |u'.changed| == |u.changed| && (forall i | 0 <= i < |u.changed| :: u'.changed[i].id == u.changed[i].id)
      && (e.Add? || (u'.added == u.added && u'.lastId == u.lastId))
      && (e.Add? ==> u'.added == u.added + [NewField(u.lastId, e.name, e.fieldType)] && u'.lastId == u.lastId + 1)
  {
    hide Find;
  }

  lemma {:induction false} FieldIdsKept(s: Schema, edits: seq<Edit>)
    requires StageAll(Open(s), edits).Ok?
    ensures var u := StageAll(Open(s), edits).value;
      KeepsIds(s, u.changed + u.added, u.lastId) && |u.changed| == |s.fields|
  {
    hide Stage;
    if edits == [] {
      assert s.fields + [] == s.fields;
    } else {
      FieldIdsKept(s, edits[..|edits| - 1]);
      var u := StageAll(Open(s), edits[..|edits| - 1]).value;
      var u' := StageAll(Open(s), edits).value;
      StageKeepsIds(u, edits[|edits| - 1]);
      forall i | 0 <= i < |s.fields|
        ensures u'.changed[i].id == s.fields[i].id
      {
        assert (u.changed + u.added)[i] == u.changed[i];
      }
      forall i | 0 <= i < |u.added|
        ensures u'.added[i].id == s.lastId + 1 + i
      {
        assert (u.changed + u.added)[|s.fields| + i] == u.added[i];
      }
    }
  }

  lemma AlteredKeepsIds(s: Schema, edits: seq<Edit>)
    requires Valid(s) && Altered(s, edits).Ok?
    ensures KeepsIds(s, Altered(s, edits).value.fields, Altered(s, edits).value.lastId)
    ensures Valid(Altered(s, edits).value)
  {
    hide StageAll;
    FieldIdsKept(s, edits);
  }

  // ---- order -----------------------------------------------------------------------------

  predicate TakesName(edits: seq<Edit>, k: nat, name: string)
    requires k <= |edits|
  {
    exists j :: 0 <= j < k && edits[j].Rename? && edits[j].name == name
  }

  lemma TakesNameStep(edits: seq<Edit>, k: nat, name: string)
    requires k < |edits|
    ensures TakesName(edits, k + 1, name) <==> TakesName(edits, k, name) || (edits[k].Rename? && edits[k].name == name)
    ensures TakesName(edits[..k], k, name) <==> TakesName(edits, k, name)
  {
  }

  /** The translation knows the names the staged renames took, and each leads to an opening column. */
  lemma {:induction false} RenamedSoFar(s: Schema, edits: seq<Edit>)
    requires StageAll(Open(s), edits).Ok?
    ensures var u := StageAll(Open(s), edits).value;
            && (forall name :: name in u.renamed <==> TakesName(edits, |edits|, name))
            && (forall name | name in u.renamed :: Find(s.fields, u.renamed[name]) < |s.fields|)
  {
    hide Find, TakesName;
    if edits == [] {
      forall name
        ensures !TakesName(edits, 0, name)
      {
        NoneTaken(edits, name);
      }
    } else {
      var front := edits[..|edits| - 1];
      RenamedSoFar(s, front);
      forall name
        ensures TakesName(edits, |edits|, name) <==>
          TakesName(front, |front|, name) || (edits[|front|].Rename? && edits[|front|].name == name)
      {
        TakesNameStep(edits, |front|, name);
      }
    }
  }

  lemma NoneTaken(edits: seq<Edit>, name: string)
    ensures !TakesName(edits, 0, name)
  {
  }

  /** The order of a list decides whether it commits: an edit of a column that is not being added or renamed
      is staged exactly when the column's name is an opening one or an earlier rename took it. Where only
      a later rename takes it, or none, the whole list is refused. */
  lemma OrderMatters(s: Schema, edits: seq<Edit>, k: nat)
    requires k < |edits| && (edits[k].Promote? || edits[k].Relax?)
    ensures var named := Find(s.fields, edits[k].name) < |s.fields| || TakesName(edits, k, edits[k].name);
      && (StageAll(Open(s), edits[..k]).Ok? ==> (StageAll(Open(s), edits[..k + 1]).Ok? <==> named))
      && (!named ==> Altered(s, edits).Err?)
  {
    hide Find, TakesName;
    assert edits[..k + 1][..k] == edits[..k] && edits[..k + 1][k] == edits[k];
    if StageAll(Open(s), edits[..k]).Ok? {
      RenamedSoFar(s, edits[..k]);
      TakesNameStep(edits, k, edits[k].name);
    }
    if StageAll(Open(s), edits[..k + 1]).Err? {
      StopsAt(Open(s), edits, k + 1);
    }
  }
}
