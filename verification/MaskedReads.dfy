/** What a mask withholds, no read tells: `get`, `search` and `traverse` answer alike over two lakes that
    differ only in columns of masked properties that no row predicate reads. */
module MaskedReads {
  import opened Wrappers
  import opened Values
  import opened ExprAst
  import opened Model
  import opened Kleene
  import opened Auth
  import opened Predicate
  import opened Governance
  import opened FailClosed
  import opened Coercion
  import opened Attempt
  import opened NonInterference
  import opened Resolver
  import Filters
  import Ir
  import DuckDb

  // ---- a lowered predicate reads the columns of what it names ----------------------------

  /** The columns of the properties an expression names. */
  function NamedColumns(node: Node, obj: ObjectType): set<string> {
    set name | name in ObjectReads(node) && name in obj.properties :: obj.properties[name].column
  }

  /** Two rows equal on these columns. */
  predicate SameCells(a: Row, b: Row, columns: set<string>) {
    forall column | column in columns :: Cell(a, column) == Cell(b, column)
  }

  lemma OperandLocal(node: Node, obj: ObjectType, a: Row, b: Row)
    requires LowerOperand(node, obj, ALIAS).Ok? && (node.Ref? ==> IsObjectRef(node.path))
    requires SameCells(a, b, NamedColumns(node, obj))
    ensures Ir.OperandValue(LowerOperand(node, obj, ALIAS).value, map[ALIAS := a])
         == Ir.OperandValue(LowerOperand(node, obj, ALIAS).value, map[ALIAS := b])
  {
    if node.Ref? {
      assert node.path in Refs(node) && node.path[1] in ObjectReads(node);
    }
  }

  lemma NamedSplit(node: Node, obj: ObjectType, a: Row, b: Row)
    requires node.Binary? && SameCells(a, b, NamedColumns(node, obj))
    ensures SameCells(a, b, NamedColumns(node.left, obj)) && SameCells(a, b, NamedColumns(node.right, obj))
  {
    ReadsSplit(node);
  }

  /** Every reference of the node is to a property of the row: what folding and checking leave. */
  predicate RowOnly(node: Node) {
    match node
    case Literal(_) => true
    case Ref(path) => IsObjectRef(path)
    case Call(_, _) => false
    case Unary(_, operand) => RowOnly(operand)
    case Binary(_, left, right) => RowOnly(left) && RowOnly(right)
  }

  lemma {:induction false} MeaningLocal(node: Node, obj: ObjectType, a: Row, b: Row)
    requires RowOnly(node) && Lower(node, obj, ALIAS).Ok? && SameCells(a, b, NamedColumns(node, obj))
    ensures Ir.Meaning(Lower(node, obj, ALIAS).value, map[ALIAS := a])
         == Ir.Meaning(Lower(node, obj, ALIAS).value, map[ALIAS := b])
  {
    hide NamedColumns, SameCells, Ir.CompareMeaning;
    if node.Unary? {
      assert NamedColumns(node, obj) == NamedColumns(node.operand, obj) by { NamedUnary(node, obj); }
      MeaningLocal(node.operand, obj, a, b);
    } else {
      NamedSplit(node, obj, a, b);
      if IsConnective(node.op) {
        MeaningLocal(node.left, obj, a, b);
        MeaningLocal(node.right, obj, a, b);
      } else {
        OperandLocal(node.left, obj, a, b);
        OperandLocal(node.right, obj, a, b);
      }
    }
  }

  lemma NamedUnary(node: Node, obj: ObjectType)
    requires node.Unary?
    ensures NamedColumns(node, obj) == NamedColumns(node.operand, obj)
  {
    assert Refs(node) == Refs(node.operand);
  }

  /** The caller's row predicate, once decided, names only the row. */
  ghost predicate DecidedFor(d: Deployment, obj: ObjectType) {
    var p := d.policies.PredicateFor(obj.apiName);
    p.Some? ==> RowOnly(p.value)
  }

  lemma GovernedAlike(d: Deployment, obj: ObjectType, hidden: set<string>, a: Row, b: Row)
    requires HiddenFrom(d, obj, hidden) && DecidedFor(d, obj) && Alike(a, b, hidden)
    ensures GovernedTruth(d, obj, a) == GovernedTruth(d, obj, b)
  {
    var p := d.policies.PredicateFor(obj.apiName);
    if p.Some? && Lower(p.value, obj, ALIAS).Ok? {
      forall column | column in NamedColumns(p.value, obj)
        ensures Cell(a, column) == Cell(b, column)
      {
      }
      MeaningLocal(p.value, obj, a, b);
      var lowered := Lower(p.value, obj, ALIAS).value;
      DuckDb.SqlMeansPredicate(lowered, map[ALIAS := a], []);
      DuckDb.SqlMeansPredicate(lowered, map[ALIAS := b], []);
      assert DuckDb.Compile(lowered).params + [] == DuckDb.Compile(lowered).params;
    }
  }

  // ---- statements ------------------------------------------------------------------------

  /** A test that tells alike rows alike. */
  ghost predicate Blind(f: Row -> Result<Truth>, g: Row -> Result<Truth>, a: seq<Row>, b: seq<Row>) {
    |a| == |b| && forall k | 0 <= k < |a| :: f(a[k]) == g(b[k])
  }

  ghost predicate AlikeResults(a: Result<seq<Row>>, b: Result<seq<Row>>, hidden: set<string>) {
    a.Ok? == b.Ok? && (a.Ok? ==> AlikeRows(a.value, b.value, hidden))
  }

  lemma {:induction false} KeepAlike(a: seq<Row>, b: seq<Row>, hidden: set<string>, f: Row -> Result<Truth>,
                                     g: Row -> Result<Truth>)
    requires AlikeRows(a, b, hidden) && Blind(f, g, a, b)
    ensures AlikeResults(Keep(a, f), Keep(b, g), hidden)
  {
    if a != [] {
      hide Alike, AlikeRows;
      TailAlike(a, b, hidden);
      assert Blind(f, g, a[1..], b[1..]);
      KeepAlike(a[1..], b[1..], hidden, f, g);
      assert f(a[0]) == g(b[0]);
      if Keep(a[1..], f).Ok? {
        var x, y := Keep(a[1..], f).value, Keep(b[1..], g).value;
        ConsAlike(a[0], b[0], x, y, hidden);
        SkipNothing(x, y);
      }
    }
  }

  lemma ProjectAllAlike(d: Deployment, obj: ObjectType, hidden: set<string>, a: seq<Row>, b: seq<Row>)
    requires HiddenFrom(d, obj, hidden) && AlikeRows(a, b, hidden)
    ensures ProjectAll(d, obj, a) == ProjectAll(d, obj, b)
  {
    hide Alike, Project;
    forall k | 0 <= k < |a|
      ensures Project(d, obj, a[k]) == Project(d, obj, b[k])
    {
      ProjectAlike(d, obj, hidden, a[k], b[k]);
    }
  }

  lemma {:induction false} InsertAlike(r: Row, t: Row, a: seq<Row>, b: seq<Row>, hidden: set<string>, column: string)
    requires Alike(r, t, hidden) && AlikeRows(a, b, hidden) && column !in hidden
    ensures AlikeRows(InsertByKey(r, a, column), InsertByKey(t, b, column), hidden)
  {
    hide Alike, AlikeRows, KeyBefore;
    CellAlike(r, t, hidden, column);
    if a == [] {
      assert b == [] by { SameLength(a, b, hidden); }
      ConsAlike(r, t, a, b, hidden);
    } else {
      TailAlike(a, b, hidden);
      CellAlike(a[0], b[0], hidden, column);
      ConsAlike(r, t, a, b, hidden);
      InsertAlike(r, t, a[1..], b[1..], hidden, column);
      ConsAlike(a[0], b[0], InsertByKey(r, a[1..], column), InsertByKey(t, b[1..], column), hidden);
    }
  }

  lemma SameLength(a: seq<Row>, b: seq<Row>, hidden: set<string>)
    requires AlikeRows(a, b, hidden)
    ensures |a| == |b|
  {
  }

  lemma {:induction false} SortAlike(a: seq<Row>, b: seq<Row>, hidden: set<string>, column: string)
    requires AlikeRows(a, b, hidden) && column !in hidden
    ensures AlikeRows(SortByKey(a, column), SortByKey(b, column), hidden)
  {
    hide Alike, InsertByKey;
    if a != [] {
      var n := |a| - 1;
      SortAlike(a[..n], b[..n], hidden, column);
      InsertAlike(a[n], b[n], SortByKey(a[..n], column), SortByKey(b[..n], column), hidden, column);
    }
  }

  lemma PageAlike(d: Deployment, obj: ObjectType, hidden: set<string>, a: seq<Row>, b: seq<Row>, offset: nat, size: nat)
    requires obj.Valid() && HiddenFrom(d, obj, hidden) && AlikeRows(a, b, hidden)
    ensures ProjectAll(d, obj, Page(SortByKey(a, obj.Pk().column), offset, size))
         == ProjectAll(d, obj, Page(SortByKey(b, obj.Pk().column), offset, size))
  {
    hide Alike, SortByKey, ProjectAll;
    var x, y := SortByKey(a, obj.Pk().column), SortByKey(b, obj.Pk().column);
    SortAlike(a, b, hidden, obj.Pk().column);
    assert AlikeRows(Page(x, offset, size), Page(y, offset, size), hidden);
    ProjectAllAlike(d, obj, hidden, Page(x, offset, size), Page(y, offset, size));
  }

  // ---- get, search, traverse -------------------------------------------------------------

  lemma KeyTestAlike(d: Deployment, obj: ObjectType, hidden: set<string>, column: string, key: Value, a: seq<Row>,
                     b: seq<Row>)
    requires HiddenFrom(d, obj, hidden) && DecidedFor(d, obj) && AlikeRows(a, b, hidden) && column !in hidden
    ensures Blind(GetTest(d, obj, column, key), GetTest(d, obj, column, key), a, b)
  {
    hide Alike, GovernedTruth, Filters.SqlEquals;
    forall k | 0 <= k < |a|
      ensures GetTest(d, obj, column, key)(a[k]) == GetTest(d, obj, column, key)(b[k])
    {
      CellAlike(a[k], b[k], hidden, column);
      GovernedAlike(d, obj, hidden, a[k], b[k]);
    }
  }

  lemma PrunedAlike(a: seq<Row>, b: seq<Row>, hidden: set<string>)
    requires AlikeRows(a, b, hidden)
    ensures AlikeRows(if |a| > 2 then a[..2] else a, if |b| > 2 then b[..2] else b, hidden)
  {
    hide Alike;
  }

  lemma FirstAlike(d: Deployment, obj: ObjectType, hidden: set<string>, a: Result<seq<Row>>, b: Result<seq<Row>>)
    requires HiddenFrom(d, obj, hidden) && AlikeResults(a, b, hidden)
    ensures a.Ok? == b.Ok?
    ensures a.Ok? ==> |a.value| == |b.value|
    ensures a.Ok? && a.value != [] ==> Project(d, obj, a.value[0]) == Project(d, obj, b.value[0])
  {
    hide Alike, Project;
    if a.Ok? && a.value != [] {
      ProjectAlike(d, obj, hidden, a.value[0], b.value[0]);
    }
  }

  lemma GetNeverTells(d: Deployment, obj: ObjectType, hidden: set<string>, a: seq<Row>, b: seq<Row>, key: Value)
    requires obj.Valid() && HiddenFrom(d, obj, hidden) && DecidedFor(d, obj) && AlikeRows(a, b, hidden)
    ensures Get(d, obj, a, key) == Get(d, obj, b, key)
  {
    hide Coerce, Alike, AlikeRows, AlikeResults, GetTest, Keep, Project, Matching;
    var column := obj.Pk().column;
    var k := Coerce(d.host, d.ontology.objectTypes, obj.Pk().propType, key);
    if k.Ok? {
      MatchingAlike(a, b, hidden, column, k.value);
      var m, n := Matching(a, column, k.value), Matching(b, column, k.value);
      PrunedAlike(m, n, hidden);
      var x, y := if |m| > 2 then m[..2] else m, if |n| > 2 then n[..2] else n;
      KeyTestAlike(d, obj, hidden, column, k.value, x, y);
      KeepAlike(x, y, hidden, GetTest(d, obj, column, k.value), GetTest(d, obj, column, k.value));
      FirstAlike(d, obj, hidden, Keep(x, GetTest(d, obj, column, k.value)), Keep(y, GetTest(d, obj, column, k.value)));
    }
  }

  /** A filter on a masked property is refused, so no accepted clause reads a hidden column. */
  lemma {:induction false} ClausesAvoidHidden(d: Deployment, obj: ObjectType, hidden: set<string>,
                                              filters: seq<Filters.Field>)
    requires obj.Valid() && HiddenFrom(d, obj, hidden) && FilterClauses(d, obj, filters).Ok?
    ensures forall c | c in FilterClauses(d, obj, filters).value :: c.column !in hidden
  {
    hide Filters.Lower;
    if filters != [] {
      ClausesAvoidHidden(d, obj, hidden, filters[..|filters| - 1]);
      var f := filters[|filters| - 1];
      assert Filterable(d, obj, f.key);
      LoweredColumns(d.host, d.ontology.objectTypes, obj.properties[f.key], f.value);
    }
  }

  lemma LoweredColumns(h: Host, objects: map<string, ObjectType>, p: Property, json: Filters.Json)
    ensures var out := Filters.Lower(h, objects, p, true, json);
      out.Ok? ==> forall c | c in out.value :: c.column == p.column
  {
    hide Coerce;
    if json.Object? {
      EachColumns(h, objects, p, Filters.Operators(p.propType, true), json.fields);
    }
  }

  lemma {:induction false} EachColumns(h: Host, objects: map<string, ObjectType>, p: Property, allowed: seq<string>,
                                       fields: seq<Filters.Field>)
    ensures var out := Filters.LowerEach(h, objects, p, allowed, fields);
      out.Ok? ==> forall c | c in out.value :: c.column == p.column
  {
    hide Coerce, Filters.Lookup, Filters.CoercedAll;
    if allowed != [] {
      EachColumns(h, objects, p, allowed[..|allowed| - 1], fields);
    }
  }

  lemma {:induction false} ClausesAlike(clauses: seq<Filters.Clause>, a: Row, b: Row, hidden: set<string>)
    requires Alike(a, b, hidden) && forall c | c in clauses :: c.column !in hidden
    ensures ClausesTruth(clauses, a) == ClausesTruth(clauses, b)
  {
    hide Alike, Ir.CompareMeaning, Filters.LikeMeaning, Filters.Membership;
    if clauses != [] {
      var n := |clauses| - 1;
      ClausesAlike(clauses[..n], a, b, hidden);
      assert clauses[n] in clauses;
      CellAlike(a, b, hidden, clauses[n].column);
    }
  }

  lemma SearchNeverTells(d: Deployment, obj: ObjectType, hidden: set<string>, a: seq<Row>, b: seq<Row>,
                         filters: seq<Filters.Field>, limit: Option<int>, offset: int)
    requires obj.Valid() && HiddenFrom(d, obj, hidden) && DecidedFor(d, obj) && AlikeRows(a, b, hidden)
    ensures Search(d, obj, a, filters, limit, offset) == Search(d, obj, b, filters, limit, offset)
  {
    hide Alike, Keep, ProjectAll, Page, SortByKey, ClausesTruth, GovernedTruth, FilterClauses;
    if FilterClauses(d, obj, filters).Ok? && PageSize(limit).Ok? && offset >= 0 {
      var clauses := FilterClauses(d, obj, filters).value;
      ClausesAvoidHidden(d, obj, hidden, filters);
      var test := SearchTest(d, obj, clauses);
      forall k | 0 <= k < |a|
        ensures test(a[k]) == test(b[k])
      {
        ClausesAlike(clauses, a[k], b[k], hidden);
        GovernedAlike(d, obj, hidden, a[k], b[k]);
      }
      KeepAlike(a, b, hidden, test, test);
      if Keep(a, test).Ok? {
        PageAlike(d, obj, hidden, Keep(a, test).value, Keep(b, test).value, offset, PageSize(limit).value);
      }
    }
  }

  lemma {:induction false} JoinedAlike(a: seq<Row>, b: seq<Row>, hidden: set<string>, column: string,
                                       values: seq<Value>)
    requires AlikeRows(a, b, hidden) && column !in hidden
    ensures AlikeResults(Joined(a, column, values), Joined(b, column, values), hidden)
  {
    hide Alike, Keep, Filters.SqlEquals;
    if values != [] {
      var n := |values| - 1;
      JoinedAlike(a, b, hidden, column, values[..n]);
      var test := JoinTest(column, values[n]);
      forall k | 0 <= k < |a|
        ensures test(a[k]) == test(b[k])
      {
        CellAlike(a[k], b[k], hidden, column);
      }
      KeepAlike(a, b, hidden, test, test);
    }
  }

  lemma CellsAlike(a: seq<Row>, b: seq<Row>, hidden: set<string>, column: string)
    requires AlikeRows(a, b, hidden) && column !in hidden
    ensures Cells(a, column) == Cells(b, column)
  {
    hide Alike;
    forall k | 0 <= k < |a|
      ensures Cell(a[k], column) == Cell(b[k], column)
    {
      CellAlike(a[k], b[k], hidden, column);
    }
  }

  /** One hop: what binding keeps out of a mask is what the hop compares, at either end. */
  lemma TraverseNeverTells(d: Deployment, source: ObjectType, target: ObjectType, hiddenFrom: set<string>,
                           hiddenTo: set<string>,
                           from: seq<Row>, from': seq<Row>, to: seq<Row>, to': seq<Row>, hop: Hop, key: Value,
                           limit: Option<int>, offset: int)
    requires source.Valid() && HiddenFrom(d, source, hiddenFrom) && DecidedFor(d, source)
    requires AlikeRows(from, from', hiddenFrom)
    requires target.Valid() && HiddenFrom(d, target, hiddenTo) && DecidedFor(d, target) && AlikeRows(to, to', hiddenTo)
    requires hop.fromColumn !in hiddenFrom && hop.toColumn !in hiddenTo
    ensures Traverse(d, source, target, from, to, hop, key, limit, offset)
         == Traverse(d, source, target, from', to', hop, key, limit, offset)
  {
    hide Alike, Keep, ProjectAll, Page, SortByKey, GovernedTruth, Joined, Cells, Coerce, GetTest, HopValues;
    var k := Coerce(d.host, d.ontology.objectTypes, source.Pk().propType, key);
    if k.Ok? && PageSize(limit).Ok? && offset >= 0 {
      var column := source.Pk().column;
      KeyTestAlike(d, source, hiddenFrom, column, k.value, from, from');
      KeepAlike(from, from', hiddenFrom, GetTest(d, source, column, k.value), GetTest(d, source, column, k.value));
      var x, y := Anchors(d, source, from, k.value), Anchors(d, source, from', k.value);
      if x.Ok? {
        HopAlike(hop, x.value, y.value, hiddenFrom);
        ReachAlike(d, target, hiddenTo, to, to', hop, HopValues(hop, x.value), PageSize(limit).value, offset);
      }
    }
  }

  lemma HopAlike(hop: Hop, a: seq<Row>, b: seq<Row>, hidden: set<string>)
    requires AlikeRows(a, b, hidden) && hop.fromColumn !in hidden
    ensures HopValues(hop, a) == HopValues(hop, b)
  {
    hide Cells, Joined;
    CellsAlike(a, b, hidden, hop.fromColumn);
  }

  lemma ReachAlike(d: Deployment, target: ObjectType, hidden: set<string>, to: seq<Row>, to': seq<Row>, hop: Hop,
                   values: Result<seq<Value>>, size: nat, offset: nat)
    requires target.Valid() && HiddenFrom(d, target, hidden) && DecidedFor(d, target) && AlikeRows(to, to', hidden)
    requires hop.toColumn !in hidden
    ensures var f := (row: Row) => GovernedTruth(d, target, row);
      Keep(to, f).Ok? == Keep(to', f).Ok? &&
      (Keep(to, f).Ok? && values.Ok? ==>
        var x := Joined(Keep(to, f).value, hop.toColumn, values.value);
        var y := Joined(Keep(to', f).value, hop.toColumn, values.value);
        x.Ok? == y.Ok? && (x.Ok? ==>
          ProjectAll(d, target, Page(SortByKey(x.value, target.Pk().column), offset, size))
          == ProjectAll(d, target, Page(SortByKey(y.value, target.Pk().column), offset, size))))
  {
    hide Alike, Keep, ProjectAll, Page, SortByKey, GovernedTruth, Joined;
    var f := (row: Row) => GovernedTruth(d, target, row);
    forall k | 0 <= k < |to|
      ensures f(to[k]) == f(to'[k])
    {
      GovernedAlike(d, target, hidden, to[k], to'[k]);
    }
    KeepAlike(to, to', hidden, f, f);
    if Keep(to, f).Ok? && values.Ok? {
      JoinedAlike(Keep(to, f).value, Keep(to', f).value, hidden, hop.toColumn, values.value);
      var x := Joined(Keep(to, f).value, hop.toColumn, values.value);
      var y := Joined(Keep(to', f).value, hop.toColumn, values.value);
      if x.Ok? {
        PageAlike(d, target, hidden, x.value, y.value, offset, size);
      }
    }
  }

  // ---- binding makes it so ---------------------------------------------------------------

  /** An accepted predicate with the caller folded in names only the row. */
  lemma {:induction false} FoldedIsRowOnly(node: Node, ctx: Ctx, values: View)
    requires WalkProblems(node, ctx) == [] && ctx.obj.Some?
    ensures RowOnly(Fold(node, values))
  {
    if node.Unary? {
      FoldedIsRowOnly(node.operand, ctx, values);
    } else if IsConnective(node.op) {
      FoldedIsRowOnly(node.left, ctx, values);
      FoldedIsRowOnly(node.right, ctx, values);
    } else {
      SubstitutedIsRowOnly(node.left, ctx, values);
      SubstitutedIsRowOnly(node.right, ctx, values);
    }
  }

  lemma SubstitutedIsRowOnly(node: Node, ctx: Ctx, values: View)
    requires !OperandTypeOf(node, ctx).Bad?
    ensures Substituted(node, values).Some? ==> RowOnly(Substituted(node, values).value)
  {
  }

  lemma {:induction false} ConjunctionIsRowOnly(entries: seq<Filter>)
    requires entries != [] && forall f | f in entries :: RowOnly(f.expr)
    ensures RowOnly(Conjunction(entries))
  {
    hide RowOnly;
    var front, last := entries[..|entries| - 1], entries[|entries| - 1];
    assert last in entries;
    if |entries| > 1 {
      ConjunctionIsRowOnly(front);
      AndIsRowOnly(Conjunction(front), last.expr);
    }
  }

  lemma AndIsRowOnly(a: Node, b: Node)
    requires RowOnly(a) && RowOnly(b)
    ensures RowOnly(Binary(And, a, b))
  {
  }

  lemma ServedIsDecided(d: Deployment, program: Program, principal: Option<Principal>, obj: ObjectType)
    requires Serves(d, program, principal)
    requires obj.apiName in d.ontology.objectTypes && d.ontology.objectTypes[obj.apiName] == obj
    ensures DecidedFor(d, obj)
  {
    hide WalkProblems, Fold, WellBound, Selected;
    if d.policies.PredicateFor(obj.apiName).Some? {
      var entries := d.policies.filters[obj.apiName];
      var values := ReadableClaims(principal, program.claims);
      forall f | f in entries
        ensures RowOnly(f.expr)
      {
        FiltersAreFolded(program, d.ontology, principal, obj.apiName, f);
        var p :| p in program.policies && p.objectType == obj.apiName && p.rows.Some? &&
                 f.expr == Fold(p.rows.value, values);
        PolicyFits(program, d.ontology, p);
        FoldedIsRowOnly(p.rows.value, RowCtx(obj, d.ontology.objectTypes, program.claims), values);
      }
      ConjunctionIsRowOnly(entries);
    }
  }

  /** A mask that was bound withholds neither the key nor either end of a link: columns of masked
      properties that no row predicate reads are hidden, and no hop compares them. */
  lemma BoundMasksHide(d: Deployment, program: Program, principal: Option<Principal>, obj: ObjectType,
                       hidden: set<string>)
    requires Serves(d, program, principal) && obj.Valid()
    requires obj.apiName in d.ontology.objectTypes && d.ontology.objectTypes[obj.apiName] == obj
    requires forall name | name in obj.properties && obj.properties[name].column in hidden ::
      && name in d.policies.Masked(obj.apiName)
      && (d.policies.PredicateFor(obj.apiName).Some? ==>
            name !in ObjectReads(d.policies.PredicateFor(obj.apiName).value))
    ensures HiddenFrom(d, obj, hidden) && DecidedFor(d, obj)
    ensures forall name | name in obj.properties && LinkJoins(d.ontology, obj.apiName, name) ::
      obj.properties[name].column !in hidden
  {
    ServedIsDecided(d, program, principal, obj);
    forall name | name in obj.properties && obj.properties[name].column in hidden
      ensures name != obj.primaryKey && !LinkJoins(d.ontology, obj.apiName, name)
    {
      MaskedIsMaskable(d, program, principal, obj, name);
    }
  }

  lemma MaskedIsMaskable(d: Deployment, program: Program, principal: Option<Principal>, obj: ObjectType, name: string)
    requires Serves(d, program, principal) && name in d.policies.Masked(obj.apiName)
    requires obj.apiName in d.ontology.objectTypes && d.ontology.objectTypes[obj.apiName] == obj
    ensures Maskable(d.ontology, obj, name)
  {
    hide RowsFit, FiltersBound, Maskable;
    assert d.policies.masks == program.masks;
    assert MaskAt(program.masks, obj.apiName, name).Some?;
    var p :| p in program.policies && MaskedBy(p, obj.apiName, name);
    PolicyFits(program, d.ontology, p);
    var j :| 0 <= j < |p.mask| && p.mask[j] == name;
    assert Maskable(d.ontology, obj, p.mask[j]);
  }
}
