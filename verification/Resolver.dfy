/** The governed reads: one object by key, a filtered page, one hop along a link. Every table a read touches
    is governed where it is named, and a masked property is never asked for. */
module Resolver {
  import opened Wrappers
  import opened Values
  import opened ExprAst
  import opened Types
  import opened Model
  import opened Kleene
  import opened Auth
  import opened Predicate
  import opened PlaneAgreement
  import opened Governance
  import opened FailClosed
  import opened Coercion
  import opened Attempt
  import opened Atomicity
  import Filters
  import Ir
  import DuckDb

  const ALIAS := "t0"

  /** What the statement's governance clause answers about a row. */
  function GovernedTruth(d: Deployment, obj: ObjectType, row: Row): Result<Truth> {
    match d.policies.PredicateFor(obj.apiName)
    case None => Ok(Yes)
    case Some(p) =>
      var lowered :- Lower(p, obj, ALIAS);
      var c := DuckDb.Compile(lowered);
      DuckDb.Run(c.sql, map[ALIAS := row], c.params).truth
  }

  /** The rows a statement selects: those its clause is true of. A value the engine cannot compare fails
      the whole statement. */
  function Keep(rows: seq<Row>, test: Row -> Result<Truth>): Result<seq<Row>> {
    if rows == [] then Ok([])
    else
      var first :- test(rows[0]);
      var rest :- Keep(rows[1..], test);
      Ok((if first.Yes? then [rows[0]] else []) + rest)
  }

  function Both(a: Result<Truth>, b: Result<Truth>): Result<Truth> {
    var x :- a;
    var y :- b;
    Ok(And3(x, y))
  }

  function ProjectAll(d: Deployment, obj: ObjectType, rows: seq<Row>): seq<View> {
    seq(|rows|, k requires 0 <= k < |rows| => Project(d, obj, rows[k]))
  }

  // ---- get -------------------------------------------------------------------------------

  function GetTest(d: Deployment, obj: ObjectType, column: string, key: Value): Row -> Result<Truth> {
    row => Both(Filters.SqlEquals(Cell(row, column), key), GovernedTruth(d, obj, row))
  }

  /** The scan is pruned to two rows under the key; the statement then keeps those with the key that the
      deployment shows. Two of them are a table that breaks its own uniqueness. */
  function Get(d: Deployment, obj: ObjectType, rows: seq<Row>, key: Value): Result<Option<View>>
    requires obj.Valid()
  {
    var column := obj.Pk().column;
    var k :- Coerce(d.host, d.ontology.objectTypes, obj.Pk().propType, key);
    var scanned := Matching(rows, column, k);
    var found :- Keep(if |scanned| > 2 then scanned[..2] else scanned, GetTest(d, obj, column, k));
    if |found| > 1 then Err
    else if found == [] then Ok(None)
    else Ok(Some(Project(d, obj, found[0])))
  }

  // ---- search ----------------------------------------------------------------------------

  const DEFAULT_PAGE_SIZE: nat := 50
  const MAX_PAGE_SIZE: nat := 500

  /** A limit out of bounds is refused, not clamped. */
  function PageSize(limit: Option<int>): Result<nat> {
    match limit
    case None => Ok(DEFAULT_PAGE_SIZE)
    case Some(n) => if 1 <= n <= MAX_PAGE_SIZE then Ok(n) else Err
  }

  /** A filter is on a declared, searchable property that no policy withholds. */
  predicate Filterable(d: Deployment, obj: ObjectType, name: string) {
    name in obj.properties && name in obj.searchable && name !in d.policies.Masked(obj.apiName)
  }

  function FilterClauses(d: Deployment, obj: ObjectType, filters: seq<Filters.Field>): Result<seq<Filters.Clause>> {
    if filters == [] then Ok([])
    else
      var front :- FilterClauses(d, obj, filters[..|filters| - 1]);
      var f := filters[|filters| - 1];
      if !Filterable(d, obj, f.key) then Err
      else
        var more :- Filters.Lower(d.host, d.ontology.objectTypes, obj.properties[f.key], true, f.value);
        Ok(front + more)
  }

  function ClausesTruth(clauses: seq<Filters.Clause>, row: Row): Result<Truth> {
    if clauses == [] then Ok(Yes)
    else Both(ClausesTruth(clauses[..|clauses| - 1], row), Filters.ClauseMeaning(clauses[|clauses| - 1], row))
  }

  function SearchTest(d: Deployment, obj: ObjectType, clauses: seq<Filters.Clause>): Row -> Result<Truth> {
    row => Both(ClausesTruth(clauses, row), GovernedTruth(d, obj, row))
  }

  /** The order of `ORDER BY key`: nulls last, and like values among themselves. */
  predicate KeyBefore(a: Value, b: Value) {
    !a.Null? && (b.Null? || (Ir.SqlComparable(a, b) && Ir.SqlLess(a, b)))
  }

  function InsertByKey(row: Row, sorted: seq<Row>, column: string): seq<Row> {
    if sorted == [] || KeyBefore(Cell(row, column), Cell(sorted[0], column)) then [row] + sorted
    else [sorted[0]] + InsertByKey(row, sorted[1..], column)
  }

  function SortByKey(rows: seq<Row>, column: string): seq<Row> {
    if rows == [] then [] else InsertByKey(rows[|rows| - 1], SortByKey(rows[..|rows| - 1], column), column)
  }

  function Page(rows: seq<Row>, offset: nat, size: nat): seq<Row> {
    if offset >= |rows| then [] else if offset + size >= |rows| then rows[offset..] else rows[offset..offset + size]
  }

  function Search(d: Deployment, obj: ObjectType, rows: seq<Row>, filters: seq<Filters.Field>, limit: Option<int>,
                  offset: int): Result<seq<View>>
    requires obj.Valid()
  {
    var clauses :- FilterClauses(d, obj, filters);
    var size :- PageSize(limit);
    if offset < 0 then Err
    else
      var kept :- Keep(rows, SearchTest(d, obj, clauses));
      Ok(ProjectAll(d, obj, Page(SortByKey(kept, obj.Pk().column), offset, size)))
  }

  // ---- traverse --------------------------------------------------------------------------

  /** A hop, seen from the end it starts at: the columns that join, and the join table if there is one. */
  datatype Hop = Hop(fromColumn: string, toColumn: string, through: Option<JoinTable>)

  datatype JoinTable = JoinTable(rows: seq<Row>, fromColumn: string, toColumn: string)

  /** The rows a hop starts from: the one addressed, if the deployment shows it. */
  function Anchors(d: Deployment, source: ObjectType, rows: seq<Row>, key: Value): Result<seq<Row>>
    requires source.Valid()
  {
    Keep(rows, GetTest(d, source, source.Pk().column, key))
  }

  function JoinTest(column: string, value: Value): Row -> Result<Truth> {
    row => Filters.SqlEquals(Cell(row, column), value)
  }

  /** `rows` joined to each of `values` in turn: a row comes back once for every value it equals. */
  function Joined(rows: seq<Row>, column: string, values: seq<Value>): Result<seq<Row>> {
    if values == [] then Ok([])
    else
      var front :- Joined(rows, column, values[..|values| - 1]);
      var last :- Keep(rows, JoinTest(column, values[|values| - 1]));
      Ok(front + last)
  }

  function Cells(rows: seq<Row>, column: string): seq<Value> {
    seq(|rows|, k requires 0 <= k < |rows| => Cell(rows[k], column))
  }

  /** What the target's join column must equal, once for every way to get there. */
  function HopValues(hop: Hop, anchors: seq<Row>): Result<seq<Value>> {
    var starts := Cells(anchors, hop.fromColumn);
    match hop.through
    case None => Ok(starts)
    case Some(t) =>
      var steps :- Joined(t.rows, t.fromColumn, starts);
      Ok(Cells(steps, t.toColumn))
  }

  function Traverse(d: Deployment, source: ObjectType, target: ObjectType, from: seq<Row>, to: seq<Row>, hop: Hop,
                    key: Value, limit: Option<int>, offset: int): Result<seq<View>>
    requires source.Valid() && target.Valid()
  {
    var k :- Coerce(d.host, d.ontology.objectTypes, source.Pk().propType, key);
    var size :- PageSize(limit);
    if offset < 0 then Err
    else
      var anchors :- Anchors(d, source, from, k);
      var values :- HopValues(hop, anchors);
      var shown :- Keep(to, row => GovernedTruth(d, target, row));
      var reached :- Joined(shown, hop.toColumn, values);
      Ok(ProjectAll(d, target, Page(SortByKey(reached, target.Pk().column), offset, size)))
  }

  // ---- the read plane's rows are the write plane's ---------------------------------------

  /** The two planes can agree about a row: it holds values of its types, and no policy that filters it
      orders two booleans there or compares two values of different classes. */
  ghost predicate Agreeable(program: Program, principal: Option<Principal>, ontology: Ontology, obj: ObjectType,
                            row: Row)
  {
    var values := ReadableClaims(principal, program.claims);
    && TypedView(obj, ontology.objectTypes, PropertiesOf(obj, row))
    && forall p | p in program.policies && p.objectType == obj.apiName && p.rows.Some? ::
         && SourceLiterals(p.rows.value)
         && Settled(p.rows.value, RowCtx(obj, ontology.objectTypes, program.claims), PropertiesOf(obj, row), values)
  }

  lemma AgreeableIsTyped(program: Program, principal: Option<Principal>, ontology: Ontology, obj: ObjectType, row: Row)
    requires Agreeable(program, principal, ontology, obj, row)
    ensures TypedView(obj, ontology.objectTypes, PropertiesOf(obj, row))
  {
  }

  lemma ReadableIsTyped(principal: Option<Principal>, declared: map<string, ClaimType>)
    ensures TypedClaims(ReadableClaims(principal, declared), declared)
  {
  }

  /** A node that lowers, with one meaning on both planes. */
  ghost predicate OneMeaning(node: Node, obj: ObjectType, row: Row) {
    && Lower(node, obj, ALIAS).Ok? && RowTruth(node, PropertiesOf(obj, row)).Ok?
    && Ir.Meaning(Lower(node, obj, ALIAS).value, map[ALIAS := row]) == RowTruth(node, PropertiesOf(obj, row))
  }

  lemma FoldedHasOneMeaning(program: Program, principal: Option<Principal>, ontology: Ontology, p: Policy, row: Row)
    requires WellBound(program, ontology) && p in program.policies && p.rows.Some?
    requires p.objectType in ontology.objectTypes && ontology.objectTypes[p.objectType].apiName == p.objectType
    requires Agreeable(program, principal, ontology, ontology.objectTypes[p.objectType], row)
    ensures var values := ReadableClaims(principal, program.claims);
            OneMeaning(Fold(p.rows.value, values), ontology.objectTypes[p.objectType], row)
  {
    hide WalkProblems, Settled, Lower, Fold, TypedClaims, TypedView;
    var obj, values := ontology.objectTypes[p.objectType], ReadableClaims(principal, program.claims);
    PolicyFits(program, ontology, p);
    ReadableIsTyped(principal, program.claims);
    PlanesAgree(p.rows.value, obj, ontology.objectTypes, program.claims, row, values, ALIAS, map[ALIAS := row]);
    FoldMeans(p.rows.value, obj, ontology.objectTypes, program.claims, row, values, ALIAS);
  }

  lemma {:induction false} ConjunctionHasOneMeaning(entries: seq<Filter>, obj: ObjectType, row: Row)
    requires entries != [] && forall f | f in entries :: OneMeaning(f.expr, obj, row)
    ensures OneMeaning(Conjunction(entries), obj, row)
  {
    hide OneMeaning;
    if |entries| > 1 {
      var front, last := entries[..|entries| - 1], entries[|entries| - 1];
      ConjunctionHasOneMeaning(front, obj, row);
      assert last in entries;
      AndHasOneMeaning(Conjunction(front), last.expr, obj, row);
    } else {
      assert entries[0] in entries;
    }
  }

  lemma AndHasOneMeaning(a: Node, b: Node, obj: ObjectType, row: Row)
    requires OneMeaning(a, obj, row) && OneMeaning(b, obj, row)
    ensures OneMeaning(Binary(And, a, b), obj, row)
  {
  }

  /** Every filter a caller is governed by is a policy's predicate with the caller folded in. */
  lemma FiltersAreFolded(program: Program, ontology: Ontology, principal: Option<Principal>, objectType: string,
                         f: Filter)
    requires WellBound(program, ontology) && RowsPresent(program) && Selected(program, principal).Ok?
    requires objectType in Selected(program, principal).value.filters
    requires f in Selected(program, principal).value.filters[objectType]
    ensures exists p :: p in program.policies && p.objectType == objectType && p.rows.Some? &&
                        f.expr == Fold(p.rows.value, ReadableClaims(principal, program.claims))
  {
    hide WalkProblems, Fold;
    BoundRows(program, ontology);
    var values := ReadableClaims(principal, program.claims);
    var policies := program.filters[objectType];
    assert policies == FilterOf(program.filters, objectType) == RowPolicies(program.policies, objectType);
    if program.Conditional() {
      assert f in Applied(policies, values);
      var p :| p in policies && Applies(p, values) && f == Filter(p.name, Fold(p.rows.value, values));
    } else {
      assert f in WrittenFilters(policies);
      var p :| p in policies && f == Filter(p.name, p.rows.value);
      PolicyFits(program, ontology, p);
      var k :| 0 <= k < |program.policies| && program.policies[k] == p;
      assert !program.policies[k].Conditional();
      var obj := ontology.objectTypes[objectType];
      FoldIdentity(p.rows.value, RowCtx(obj, ontology.objectTypes, program.claims), values);
    }
  }

  /** A deployment that serves a caller policies bound to its ontology and decided for them. */
  ghost predicate Serves(d: Deployment, program: Program, principal: Option<Principal>) {
    WellBound(program, d.ontology) && RowsPresent(program) && Selected(program, principal) == Ok(d.policies)
  }

  /** The statement's governance clause is answered, and true of exactly the rows a run may act on. */
  lemma GovernedIffAdmitted(d: Deployment, program: Program, principal: Option<Principal>, obj: ObjectType, row: Row)
    requires Serves(d, program, principal) && Agreeable(program, principal, d.ontology, obj, row)
    requires obj.apiName in d.ontology.objectTypes && d.ontology.objectTypes[obj.apiName] == obj
    ensures GovernedTruth(d, obj, row).Ok?
    ensures GovernedTruth(d, obj, row) == Ok(Yes) <==> Admitted(d, obj, row)
  {
    hide WalkProblems, Fold, Agreeable, WellBound, Selected, Lower;
    if d.policies.PredicateFor(obj.apiName).Some? {
      var entries := d.policies.filters[obj.apiName];
      forall f | f in entries
        ensures OneMeaning(f.expr, obj, row)
      {
        FiltersAreFolded(program, d.ontology, principal, obj.apiName, f);
        var p :| p in program.policies && p.objectType == obj.apiName && p.rows.Some? &&
                 f.expr == Fold(p.rows.value, ReadableClaims(principal, program.claims));
        FoldedHasOneMeaning(program, principal, d.ontology, p, row);
      }
      ConjunctionHasOneMeaning(entries, obj, row);
      var lowered := Lower(Conjunction(entries), obj, ALIAS).value;
      DuckDb.SqlMeansPredicate(lowered, map[ALIAS := row], []);
      assert DuckDb.Compile(lowered).params + [] == DuckDb.Compile(lowered).params;
    }
  }

  lemma {:induction false} UniqueMatch(rows: seq<Row>, column: string, key: Value)
    requires KeysUnique(rows, column)
    ensures |Matching(rows, column, key)| <= 1
  {
    if rows != [] {
      UniqueMatch(rows[1..], column, key);
      if Keyed(rows[0], column, key) {
        forall row | row in rows[1..]
          ensures !Keyed(row, column, key)
        {
          var j :| 0 <= j < |rows[1..]| && rows[1..][j] == row;
          assert rows[j + 1] == row;
          SameKeyIsEquivalence(Cell(row, column), key, key);
          SameKeyIsEquivalence(Cell(rows[0], column), key, Cell(row, column));
        }
        NoneMatch(rows[1..], column, key);
      }
    }
  }

  lemma {:induction false} NoneMatch(rows: seq<Row>, column: string, key: Value)
    requires forall row | row in rows :: !Keyed(row, column, key)
    ensures Matching(rows, column, key) == []
  {
    if rows != [] {
      NoneMatch(rows[1..], column, key);
    }
  }

  /** A coerced key finds by SQL's `=` the rows it finds in process, unless it is null. */
  lemma KeyEqualsInSql(cell: Value, key: Value)
    requires SameKey(cell, key) && (key.Null? || key.Str? || key.Bool? || key.Num? || IsTime(key))
    ensures Filters.SqlEquals(cell, key) == Ok(if key.Null? then Undecided else Yes)
  {
  }

  lemma CoercedKeyIsScalar(h: Host, objects: map<string, ObjectType>, t: PropType, v: Value)
    requires Coerce(h, objects, t, v).Ok?
    ensures var k := Coerce(h, objects, t, v).value; k.Null? || k.Str? || k.Bool? || k.Num? || IsTime(k)
  {
    CoercedIsTyped(h, objects, t, v);
  }

  lemma KeepOne(row: Row, test: Row -> Result<Truth>)
    ensures Keep([row], test) == if test(row).Err? then Err else Ok(if test(row) == Ok(Yes) then [row] else [])
  {
    var none: seq<Row> := [];
    assert [row][1..] == none && Keep(none, test) == Ok(none);
    assert [row] + none == [row] && none + none == none;
  }

  /** SQL finds nothing under a null key, whatever rows the table holds. */
  lemma {:induction false} NothingUnderNull(d: Deployment, obj: ObjectType, rows: seq<Row>, column: string)
    requires forall row | row in rows :: GovernedTruth(d, obj, row).Ok?
    ensures Keep(rows, GetTest(d, obj, column, Null)) == Ok([])
  {
    hide GovernedTruth;
    if rows != [] {
      assert rows[0] in rows;
      NothingUnderNull(d, obj, rows[1..], column);
      var none: seq<Row> := [];
      assert none + none == none && !GetTest(d, obj, column, Null)(rows[0]).value.Yes?;
    }
  }

  /** A null key parts the planes: SQL finds nothing under it, a run finds the row that has none. */
  lemma NullKeyIsNotFound(d: Deployment, program: Program, principal: Option<Principal>, req: Request, rows: seq<Row>,
                          key: Value)
    requires Serves(d, program, principal) && Runnable(d, req) && !req.action.operation.Create?
    requires forall row | row in rows :: Agreeable(program, principal, d.ontology, Target(d, req), row)
    requires Coerce(d.host, d.ontology.objectTypes, Target(d, req).Pk().propType, key) == Ok(Null)
    ensures Get(d, Target(d, req), rows, key) == Ok(None)
    ensures var obj := Target(d, req);
            KeysUnique(rows, obj.Pk().column) ==>
              forall row | row in rows && Cell(row, obj.Pk().column).Null? && Admitted(d, obj, row) ::
                ReadRow(d, req, Null, rows) == Some(row)
  {
    hide Coerce, GovernedTruth, Admitted, Agreeable, Serves, KeysUnique;
    var obj := Target(d, req);
    var column := obj.Pk().column;
    var found := Matching(rows, column, Null);
    forall row | row in rows
      ensures GovernedTruth(d, obj, row).Ok?
    {
      GovernedIffAdmitted(d, program, principal, obj, row);
    }
    NothingUnderNull(d, obj, if |found| > 2 then found[..2] else found, column);
    if KeysUnique(rows, column) {
      UniqueMatch(rows, column, Null);
      assert forall row | row in rows && Cell(row, column).Null? :: row in found;
    }
  }

  /** Visible iff actionable. Over unique keys, `Get` finds an object exactly when its key is not null and
      a modify or a delete addressing it does not end in `object_not_found`, and it shows what the run
      would report as `before`. So the planes part exactly where a run finds a row without a key. */
  lemma VisibleIffActionable(d: Deployment, program: Program, principal: Option<Principal>, req: Request,
                             rows: seq<Row>, key: Value, clock: Clock, params: View)
    requires Serves(d, program, principal) && Runnable(d, req) && !req.action.operation.Create?
    requires KeysUnique(rows, Target(d, req).Pk().column)
    requires forall row | row in rows :: Agreeable(program, principal, d.ontology, Target(d, req), row)
    requires Coerce(d.host, d.ontology.objectTypes, Target(d, req).Pk().propType, key).Ok?
    ensures var obj := Target(d, req);
      var k := Coerce(d.host, d.ontology.objectTypes, obj.Pk().propType, key).value;
      && Get(d, obj, rows, key) == Ok(if k.Null? then None else Projected(d, obj, ReadRow(d, req, k, rows)))
      && (Get(d, obj, rows, key) == Ok(None) <==>
            k.Null? || Judge(d, req, clock, params, k, rows) == Refuse([ObjectNotFound], None))
      && (Get(d, obj, rows, key) == Ok(Projected(d, obj, ReadRow(d, req, k, rows))) <==>
            !(k.Null? && ReadRow(d, req, k, rows).Some?))
  {
    hide Coerce, WellBound, Selected, Agreeable, Serves, EffectValues, RuleFailures, GovernedTruth, Admitted, Matching;
    hide GetTest, Keep, Filters.SqlEquals, Project, Keyed;
    var obj := Target(d, req);
    var k := Coerce(d.host, d.ontology.objectTypes, obj.Pk().propType, key).value;
    UniqueMatch(rows, obj.Pk().column, k);
    if k.Null? {
      NullKeyIsNotFound(d, program, principal, req, rows, key);
    } else {
      GetFinds(d, program, principal, req, rows, key);
    }
  }

  lemma GetFinds(d: Deployment, program: Program, principal: Option<Principal>, req: Request, rows: seq<Row>,
                 key: Value)
    requires Serves(d, program, principal) && Runnable(d, req) && !req.action.operation.Create?
    requires KeysUnique(rows, Target(d, req).Pk().column)
    requires forall row | row in rows :: Agreeable(program, principal, d.ontology, Target(d, req), row)
    requires var k := Coerce(d.host, d.ontology.objectTypes, Target(d, req).Pk().propType, key); k.Ok? && !k.value.Null?
    ensures var obj := Target(d, req);
      var k := Coerce(d.host, d.ontology.objectTypes, obj.Pk().propType, key).value;
      Get(d, obj, rows, key) == Ok(Projected(d, obj, ReadRow(d, req, k, rows)))
  {
    hide Coerce, WellBound, Selected, Agreeable, Serves, GovernedTruth, Admitted, Project, Filters.SqlEquals, Keep;
    hide KeysUnique, Matching;
    var obj := Target(d, req);
    var column := obj.Pk().column;
    var k := Coerce(d.host, d.ontology.objectTypes, obj.Pk().propType, key).value;
    var found := Matching(rows, column, k);
    UniqueMatch(rows, column, k);
    CoercedKeyIsScalar(d.host, d.ontology.objectTypes, obj.Pk().propType, key);
    if |found| == 1 {
      assert found[0] in found;
      KeyEqualsInSql(Cell(found[0], column), k);
      GovernedIffAdmitted(d, program, principal, obj, found[0]);
      KeepOne(found[0], GetTest(d, obj, column, k));
      assert found == [found[0]];
    } else {
      assert Keep(found, GetTest(d, obj, column, k)) == Ok([]) by { KeepNone(GetTest(d, obj, column, k)); }
    }
  }

  lemma KeepNone(test: Row -> Result<Truth>)
    ensures Keep([], test) == Ok([])
  {
  }

  // ---- a governed read is a read of what is shown ----------------------------------------

  /** The rows a deployment shows. */
  function Shown(d: Deployment, obj: ObjectType, rows: seq<Row>): seq<Row> {
    if rows == [] then []
    else (if Admitted(d, obj, rows[0]) then [rows[0]] else []) + Shown(d, obj, rows[1..])
  }

  /** The same deployment with its masks and without its row filters. */
  function Unfiltered(d: Deployment): Deployment {
    d.(policies := d.policies.(filters := map[]))
  }

  lemma {:induction false} FilterClausesUnfiltered(d: Deployment, obj: ObjectType, filters: seq<Filters.Field>)
    ensures FilterClauses(Unfiltered(d), obj, filters) == FilterClauses(d, obj, filters)
  {
    hide Filters.Lower;
    if filters != [] {
      FilterClausesUnfiltered(d, obj, filters[..|filters| - 1]);
      assert Unfiltered(d).policies.Masked(obj.apiName) == d.policies.Masked(obj.apiName);
    }
  }

  lemma UngovernedIsTrue(d: Deployment, obj: ObjectType, row: Row)
    ensures GovernedTruth(Unfiltered(d), obj, row) == Ok(Yes)
  {
    assert Unfiltered(d).policies.PredicateFor(obj.apiName).None?;
  }

  predicate FitsSome(c: Filters.Clause, obj: ObjectType, objects: map<string, ObjectType>) {
    exists name :: name in obj.properties && Filters.ClauseFits(c, obj.properties[name], objects)
  }

  lemma {:induction false} FilterClausesFit(d: Deployment, obj: ObjectType, filters: seq<Filters.Field>)
    requires FilterClauses(d, obj, filters).Ok?
    ensures forall c | c in FilterClauses(d, obj, filters).value :: FitsSome(c, obj, d.ontology.objectTypes)
  {
    hide Filters.Lower, Filters.ClauseFits;
    if filters != [] {
      var f := filters[|filters| - 1];
      FilterClausesFit(d, obj, filters[..|filters| - 1]);
      Filters.LoweredFits(d.host, d.ontology.objectTypes, obj.properties[f.key], true, f.value);
    }
  }

  /** Accepted filters are answered about every row of its types. */
  lemma {:induction false} ClausesAnswered(clauses: seq<Filters.Clause>, obj: ObjectType,
                                           objects: map<string, ObjectType>,
                                           row: Row)
    requires forall c | c in clauses :: FitsSome(c, obj, objects)
    requires TypedView(obj, objects, PropertiesOf(obj, row))
    ensures ClausesTruth(clauses, row).Ok?
  {
    hide Filters.ClauseMeaning, Filters.ClauseFits, Holds;
    if clauses != [] {
      var front, last := clauses[..|clauses| - 1], clauses[|clauses| - 1];
      assert last in clauses && forall c | c in front :: c in clauses;
      ClausesAnswered(front, obj, objects, row);
      var name :| name in obj.properties && Filters.ClauseFits(last, obj.properties[name], objects);
      assert PropertiesOf(obj, row)[name] == Cell(row, obj.properties[name].column);
      Filters.FittingIsAnswered(last, obj.properties[name], objects, row);
    }
  }

  lemma {:induction false} KeepShown(d: Deployment, program: Program, principal: Option<Principal>, obj: ObjectType,
                                     rows: seq<Row>, clauses: seq<Filters.Clause>)
    requires Serves(d, program, principal)
    requires obj.apiName in d.ontology.objectTypes && d.ontology.objectTypes[obj.apiName] == obj
    requires forall row | row in rows :: Agreeable(program, principal, d.ontology, obj, row)
    requires forall c | c in clauses :: FitsSome(c, obj, d.ontology.objectTypes)
    ensures Keep(rows, SearchTest(d, obj, clauses))
         == Keep(Shown(d, obj, rows), SearchTest(Unfiltered(d), obj, clauses))
    ensures Keep(rows, SearchTest(d, obj, clauses)).Ok?
  {
    hide Serves, Agreeable, GovernedTruth, ClausesTruth, Admitted, Unfiltered;
    if rows != [] {
      assert rows[0] in rows && forall row | row in rows[1..] :: row in rows;
      KeepShown(d, program, principal, obj, rows[1..], clauses);
      GovernedIffAdmitted(d, program, principal, obj, rows[0]);
      ClausesAnswered(clauses, obj, d.ontology.objectTypes, rows[0]) by {
        AgreeableIsTyped(program, principal, d.ontology, obj, rows[0]);
      }
      UngovernedIsTrue(d, obj, rows[0]);
      var shown := Shown(d, obj, rows[1..]);
      if Admitted(d, obj, rows[0]) {
        assert ([rows[0]] + shown)[1..] == shown;
      } else {
        assert [] + shown == shown;
        var rest := Keep(rows[1..], SearchTest(d, obj, clauses)).value;
        assert [] + rest == rest;
      }
    }
  }

  lemma ProjectAllUnfiltered(d: Deployment, obj: ObjectType, rows: seq<Row>)
    ensures ProjectAll(Unfiltered(d), obj, rows) == ProjectAll(d, obj, rows)
  {
    assert Unfiltered(d).policies.Masked(obj.apiName) == d.policies.Masked(obj.apiName);
    forall k | 0 <= k < |rows|
      ensures Project(Unfiltered(d), obj, rows[k]) == Project(d, obj, rows[k])
    {
    }
  }

  /** Searching a governed table is searching a table of only the rows that are shown: filters, order,
      limit and offset never see a row that is withheld, so no page is short and no offset counts one. */
  lemma SearchSeesTheShown(d: Deployment, program: Program, principal: Option<Principal>, obj: ObjectType,
                           rows: seq<Row>,
                           filters: seq<Filters.Field>, limit: Option<int>, offset: int)
    requires Serves(d, program, principal) && obj.Valid()
    requires obj.apiName in d.ontology.objectTypes && d.ontology.objectTypes[obj.apiName] == obj
    requires forall row | row in rows :: Agreeable(program, principal, d.ontology, obj, row)
    ensures Search(d, obj, rows, filters, limit, offset)
         == Search(Unfiltered(d), obj, Shown(d, obj, rows), filters, limit, offset)
  {
    hide Serves, Agreeable, ClausesTruth, SortByKey, Page, ProjectAll, Unfiltered, Shown, SearchTest, Keep;
    FilterClausesUnfiltered(d, obj, filters);
    if FilterClauses(d, obj, filters).Ok? {
      var clauses := FilterClauses(d, obj, filters).value;
      FilterClausesFit(d, obj, filters);
      KeepShown(d, program, principal, obj, rows, clauses);
      if PageSize(limit).Ok? && offset >= 0 {
        var kept := Keep(rows, SearchTest(d, obj, clauses)).value;
        ProjectAllUnfiltered(d, obj, Page(SortByKey(kept, obj.Pk().column), offset, PageSize(limit).value));
      }
    }
  }

  // ---- order -----------------------------------------------------------------------------

  lemma KeyBeforeIsOneWay(a: Value, b: Value)
    requires KeyBefore(a, b)
    ensures !KeyBefore(b, a)
  {
    if a.Str? && b.Str? {
      StrOrderTotal(a.s, b.s);
      StrOrderTotal(b.s, a.s);
    }
  }

  predicate InKeyOrder(rows: seq<Row>, column: string) {
    forall k | 0 < k < |rows| :: !KeyBefore(Cell(rows[k], column), Cell(rows[k - 1], column))
  }

  lemma ConsKeepsOrder(row: Row, rest: seq<Row>, column: string)
    requires InKeyOrder(rest, column)
    requires rest != [] ==> !KeyBefore(Cell(rest[0], column), Cell(row, column))
    ensures InKeyOrder([row] + rest, column)
  {
    hide KeyBefore;
    var out := [row] + rest;
    forall k | 0 < k < |out|
      ensures !KeyBefore(Cell(out[k], column), Cell(out[k - 1], column))
    {
      assert out[k] == rest[k - 1];
      if k > 1 {
        assert out[k - 1] == rest[k - 2];
      }
    }
  }

  lemma {:induction false} InsertKeepsOrder(row: Row, sorted: seq<Row>, column: string)
    requires InKeyOrder(sorted, column)
    ensures InKeyOrder(InsertByKey(row, sorted, column), column)
    ensures multiset(InsertByKey(row, sorted, column)) == multiset(sorted) + multiset{row}
    ensures var out := InsertByKey(row, sorted, column);
            out[0] == row || (sorted != [] && out[0] == sorted[0])
  {
    hide KeyBefore;
    if sorted != [] {
      assert sorted == [sorted[0]] + sorted[1..];
      if KeyBefore(Cell(row, column), Cell(sorted[0], column)) {
        KeyBeforeIsOneWay(Cell(row, column), Cell(sorted[0], column));
        ConsKeepsOrder(row, sorted, column);
      } else {
        InsertKeepsOrder(row, sorted[1..], column);
        ConsKeepsOrder(sorted[0], InsertByKey(row, sorted[1..], column), column);
      }
    }
  }

  /** A page is cut from every selected row, each once, in the order of the key. */
  lemma {:induction false} SortOrders(rows: seq<Row>, column: string)
    ensures InKeyOrder(SortByKey(rows, column), column)
    ensures multiset(SortByKey(rows, column)) == multiset(rows)
  {
    if rows != [] {
      var front, last := rows[..|rows| - 1], rows[|rows| - 1];
      SortOrders(front, column);
      InsertKeepsOrder(last, SortByKey(front, column), column);
      assert rows == front + [last];
    }
  }
}
