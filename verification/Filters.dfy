/** A caller's filters: what the surface announces, what is accepted, the clauses it
    becomes, and what those select. */
module Filters {
  import opened Wrappers
  import opened Values
  import opened ExprAst
  import opened Types
  import opened Model
  import opened Kleene
  import opened Coercion
  import Ir

  datatype Json = Scalar(value: Value) | Array(items: seq<Json>) | Object(fields: seq<Field>)

  datatype Field = Field(key: string, value: Json)

  /** One comparison of a column with constants. */
  datatype Clause =
    | Compare(column: string, op: BinOp, value: Value)
    | Like(column: string, text: string)
    | AnyOf(column: string, values: seq<Value>)

  const CONTAINS := "contains"
  const MEMBERSHIP := "in"
  const ORDERINGS: seq<string> := ["gt", "gte", "lt", "lte"]

  predicate Comparing(op: string) {
    op == "eq" || op == "ne" || op in ORDERINGS
  }

  function Spelled(op: string): BinOp
    requires Comparing(op)
  {
    if op == "eq" then Eq else if op == "ne" then Ne
    else if op == "gt" then Gt else if op == "gte" then Ge else if op == "lt" then Lt else Le
  }

  predicate Nullable(op: string) {
    op == "eq" || op == "ne" || op == MEMBERSHIP
  }

  /** Kinds a caller may order: not an enum, a boolean or a reference. */
  predicate MayOrder(t: PropType) {
    !t.EnumT? && !t.BooleanT? && !t.ObjectRefT?
  }

  /** Every operator a property admits, in the order they are listed and lowered. */
  function Operators(t: PropType, searchable: bool): seq<string> {
    ["eq", "ne", MEMBERSHIP]
    + (if MayOrder(t) then ORDERINGS else [])
    + (if t.StringT? && searchable then [CONTAINS] else [])
  }

  // ---- what is announced -----------------------------------------------------------------

  datatype Shape = One(nullable: bool) | NonEmptyList | Substring

  /** The operator branch of a property's schema. */
  function Schema(t: PropType, searchable: bool): map<string, Shape> {
    map op | op in Operators(t, searchable) ::
      if op == MEMBERSHIP then NonEmptyList else if op == CONTAINS then Substring else One(Nullable(op))
  }

  /** A value of the announced shape: nulls only where they are announced. */
  predicate Fits(shape: Shape, json: Json) {
    match shape
    case One(nullable) => json.Scalar? && (json.value.Null? ==> nullable)
    case NonEmptyList => json.Array? && json.items != [] && forall k | 0 <= k < |json.items| :: json.items[k].Scalar?
    case Substring => json.Scalar? && !json.value.Null?
  }

  // ---- lowering --------------------------------------------------------------------------

  function Coerced(h: Host, objects: map<string, ObjectType>, t: PropType, json: Json): Result<Value> {
    if json.Scalar? then Coerce(h, objects, t, json.value) else Err
  }

  function CoercedAll(h: Host, objects: map<string, ObjectType>, t: PropType, items: seq<Json>): Result<seq<Value>> {
    if items == [] then Ok([])
    else
      var rest :- CoercedAll(h, objects, t, items[..|items| - 1]);
      var last :- Coerced(h, objects, t, items[|items| - 1]);
      Ok(rest + [last])
  }

  function LowerOne(h: Host, objects: map<string, ObjectType>, p: Property, op: string, json: Json): Result<Clause> {
    if op == MEMBERSHIP then
      if !json.Array? || json.items == [] then Err
      else
        var values :- CoercedAll(h, objects, p.propType, json.items);
        Ok(AnyOf(p.column, values))
    else if op == CONTAINS then
      var v :- Coerced(h, objects, p.propType, json);
      Ok(Like(p.column, h.Text(v)))
    else if !Comparing(op) || (json == Scalar(Null) && !Nullable(op)) then Err
    else
      var v :- Coerced(h, objects, p.propType, json);
      Ok(Compare(p.column, Spelled(op), v))
  }

  function Lookup(fields: seq<Field>, key: string): Option<Json> {
    if fields == [] then None
    else if fields[0].key == key then Some(fields[0].value)
    else Lookup(fields[1..], key)
  }

  /** The clauses of an operator object, in the operators' order rather than the caller's. */
  function LowerEach(h: Host, objects: map<string, ObjectType>, p: Property, allowed: seq<string>, fields: seq<Field>)
    : Result<seq<Clause>>
  {
    if allowed == [] then Ok([])
    else
      var rest :- LowerEach(h, objects, p, allowed[..|allowed| - 1], fields);
      var op := allowed[|allowed| - 1];
      match Lookup(fields, op)
      case None => Ok(rest)
      case Some(json) =>
        var clause :- LowerOne(h, objects, p, op, json);
        Ok(rest + [clause])
  }

  /** What a bare value means: a substring of a searchable string, equality of anything else. */
  function BareOperator(t: PropType, searchable: bool): string {
    if t.StringT? && searchable then CONTAINS else "eq"
  }

  /** One property's filter value as clauses: a bare value, or an object of operators. */
  function Lower(h: Host, objects: map<string, ObjectType>, p: Property, searchable: bool, json: Json)
    : Result<seq<Clause>>
  {
    if json == Scalar(Null) then Err
    else if !json.Object? then
      var clause :- LowerOne(h, objects, p, BareOperator(p.propType, searchable), json);
      Ok([clause])
    else if json.fields == [] then Err
    else
      var allowed := Operators(p.propType, searchable);
      if exists k :: 0 <= k < |json.fields| && json.fields[k].key !in allowed then Err
      else LowerEach(h, objects, p, allowed, json.fields)
  }

  // ---- what is accepted is what is announced ---------------------------------------------

  /** Every scalar of the value reads as the property's type. */
  predicate Readable(h: Host, objects: map<string, ObjectType>, t: PropType, json: Json) {
    match json
    case Scalar(v) => Coerce(h, objects, t, v).Ok?
    case Array(items) => forall k | 0 <= k < |items| :: items[k].Scalar? && Coerce(h, objects, t, items[k].value).Ok?
    case Object(_) => false
  }

  lemma ReadableJoins(h: Host, objects: map<string, ObjectType>, t: PropType, front: seq<Json>, last: Json)
    ensures Readable(h, objects, t, Array(front + [last])) <==>
            Readable(h, objects, t, Array(front)) && Coerced(h, objects, t, last).Ok?
  {
    hide Coerce;
    var items := front + [last];
    assert forall k | 0 <= k < |front| :: items[k] == front[k];
    assert items[|front|] == last;
  }

  lemma {:induction false} CoercedAllOk(h: Host, objects: map<string, ObjectType>, t: PropType, items: seq<Json>)
    ensures CoercedAll(h, objects, t, items).Ok? <==> Readable(h, objects, t, Array(items))
  {
    hide Coerced, Readable;
    if items == [] {
      assert Readable(h, objects, t, Array(items)) by { NothingToRead(h, objects, t); }
    } else {
      var front, last := items[..|items| - 1], items[|items| - 1];
      CoercedAllOk(h, objects, t, front);
      assert items == front + [last];
      ReadableJoins(h, objects, t, front, last);
    }
  }

  lemma NothingToRead(h: Host, objects: map<string, ObjectType>, t: PropType)
    ensures Readable(h, objects, t, Array([]))
  {
  }

  /** An operator's value is accepted exactly when it is of the announced shape and reads as the property's
      type: for the six comparisons and for the elements of `in`, nulls exactly where they are announced.
      `contains` alone takes a null it never announced, and reads it as text. */
  lemma AcceptsTheAnnounced(h: Host, objects: map<string, ObjectType>, p: Property, searchable: bool, op: string,
                            json: Json)
    requires op in Operators(p.propType, searchable)
    ensures op in Schema(p.propType, searchable)
    ensures LowerOne(h, objects, p, op, json).Ok? <==>
      && Readable(h, objects, p.propType, json)
      && (Fits(Schema(p.propType, searchable)[op], json) || (op == CONTAINS && json == Scalar(Null)))
  {
    hide Coerce;
    if op == MEMBERSHIP && json.Array? {
      CoercedAllOk(h, objects, p.propType, json.items);
    }
  }

  predicate HasKey(fields: seq<Field>, key: string) {
    exists k :: 0 <= k < |fields| && fields[k].key == key
  }

  lemma {:induction false} LookupFinds(fields: seq<Field>, key: string)
    ensures Lookup(fields, key).Some? <==> HasKey(fields, key)
    ensures Lookup(fields, key).Some? ==> Field(key, Lookup(fields, key).value) in fields
  {
    if fields != [] {
      LookupFinds(fields[1..], key);
      assert forall k | 1 <= k < |fields| :: fields[k] == fields[1..][k - 1];
      if HasKey(fields, key) && fields[0].key != key {
        var k :| 0 <= k < |fields| && fields[k].key == key;
        assert fields[1..][k - 1].key == key;
      }
    }
  }

  /** What the caller gave this operator, if anything, is accepted. */
  predicate Accepted(h: Host, objects: map<string, ObjectType>, p: Property, fields: seq<Field>, op: string) {
    Lookup(fields, op).Some? ==> LowerOne(h, objects, p, op, Lookup(fields, op).value).Ok?
  }

  lemma {:induction false} LowerEachOk(h: Host, objects: map<string, ObjectType>, p: Property, allowed: seq<string>,
                                       fields: seq<Field>)
    ensures LowerEach(h, objects, p, allowed, fields).Ok? <==>
      forall op | op in allowed :: Accepted(h, objects, p, fields, op)
  {
    hide LowerOne, Lookup;
    if allowed != [] {
      var front, last := allowed[..|allowed| - 1], allowed[|allowed| - 1];
      LowerEachOk(h, objects, p, front, fields);
      assert allowed == front + [last];
      assert LowerEach(h, objects, p, allowed, fields).Ok? <==>
        LowerEach(h, objects, p, front, fields).Ok? && Accepted(h, objects, p, fields, last);
    }
  }

  /** An operator object is accepted exactly when it names something, names nothing unannounced, and each
      value it gives is accepted for its operator. */
  lemma ObjectAccepted(h: Host, objects: map<string, ObjectType>, p: Property, searchable: bool, fields: seq<Field>)
    ensures Lower(h, objects, p, searchable, Object(fields)).Ok? <==>
      && fields != []
      && (forall k | 0 <= k < |fields| :: fields[k].key in Schema(p.propType, searchable))
      && (forall op | op in Operators(p.propType, searchable) :: Accepted(h, objects, p, fields, op))
  {
    hide LowerOne, Lookup, LowerEach, Accepted;
    LowerEachOk(h, objects, p, Operators(p.propType, searchable), fields);
    assert Schema(p.propType, searchable).Keys == set op | op in Operators(p.propType, searchable);
  }

  // ---- key order -------------------------------------------------------------------------

  predicate DistinctKeys(fields: seq<Field>) {
    forall i, j | 0 <= i < j < |fields| :: fields[i].key != fields[j].key
  }

  lemma {:induction false} LookupOnly(fields: seq<Field>, f: Field)
    requires DistinctKeys(fields) && f in fields
    ensures Lookup(fields, f.key) == Some(f.value)
  {
    var k :| 0 <= k < |fields| && fields[k] == f;
    if k > 0 {
      assert fields[0].key != fields[k].key;
      assert fields[1..][k - 1] == f;
      LookupOnly(fields[1..], f);
    }
  }

  lemma {:induction false} LookupPermuted(fields: seq<Field>, other: seq<Field>, key: string)
    requires DistinctKeys(fields) && DistinctKeys(other) && multiset(fields) == multiset(other)
    ensures Lookup(fields, key) == Lookup(other, key)
  {
    LookupFinds(fields, key);
    LookupFinds(other, key);
    assert forall f :: f in fields <==> f in multiset(fields);
    assert forall f :: f in other <==> f in multiset(other);
    if Lookup(fields, key).Some? {
      LookupOnly(other, Field(key, Lookup(fields, key).value));
    } else if Lookup(other, key).Some? {
      LookupOnly(fields, Field(key, Lookup(other, key).value));
    }
  }

  /** Two objects of the same fields, in whatever order, become the same clauses. */
  lemma KeyOrderIrrelevant(h: Host, objects: map<string, ObjectType>, p: Property, searchable: bool,
                           fields: seq<Field>, other: seq<Field>)
    requires DistinctKeys(fields) && DistinctKeys(other) && multiset(fields) == multiset(other)
    ensures Lower(h, objects, p, searchable, Object(fields)) == Lower(h, objects, p, searchable, Object(other))
  {
    hide LowerOne, Lookup;
    var allowed := Operators(p.propType, searchable);
    EachPermuted(h, objects, p, allowed, fields, other);
    assert |fields| == |multiset(fields)| && |other| == |multiset(other)|;
    KeysPermuted(fields, other, allowed);
    KeysPermuted(other, fields, allowed);
  }

  lemma KeysPermuted(fields: seq<Field>, other: seq<Field>, allowed: seq<string>)
    requires multiset(fields) == multiset(other)
    ensures (exists k :: 0 <= k < |fields| && fields[k].key !in allowed) ==>
            (exists k :: 0 <= k < |other| && other[k].key !in allowed)
  {
    if k :| 0 <= k < |fields| && fields[k].key !in allowed {
      assert fields[k] in multiset(fields);
      assert fields[k] in other;
    }
  }

  lemma {:induction false} EachPermuted(h: Host, objects: map<string, ObjectType>, p: Property, allowed: seq<string>,
                                        fields: seq<Field>, other: seq<Field>)
    requires DistinctKeys(fields) && DistinctKeys(other) && multiset(fields) == multiset(other)
    ensures LowerEach(h, objects, p, allowed, fields) == LowerEach(h, objects, p, allowed, other)
  {
    hide LowerOne, Lookup;
    if allowed != [] {
      EachPermuted(h, objects, p, allowed[..|allowed| - 1], fields, other);
      LookupPermuted(fields, other, allowed[|allowed| - 1]);
    }
  }

  // ---- membership ------------------------------------------------------------------------

  /** SQL's `=`: unknown where either side is null. */
  function SqlEquals(a: Value, b: Value): Result<Truth> {
    if a.Null? || b.Null? then Ok(Undecided)
    else if Ir.SqlComparable(a, b) then Ok(FromBool(Ir.SqlEqual(a, b)))
    else Err
  }

  /** `v IN (values)`: a disjunction over `=`. */
  function SqlIn(v: Value, values: seq<Value>): Result<Truth> {
    if values == [] then Ok(No)
    else
      var front :- SqlIn(v, values[..|values| - 1]);
      var last :- SqlEquals(v, values[|values| - 1]);
      Ok(Or3(front, last))
  }

  function Present(values: seq<Value>): seq<Value> {
    if values == [] then []
    else
      Present(values[..|values| - 1]) + if values[|values| - 1].Null? then [] else [values[|values| - 1]]
  }

  /** Membership as it is compiled: `IN` lists what is not null, and null is asked for by `IS NULL`. */
  function Membership(v: Value, values: seq<Value>): Result<Truth> {
    var present := Present(values);
    if present == [] then Ok(FromBool(v.Null?))
    else
      var listed :- SqlIn(v, present);
      Ok(if |present| == |values| then listed else Or3(listed, FromBool(v.Null?)))
  }

  /** A value and constants an engine can compare it with. */
  predicate Comparable(v: Value, values: seq<Value>) {
    forall x | x in values :: v.Null? || x.Null? || Ir.SqlComparable(v, x)
  }

  predicate EqualsNullSafely(v: Value, x: Value) {
    Ir.NullSafeEqual(v, x) == Ok(true)
  }

  lemma {:induction false} PresentKeeps(values: seq<Value>)
    ensures |Present(values)| <= |values|
    ensures forall x :: x in Present(values) <==> x in values && !x.Null?
    ensures |Present(values)| == |values| <==> Null !in values
  {
    if values != [] {
      var front, last := values[..|values| - 1], values[|values| - 1];
      PresentKeeps(front);
      assert values == front + [last];
    }
  }

  lemma {:induction false} InSelects(v: Value, values: seq<Value>)
    requires Comparable(v, values) && forall x | x in values :: !x.Null?
    ensures SqlIn(v, values).Ok?
    ensures SqlIn(v, values) == Ok(Yes) <==> exists x :: x in values && EqualsNullSafely(v, x)
  {
    if values != [] {
      var front, last := values[..|values| - 1], values[|values| - 1];
      assert values == front + [last];
      InSelects(v, front);
    }
  }

  lemma FewerComparable(v: Value, fewer: seq<Value>, values: seq<Value>)
    requires Comparable(v, values) && forall x | x in fewer :: x in values
    ensures Comparable(v, fewer)
  {
  }

  lemma NullEquals(v: Value)
    ensures EqualsNullSafely(v, Null) <==> v.Null?
    ensures v.Null? ==> forall x :: EqualsNullSafely(v, x) <==> x.Null?
  {
  }

  /** `in` selects a row exactly when some `eq` it abbreviates would: null matches null and nothing else. */
  lemma MembershipIsUnionOfEq(v: Value, values: seq<Value>)
    requires values != [] && Comparable(v, values)
    ensures Membership(v, values).Ok?
    ensures Membership(v, values) == Ok(Yes) <==> exists x :: x in values && EqualsNullSafely(v, x)
  {
    hide SqlIn, Present, Comparable, EqualsNullSafely;
    PresentKeeps(values);
    assert Comparable(v, Present(values)) by { FewerComparable(v, Present(values), values); }
    InSelects(v, Present(values));
    NullEquals(v);
    assert (exists x :: x in values && EqualsNullSafely(v, x)) <==>
      (exists x :: x in Present(values) && EqualsNullSafely(v, x)) || (v.Null? && Null in values);
  }

  /** A list of one selects what its `eq` selects. */
  lemma OneElementIsEq(v: Value, x: Value)
    requires Comparable(v, [x])
    ensures Membership(v, [x]) == Ok(Yes) <==> Ir.CompareMeaning(Eq, v, x) == Ok(Yes)
  {
    hide Membership, Ir.SqlEqual, Ir.SqlComparable;
    MembershipIsUnionOfEq(v, [x]);
    assert x in [x];
    assert EqualsNullSafely(v, x) <==> Ir.CompareMeaning(Eq, v, x) == Ok(Yes);
  }

  // ---- substrings ------------------------------------------------------------------------

  const ESCAPE: char := '\\'

  function Replace(s: string, c: char, with: string): string {
    if s == [] then [] else (if s[0] == c then with else [s[0]]) + Replace(s[1..], c, with)
  }

  function EscapeLike(s: string): string {
    Replace(Replace(Replace(s, ESCAPE, [ESCAPE, ESCAPE]), '%', [ESCAPE, '%']), '_', [ESCAPE, '_'])
  }

  /** `text LIKE pattern ESCAPE '\'`. */
  predicate LikeMatches(pattern: string, text: string)
    decreases |pattern| + |text|
  {
    if pattern == [] then text == []
    else if pattern[0] == '%' then
      LikeMatches(pattern[1..], text) || (text != [] && LikeMatches(pattern, text[1..]))
    else if pattern[0] == '_' then text != [] && LikeMatches(pattern[1..], text[1..])
    else if pattern[0] == ESCAPE && |pattern| > 1 then
      text != [] && text[0] == pattern[1] && LikeMatches(pattern[2..], text[1..])
    else text != [] && text[0] == pattern[0] && LikeMatches(pattern[1..], text[1..])
  }

  predicate IsMeta(c: char) {
    c == ESCAPE || c == '%' || c == '_'
  }

  /** What escaping comes to, character by character. */
  function Escaped(s: string): string {
    if s == [] then [] else (if IsMeta(s[0]) then [ESCAPE, s[0]] else [s[0]]) + Escaped(s[1..])
  }

  lemma ReplaceHead(s: string, c: char, with: string)
    ensures Replace(s, c, with) ==
      if s == [] then [] else (if s[0] == c then with else [s[0]]) + Replace(s[1..], c, with)
  {
  }

  lemma {:induction false} ReplaceAppends(a: string, b: string, c: char, with: string)
    ensures Replace(a + b, c, with) == Replace(a, c, with) + Replace(b, c, with)
  {
    hide Replace;
    ReplaceHead(a, c, with);
    if a == [] {
      assert a + b == b;
    } else {
      ReplaceAppends(a[1..], b, c, with);
      ReplaceHead(a + b, c, with);
      assert (a + b)[1..] == a[1..] + b && (a + b)[0] == a[0];
      var head := if a[0] == c then with else [a[0]];
      assert head + (Replace(a[1..], c, with) + Replace(b, c, with))
          == head + Replace(a[1..], c, with) + Replace(b, c, with);
    }
  }

  function Pass2(s: string): string {
    Replace(Replace(s, '%', [ESCAPE, '%']), '_', [ESCAPE, '_'])
  }

  lemma Pass2Appends(a: string, b: string)
    ensures Pass2(a + b) == Pass2(a) + Pass2(b)
  {
    ReplaceAppends(a, b, '%', [ESCAPE, '%']);
    ReplaceAppends(Replace(a, '%', [ESCAPE, '%']), Replace(b, '%', [ESCAPE, '%']), '_', [ESCAPE, '_']);
  }

  lemma ReplaceOne(x: char, c: char, with: string)
    ensures Replace([x], c, with) == if x == c then with else [x]
  {
    assert [x][1..] == [];
  }

  lemma ReplaceTwo(x: char, y: char, c: char, with: string)
    ensures Replace([x, y], c, with) == (if x == c then with else [x]) + (if y == c then with else [y])
  {
    assert [x, y] == [x] + [y];
    ReplaceAppends([x], [y], c, with);
    ReplaceOne(x, c, with);
    ReplaceOne(y, c, with);
  }

  lemma EscapeChar(x: char)
    ensures Pass2(if x == ESCAPE then [ESCAPE, ESCAPE] else [x]) == if IsMeta(x) then [ESCAPE, x] else [x]
  {
    hide Replace;
    if x == ESCAPE {
      assert [x] + [x] == [x, x];
      ReplaceTwo(x, x, '%', [ESCAPE, '%']);
      ReplaceTwo(x, x, '_', [ESCAPE, '_']);
    } else {
      assert [ESCAPE] + ['%'] == [ESCAPE, '%'];
      ReplaceOne(x, '%', [ESCAPE, '%']);
      ReplaceOne(x, '_', [ESCAPE, '_']);
      ReplaceTwo(ESCAPE, '%', '_', [ESCAPE, '_']);
    }
  }

  /** Three passes over the string, backslashes first, escape each special character once. */
  lemma {:induction false} PassesEscapeOnce(s: string)
    ensures EscapeLike(s) == Escaped(s)
  {
    if s != [] {
      PassesEscapeOnce(s[1..]);
      EscapeChar(s[0]);
      var head := if s[0] == ESCAPE then [ESCAPE, ESCAPE] else [s[0]];
      Pass2Appends(head, Replace(s[1..], ESCAPE, [ESCAPE, ESCAPE]));
      assert EscapeLike(s) == Pass2(head + Replace(s[1..], ESCAPE, [ESCAPE, ESCAPE]));
      assert EscapeLike(s[1..]) == Pass2(Replace(s[1..], ESCAPE, [ESCAPE, ESCAPE]));
    }
  }

  predicate Prefixes(v: string, text: string) {
    |v| <= |text| && text[..|v|] == v
  }

  predicate Occurs(v: string, text: string) {
    exists i :: 0 <= i <= |text| && Prefixes(v, text[i..])
  }

  lemma {:induction false} AnythingMatches(text: string)
    ensures LikeMatches("%", text)
  {
    assert "%"[1..] == "";
    if text != [] {
      AnythingMatches(text[1..]);
    }
  }

  lemma {:induction false} EscapedPrefix(v: string, text: string)
    ensures LikeMatches(Escaped(v) + "%", text) <==> Prefixes(v, text)
  {
    var pattern := Escaped(v) + "%";
    if v == [] {
      AnythingMatches(text);
      assert pattern == "%";
    } else {
      assert pattern == (if IsMeta(v[0]) then [ESCAPE, v[0]] else [v[0]]) + (Escaped(v[1..]) + "%");
      if text != [] {
        EscapedPrefix(v[1..], text[1..]);
        assert text == [text[0]] + text[1..] && v == [v[0]] + v[1..];
        if IsMeta(v[0]) {
          assert pattern[2..] == Escaped(v[1..]) + "%";
        } else {
          assert pattern[1..] == Escaped(v[1..]) + "%";
        }
        PrefixStep(v, text);
      }
    }
  }

  lemma PrefixStep(v: string, text: string)
    requires v != [] && text != []
    ensures Prefixes(v, text) <==> v[0] == text[0] && Prefixes(v[1..], text[1..])
  {
    if |v| <= |text| {
      assert text[..|v|] == [text[0]] + text[1..][..|v| - 1];
      assert v == [v[0]] + v[1..];
    }
  }

  lemma {:induction false} EscapedOccurs(v: string, text: string)
    ensures LikeMatches("%" + Escaped(v) + "%", text) <==> Occurs(v, text)
    decreases |text|
  {
    var pattern := "%" + Escaped(v) + "%";
    assert pattern[1..] == Escaped(v) + "%";
    EscapedPrefix(v, text);
    assert text[0..] == text;
    if text != [] {
      EscapedOccurs(v, text[1..]);
      assert forall i | 0 <= i <= |text[1..]| :: text[1..][i..] == text[i + 1..];
      if Occurs(v, text) {
        var i :| 0 <= i <= |text| && Prefixes(v, text[i..]);
        if i > 0 {
          assert text[1..][i - 1..] == text[i..];
        }
      }
      if Occurs(v, text[1..]) {
        var i :| 0 <= i <= |text[1..]| && Prefixes(v, text[1..][i..]);
        assert text[i + 1..] == text[1..][i..];
      }
    } else {
      assert forall i | 0 <= i <= |text| :: text[i..] == text;
    }
  }

  /** `ILIKE '%' + escaped + '%'`: unknown on null, an error on anything but a string. */
  function LikeMeaning(v: Value, text: string): Result<Truth> {
    match v
    case Null => Ok(Undecided)
    case Str(s) => Ok(FromBool(LikeMatches(Lowercase("%" + EscapeLike(text) + "%"), Lowercase(s))))
    case _ => Err
  }

  lemma LowercaseJoins(a: string, b: string)
    ensures Lowercase(a + b) == Lowercase(a) + Lowercase(b)
  {
  }

  lemma {:induction false} LowercaseEscaped(s: string)
    ensures Lowercase(Escaped(s)) == Escaped(Lowercase(s))
  {
    if s != [] {
      LowercaseEscaped(s[1..]);
      var head := if IsMeta(s[0]) then [ESCAPE, s[0]] else [s[0]];
      LowercaseJoins(head, Escaped(s[1..]));
      assert Lowercase(s)[1..] == Lowercase(s[1..]);
      assert Lowercase(s)[0] == Lowercase([s[0]])[0];
    }
  }

  /** A substring filter selects exactly the strings that hold its text, letter case aside: no character
      of the text is a wildcard, whatever it is. */
  lemma SubstringSelects(s: string, text: string)
    ensures LikeMeaning(Str(s), text) == Ok(Yes) <==> Occurs(Lowercase(text), Lowercase(s))
  {
    PassesEscapeOnce(text);
    LowercaseEscaped(text);
    LowercaseJoins("%" + EscapeLike(text), "%");
    LowercaseJoins("%", EscapeLike(text));
    assert Lowercase("%") == "%";
    EscapedOccurs(Lowercase(text), Lowercase(s));
  }

  /** What one clause answers about a row. */
  function ClauseMeaning(c: Clause, row: Row): Result<Truth> {
    match c
    case Compare(column, op, value) => Ir.CompareMeaning(op, Cell(row, column), value)
    case Like(column, text) => LikeMeaning(Cell(row, column), text)
    case AnyOf(column, values) => Membership(Cell(row, column), values)
  }

  // ---- what is lowered can be answered ---------------------------------------------------

  /** A clause on this property: its constants are of the type the column is carried as. */
  predicate ClauseFits(c: Clause, p: Property, objects: map<string, ObjectType>) {
    c.column == p.column &&
    match c
    case Compare(_, op, value) => IsComparison(op) && Holds(value, p.propType, objects)
    case Like(_, _) => p.propType.StringT?
    case AnyOf(_, values) => forall v | v in values :: Holds(v, p.propType, objects)
  }

  lemma {:induction false} CoercedAllHold(h: Host, objects: map<string, ObjectType>, t: PropType, items: seq<Json>)
    requires CoercedAll(h, objects, t, items).Ok?
    ensures forall v | v in CoercedAll(h, objects, t, items).value :: Holds(v, t, objects)
  {
    hide Coerce, Holds;
    if items != [] {
      var last := items[|items| - 1];
      CoercedAllHold(h, objects, t, items[..|items| - 1]);
      CoercedIsTyped(h, objects, t, last.value);
    }
  }

  lemma LowerOneFits(h: Host, objects: map<string, ObjectType>, p: Property, op: string, json: Json)
    requires LowerOne(h, objects, p, op, json).Ok? && (op == CONTAINS ==> p.propType.StringT?)
    ensures ClauseFits(LowerOne(h, objects, p, op, json).value, p, objects)
  {
    hide Coerce, Holds, CoercedAll;
    if op == MEMBERSHIP {
      CoercedAllHold(h, objects, p.propType, json.items);
    } else {
      CoercedIsTyped(h, objects, p.propType, json.value);
    }
  }

  lemma {:induction false} LowerEachFits(h: Host, objects: map<string, ObjectType>, p: Property, allowed: seq<string>,
                                         fields: seq<Field>)
    requires LowerEach(h, objects, p, allowed, fields).Ok? && (CONTAINS in allowed ==> p.propType.StringT?)
    ensures forall c | c in LowerEach(h, objects, p, allowed, fields).value :: ClauseFits(c, p, objects)
  {
    hide LowerOne, ClauseFits, Lookup;
    if allowed != [] {
      var op := allowed[|allowed| - 1];
      LowerEachFits(h, objects, p, allowed[..|allowed| - 1], fields);
      if Lookup(fields, op).Some? {
        LowerOneFits(h, objects, p, op, Lookup(fields, op).value);
      }
    }
  }

  /** Every clause a filter becomes compares its column with constants of the column's own type. */
  lemma LoweredFits(h: Host, objects: map<string, ObjectType>, p: Property, searchable: bool, json: Json)
    requires Lower(h, objects, p, searchable, json).Ok?
    ensures forall c | c in Lower(h, objects, p, searchable, json).value :: ClauseFits(c, p, objects)
  {
    hide LowerOne, LowerEach, ClauseFits;
    if json.Object? {
      LowerEachFits(h, objects, p, Operators(p.propType, searchable), json.fields);
    } else {
      LowerOneFits(h, objects, p, BareOperator(p.propType, searchable), json);
    }
  }

  lemma HeldAreComparable(a: Value, b: Value, t: PropType, objects: map<string, ObjectType>)
    requires Holds(a, t, objects) && Holds(b, t, objects)
    ensures a.Null? || b.Null? || Ir.SqlComparable(a, b)
  {
  }

  /** Such a clause is answered, and never an error, of a row that holds what its property is declared as. */
  lemma FittingIsAnswered(c: Clause, p: Property, objects: map<string, ObjectType>, row: Row)
    requires ClauseFits(c, p, objects) && Holds(Cell(row, p.column), p.propType, objects)
    ensures ClauseMeaning(c, row).Ok?
  {
    hide Holds, Ir.SqlComparable, Membership, Ir.SqlOrder, Ir.SqlEqual;
    var v := Cell(row, p.column);
    match c
    case Compare(_, op, value) =>
      HeldAreComparable(v, value, p.propType, objects);
      ComparableIsAnswered(op, v, value);
    case Like(_, text) => TextIsHeld(v, objects);
    case AnyOf(_, values) =>
      forall x | x in values
        ensures v.Null? || x.Null? || Ir.SqlComparable(v, x)
      {
        HeldAreComparable(v, x, p.propType, objects);
      }
      MembershipIsAnswered(v, values);
  }

  lemma ComparableIsAnswered(op: BinOp, a: Value, b: Value)
    requires IsComparison(op) && (a.Null? || b.Null? || Ir.SqlComparable(a, b))
    ensures Ir.CompareMeaning(op, a, b).Ok?
  {
  }

  lemma TextIsHeld(v: Value, objects: map<string, ObjectType>)
    requires Holds(v, StringT, objects)
    ensures v.Null? || v.Str?
  {
  }

  lemma MembershipIsAnswered(v: Value, values: seq<Value>)
    requires Comparable(v, values)
    ensures Membership(v, values).Ok?
  {
    if values != [] {
      MembershipIsUnionOfEq(v, values);
    }
  }
}
