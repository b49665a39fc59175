/** What a deployment withholds: policies bound to an ontology, decided for a caller, and composed. */
module Governance {
  import opened Wrappers
  import opened Values
  import opened ExprAst
  import opened Model
  import opened Kleene
  import opened Auth
  import opened Predicate

  datatype Policy = Policy(
    name: string,
    objectType: string,
    mask: seq<string>,
    rows: Option<Node>,
    guard: Option<Node>)
  {
    /** Whether two callers may meet this policy differently. */
    predicate Conditional() {
      guard.Some? || (rows.Some? && ReadsPrincipal(rows.value))
    }
  }

  type Masks = map<string, map<string, string>>

  /** One policy's row filter, under the policy's name. */
  datatype Filter = Filter(policy: string, expr: Node)

  /** Policies decided for a caller, ready to withhold. */
  datatype PolicySet = PolicySet(
    policies: seq<Policy>,
    masks: Masks,
    filters: map<string, seq<Filter>>,
    decided: bool)
  {
    function Masked(objectType: string): set<string> {
      if objectType in masks then masks[objectType].Keys else {}
    }

    /** The conjunction of the filters on this type. */
    function PredicateFor(objectType: string): Option<Node> {
      if objectType !in filters || filters[objectType] == [] then None
      else Some(Conjunction(filters[objectType]))
    }

    method BuildPredicate(objectType: string) returns (r: Option<Node>)
      ensures r == PredicateFor(objectType)
    {
      if objectType !in filters || filters[objectType] == [] {
        return None;
      }
      var entries := filters[objectType];
      var root := entries[0].expr;
      var k := 1;
      assert entries[..1] == [entries[0]];
      while k < |entries|
        invariant 1 <= k <= |entries|
        invariant root == Conjunction(entries[..k])
      {
        root := Binary(And, root, entries[k].expr);
        assert entries[..k + 1][..k] == entries[..k];
        k := k + 1;
      }
      assert entries[..k] == entries;
      return Some(root);
    }

    /** Whether this deployment shows a row to the caller these policies were decided for. */
    predicate Shows(objectType: string, view: map<string, Value>) {
      PredicateFor(objectType).Some? ==> Admits(PredicateFor(objectType).value, view)
    }
  }

  function Conjunction(entries: seq<Filter>): Node
    requires entries != []
  {
    if |entries| == 1 then entries[0].expr
    else Binary(And, Conjunction(entries[..|entries| - 1]), entries[|entries| - 1].expr)
  }

  const NO_POLICIES := PolicySet([], map[], map[], true)

  /** What binding leaves: everything a caller could be subject to, before one is known. */
  datatype Program = Program(
    policies: seq<Policy>,
    masks: Masks,
    filters: map<string, seq<Policy>>,
    claims: map<string, ClaimType>)
  {
    predicate Conditional() {
      exists k :: 0 <= k < |policies| && policies[k].Conditional()
    }
  }

  // ---- binding ---------------------------------------------------------------------------

  predicate LinkJoins(ontology: Ontology, objectType: string, property: string) {
    exists k :: 0 <= k < |ontology.links| &&
      LinkEnd(objectType, property) in {ontology.links[k].frm, ontology.links[k].to}
  }

  predicate ActionTouches(ontology: Ontology, obj: ObjectType, property: string) {
    exists k :: 0 <= k < |ontology.actions| &&
      ontology.actions[k].target == obj.apiName &&
      property in PropertiesInPlay(ontology.actions[k], obj)
  }

  /** Whether a mask may withhold this property. */
  predicate Maskable(ontology: Ontology, obj: ObjectType, property: string) {
    && property in obj.properties
    && property != obj.primaryKey
    && !LinkJoins(ontology, obj.apiName, property)
    && !ActionTouches(ontology, obj, property)
    && obj.semantic != Some(property)
  }

  predicate MaskFits(ontology: Ontology, obj: ObjectType, p: Policy) {
    forall k | 0 <= k < |p.mask| :: Maskable(ontology, obj, p.mask[k])
  }

  predicate RowsFit(ontology: Ontology, obj: ObjectType, claims: map<string, ClaimType>, p: Policy) {
    match p.rows
    case Some(rows) =>
      Governs(rows, obj, ontology.objectTypes, claims) && (p.guard.Some? ==> Guards(p.guard.value, claims))
    case None => p.guard.None?
  }

  /** Whether a policy fits the ontology it governs. */
  predicate Fits(ontology: Ontology, claims: map<string, ClaimType>, p: Policy) {
    && p.objectType in ontology.objectTypes
    && MaskFits(ontology, ontology.objectTypes[p.objectType], p)
    && RowsFit(ontology, ontology.objectTypes[p.objectType], claims, p)
  }

  /** The policies that filter the rows of a type, in declared order. */
  function RowPolicies(policies: seq<Policy>, objectType: string): (r: seq<Policy>)
    ensures forall p :: p in r <==> p in policies && p.objectType == objectType && p.rows.Some?
  {
    if policies == [] then []
    else
      var front, p := policies[..|policies| - 1], policies[|policies| - 1];
      assert policies == front + [p];
      RowPolicies(front, objectType) + if p.objectType == objectType && p.rows.Some? then [p] else []
  }

  predicate MaskedBy(p: Policy, objectType: string, property: string) {
    p.objectType == objectType && property in p.mask
  }

  /** The policy that withholds a property, if one does. */
  function MaskAt(masks: Masks, objectType: string, property: string): Option<string> {
    if objectType in masks && property in masks[objectType] then Some(masks[objectType][property]) else None
  }

  /** Exactly what some policy masks is masked, and each mask is attributed to a policy that says so. */
  ghost predicate MasksBound(masks: Masks, policies: seq<Policy>) {
    forall t, name ::
      match MaskAt(masks, t, name)
      case Some(named) => exists p :: p in policies && MaskedBy(p, t, name) && p.name == named
      case None => !exists p :: p in policies && MaskedBy(p, t, name)
  }

  function FilterOf(filters: map<string, seq<Policy>>, objectType: string): seq<Policy> {
    if objectType in filters then filters[objectType] else []
  }

  ghost predicate FiltersBound(filters: map<string, seq<Policy>>, policies: seq<Policy>) {
    forall t :: FilterOf(filters, t) == RowPolicies(policies, t)
  }

  /** What binding produces from policies that fit. */
  ghost predicate Bound(program: Program, ontology: Ontology, policies: seq<Policy>, claims: map<string, ClaimType>) {
    && program.policies == policies
    && program.claims == claims
    && MasksBound(program.masks, policies)
    && FiltersBound(program.filters, policies)
    && (forall k | 0 <= k < |policies| :: Fits(ontology, claims, policies[k]))
  }

  /** `masks.setdefault(type, {}).setdefault(name, policy)`: the first policy to mask a property names it. */
  function SetMask(masks: Masks, objectType: string, property: string, policy: string): Masks {
    var known := if objectType in masks then masks[objectType] else map[];
    masks[objectType := if property in known then known else known[property := policy]]
  }

  function SetMasks(masks: Masks, p: Policy, k: nat): Masks
    requires k <= |p.mask|
  {
    if k == 0 then masks else SetMask(SetMasks(masks, p, k - 1), p.objectType, p.mask[k - 1], p.name)
  }

  lemma {:induction false} SetMasksAdds(masks: Masks, p: Policy, k: nat, t: string, name: string)
    requires k <= |p.mask|
    ensures MaskAt(SetMasks(masks, p, k), t, name) ==
      if MaskAt(masks, t, name).Some? then MaskAt(masks, t, name)
      else if t == p.objectType && name in p.mask[..k] then Some(p.name)
      else None
  {
    if k > 0 {
      SetMasksAdds(masks, p, k - 1, t, name);
      assert p.mask[..k] == p.mask[..k - 1] + [p.mask[k - 1]];
    }
  }

  lemma MasksGrow(masks: Masks, policies: seq<Policy>, p: Policy)
    requires MasksBound(masks, policies)
    ensures MasksBound(SetMasks(masks, p, |p.mask|), policies + [p])
  {
    var m, more := SetMasks(masks, p, |p.mask|), policies + [p];
    assert p.mask[..|p.mask|] == p.mask;
    forall t, name
      ensures match MaskAt(m, t, name)
              case Some(named) => exists q :: q in more && MaskedBy(q, t, name) && q.name == named
              case None => !exists q :: q in more && MaskedBy(q, t, name)
    {
      SetMasksAdds(masks, p, |p.mask|, t, name);
      if MaskAt(masks, t, name).Some? {
        var q :| q in policies && MaskedBy(q, t, name) && q.name == MaskAt(masks, t, name).value;
        assert q in more;
      } else {
        assert p in more && (MaskedBy(p, t, name) <==> t == p.objectType && name in p.mask);
      }
    }
  }

  function SetFilter(filters: map<string, seq<Policy>>, p: Policy): map<string, seq<Policy>> {
    filters[p.objectType := FilterOf(filters, p.objectType) + [p]]
  }

  lemma FiltersGrow(filters: map<string, seq<Policy>>, policies: seq<Policy>, p: Policy)
    requires FiltersBound(filters, policies)
    ensures FiltersBound(if p.rows.Some? then SetFilter(filters, p) else filters, policies + [p])
  {
    var more := if p.rows.Some? then SetFilter(filters, p) else filters;
    forall t
      ensures FilterOf(more, t) == RowPolicies(policies + [p], t)
    {
      assert (policies + [p])[..|policies|] == policies;
      assert FilterOf(filters, t) == RowPolicies(policies, t);
    }
  }

  /** One policy's mask: every property it may withhold, and how many it may not. */
  method BindMask(ontology: Ontology, obj: ObjectType, p: Policy, masks: Masks)
    returns (bound: Masks, problems: nat)
    ensures problems == 0 <==> MaskFits(ontology, obj, p)
    ensures problems == 0 ==> bound == SetMasks(masks, p, |p.mask|)
  {
    bound, problems := masks, 0;
    var j := 0;
    while j < |p.mask|
      invariant 0 <= j <= |p.mask|
      invariant problems == 0 <==> forall k | 0 <= k < j :: Maskable(ontology, obj, p.mask[k])
      invariant problems == 0 ==> bound == SetMasks(masks, p, j)
    {
      if Maskable(ontology, obj, p.mask[j]) {
        bound := SetMask(bound, p.objectType, p.mask[j], p.name);
      } else {
        problems := problems + 1;
      }
      j := j + 1;
    }
  }

  method BindRows(ontology: Ontology, obj: ObjectType, p: Policy, claims: map<string, ClaimType>)
    returns (problems: nat)
    ensures problems == 0 <==> RowsFit(ontology, obj, claims, p)
  {
    if p.rows.Some? {
      var refusals := Check(p.rows.value, obj, ontology.objectTypes, claims);
      var guardRefusals := [];
      if p.guard.Some? {
        guardRefusals := CheckGuard(p.guard.value, claims);
      }
      return |refusals| + |guardRefusals|;
    }
    return if p.guard.Some? then 1 else 0;
  }

  method BindPolicies(ontology: Ontology, policies: seq<Policy>, claims: map<string, ClaimType>)
    returns (r: Result<Program>)
    ensures r.Ok? <==> forall k | 0 <= k < |policies| :: Fits(ontology, claims, policies[k])
    ensures r.Ok? ==> Bound(r.value, ontology, policies, claims)
  {
    var masks: Masks := map[];
    var filters: map<string, seq<Policy>> := map[];
    var problems: nat := 0;
    var i := 0;
    while i < |policies|
      invariant 0 <= i <= |policies|
      invariant problems == 0 <==> forall k | 0 <= k < i :: Fits(ontology, claims, policies[k])
      invariant problems == 0 ==> MasksBound(masks, policies[..i]) && FiltersBound(filters, policies[..i])
    {
      var p := policies[i];
      assert policies[..i + 1] == policies[..i] + [p];
      i := i + 1;
      if p.objectType !in ontology.objectTypes {
        problems := problems + 1;
        continue;
      }
      var obj := ontology.objectTypes[p.objectType];
      var newMasks, badMasks := BindMask(ontology, obj, p, masks);
      var badRows := BindRows(ontology, obj, p, claims);
      problems := problems + badMasks + badRows;
      if problems == 0 {
        MasksGrow(masks, policies[..i - 1], p);
        FiltersGrow(filters, policies[..i - 1], p);
      }
      masks := newMasks;
      if p.rows.Some? && badRows == 0 {
        filters := SetFilter(filters, p);
      }
    }
    if problems > 0 {
      return Err;
    }
    assert policies[..i] == policies;
    return Ok(Program(policies, masks, filters, claims));
  }

  // ---- selecting -------------------------------------------------------------------------

  /** A guard applies its policy on true or undecided. */
  predicate Applies(p: Policy, values: map<string, Value>) {
    p.guard.Some? ==> GuardTruth(p.guard.value, values) != Ok(No)
  }

  function Applied(policies: seq<Policy>, values: map<string, Value>): (r: seq<Filter>)
    requires forall k | 0 <= k < |policies| :: policies[k].rows.Some?
    ensures forall f :: f in r <==>
      exists p :: p in policies && Applies(p, values) && f == Filter(p.name, Fold(p.rows.value, values))
  {
    if policies == [] then []
    else
      var front, p := policies[..|policies| - 1], policies[|policies| - 1];
      assert policies == front + [p];
      Applied(front, values) + if Applies(p, values) then [Filter(p.name, Fold(p.rows.value, values))] else []
  }

  function WrittenFilters(policies: seq<Policy>): (r: seq<Filter>)
    requires forall k | 0 <= k < |policies| :: policies[k].rows.Some?
    ensures forall f :: f in r <==> exists p :: p in policies && f == Filter(p.name, p.rows.value)
  {
    if policies == [] then []
    else
      var front, p := policies[..|policies| - 1], policies[|policies| - 1];
      assert policies == front + [p];
      WrittenFilters(front) + [Filter(p.name, p.rows.value)]
  }

  /** Every filter of a bound program carries a row predicate. */
  predicate RowsPresent(program: Program) {
    forall t | t in program.filters :: forall k | 0 <= k < |program.filters[t]| :: program.filters[t][k].rows.Some?
  }

  /** The set as written, with the predicates still naming whom they name. */
  function AsWritten(program: Program, decided: bool): PolicySet
    requires RowsPresent(program)
  {
    PolicySet(program.policies, program.masks,
              map t | t in program.filters :: WrittenFilters(program.filters[t]), decided)
  }

  /** What deciding a program for a caller yields. A program that names the caller refuses to be
      decided where nobody is attested; one that does not is the same for everybody. */
  function Selected(program: Program, principal: Option<Principal>): Result<PolicySet>
    requires RowsPresent(program)
  {
    if !program.Conditional() then Ok(AsWritten(program, true))
    else if principal.None? then Err
    else
      var values := ReadableClaims(principal, program.claims);
      Ok(PolicySet(program.policies, program.masks, SelectedFilters(program, values), true))
  }

  function SelectedFilters(program: Program, values: map<string, Value>): (filters: map<string, seq<Filter>>)
    requires RowsPresent(program)
    ensures forall t :: t in filters <==> t in program.filters && Applied(program.filters[t], values) != []
    ensures forall t | t in filters :: filters[t] == Applied(program.filters[t], values)
  {
    map t | t in program.filters && Applied(program.filters[t], values) != []
      :: Applied(program.filters[t], values)
  }

  /** One loop over the filters, keeping those some policy of which applies. */
  method SelectFilters(program: Program, values: map<string, Value>) returns (filters: map<string, seq<Filter>>)
    requires RowsPresent(program)
    ensures filters == SelectedFilters(program, values)
  {
    filters := map[];
    var todo := program.filters.Keys;
    while todo != {}
      invariant todo <= program.filters.Keys
      invariant forall t :: t in filters <==>
        t in program.filters.Keys - todo && Applied(program.filters[t], values) != []
      invariant forall t | t in filters :: filters[t] == Applied(program.filters[t], values)
      decreases todo
    {
      var t :| t in todo;
      todo := todo - {t};
      var applied := ApplyAll(program.filters[t], values);
      if applied != [] {
        filters := filters[t := applied];
      }
    }
  }

  method Select(program: Program, principal: Option<Principal>) returns (r: Result<PolicySet>)
    requires RowsPresent(program)
    ensures r == Selected(program, principal)
  {
    if !program.Conditional() {
      return Ok(AsWritten(program, true));
    }
    if principal.None? {
      return Err;
    }
    var values := ReadClaims(principal, program.claims);
    var filters := SelectFilters(program, values);
    return Ok(PolicySet(program.policies, program.masks, filters, true));
  }

  method ApplyAll(policies: seq<Policy>, values: map<string, Value>) returns (out: seq<Filter>)
    requires forall k | 0 <= k < |policies| :: policies[k].rows.Some?
    ensures out == Applied(policies, values)
  {
    out := [];
    var k := 0;
    while k < |policies|
      invariant 0 <= k <= |policies|
      invariant out == Applied(policies[..k], values)
    {
      var p := policies[k];
      assert policies[..k + 1][..k] == policies[..k];
      if p.guard.None? || GuardTruth(p.guard.value, values) != Ok(No) {
        out := out + [Filter(p.name, Fold(p.rows.value, values))];
      }
      k := k + 1;
    }
    assert policies[..k] == policies;
  }
}
