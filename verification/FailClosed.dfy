/** Governance fails closed: knowing less of a caller, or adding a policy, never shows a row that was
    withheld, and the order of policies cannot matter. */
module FailClosed {
  import opened Wrappers
  import opened Values
  import opened ExprAst
  import opened Model
  import opened Kleene
  import opened Evaluate
  import opened Auth
  import opened Predicate
  import opened PlaneAgreement
  import opened Governance

  // ---- knowing less says less ------------------------------------------------------------

  /** `fewer` has nothing that `more` does not say too. */
  predicate Within(fewer: View, more: View) {
    forall name | name in fewer :: name in more && more[name] == fewer[name]
  }

  lemma {:induction false} EvalWithin(node: Node, scope: Scope, more: View)
    requires scope.claims.Some? && Within(scope.claims.value, more)
    ensures Eval(node, scope).Ok? ==> Eval(node, scope.(claims := Some(more))) == Eval(node, scope)
    decreases node, 1
  {
    match node
    case Literal(_) =>
    case Ref(_) =>
    case Call(name, args) =>
      EvalAllWithin(node, args, scope, more);
    case Unary(_, operand) =>
      EvalWithin(operand, scope, more);
    case Binary(_, left, right) =>
      EvalWithin(left, scope, more);
      EvalWithin(right, scope, more);
  }

  lemma {:induction false} EvalAllWithin(call: Node, nodes: seq<Node>, scope: Scope, more: View)
    requires scope.claims.Some? && Within(scope.claims.value, more)
    requires forall k | 0 <= k < |nodes| :: nodes[k] < call
    ensures EvalAll(nodes, scope).Ok? ==> EvalAll(nodes, scope.(claims := Some(more))) == EvalAll(nodes, scope)
    ensures EvalCoalesce(nodes, scope).Ok? ==>
      EvalCoalesce(nodes, scope.(claims := Some(more))) == EvalCoalesce(nodes, scope)
    decreases call, 0, |nodes|
  {
    if nodes != [] {
      EvalWithin(nodes[0], scope, more);
      EvalAllWithin(call, nodes[1..], scope, more);
    }
  }

  /** An accepted expression never evaluates a leaf to something other than a boolean. */
  lemma {:induction false} TruthIsOk(node: Node, ctx: Ctx, view: View, claims: Option<View>)
    requires WalkProblems(node, ctx) == []
    ensures TruthOf(node, view, claims).Ok?
  {
    if node.Unary? {
      TruthIsOk(node.operand, ctx, view, claims);
    } else if node.Binary? && IsConnective(node.op) {
      TruthIsOk(node.left, ctx, view, claims);
      TruthIsOk(node.right, ctx, view, claims);
    }
  }

  /** With fewer claims an accepted expression says no more: the same, or undecided. */
  lemma {:induction false} FewerClaimsSayLess(node: Node, ctx: Ctx, view: View, fewer: View, more: View)
    requires WalkProblems(node, ctx) == [] && Within(fewer, more)
    ensures TruthOf(node, view, Some(fewer)).Ok? && TruthOf(node, view, Some(more)).Ok?
    ensures SaysLess(TruthOf(node, view, Some(fewer)).value, TruthOf(node, view, Some(more)).value)
  {
    TruthIsOk(node, ctx, view, Some(fewer));
    TruthIsOk(node, ctx, view, Some(more));
    if node.Unary? {
      FewerClaimsSayLess(node.operand, ctx, view, fewer, more);
    } else if node.Binary? && IsConnective(node.op) {
      FewerClaimsSayLess(node.left, ctx, view, fewer, more);
      FewerClaimsSayLess(node.right, ctx, view, fewer, more);
    } else {
      EvalWithin(node, Scope(map[], Some(view), Some(fewer), 0), more);
    }
  }

  // ---- a conjunction admits what every part admits ---------------------------------------

  ghost predicate AllOk(entries: seq<Filter>, view: View) {
    forall f | f in entries :: RowTruth(f.expr, view).Ok?
  }

  lemma {:induction false} ConjunctionAdmits(entries: seq<Filter>, view: View)
    requires entries != [] && AllOk(entries, view)
    ensures RowTruth(Conjunction(entries), view).Ok?
    ensures Admits(Conjunction(entries), view) <==> forall f | f in entries :: Admits(f.expr, view)
  {
    hide RowTruth, Admits;
    var front, last := entries[..|entries| - 1], entries[|entries| - 1];
    assert entries == front + [last];
    if |entries| > 1 {
      ConjunctionAdmits(front, view);
      assert forall f :: f in entries <==> f in front || f == last;
      AndAdmits(Conjunction(front), last.expr, view);
    }
  }

  lemma AndAdmits(a: Node, b: Node, view: View)
    requires RowTruth(a, view).Ok? && RowTruth(b, view).Ok?
    ensures RowTruth(Binary(And, a, b), view).Ok?
    ensures Admits(Binary(And, a, b), view) <==> Admits(a, view) && Admits(b, view)
  {
  }

  // ---- what a program shows --------------------------------------------------------------

  /** A program that `BindPolicies` may produce. */
  ghost predicate WellBound(program: Program, ontology: Ontology) {
    Bound(program, ontology, program.policies, program.claims)
  }

  lemma BoundRows(program: Program, ontology: Ontology)
    requires WellBound(program, ontology)
    ensures RowsPresent(program)
    ensures forall t :: FilterOf(program.filters, t) == RowPolicies(program.policies, t)
  {
    forall t | t in program.filters
      ensures forall k | 0 <= k < |program.filters[t]| :: program.filters[t][k].rows.Some?
    {
      assert program.filters[t] == FilterOf(program.filters, t) == RowPolicies(program.policies, t);
      assert forall k | 0 <= k < |program.filters[t]| :: program.filters[t][k] in program.filters[t];
    }
  }

  /** A policy that keeps this row from a caller with these claims. */
  predicate Withholds(p: Policy, objectType: string, view: View, values: View) {
    && p.objectType == objectType && p.rows.Some?
    && Applies(p, values)
    && TruthOf(p.rows.value, view, Some(values)) != Ok(Yes)
  }

  /** Whether a caller is shown a row. */
  ghost predicate ShowsTo(program: Program, principal: Option<Principal>, objectType: string, view: View)
    requires RowsPresent(program)
  {
    Selected(program, principal).Ok? && Selected(program, principal).value.Shows(objectType, view)
  }

  lemma PolicyFits(program: Program, ontology: Ontology, p: Policy)
    requires WellBound(program, ontology) && p in program.policies
    ensures Fits(ontology, program.claims, p)
  {
    var k :| 0 <= k < |program.policies| && program.policies[k] == p;
  }

  /** An accepted predicate that names no principal is its own folding. */
  lemma {:induction false} FoldIdentity(node: Node, ctx: Ctx, claims: View)
    requires WalkProblems(node, ctx) == [] && !ReadsPrincipal(node) && ctx.obj.Some?
    ensures Fold(node, claims) == node
  {
    if node.Unary? {
      assert Refs(node) == Refs(node.operand);
      FoldIdentity(node.operand, ctx, claims);
    } else {
      assert Refs(node) == Refs(node.left) + Refs(node.right);
      assert forall path | path in Refs(node.left) || path in Refs(node.right) :: path in Refs(node);
      if IsConnective(node.op) {
        FoldIdentity(node.left, ctx, claims);
        FoldIdentity(node.right, ctx, claims);
      } else {
        NotSubstituted(node.left, claims);
        NotSubstituted(node.right, claims);
      }
    }
  }

  lemma NotSubstituted(node: Node, claims: View)
    requires !ReadsPrincipal(node)
    ensures Substituted(node, claims) == Some(node)
  {
    if node.Ref? {
      assert node.path in Refs(node);
    }
  }

  /** One policy's filter, as decided: it admits a row exactly when the policy, if it applies at all,
      says yes of the row and the caller. */
  lemma FilterAdmits(ontology: Ontology, claims: map<string, ClaimType>, p: Policy, row: Row, values: View)
    requires Fits(ontology, claims, p) && p.rows.Some?
    ensures var view := PropertiesOf(ontology.objectTypes[p.objectType], row);
      && RowTruth(Fold(p.rows.value, values), view).Ok?
      && (Admits(Fold(p.rows.value, values), view) <==> TruthOf(p.rows.value, view, Some(values)) == Ok(Yes))
      && (!ReadsPrincipal(p.rows.value) ==> Fold(p.rows.value, values) == p.rows.value)
  {
    var obj := ontology.objectTypes[p.objectType];
    var ctx := RowCtx(obj, ontology.objectTypes, claims);
    FoldMeans(p.rows.value, obj, ontology.objectTypes, claims, row, values, "");
    TruthIsOk(p.rows.value, ctx, PropertiesOf(obj, row), Some(values));
    if !ReadsPrincipal(p.rows.value) {
      FoldIdentity(p.rows.value, ctx, values);
    }
  }

  /** The filters a caller is governed by are those of the policies that apply to it. */
  lemma FiltersSelected(program: Program, ontology: Ontology, principal: Option<Principal>, objectType: string,
                        row: Row)
    requires WellBound(program, ontology) && objectType in ontology.objectTypes
    requires RowsPresent(program) && Selected(program, principal).Ok?
    ensures var chosen := Selected(program, principal).value;
            var values := ReadableClaims(principal, program.claims);
            var view := PropertiesOf(ontology.objectTypes[objectType], row);
            var entries := if objectType in chosen.filters then chosen.filters[objectType] else [];
            && AllOk(entries, view)
            && ((forall f | f in entries :: Admits(f.expr, view)) <==>
                (forall p | p in program.policies :: !Withholds(p, objectType, view, values)))
  {
    BoundRows(program, ontology);
    var chosen := Selected(program, principal).value;
    var values := ReadableClaims(principal, program.claims);
    var view := PropertiesOf(ontology.objectTypes[objectType], row);
    var entries := if objectType in chosen.filters then chosen.filters[objectType] else [];
    var policies := RowPolicies(program.policies, objectType);
    assert policies == FilterOf(program.filters, objectType);
    forall p | p in policies
      ensures Fits(ontology, program.claims, p)
      ensures var filter := Fold(p.rows.value, values);
        && RowTruth(filter, view).Ok?
        && (Admits(filter, view) <==> TruthOf(p.rows.value, view, Some(values)) == Ok(Yes))
        && (!ReadsPrincipal(p.rows.value) ==> filter == p.rows.value)
    {
      PolicyFits(program, ontology, p);
      FilterAdmits(ontology, program.claims, p, row, values);
    }
    if !program.Conditional() {
      WrittenMatch(program, objectType, policies, entries, view, values);
    } else {
      assert entries == Applied(policies, values);
      AppliedMatch(objectType, policies, entries, view, values);
    }
    assert forall p :: p in program.policies && Withholds(p, objectType, view, values) ==> p in policies;
  }

  lemma AppliedMatch(objectType: string, policies: seq<Policy>, entries: seq<Filter>, view: View, values: View)
    requires forall p | p in policies :: p.objectType == objectType && p.rows.Some?
    requires forall k | 0 <= k < |policies| :: policies[k].rows.Some?
    requires entries == Applied(policies, values)
    requires forall p | p in policies ::
      && RowTruth(Fold(p.rows.value, values), view).Ok?
      && (Admits(Fold(p.rows.value, values), view) <==> TruthOf(p.rows.value, view, Some(values)) == Ok(Yes))
    ensures AllOk(entries, view)
    ensures (forall f | f in entries :: Admits(f.expr, view)) <==>
            (forall p | p in policies :: !Withholds(p, objectType, view, values))
  {
    forall p | p in policies && Applies(p, values)
      ensures Filter(p.name, Fold(p.rows.value, values)) in entries
    {
    }
  }

  lemma WrittenMatch(program: Program, objectType: string, policies: seq<Policy>, entries: seq<Filter>,
                     view: View, values: View)
    requires !program.Conditional() && policies == RowPolicies(program.policies, objectType)
    requires forall k | 0 <= k < |policies| :: policies[k].rows.Some?
    requires entries == WrittenFilters(policies)
    requires forall p | p in policies ::
      && RowTruth(Fold(p.rows.value, values), view).Ok?
      && (Admits(Fold(p.rows.value, values), view) <==> TruthOf(p.rows.value, view, Some(values)) == Ok(Yes))
      && (!ReadsPrincipal(p.rows.value) ==> Fold(p.rows.value, values) == p.rows.value)
    ensures AllOk(entries, view)
    ensures (forall f | f in entries :: Admits(f.expr, view)) <==>
            (forall p | p in policies :: !Withholds(p, objectType, view, values))
  {
    forall p | p in policies
      ensures !p.Conditional() && Applies(p, values)
      ensures Filter(p.name, p.rows.value) in entries
    {
      var k :| 0 <= k < |program.policies| && program.policies[k] == p;
      assert !program.policies[k].Conditional();
    }
  }

  /** A row is shown exactly when no policy that applies to the caller fails to say yes of it. */
  lemma ShownExactly(program: Program, ontology: Ontology, principal: Option<Principal>, objectType: string, row: Row)
    requires WellBound(program, ontology) && objectType in ontology.objectTypes && RowsPresent(program)
    ensures var view := PropertiesOf(ontology.objectTypes[objectType], row);
            var values := ReadableClaims(principal, program.claims);
            ShowsTo(program, principal, objectType, view) <==>
            && (program.Conditional() ==> principal.Some?)
            && (forall p | p in program.policies :: !Withholds(p, objectType, view, values))
  {
    if Selected(program, principal).Ok? {
      var chosen := Selected(program, principal).value;
      var view := PropertiesOf(ontology.objectTypes[objectType], row);
      FiltersSelected(program, ontology, principal, objectType, row);
      if objectType in chosen.filters && chosen.filters[objectType] != [] {
        ConjunctionAdmits(chosen.filters[objectType], view);
      }
    }
  }

  // ---- the two monotonicities ------------------------------------------------------------

  lemma WithholdsMore(ontology: Ontology, claims: map<string, ClaimType>, p: Policy, row: Row, fewer: View, more: View)
    requires Fits(ontology, claims, p) && Within(fewer, more)
    ensures var view := PropertiesOf(ontology.objectTypes[p.objectType], row);
            Withholds(p, p.objectType, view, more) ==> Withholds(p, p.objectType, view, fewer)
  {
    var obj := ontology.objectTypes[p.objectType];
    if p.rows.Some? {
      FewerClaimsSayLess(p.rows.value, RowCtx(obj, ontology.objectTypes, claims), PropertiesOf(obj, row), fewer, more);
      if p.guard.Some? {
        FewerClaimsSayLess(p.guard.value, GuardCtx(claims), map[], fewer, more);
      }
    }
  }

  /** A caller of whom less can be read is never shown a row that was withheld. */
  lemma FewerClaimsShowLess(program: Program, ontology: Ontology, objectType: string, row: Row,
                            poorer: Principal, richer: Principal)
    requires WellBound(program, ontology) && objectType in ontology.objectTypes && RowsPresent(program)
    requires Within(ReadableClaims(Some(poorer), program.claims), ReadableClaims(Some(richer), program.claims))
    ensures var view := PropertiesOf(ontology.objectTypes[objectType], row);
            ShowsTo(program, Some(poorer), objectType, view) ==> ShowsTo(program, Some(richer), objectType, view)
  {
    var view := PropertiesOf(ontology.objectTypes[objectType], row);
    var fewer, more := ReadableClaims(Some(poorer), program.claims), ReadableClaims(Some(richer), program.claims);
    ShownExactly(program, ontology, Some(poorer), objectType, row);
    ShownExactly(program, ontology, Some(richer), objectType, row);
    forall p | p in program.policies && Withholds(p, objectType, view, more)
      ensures Withholds(p, objectType, view, fewer)
    {
      PolicyFits(program, ontology, p);
      WithholdsMore(ontology, program.claims, p, row, fewer, more);
    }
  }

  /** A token's claims after damage: each is as it was, or is not a value of its declared type. */
  predicate Damaged(said: map<string, Value>, whole: map<string, Value>, declared: map<string, ClaimType>) {
    forall name | name in said && name in Claims(declared) ::
      (name in whole && said[name] == whole[name]) || !Readable(said[name], Claims(declared)[name])
  }

  /** A token from which claims are gone, or in which they became values not of the declared type, or to
      which undeclared ones were added, reads as fewer claims and never shows a row that was withheld. */
  lemma DamagedTokenShowsLess(program: Program, ontology: Ontology, objectType: string, row: Row, richer: Principal,
                              said: map<string, Value>)
    requires WellBound(program, ontology) && objectType in ontology.objectTypes && RowsPresent(program)
    requires Damaged(said, richer.claims, program.claims)
    ensures var poorer := richer.(claims := said);
            var view := PropertiesOf(ontology.objectTypes[objectType], row);
            && Within(ReadableClaims(Some(poorer), program.claims), ReadableClaims(Some(richer), program.claims))
            && (ShowsTo(program, Some(poorer), objectType, view) ==> ShowsTo(program, Some(richer), objectType, view))
  {
    hide WellBound, ShowsTo;
    FewerClaimsShowLess(program, ontology, objectType, row, richer.(claims := said), richer);
  }

  /** Removing a set of claims is damage, and so is replacing one by a value not of its type. */
  lemma OneClaimDamaged(program: Program, ontology: Ontology, objectType: string, row: Row, richer: Principal,
                        gone: set<string>, name: string, v: Value)
    requires WellBound(program, ontology) && objectType in ontology.objectTypes && RowsPresent(program)
    ensures var view := PropertiesOf(ontology.objectTypes[objectType], row);
            ShowsTo(program, Some(richer.(claims := richer.claims - gone)), objectType, view) ==>
              ShowsTo(program, Some(richer), objectType, view)
    ensures var view := PropertiesOf(ontology.objectTypes[objectType], row);
            name in Claims(program.claims) && !Readable(v, Claims(program.claims)[name]) &&
            ShowsTo(program, Some(richer.(claims := richer.claims[name := v])), objectType, view) ==>
              ShowsTo(program, Some(richer), objectType, view)
  {
    hide WellBound, ShowsTo;
    DamagedTokenShowsLess(program, ontology, objectType, row, richer, richer.claims - gone);
    if name in Claims(program.claims) && !Readable(v, Claims(program.claims)[name]) {
      DamagedTokenShowsLess(program, ontology, objectType, row, richer, richer.claims[name := v]);
    }
  }

  /** Adding policies never shows a row or unmasks a property; and since the order and the repetition
      of policies do not enter, permuting them changes nothing. */
  lemma MorePoliciesShowLess(small: Program, large: Program, ontology: Ontology, principal: Option<Principal>,
                             objectType: string, row: Row)
    requires WellBound(small, ontology) && WellBound(large, ontology) && small.claims == large.claims
    requires RowsPresent(small) && RowsPresent(large) && objectType in ontology.objectTypes
    requires forall p | p in small.policies :: p in large.policies
    ensures var view := PropertiesOf(ontology.objectTypes[objectType], row);
            ShowsTo(large, principal, objectType, view) ==> ShowsTo(small, principal, objectType, view)
    ensures Selected(small, principal).Ok? && Selected(large, principal).Ok? ==>
            Selected(small, principal).value.Masked(objectType) <= Selected(large, principal).value.Masked(objectType)
  {
    ShownExactly(small, ontology, principal, objectType, row);
    ShownExactly(large, ontology, principal, objectType, row);
    if small.Conditional() {
      var k :| 0 <= k < |small.policies| && small.policies[k].Conditional();
      assert small.policies[k] in large.policies;
      assert large.Conditional();
    }
    forall name | MaskAt(small.masks, objectType, name).Some?
      ensures MaskAt(large.masks, objectType, name).Some?
    {
      var p :| p in small.policies && MaskedBy(p, objectType, name);
      assert p in large.policies;
    }
    MaskedNames(small, principal, objectType);
    MaskedNames(large, principal, objectType);
  }

  lemma MaskedNames(program: Program, principal: Option<Principal>, objectType: string)
    requires RowsPresent(program)
    ensures Selected(program, principal).Ok? ==> forall name ::
      name in Selected(program, principal).value.Masked(objectType) <==> MaskAt(program.masks, objectType, name).Some?
  {
  }

  /** Every order of the same policies shows the same rows and masks the same properties. */
  lemma OrderCannotMatter(one: Program, other: Program, ontology: Ontology, principal: Option<Principal>,
                          objectType: string, row: Row)
    requires WellBound(one, ontology) && WellBound(other, ontology) && one.claims == other.claims
    requires RowsPresent(one) && RowsPresent(other) && objectType in ontology.objectTypes
    requires multiset(one.policies) == multiset(other.policies)
    ensures var view := PropertiesOf(ontology.objectTypes[objectType], row);
            ShowsTo(one, principal, objectType, view) <==> ShowsTo(other, principal, objectType, view)
    ensures Selected(one, principal).Ok? && Selected(other, principal).Ok? ==>
            Selected(one, principal).value.Masked(objectType) == Selected(other, principal).value.Masked(objectType)
  {
    assert forall p :: p in one.policies <==> p in multiset(one.policies);
    assert forall p :: p in other.policies <==> p in multiset(other.policies);
    MorePoliciesShowLess(one, other, ontology, principal, objectType, row);
    MorePoliciesShowLess(other, one, ontology, principal, objectType, row);
  }
}
