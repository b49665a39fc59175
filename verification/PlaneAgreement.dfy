/** One predicate, two planes: what the compiled query answers about a row is what the in-process
    evaluator answers, with the caller folded in or looked up. */
module PlaneAgreement {
  import opened Wrappers
  import opened Values
  import opened ExprAst
  import opened Types
  import opened Model
  import opened Kleene
  import opened Evaluate
  import opened Auth
  import opened Predicate
  import Ir
  import DuckDb
  import Parser
  import Rendering
  import TextRoundTrip

  // ---- literals and values by class ------------------------------------------------------

  /** The literals the parser produces. */
  predicate SourceLiteral(v: Value) {
    v.Null? || v.Bool? || v.Str? || (v.Num? && v.kind != DecimalNum)
  }

  predicate SourceLiterals(node: Node) {
    match node
    case Literal(value) => SourceLiteral(value)
    case Ref(_) => true
    case Call(_, args) => forall k | 0 <= k < |args| :: SourceLiterals(args[k])
    case Unary(_, operand) => SourceLiterals(operand)
    case Binary(_, left, right) => SourceLiterals(left) && SourceLiterals(right)
  }

  /** Whatever the parser returns has only literals that can be written. */
  lemma ParsedLiterals(text: string, node: Node)
    requires Parser.ParseText(text) == Ok(node)
    ensures SourceLiterals(node)
  {
    TextRoundTrip.ParseableIffWellFormed(node);
    WellFormedLiterals(node);
  }

  lemma {:induction false} WellFormedLiterals(node: Node)
    requires Rendering.WellFormed(node)
    ensures SourceLiterals(node)
  {
    match node
    case Literal(_) =>
    case Ref(_) =>
    case Call(_, args) =>
      forall k | 0 <= k < |args|
        ensures SourceLiterals(args[k])
      {
        WellFormedLiterals(args[k]);
      }
    case Unary(_, operand) => WellFormedLiterals(operand);
    case Binary(_, left, right) =>
      WellFormedLiterals(left);
      WellFormedLiterals(right);
  }

  /** What a comparison sees of a value. */
  datatype Class = TextClass | FlagClass | NumberClass | TimeClass

  function ClassOf(t: PropType): Class
    requires !t.ObjectRefT?
  {
    match BaseKind(t)
    case StringKind => TextClass
    case BooleanKind => FlagClass
    case IntKind | LongKind | DoubleKind | DecimalKind => NumberClass
    case DateKind | TimestampKind => TimeClass
  }

  predicate InClass(v: Value, c: Class) {
    match c
    case TextClass => v.Str?
    case FlagClass => v.Bool?
    case NumberClass => v.Num?
    case TimeClass => IsTime(v)
  }

  /** The class an operand's values are in, a reference's followed to the key it is carried as; none for
      an operand that can only be null. */
  function OperandClass(node: Node, ctx: Ctx): Option<Class> {
    match node
    case Literal(value) => (match OfLiteral(value) case Some(t) => Some(ClassOf(t)) case None => None)
    case Ref(path) =>
      if IsObjectRef(path) && ctx.obj.Some? && path[1] in ctx.obj.value.properties then
        match Carrier(ctx.objects, ctx.obj.value.properties[path[1]].propType, ctx.objects.Keys)
        case Some(carried) => Some(ClassOf(carried))
        case None => None
      else if IsPrincipalRef(path) && path[1] in ctx.claims then Some(ClassOf(ctx.claims[path[1]].ElementType()))
      else None
    case _ => None
  }

  /** A value an operand of this class can have. */
  predicate Carries(v: Value, c: Option<Class>) {
    v.Null? || (c.Some? && InClass(v, c.value))
  }

  /** An operand a comparison accepts on either side. */
  predicate Comparand(node: Node, ctx: Ctx) {
    var t := OperandTypeOf(node, ctx);
    !t.Bad? && !t.ListOf?
  }

  /** An operand's value, unless it names a claim this caller does not carry. */
  function OperandNow(node: Node, view: View, claims: View): Option<Value> {
    match node
    case Literal(value) => Some(value)
    case Ref(path) =>
      if IsObjectRef(path) && path[1] in view then Some(view[path[1]])
      else if IsPrincipalRef(path) && path[1] in claims then Some(claims[path[1]])
      else None
    case _ => None
  }

  lemma OperandCarries(node: Node, obj: ObjectType, objects: map<string, ObjectType>,
                       declared: map<string, ClaimType>, view: View, claims: View)
    requires SourceLiterals(node) && TypedView(obj, objects, view) && TypedClaims(claims, declared)
    requires Comparand(node, RowCtx(obj, objects, declared))
    ensures match OperandNow(node, view, claims)
            case Some(v) => Carries(v, OperandClass(node, RowCtx(obj, objects, declared)))
            case None => node.Ref? && IsPrincipalRef(node.path) && node.path[1] !in claims
  {
  }

  // ---- a comparison ----------------------------------------------------------------------

  /** What the evaluator answers for two values, with its refusals read as undecided. */
  function CompareTruth(op: BinOp, a: Value, b: Value): Truth
    requires IsComparison(op)
  {
    if op.Eq? then FromBool(Equal(a, b))
    else if op.Ne? then FromBool(!Equal(a, b))
    else if Orderable(a, b) then FromBool(OrderHolds(op, a, b))
    else Undecided
  }

  lemma {:induction false} StrOrderTotal(a: string, b: string)
    ensures !StrLess(b, a) <==> StrLess(a, b) || a == b
  {
    if a != [] && b != [] {
      StrOrderTotal(a[1..], b[1..]);
      assert a == [a[0]] + a[1..] && b == [b[0]] + b[1..];
    }
  }

  /** The two planes answer a comparison of like values alike, unless it orders two booleans. */
  lemma ValuesAgree(op: BinOp, a: Value, b: Value)
    requires IsComparison(op) && (a.Null? || b.Null? || Ir.SqlComparable(a, b))
    ensures Ir.CompareMeaning(op, a, b) == Ok(CompareTruth(op, a, b))
      <==> !(IsOrdering(op) && a.Bool? && b.Bool?)
  {
    if a.Str? && b.Str? {
      StrOrderTotal(a.s, b.s);
      StrOrderTotal(b.s, a.s);
    }
  }

  /** A leaf comparison: what the walk accepts. */
  predicate AcceptedLeaf(node: Node, ctx: Ctx) {
    node.Binary? && IsComparison(node.op) && CompareProblems(node, ctx) == []
  }

  /** Two sides of one class. The walk looks one reference deep and asks this of every other leaf it accepts;
      of two references to keys that are themselves references it asks nothing. */
  predicate OneClass(node: Node, ctx: Ctx)
    requires node.Binary?
  {
    var left, right := OperandClass(node.left, ctx), OperandClass(node.right, ctx);
    left.None? || right.None? || left == right
  }

  /** A leaf that orders two booleans. The walk accepts it; the evaluator refuses it; SQL answers it. */
  predicate OrdersBooleans(node: Node, ctx: Ctx)
    requires node.Binary?
  {
    IsOrdering(node.op) && OperandClass(node.left, ctx) == Some(FlagClass)
  }

  /** An operand that is a reference to a key that is itself a reference, or to a type nobody declared. */
  predicate Chained(node: Node, ctx: Ctx) {
    var t := OperandTypeOf(node, ctx);
    t.Scalar? && t.t.ObjectRefT?
  }

  /** An accepted leaf compares within one class unless both sides are chained references. */
  lemma UnchainedIsOneClass(node: Node, ctx: Ctx)
    requires AcceptedLeaf(node, ctx) && !(Chained(node.left, ctx) && Chained(node.right, ctx))
    ensures OneClass(node, ctx)
  {
    OperandClassIs(node.left, ctx);
    OperandClassIs(node.right, ctx);
  }

  lemma OperandClassIs(node: Node, ctx: Ctx)
    ensures var t := OperandTypeOf(node, ctx);
            t.Scalar? && !t.t.ObjectRefT? ==> OperandClass(node, ctx) == Some(ClassOf(t.t))
    ensures OperandTypeOf(node, ctx).NullType? ==> OperandClass(node, ctx).None?
  {
    if node.Ref? && IsObjectRef(node.path) && ctx.obj.Some? && node.path[1] in ctx.obj.value.properties {
      ResolvedIsCarried(ctx.obj.value.properties[node.path[1]].propType, ctx.objects);
    }
  }

  lemma ResolvedIsCarried(t: PropType, objects: map<string, ObjectType>)
    ensures !Resolved(t, objects).ObjectRefT? ==> Carrier(objects, t, objects.Keys) == Some(Resolved(t, objects))
  {
    if t.ObjectRefT? && !Resolved(t, objects).ObjectRefT? {
      assert Carrier(objects, Resolved(t, objects), objects.Keys - {t.target}) == Some(Resolved(t, objects));
    }
  }

  predicate Blank(v: Option<Value>) {
    v.None? || v.value.Null?
  }

  /** Whether both planes answer this leaf alike for this row and caller. */
  predicate LeafSettled(node: Node, ctx: Ctx, view: View, claims: View)
    requires node.Binary?
  {
    || Blank(OperandNow(node.left, view, claims))
    || Blank(OperandNow(node.right, view, claims))
    || (OneClass(node, ctx) && !OrdersBooleans(node, ctx))
  }

  /** Every leaf of a predicate is settled. */
  predicate Settled(node: Node, ctx: Ctx, view: View, claims: View) {
    if node.Unary? then Settled(node.operand, ctx, view, claims)
    else if node.Binary? && IsConnective(node.op) then
      Settled(node.left, ctx, view, claims) && Settled(node.right, ctx, view, claims)
    else node.Binary? ==> LeafSettled(node, ctx, view, claims)
  }

  /** A row and a caller as the two planes meet them. */
  ghost predicate Meets(obj: ObjectType, objects: map<string, ObjectType>, declared: map<string, ClaimType>,
                        row: Row, claims: View)
  {
    TypedView(obj, objects, PropertiesOf(obj, row)) && TypedClaims(claims, declared)
  }

  /** A comparison is evaluated from its two operands. */
  lemma EvalComparison(op: BinOp, a: Node, b: Node, s: Scope)
    requires IsComparison(op)
    ensures var x, y := Eval(a, s), Eval(b, s);
            Eval(Binary(op, a, b), s) == if x.Err? || y.Err? then Err else EvalBinary(op, x.value, y.value)
  {
    hide EvalBinary, EvalAll, EvalRef, EvalCoalesce, EvalUnary, Apply;
  }

  lemma BinaryTruth(op: BinOp, a: Value, b: Value)
    requires IsComparison(op)
    ensures CompareTruth(op, a, b) ==
      match EvalBinary(op, a, b)
      case Ok(v) => if v.Bool? then FromBool(v.b) else Undecided
      case Err => Undecided
    ensures EvalBinary(op, a, b).Ok? ==> EvalBinary(op, a, b).value.Bool?
  {
    hide Equal, OrderHolds, Orderable;
  }

  lemma LeafTruth(node: Node, obj: ObjectType, objects: map<string, ObjectType>, declared: map<string, ClaimType>,
                  row: Row, claims: View)
    requires AcceptedLeaf(node, RowCtx(obj, objects, declared)) && SourceLiterals(node)
    requires Meets(obj, objects, declared, row, claims)
    ensures var view := PropertiesOf(obj, row);
            var a, b := OperandNow(node.left, view, claims), OperandNow(node.right, view, claims);
            TruthOf(node, view, Some(claims))
            == Ok(if a.None? || b.None? then Undecided else CompareTruth(node.op, a.value, b.value))
  {
    hide Eval, EvalBinary, CompareTruth, OperandNow, OperandTypeOf, TypedView, TypedClaims, SourceLiterals;
    var view := PropertiesOf(obj, row);
    var scope := Scope(map[], Some(view), Some(claims), 0);
    OperandEval(node.left, obj, objects, declared, scope);
    OperandEval(node.right, obj, objects, declared, scope);
    EvalComparison(node.op, node.left, node.right, scope);
    var a, b := OperandNow(node.left, view, claims), OperandNow(node.right, view, claims);
    if a.Some? && b.Some? {
      BinaryTruth(node.op, a.value, b.value);
    }
  }

  lemma OperandEval(node: Node, obj: ObjectType, objects: map<string, ObjectType>, declared: map<string, ClaimType>,
                    scope: Scope)
    requires !OperandTypeOf(node, RowCtx(obj, objects, declared)).Bad?
    requires scope.objectRow.Some? && scope.claims.Some?
    ensures Eval(node, scope) ==
      match OperandNow(node, scope.objectRow.value, scope.claims.value)
      case Some(v) => Ok(v)
      case None => Err
  {
  }

  lemma UndecidableMeans(obj: ObjectType, alias: string, env: Ir.Env)
    ensures Lower(UNDECIDABLE, obj, alias).Ok?
    ensures Ir.Meaning(Lower(UNDECIDABLE, obj, alias).value, env) == Ok(Undecided)
  {
    assert LowerOperand(Literal(Null), obj, alias) == Ok(Ir.Const(Null));
  }

  /** What the folded leaf lowers to, and what that means. */
  lemma LeafMeaning(node: Node, obj: ObjectType, objects: map<string, ObjectType>, declared: map<string, ClaimType>,
                    row: Row, claims: View, alias: string, env: Ir.Env)
    requires AcceptedLeaf(node, RowCtx(obj, objects, declared)) && SourceLiterals(node)
    requires Meets(obj, objects, declared, row, claims) && alias in env && env[alias] == row
    ensures var view := PropertiesOf(obj, row);
            var a, b := OperandNow(node.left, view, claims), OperandNow(node.right, view, claims);
            var lowered := Lower(Fold(node, claims), obj, alias);
            lowered.Ok? && Ir.Meaning(lowered.value, env)
            == if a.None? || b.None? then Ok(Undecided) else Ir.CompareMeaning(node.op, a.value, b.value)
  {
    hide LowerOperand, Ir.CompareMeaning, Ir.OperandValue, OperandNow, OperandTypeOf, TypedView, TypedClaims;
    var view := PropertiesOf(obj, row);
    UndecidableMeans(obj, alias, env);
    OperandLowers(node.left, obj, objects, declared, row, claims, alias, env);
    OperandLowers(node.right, obj, objects, declared, row, claims, alias, env);
  }

  lemma OperandLowers(node: Node, obj: ObjectType, objects: map<string, ObjectType>, declared: map<string, ClaimType>,
                      row: Row, claims: View, alias: string, env: Ir.Env)
    requires !OperandTypeOf(node, RowCtx(obj, objects, declared)).Bad?
    requires alias in env && env[alias] == row
    ensures var s := Substituted(node, claims);
            match OperandNow(node, PropertiesOf(obj, row), claims)
            case None => s.None?
            case Some(v) =>
              s.Some? && LowerOperand(s.value, obj, alias).Ok? &&
              Ir.OperandValue(LowerOperand(s.value, obj, alias).value, env) == v
  {
  }

  /** For an accepted leaf the planes agree about a row exactly when it is settled. Of two values that are
      both there, they part on an order of booleans and on values of two classes. */
  lemma LeafPlanesAgree(node: Node, obj: ObjectType, objects: map<string, ObjectType>,
                        declared: map<string, ClaimType>, row: Row, claims: View, alias: string, env: Ir.Env)
    requires AcceptedLeaf(node, RowCtx(obj, objects, declared)) && SourceLiterals(node)
    requires Meets(obj, objects, declared, row, claims) && alias in env && env[alias] == row
    ensures var view := PropertiesOf(obj, row);
            var lowered := Lower(Fold(node, claims), obj, alias);
            lowered.Ok? && TruthOf(node, view, Some(claims)).Ok? &&
            (Ir.Meaning(lowered.value, env) == TruthOf(node, view, Some(claims))
             <==> LeafSettled(node, RowCtx(obj, objects, declared), view, claims))
  {
    hide Lower, Fold, Eval, OperandClass, TypedView, TypedClaims, Ir.Meaning, OperandNow, TruthOf;
    var view := PropertiesOf(obj, row);
    var ctx := RowCtx(obj, objects, declared);
    LeafTruth(node, obj, objects, declared, row, claims);
    LeafMeaning(node, obj, objects, declared, row, claims, alias, env);
    OperandCarries(node.left, obj, objects, declared, view, claims);
    OperandCarries(node.right, obj, objects, declared, view, claims);
    var a, b := OperandNow(node.left, view, claims), OperandNow(node.right, view, claims);
    if a.Some? && b.Some? {
      ComparableClasses(node, ctx, a.value, b.value);
    }
  }

  lemma ComparableClasses(node: Node, ctx: Ctx, a: Value, b: Value)
    requires AcceptedLeaf(node, ctx)
    requires Carries(a, OperandClass(node.left, ctx)) && Carries(b, OperandClass(node.right, ctx))
    ensures Ir.CompareMeaning(node.op, a, b) == Ok(CompareTruth(node.op, a, b)) <==>
            a.Null? || b.Null? || (OneClass(node, ctx) && !OrdersBooleans(node, ctx))
  {
    hide OperandClass, StrLess, CompareProblems;
    if a.Null? || b.Null? || Ir.SqlComparable(a, b) {
      ValuesAgree(node.op, a, b);
    }
  }

  // ---- a whole predicate -----------------------------------------------------------------

  function Joined(op: BinOp, a: Truth, b: Truth): Truth {
    if op.Or? then Or3(a, b) else And3(a, b)
  }

  /** The evaluator's early exits compute the three-valued connectives. */
  lemma ConnectiveTruth(node: Node, view: View, claims: View)
    requires node.Binary? && IsConnective(node.op)
    requires TruthOf(node.left, view, Some(claims)).Ok? && TruthOf(node.right, view, Some(claims)).Ok?
    ensures TruthOf(node, view, Some(claims))
         == Ok(Joined(node.op, TruthOf(node.left, view, Some(claims)).value,
                      TruthOf(node.right, view, Some(claims)).value))
  {
  }

  lemma ConnectiveMeaning(node: Node, obj: ObjectType, claims: View, alias: string, env: Ir.Env)
    requires node.Binary? && IsConnective(node.op)
    requires Lower(Fold(node.left, claims), obj, alias).Ok? && Lower(Fold(node.right, claims), obj, alias).Ok?
    requires Ir.Meaning(Lower(Fold(node.left, claims), obj, alias).value, env).Ok?
    requires Ir.Meaning(Lower(Fold(node.right, claims), obj, alias).value, env).Ok?
    ensures Lower(Fold(node, claims), obj, alias).Ok?
    ensures Ir.Meaning(Lower(Fold(node, claims), obj, alias).value, env)
         == Ok(Joined(node.op, Ir.Meaning(Lower(Fold(node.left, claims), obj, alias).value, env).value,
                      Ir.Meaning(Lower(Fold(node.right, claims), obj, alias).value, env).value))
  {
  }

  /** The read plane's answer to the folded predicate is the write plane's answer to the predicate
      itself, and neither plane ever meets a node or a value it asserts away. */
  lemma {:induction false} PlanesAgree(node: Node, obj: ObjectType, objects: map<string, ObjectType>,
                                       declared: map<string, ClaimType>, row: Row, claims: View,
                                       alias: string, env: Ir.Env)
    requires WalkProblems(node, RowCtx(obj, objects, declared)) == [] && SourceLiterals(node)
    requires Meets(obj, objects, declared, row, claims) && alias in env && env[alias] == row
    requires Settled(node, RowCtx(obj, objects, declared), PropertiesOf(obj, row), claims)
    ensures var truth := TruthOf(node, PropertiesOf(obj, row), Some(claims));
            var lowered := Lower(Fold(node, claims), obj, alias);
            truth.Ok? && lowered.Ok? && Ir.Meaning(lowered.value, env) == truth
  {
    if node.Unary? {
      PlanesAgree(node.operand, obj, objects, declared, row, claims, alias, env);
    } else if IsConnective(node.op) {
      PlanesAgree(node.left, obj, objects, declared, row, claims, alias, env);
      PlanesAgree(node.right, obj, objects, declared, row, claims, alias, env);
      ConnectiveTruth(node, PropertiesOf(obj, row), claims);
      ConnectiveMeaning(node, obj, claims, alias, env);
    } else {
      LeafPlanesAgree(node, obj, objects, declared, row, claims, alias, env);
    }
  }

  /** Down to the statement the engine runs: its answer, with its parameters bound in order, is the
      evaluator's answer. */
  lemma StatementAgrees(node: Node, obj: ObjectType, objects: map<string, ObjectType>,
                        declared: map<string, ClaimType>, row: Row, claims: View, alias: string, env: Ir.Env)
    requires WalkProblems(node, RowCtx(obj, objects, declared)) == [] && SourceLiterals(node)
    requires Meets(obj, objects, declared, row, claims) && alias in env && env[alias] == row
    requires Settled(node, RowCtx(obj, objects, declared), PropertiesOf(obj, row), claims)
    ensures var lowered := Lower(Fold(node, claims), obj, alias);
            lowered.Ok? &&
            var c := DuckDb.Compile(lowered.value);
            DuckDb.Run(c.sql, env, c.params)
            == DuckDb.Answer(TruthOf(node, PropertiesOf(obj, row), Some(claims)), [])
  {
    PlanesAgree(node, obj, objects, declared, row, claims, alias, env);
    var lowered := Lower(Fold(node, claims), obj, alias).value;
    DuckDb.SqlMeansPredicate(lowered, env, []);
    assert DuckDb.Compile(lowered).params + [] == DuckDb.Compile(lowered).params;
  }

  // ---- folding ---------------------------------------------------------------------------

  lemma OperandFolds(node: Node, obj: ObjectType, objects: map<string, ObjectType>, declared: map<string, ClaimType>,
                     row: Row, claims: View)
    requires !OperandTypeOf(node, RowCtx(obj, objects, declared)).Bad?
    ensures var view := PropertiesOf(obj, row);
            var s := Substituted(node, claims);
            match Eval(node, Scope(map[], Some(view), Some(claims), 0))
            case Err => s.None?
            case Ok(v) => s.Some? && Eval(s.value, Scope(map[], Some(view), None, 0)) == Ok(v)
  {
  }

  /** Folding the caller in changes no answer: the folded predicate, evaluated naming nobody, says what
      the predicate says of this caller. It names no principal and always lowers. */
  lemma {:induction false} FoldMeans(node: Node, obj: ObjectType, objects: map<string, ObjectType>,
                                     declared: map<string, ClaimType>, row: Row, claims: View, alias: string)
    requires WalkProblems(node, RowCtx(obj, objects, declared)) == []
    ensures var view := PropertiesOf(obj, row);
            RowTruth(Fold(node, claims), view) == TruthOf(node, view, Some(claims))
    ensures !ReadsPrincipal(Fold(node, claims))
    ensures Lower(Fold(node, claims), obj, alias).Ok?
  {
    if node.Unary? {
      FoldMeans(node.operand, obj, objects, declared, row, claims, alias);
    } else if IsConnective(node.op) {
      FoldMeans(node.left, obj, objects, declared, row, claims, alias);
      FoldMeans(node.right, obj, objects, declared, row, claims, alias);
    } else {
      FoldLeaf(node, obj, objects, declared, row, claims, alias);
    }
  }

  lemma FoldLeaf(node: Node, obj: ObjectType, objects: map<string, ObjectType>, declared: map<string, ClaimType>,
                 row: Row, claims: View, alias: string)
    requires AcceptedLeaf(node, RowCtx(obj, objects, declared))
    ensures var view := PropertiesOf(obj, row);
            RowTruth(Fold(node, claims), view) == TruthOf(node, view, Some(claims))
    ensures !ReadsPrincipal(Fold(node, claims))
    ensures Lower(Fold(node, claims), obj, alias).Ok?
  {
    hide Eval, EvalBinary, LowerOperand, OperandNow, OperandTypeOf;
    OperandFolds(node.left, obj, objects, declared, row, claims);
    OperandFolds(node.right, obj, objects, declared, row, claims);
    OperandLowers(node.left, obj, objects, declared, row, claims, alias, map[alias := row]);
    OperandLowers(node.right, obj, objects, declared, row, claims, alias, map[alias := row]);
    var left, right := Substituted(node.left, claims), Substituted(node.right, claims);
    var view := PropertiesOf(obj, row);
    UndecidableIsUndecided(view);
    if left.Some? && right.Some? {
      NobodySubstituted(node.left, RowCtx(obj, objects, declared), claims);
      NobodySubstituted(node.right, RowCtx(obj, objects, declared), claims);
      assert Refs(Fold(node, claims)) == Refs(left.value) + Refs(right.value);
      BinaryLeaf(node.op, node.left, node.right, left.value, right.value,
                 Scope(map[], Some(view), Some(claims), 0), Scope(map[], Some(view), None, 0));
    } else {
      EvalComparison(node.op, node.left, node.right, Scope(map[], Some(view), Some(claims), 0));
      UndecidableMeans(obj, alias, map[]);
      assert Refs(UNDECIDABLE) == [];
    }
  }

  lemma UndecidableIsUndecided(view: View)
    ensures RowTruth(UNDECIDABLE, view) == Ok(Undecided)
  {
    var scope := Scope(map[], Some(view), None, 0);
    assert Eval(Literal(Null), scope) == Ok(Null);
  }

  lemma NobodySubstituted(node: Node, ctx: Ctx, claims: View)
    requires !OperandTypeOf(node, ctx).Bad?
    ensures var s := Substituted(node, claims); s.Some? ==> !ReadsPrincipal(s.value)
  {
  }

  lemma BinaryLeaf(op: BinOp, a: Node, b: Node, a': Node, b': Node, s: Scope, s': Scope)
    requires IsComparison(op) && Eval(a, s) == Eval(a', s') && Eval(b, s) == Eval(b', s')
    ensures Eval(Binary(op, a, b), s) == Eval(Binary(op, a', b'), s')
  {
    hide Eval, EvalBinary;
    EvalComparison(op, a, b, s);
    EvalComparison(op, a', b', s');
  }

  // ---- when a predicate is decided -------------------------------------------------------

  /** Nothing the expression refers to is null or missing. */
  predicate AllPresent(node: Node, view: View, claims: View) {
    forall path | path in Refs(node) :: !Blank(OperandNow(Ref(path), view, claims))
  }

  /** Every leaf compares within one class, and none orders booleans. */
  predicate CannotPart(node: Node, ctx: Ctx) {
    if node.Unary? then CannotPart(node.operand, ctx)
    else if node.Binary? && IsConnective(node.op) then CannotPart(node.left, ctx) && CannotPart(node.right, ctx)
    else node.Binary? ==> OneClass(node, ctx) && !OrdersBooleans(node, ctx)
  }

  /** Then the planes agree about every row and every caller. */
  lemma {:induction false} CannotPartSettles(node: Node, ctx: Ctx, view: View, claims: View)
    requires CannotPart(node, ctx)
    ensures Settled(node, ctx, view, claims)
  {
    if node.Unary? {
      CannotPartSettles(node.operand, ctx, view, claims);
    } else if node.Binary? && IsConnective(node.op) {
      CannotPartSettles(node.left, ctx, view, claims);
      CannotPartSettles(node.right, ctx, view, claims);
    }
  }

  /** Every ordering is within one class, and not of booleans. */
  predicate OrdersLikes(node: Node, ctx: Ctx) {
    if node.Unary? then OrdersLikes(node.operand, ctx)
    else if node.Binary? && IsConnective(node.op) then OrdersLikes(node.left, ctx) && OrdersLikes(node.right, ctx)
    else node.Binary? && IsOrdering(node.op) ==> OneClass(node, ctx) && !OrdersBooleans(node, ctx)
  }

  /** A row with no null in a property the predicate reads is always decided. */
  lemma {:induction false} DecidedWithoutNulls(node: Node, obj: ObjectType, objects: map<string, ObjectType>,
                                               declared: map<string, ClaimType>, row: Row, claims: View)
    requires WalkProblems(node, RowCtx(obj, objects, declared)) == [] && SourceLiterals(node)
    requires Meets(obj, objects, declared, row, claims)
    requires OrdersLikes(node, RowCtx(obj, objects, declared))
    requires AllPresent(node, PropertiesOf(obj, row), claims)
    ensures TruthOf(node, PropertiesOf(obj, row), Some(claims)) in {Ok(Yes), Ok(No)}
  {
    if node.Unary? {
      DecidedWithoutNulls(node.operand, obj, objects, declared, row, claims);
    } else if IsConnective(node.op) {
      DecidedWithoutNulls(node.left, obj, objects, declared, row, claims);
      DecidedWithoutNulls(node.right, obj, objects, declared, row, claims);
    } else {
      LeafDecided(node, obj, objects, declared, row, claims);
    }
  }

  lemma LeafDecided(node: Node, obj: ObjectType, objects: map<string, ObjectType>, declared: map<string, ClaimType>,
                    row: Row, claims: View)
    requires var ctx := RowCtx(obj, objects, declared);
             AcceptedLeaf(node, ctx) && (IsOrdering(node.op) ==> OneClass(node, ctx) && !OrdersBooleans(node, ctx))
    requires SourceLiterals(node) && Meets(obj, objects, declared, row, claims)
    requires AllPresent(node, PropertiesOf(obj, row), claims)
    ensures TruthOf(node, PropertiesOf(obj, row), Some(claims)) in {Ok(Yes), Ok(No)}
  {
    hide Lower, Fold, Eval, OperandClass, TypedView, TypedClaims, OperandNow, TruthOf, AllPresent;
    var ctx, view := RowCtx(obj, objects, declared), PropertiesOf(obj, row);
    LeafTruth(node, obj, objects, declared, row, claims);
    OperandCarries(node.left, obj, objects, declared, view, claims);
    OperandCarries(node.right, obj, objects, declared, view, claims);
    OperandPresent(node.left, ctx, node, view, claims);
    OperandPresent(node.right, ctx, node, view, claims);
    if IsOrdering(node.op) {
      LiteralSideIsNotNull(node, ctx);
    }
  }

  lemma LiteralSideIsNotNull(node: Node, ctx: Ctx)
    requires AcceptedLeaf(node, ctx) && IsOrdering(node.op)
    ensures node.left != Literal(Null) && node.right != Literal(Null)
  {
  }

  lemma OperandPresent(operand: Node, ctx: Ctx, leaf: Node, view: View, claims: View)
    requires leaf.Binary? && operand in {leaf.left, leaf.right} && AllPresent(leaf, view, claims)
    requires !OperandTypeOf(operand, ctx).Bad?
    ensures var v := OperandNow(operand, view, claims);
            v.Some? && (v.value.Null? ==> operand == Literal(Null))
  {
    if operand.Ref? {
      assert operand.path in Refs(operand) && operand.path in Refs(leaf);
    }
  }

  // ---- what is false without the boolean exclusion ---------------------------------------

  /** `object.flag < true` is accepted. For a row whose flag is false the query shows the row and the
      write plane withholds it. */
  lemma BooleanOrderSplitsPlanes()
    ensures var flag := Property("flag", BooleanT, "flag", false);
            var obj := ObjectType("T", "flag", "t", map["flag" := flag], {}, None);
            var node := Binary(Lt, Ref(["object", "flag"]), Literal(Bool(true)));
            var row: Row := map["flag" := Bool(false)];
            && Governs(node, obj, map["T" := obj], map[])
            && Lower(node, obj, "t0").Ok?
            && Ir.Meaning(Lower(node, obj, "t0").value, map["t0" := row]) == Ok(Yes)
            && !Admits(node, PropertiesOf(obj, row))
  {
    var flag := Property("flag", BooleanT, "flag", false);
    var obj := ObjectType("T", "flag", "t", map["flag" := flag], {}, None);
    var left, right := Ref(["object", "flag"]), Literal(Bool(true));
    var row: Row := map["flag" := Bool(false)];
    var ctx := RowCtx(obj, map["T" := obj], map[]);
    assert OperandTypeOf(left, ctx) == Scalar(BooleanT);
    assert LowerOperand(left, obj, "t0") == Ok(Ir.ColumnRef("t0", "flag"));
    assert LowerOperand(right, obj, "t0") == Ok(Ir.Const(Bool(true)));
    assert Eval(left, Scope(map[], Some(PropertiesOf(obj, row)), None, 0)) == Ok(Bool(false));
  }
}
