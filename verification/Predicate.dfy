/** The predicates of a policy, on rows and on callers: what each may say, what it says about a row and
    a caller, and its two lowerings. */
module Predicate {
  import opened Wrappers
  import opened Values
  import opened ExprAst
  import opened Types
  import opened Model
  import opened Kleene
  import opened Evaluate
  import opened Auth
  import Ir

  // ---- what a policy may say -------------------------------------------------------------

  /** The names an expression can use. A guard has no object: it is answered before any row is read. */
  datatype Ctx = Ctx(objects: map<string, ObjectType>, claims: map<string, ClaimType>, obj: Option<ObjectType>)

  datatype OperandType = Bad | NullType | Scalar(t: PropType) | ListOf(element: PropType)

  datatype Problem =
    | NotACondition(node: Node)
    | CannotBeUsed(node: Node)
    | NamesARow(node: Node)
    | UnknownProperty(name: string)
    | UnknownClaim(name: string)
    | NotReferable(path: seq<string>)
    | NotAnOperand(node: Node)
    | ComparesAList(node: Node)
    | OrdersNull(node: Node)
    | NotComparable(node: Node)
    | NotAnEnumValue(node: Node)
    | NotAList(node: Node)
    | NotAnElement(node: Node)
    | ReadsNoProperty
    | NamesNoClaim

  /** The nodes the subset does not carry, wherever they turn up. */
  predicate OutsideSubset(node: Node) {
    match node
    case Call(_, _) => true
    case Unary(uop, _) => uop.Neg?
    case Binary(op, _, _) => op in {Add, Sub, Mul, Div, Contains}
    case _ => false
  }

  function RefType(path: seq<string>, ctx: Ctx): OperandType {
    if IsObjectRef(path) then
      if ctx.obj.None? || path[1] !in ctx.obj.value.properties then Bad
      else Scalar(Resolved(ctx.obj.value.properties[path[1]].propType, ctx.objects))
    else if IsPrincipalRef(path) then
      if path[1] !in ctx.claims then Bad
      else
        var claim := ctx.claims[path[1]];
        if claim.isList then ListOf(claim.ElementType()) else Scalar(claim.ElementType())
    else Bad
  }

  function OperandTypeOf(node: Node, ctx: Ctx): OperandType {
    match node
    case Literal(value) => (match OfLiteral(value) case Some(t) => Scalar(t) case None => NullType)
    case Ref(path) => RefType(path, ctx)
    case _ => Bad
  }

  function OperandProblems(node: Node, ctx: Ctx): seq<Problem> {
    if !OperandTypeOf(node, ctx).Bad? then []
    else
      match node
      case Ref(path) =>
        if IsObjectRef(path) then [if ctx.obj.None? then NamesARow(node) else UnknownProperty(path[1])]
        else if IsPrincipalRef(path) then [UnknownClaim(path[1])]
        else [NotReferable(path)]
      case _ => [if OutsideSubset(node) then CannotBeUsed(node) else NotAnOperand(node)]
  }

  /** An enum side compared with a string literal it does not hold. */
  predicate MissesEnum(declared: OperandType, other: Node) {
    && declared.Scalar? && declared.t.EnumT? && declared.t.values != []
    && other.Literal? && other.value.Str? && other.value.s !in declared.t.values
  }

  function CompareProblems(node: Node, ctx: Ctx): seq<Problem>
    requires node.Binary? && IsComparison(node.op)
  {
    var left, right := OperandTypeOf(node.left, ctx), OperandTypeOf(node.right, ctx);
    if left.Bad? || right.Bad? then OperandProblems(node.left, ctx) + OperandProblems(node.right, ctx)
    else if left.ListOf? || right.ListOf? then [ComparesAList(node)]
    else if IsOrdering(node.op) && (left.NullType? || right.NullType?) then [OrdersNull(node)]
    else if left.Scalar? && right.Scalar? && !ComparableInAComparison(left.t, right.t) then [NotComparable(node)]
    else if node.op in {Eq, Ne} && (MissesEnum(left, node.right) || MissesEnum(right, node.left))
    then [NotAnEnumValue(node)]
    else []
  }

  function ContainsProblems(node: Node, ctx: Ctx): seq<Problem>
    requires node.Binary?
  {
    var left, right := OperandTypeOf(node.left, ctx), OperandTypeOf(node.right, ctx);
    if left.Bad? || right.Bad? then OperandProblems(node.left, ctx) + OperandProblems(node.right, ctx)
    else if !left.ListOf? then [NotAList(node)]
    else if !right.Scalar? || !ComparableTo(right.t, left.element) then [NotAnElement(node)]
    else []
  }

  /** Everything wrong with an expression standing where a condition belongs. */
  function WalkProblems(node: Node, ctx: Ctx): seq<Problem> {
    if node.Unary? && node.uop.Not? then WalkProblems(node.operand, ctx)
    else if node.Binary? && IsConnective(node.op) then
      WalkProblems(node.left, ctx) + WalkProblems(node.right, ctx)
    else if node.Binary? && IsComparison(node.op) then CompareProblems(node, ctx)
    else if node.Binary? && node.op.Contains? && ctx.obj.None? then ContainsProblems(node, ctx)
    else [if OutsideSubset(node) then CannotBeUsed(node) else NotACondition(node)]
  }

  /** The walk as an object: problems accumulate as it goes. */
  class Checker {
    const ctx: Ctx
    var problems: seq<Problem>

    constructor (ctx: Ctx)
      ensures this.ctx == ctx && problems == []
    {
      this.ctx := ctx;
      problems := [];
    }

    method Walk(node: Node)
      modifies this
      ensures problems == old(problems) + WalkProblems(node, ctx)
      decreases node
    {
      if node.Unary? && node.uop.Not? {
        Walk(node.operand);
      } else if node.Binary? && IsConnective(node.op) {
        Walk(node.left);
        Walk(node.right);
      } else if node.Binary? && IsComparison(node.op) {
        Compare(node);
      } else if node.Binary? && node.op.Contains? && ctx.obj.None? {
        Contains(node);
      } else if OutsideSubset(node) {
        problems := problems + [CannotBeUsed(node)];
      } else {
        problems := problems + [NotACondition(node)];
      }
    }

    method Operand(node: Node) returns (t: OperandType)
      modifies this
      ensures t == OperandTypeOf(node, ctx)
      ensures problems == old(problems) + OperandProblems(node, ctx)
    {
      t := OperandTypeOf(node, ctx);
      problems := problems + OperandProblems(node, ctx);
    }

    method Compare(node: Node)
      requires node.Binary? && IsComparison(node.op)
      modifies this
      ensures problems == old(problems) + CompareProblems(node, ctx)
    {
      var left := Operand(node.left);
      var right := Operand(node.right);
      if left.Bad? || right.Bad? {
        return;
      }
      if left.ListOf? || right.ListOf? {
        problems := problems + [ComparesAList(node)];
        return;
      }
      if IsOrdering(node.op) && (left.NullType? || right.NullType?) {
        problems := problems + [OrdersNull(node)];
        return;
      }
      if left.Scalar? && right.Scalar? && !ComparableInAComparison(left.t, right.t) {
        problems := problems + [NotComparable(node)];
        return;
      }
      if node.op in {Eq, Ne} && (MissesEnum(left, node.right) || MissesEnum(right, node.left)) {
        problems := problems + [NotAnEnumValue(node)];
      }
    }

    method Contains(node: Node)
      requires node.Binary?
      modifies this
      ensures problems == old(problems) + ContainsProblems(node, ctx)
    {
      var left := Operand(node.left);
      var right := Operand(node.right);
      if left.Bad? || right.Bad? {
        return;
      }
      if !left.ListOf? {
        problems := problems + [NotAList(node)];
        return;
      }
      if !right.Scalar? || !ComparableTo(right.t, left.element) {
        problems := problems + [NotAnElement(node)];
      }
    }
  }

  /** A reference into `space` standing as an operand; a call is not looked into. */
  predicate References(node: Node, space: string) {
    match node
    case Ref(path) => |path| == 2 && path[0] == space
    case Unary(_, operand) => References(operand, space)
    case Binary(_, left, right) => References(left, space) || References(right, space)
    case _ => false
  }

  function RowCtx(obj: ObjectType, objects: map<string, ObjectType>, claims: map<string, ClaimType>): Ctx {
    Ctx(objects, Claims(claims), Some(obj))
  }

  function GuardCtx(claims: map<string, ClaimType>): Ctx {
    Ctx(map[], Claims(claims), None)
  }

  /** Whether this expression may govern the rows of this object type. */
  predicate Governs(node: Node, obj: ObjectType, objects: map<string, ObjectType>, claims: map<string, ClaimType>) {
    WalkProblems(node, RowCtx(obj, objects, claims)) == [] && References(node, "object")
  }

  /** Whether this expression may guard a policy. */
  predicate Guards(node: Node, claims: map<string, ClaimType>) {
    WalkProblems(node, GuardCtx(claims)) == [] && References(node, "principal")
  }

  method Check(node: Node, obj: ObjectType, objects: map<string, ObjectType>, claims: map<string, ClaimType>)
    returns (problems: seq<Problem>)
    ensures problems == [] <==> Governs(node, obj, objects, claims)
  {
    var checker := new Checker(RowCtx(obj, objects, claims));
    checker.Walk(node);
    problems := checker.problems;
    if problems == [] && !References(node, "object") {
      problems := [ReadsNoProperty];
    }
  }

  method CheckGuard(node: Node, claims: map<string, ClaimType>) returns (problems: seq<Problem>)
    ensures problems == [] <==> Guards(node, claims)
  {
    var checker := new Checker(GuardCtx(claims));
    checker.Walk(node);
    problems := checker.problems;
    if problems == [] && !References(node, "principal") {
      problems := [NamesNoClaim];
    }
  }

  // ---- the write plane -------------------------------------------------------------------

  /** What an expression says about a row and a caller. `Err` stands for the assertion that a leaf
      evaluated to something other than a boolean. */
  function TruthOf(node: Node, row: map<string, Value>, claims: Option<map<string, Value>>): Result<Truth> {
    if node.Unary? && node.uop.Not? then
      var inner :- TruthOf(node.operand, row, claims);
      Ok(Not3(inner))
    else if node.Binary? && IsConnective(node.op) then
      var decides := if node.op.Or? then Yes else No;
      var left :- TruthOf(node.left, row, claims);
      if left == decides then Ok(decides)
      else
        var right :- TruthOf(node.right, row, claims);
        if right == decides then Ok(decides)
        else if left.Undecided? || right.Undecided? then Ok(Undecided)
        else Ok(Not3(decides))
    else
      match Eval(node, Scope(map[], Some(row), claims, 0))
      case Ok(Bool(b)) => Ok(FromBool(b))
      case Ok(_) => Err
      case Err => Ok(Undecided)
  }

  function RowTruth(node: Node, row: map<string, Value>): Result<Truth> {
    TruthOf(node, row, None)
  }

  /** Undecided does not admit a row. */
  predicate Admits(node: Node, row: map<string, Value>) {
    RowTruth(node, row) == Ok(Yes)
  }

  function GuardTruth(node: Node, claims: map<string, Value>): Result<Truth> {
    TruthOf(node, map[], Some(claims))
  }

  // ---- the caller, folded out ------------------------------------------------------------

  /** `null < null`: undecided on both planes by the rules they already have. */
  const UNDECIDABLE: Node := Binary(Lt, Literal(Null), Literal(Null))

  function Substituted(node: Node, claims: map<string, Value>): Option<Node> {
    if node.Ref? && IsPrincipalRef(node.path) then
      if node.path[1] in claims then Some(Literal(claims[node.path[1]])) else None
    else Some(node)
  }

  function Fold(node: Node, claims: map<string, Value>): Node {
    if node.Unary? && node.uop.Not? then Unary(Not, Fold(node.operand, claims))
    else if node.Binary? && IsConnective(node.op) then
      Binary(node.op, Fold(node.left, claims), Fold(node.right, claims))
    else if node.Binary? && IsComparison(node.op) then
      var left, right := Substituted(node.left, claims), Substituted(node.right, claims);
      if left.None? || right.None? then UNDECIDABLE else Binary(node.op, left.value, right.value)
    else node
  }

  // ---- the read plane --------------------------------------------------------------------

  function LowerOperand(node: Node, obj: ObjectType, alias: string): Result<Ir.Operand> {
    match node
    case Literal(value) => Ok(Ir.Const(value))
    case Ref(path) =>
      if |path| >= 2 && path[1] in obj.properties
      then Ok(Ir.ColumnRef(alias, obj.properties[path[1]].column))
      else Err
    case _ => Err
  }

  /** `Err` stands for the assertion that a node is not lowerable. */
  function Lower(node: Node, obj: ObjectType, alias: string): Result<Ir.Predicate> {
    if node.Unary? && node.uop.Not? then
      var term :- Lower(node.operand, obj, alias);
      Ok(Ir.Negated(term))
    else if node.Binary? && node.op.And? then
      var left :- Lower(node.left, obj, alias);
      var right :- Lower(node.right, obj, alias);
      Ok(Ir.Both(left, right))
    else if node.Binary? && node.op.Or? then
      var left :- Lower(node.left, obj, alias);
      var right :- Lower(node.right, obj, alias);
      Ok(Ir.Either(left, right))
    else if node.Binary? && IsComparison(node.op) then
      var left :- LowerOperand(node.left, obj, alias);
      var right :- LowerOperand(node.right, obj, alias);
      Ok(Ir.Compare(node.op, left, right))
    else Err
  }
}
