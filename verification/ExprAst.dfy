/** The expression language's syntax tree. */
module ExprAst {
  import opened Values

  datatype UnOp = Not | Neg

  datatype BinOp = Or | And | Eq | Ne | Lt | Le | Gt | Ge | Add | Sub | Mul | Div | Contains

  datatype Node =
    | Literal(value: Value)
    | Ref(path: seq<string>)
    | Call(name: string, args: seq<Node>)
    | Unary(uop: UnOp, operand: Node)
    | Binary(op: BinOp, left: Node, right: Node)

  /** Higher binds tighter. */
  function Precedence(op: BinOp): nat {
    match op
    case Or => 1
    case And => 2
    case Eq | Ne | Lt | Le | Gt | Ge | Contains => 3
    case Add | Sub => 4
    case Mul | Div => 5
  }

  const UNARY_LEVEL: nat := 6

  predicate IsComparison(op: BinOp) {
    op in {Eq, Ne, Lt, Le, Gt, Ge}
  }

  predicate IsOrdering(op: BinOp) {
    op in {Lt, Le, Gt, Ge}
  }

  predicate IsConnective(op: BinOp) {
    op in {And, Or}
  }

  /** The references an expression makes, in source order. */
  function Refs(node: Node): seq<seq<string>> {
    match node
    case Literal(_) => []
    case Ref(path) => [path]
    case Call(_, args) => RefsOfAll(args)
    case Unary(_, operand) => Refs(operand)
    case Binary(_, left, right) => Refs(left) + Refs(right)
  }

  function RefsOfAll(nodes: seq<Node>): seq<seq<string>> {
    if nodes == [] then [] else Refs(nodes[0]) + RefsOfAll(nodes[1..])
  }

  predicate IsObjectRef(path: seq<string>) {
    |path| == 2 && path[0] == "object"
  }

  predicate IsPrincipalRef(path: seq<string>) {
    |path| == 2 && path[0] == "principal"
  }

  predicate ReadsPrincipal(node: Node) {
    exists path :: path in Refs(node) && IsPrincipalRef(path)
  }
}
