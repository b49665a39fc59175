/** A tree written back out: first as tokens with the fewest parentheses, then as text in any layout
    of white space that keeps neighbouring tokens apart. `WellFormed` is the language of trees. */
module Rendering {
  import opened Values
  import opened ExprAst
  import opened Lexer
  import opened Parser

  // ---- which trees there are -------------------------------------------------------------

  predicate IsName(s: string) {
    && s != [] && IsWordStart(s[0]) && s != WORD_OP
    && forall k | 0 <= k < |s| :: IsWordChar(s[k])
  }

  predicate IsHead(s: string) {
    IsName(s) && KeywordLiteral(s).None?
  }

  /** No string can be spelled that holds both kinds of quote. */
  predicate Quotable(s: string) {
    '\'' !in s || '"' !in s
  }

  predicate BracePair(s: string, k: nat)
    requires k + 1 < |s|
  {
    s[k] == s[k + 1] && s[k] in {'{', '}'}
  }

  predicate BraceFree(s: string) {
    forall k | 0 <= k < |s| - 1 :: !BracePair(s, k)
  }

  ghost predicate IsDecimalOf(r: real, units: nat, places: nat) {
    places >= 1 && r == units as real / Pow10(places) as real
  }

  ghost predicate FiniteDecimal(r: real) {
    exists units: nat, places: nat :: IsDecimalOf(r, units, places)
  }

  predicate IsNatural(r: real) {
    r >= 0.0 && r == r.Floor as real
  }

  ghost predicate NumberSpellable(v: Value) {
    v.Num? && match v.kind
              case IntNum => IsNatural(v.n)
              case DoubleNum => FiniteDecimal(v.n)
              case DecimalNum => false
  }

  ghost predicate LiteralSpellable(v: Value) {
    match v
    case Null | Bool(_) => true
    case Num(_, _) => NumberSpellable(v)
    case Str(s) => Quotable(s) && BraceFree(s)
    case _ => false
  }

  /** The trees the grammar has. */
  ghost predicate WellFormed(node: Node) {
    match node
    case Literal(value) => LiteralSpellable(value)
    case Ref(path) => path != [] && IsHead(path[0]) && forall k | 1 <= k < |path| :: IsName(path[k])
    case Call(name, args) => IsHead(name) && forall k | 0 <= k < |args| :: WellFormed(args[k])
    case Unary(_, operand) => WellFormed(operand)
    case Binary(_, left, right) => WellFormed(left) && WellFormed(right)
  }

  // ---- as tokens -------------------------------------------------------------------------

  function SymbolOf(op: BinOp): Symbol {
    match op
    case Or => OrSym
    case And => AndSym
    case Eq => EqSym
    case Ne => NeSym
    case Lt => LtSym
    case Le => LeSym
    case Gt => GtSym
    case Ge => GeSym
    case Contains => ContainsSym
    case Add => Plus
    case Sub => Minus
    case Mul => Star
    case Div => Slash
  }

  function LiteralToken(v: Value): Token {
    match v
    case Null => Ident("null")
    case Bool(b) => Ident(if b then "true" else "false")
    case Str(s) => StrTok(s)
    case _ => NumTok(v)
  }

  /** Parentheses only around an operator that binds less tightly than `level`. A right operand is
      written one level up, since operators of one level associate to the left. */
  function Tokens(node: Node, level: nat): (ts: seq<Token>)
    ensures (node.Ref? ==> node.path != []) ==> ts != []
    decreases node, 1
  {
    match node
    case Literal(value) => [LiteralToken(value)]
    case Ref(path) => PathTokens(path)
    case Call(name, args) => [Ident(name), OpTok(Open)] + ArgTokens(args) + [OpTok(Close)]
    case Unary(uop, operand) => [OpTok(if uop.Not? then Bang else Minus)] + Tokens(operand, UNARY_LEVEL)
    case Binary(op, _, _) =>
      var bare := BinaryTokens(node);
      if Precedence(op) < level then [OpTok(Open)] + bare + [OpTok(Close)] else bare
  }

  function BinaryTokens(node: Node): (ts: seq<Token>)
    requires node.Binary?
    ensures ts != []
    decreases node, 0
  {
    var p := Precedence(node.op);
    Tokens(node.left, p) + [OpTok(SymbolOf(node.op))] + Tokens(node.right, p + 1)
  }

  function PathTokens(path: seq<string>): (ts: seq<Token>)
    ensures path != [] ==> ts == [Ident(path[0])] + DottedTokens(path[1..])
    ensures path == [] ==> ts == []
  {
    if path == [] then [] else [Ident(path[0])] + DottedTokens(path[1..])
  }

  function DottedTokens(path: seq<string>): seq<Token> {
    if path == [] then [] else [OpTok(Dot), Ident(path[0])] + DottedTokens(path[1..])
  }

  function ArgTokens(args: seq<Node>): seq<Token> {
    if args == [] then [] else Tokens(args[0], 0) + MoreArgTokens(args[1..])
  }

  function MoreArgTokens(args: seq<Node>): seq<Token> {
    if args == [] then [] else [OpTok(Comma)] + Tokens(args[0], 0) + MoreArgTokens(args[1..])
  }

  // ---- as text ---------------------------------------------------------------------------

  function DigitChar(d: nat): (c: char)
    requires d < 10
    ensures IsDigit(c) && DigitOf(c) == d
  {
    '0' + d as char
  }

  function NatToString(n: nat): (s: string)
    ensures s != [] && AllDigits(s)
  {
    if n < 10 then [DigitChar(n)] else NatToString(n / 10) + [DigitChar(n % 10)]
  }

  /** The last `k` digits of `n`. */
  function LastDigits(n: nat, k: nat): (s: string)
    ensures |s| == k && AllDigits(s)
  {
    if k == 0 then [] else LastDigits(n / 10, k - 1) + [DigitChar(n % 10)]
  }

  function Quotient(n: nat, d: nat): (q: nat)
    requires d >= 1
    ensures q * d <= n < q * d + d
  {
    n / d
  }

  ghost function DecimalToString(r: real): (s: string)
    requires FiniteDecimal(r)
    ensures s != [] && AllNumberChars(s) && IsDigit(s[0])
  {
    var units: nat, places: nat :| IsDecimalOf(r, units, places);
    NatToString(Quotient(units, Pow10(places))) + "." + LastDigits(units, places)
  }

  ghost predicate TokenSpellable(t: Token) {
    match t
    case StrTok(s) => Quotable(s)
    case NumTok(v) => NumberSpellable(v)
    case Ident(name) => IsName(name)
    case OpTok(_) => true
    case End => false
  }

  ghost function Spell(t: Token): (s: string)
    requires TokenSpellable(t)
    ensures s != []
  {
    match t
    case StrTok(text) => if '\'' in text then "\"" + text + "\"" else "'" + text + "'"
    case NumTok(v) => if v.kind.IntNum? then NatToString(v.n.Floor) else DecimalToString(v.n)
    case Ident(name) => name
    case OpTok(symbol) => Spelling(symbol)
  }

  /** Text that may stand directly after `t` without changing how `t` is read. */
  predicate Separate(t: Token, after: string) {
    after == [] ||
    match t
    case StrTok(_) => true
    case NumTok(_) => !IsNumberChar(after[0])
    case Ident(_) => !IsWordChar(after[0])
    case OpTok(symbol) =>
      (match symbol
       case Bang | LtSym | GtSym => after[0] != '='
       case Dot => !IsDigit(after[0])
       case ContainsSym => !IsWordChar(after[0])
       case _ => true)
    case End => true
  }

  predicate AllSpaces(s: string) {
    forall k | 0 <= k < |s| :: IsSpace(s[k])
  }

  /** White space before each token and after the last; two tokens may touch only if they stay apart. */
  ghost predicate IsLayout(ts: seq<Token>, gaps: seq<string>) {
    && |gaps| == |ts| + 1
    && (forall k | 0 <= k < |ts| :: TokenSpellable(ts[k]))
    && (forall k | 0 <= k < |gaps| :: AllSpaces(gaps[k]))
    && (forall k | 1 <= k < |ts| :: gaps[k] != [] || Separate(ts[k - 1], Spell(ts[k])))
  }

  ghost function Laid(ts: seq<Token>, gaps: seq<string>): string
    requires IsLayout(ts, gaps)
  {
    if ts == [] then gaps[0]
    else
      RestIsLayout(ts, gaps);
      gaps[0] + Spell(ts[0]) + Laid(ts[1..], gaps[1..])
  }

  lemma RestIsLayout(ts: seq<Token>, gaps: seq<string>)
    requires IsLayout(ts, gaps) && ts != []
    ensures IsLayout(ts[1..], gaps[1..])
  {
    forall k | 1 <= k < |ts[1..]|
      ensures gaps[1..][k] != [] || Separate(ts[1..][k - 1], Spell(ts[1..][k]))
    {
      assert gaps[k + 1] != [] || Separate(ts[k], Spell(ts[k + 1]));
    }
  }
}
