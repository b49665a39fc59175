/** The Pratt parser. The functions say what a token list means; the class is the parser itself,
    with its cursor, and each of its methods is proved to compute the function of the same name. */
module Parser {
  import opened Wrappers
  import opened Values
  import opened ExprAst
  import opened Lexer

  /** Every token list the tokenizer produces ends in `End`. */
  predicate Closed(ts: seq<Token>) {
    |ts| > 0 && ts[|ts| - 1] == End
  }

  /** A node and the tokens left after it, or a malformed expression. */
  datatype Parsed = Done(node: Node, rest: seq<Token>) | Fail

  datatype ParsedPath = PathDone(path: seq<string>, rest: seq<Token>) | PathFail

  datatype ParsedArgs = ArgsDone(args: seq<Node>, rest: seq<Token>) | ArgsFail

  /** `rest` is what a parser working from `ts` may leave: strictly less, and still closed. */
  predicate Leaves(ts: seq<Token>, rest: seq<Token>) {
    |rest| < |ts| && Closed(rest)
  }

  function BinOpOf(token: Token): Option<BinOp> {
    if !token.OpTok? then None
    else
      match token.symbol
      case OrSym => Some(Or)
      case AndSym => Some(And)
      case EqSym => Some(Eq)
      case NeSym => Some(Ne)
      case LtSym => Some(Lt)
      case LeSym => Some(Le)
      case GtSym => Some(Gt)
      case GeSym => Some(Ge)
      case ContainsSym => Some(Contains)
      case Plus => Some(Add)
      case Minus => Some(Sub)
      case Star => Some(Mul)
      case Slash => Some(Div)
      case _ => None
  }

  function UnOpOf(token: Token): Option<UnOp> {
    if token == OpTok(Bang) then Some(Not)
    else if token == OpTok(Minus) then Some(Neg)
    else None
  }

  function KeywordLiteral(name: string): Option<Value> {
    if name == "true" then Some(Bool(true))
    else if name == "false" then Some(Bool(false))
    else if name == "null" then Some(Null)
    else None
  }

  // ---- what a token list means -----------------------------------------------------------

  function ExprAt(ts: seq<Token>, minPrec: nat): (r: Parsed)
    requires Closed(ts)
    ensures r.Done? ==> Leaves(ts, r.rest)
    decreases |ts|, 3
  {
    match UnaryAt(ts)
    case Done(left, rest) => Climb(left, rest, minPrec)
    case Fail => Fail
  }

  /** Operators binding at least as tightly as `minPrec`, folded to the left of `left`. */
  function Climb(left: Node, ts: seq<Token>, minPrec: nat): (r: Parsed)
    requires Closed(ts)
    ensures r.Done? ==> r.rest == ts || Leaves(ts, r.rest)
    decreases |ts|, 2
  {
    match BinOpOf(ts[0])
    case Some(op) =>
      if Precedence(op) >= minPrec then
        (match ExprAt(ts[1..], Precedence(op) + 1)
         case Done(right, rest) => Climb(Binary(op, left, right), rest, minPrec)
         case Fail => Fail)
      else Done(left, ts)
    case None => Done(left, ts)
  }

  lemma ClimbOver(left: Node, ts: seq<Token>, minPrec: nat, op: BinOp, right: Parsed)
    requires Closed(ts) && BinOpOf(ts[0]) == Some(op) && Precedence(op) >= minPrec
    requires right == ExprAt(ts[1..], Precedence(op) + 1)
    ensures Climb(left, ts, minPrec) ==
      if right.Done? then Climb(Binary(op, left, right.node), right.rest, minPrec) else Fail
  {
  }

  function UnaryAt(ts: seq<Token>): (r: Parsed)
    requires Closed(ts)
    ensures r.Done? ==> Leaves(ts, r.rest)
    decreases |ts|, 2
  {
    match UnOpOf(ts[0])
    case Some(uop) =>
      (match UnaryAt(ts[1..])
       case Done(operand, rest) => Done(Unary(uop, operand), rest)
       case Fail => Fail)
    case None => PrimaryAt(ts)
  }

  function PrimaryAt(ts: seq<Token>): (r: Parsed)
    requires Closed(ts)
    ensures r.Done? ==> Leaves(ts, r.rest)
    decreases |ts|, 1
  {
    match ts[0]
    case NumTok(value) => Done(Literal(value), ts[1..])
    case StrTok(text) => Done(Literal(Str(text)), ts[1..])
    case OpTok(symbol) =>
      if symbol != Open then Fail
      else
        (match ExprAt(ts[1..], 0)
         case Done(node, rest) => if rest[0] == OpTok(Close) then Done(node, rest[1..]) else Fail
         case Fail => Fail)
    case Ident(name) =>
      (match KeywordLiteral(name)
       case Some(value) => Done(Literal(value), ts[1..])
       case None =>
         if ts[1] == OpTok(Open) then
           match CallArgsAt(ts[2..])
           case ArgsDone(args, rest) => Done(Call(name, args), rest)
           case ArgsFail => Fail
         else
           RefFrom([name], ts[1..]))
    case End => Fail
  }

  /** The dotted names that follow the head of a reference. */
  function PathAt(ts: seq<Token>): (r: ParsedPath)
    requires Closed(ts)
    ensures r.PathDone? ==> r.rest == ts || Leaves(ts, r.rest)
    decreases |ts|
  {
    if ts[0] != OpTok(Dot) then PathDone([], ts)
    else if !ts[1].Ident? then PathFail
    else
      match PathAt(ts[2..])
      case PathDone(path, rest) => PathDone([ts[1].name] + path, rest)
      case PathFail => PathFail
  }

  /** A reference whose first names are already read. */
  function RefFrom(path: seq<string>, ts: seq<Token>): (r: Parsed)
    requires Closed(ts)
    ensures r.Done? ==> r.rest == ts || Leaves(ts, r.rest)
  {
    match PathAt(ts)
    case PathDone(more, rest) => Done(Ref(path + more), rest)
    case PathFail => Fail
  }

  lemma RefStep(path: seq<string>, ts: seq<Token>)
    requires Closed(ts) && ts[0] == OpTok(Dot)
    ensures RefFrom(path, ts) == if ts[1].Ident? then RefFrom(path + [ts[1].name], ts[2..]) else Fail
  {
    if ts[1].Ident? && PathAt(ts[2..]).PathDone? {
      var more := PathAt(ts[2..]).path;
      assert path + ([ts[1].name] + more) == (path + [ts[1].name]) + more;
    }
  }

  /** A call's arguments and its closing parenthesis. */
  function CallArgsAt(ts: seq<Token>): (r: ParsedArgs)
    requires Closed(ts)
    ensures r.ArgsDone? ==> Leaves(ts, r.rest)
    decreases |ts|, 4
  {
    if ts[0] == OpTok(Close) then ArgsDone([], ts[1..]) else ArgsAt(ts)
  }

  /** One argument, and the others after it. */
  function ArgsAt(ts: seq<Token>): (r: ParsedArgs)
    requires Closed(ts)
    ensures r.ArgsDone? ==> Leaves(ts, r.rest)
    decreases |ts|, 4, 0
  {
    match ExprAt(ts, 0)
    case Done(arg, rest) => MoreArgs([arg], rest)
    case Fail => ArgsFail
  }

  /** The arguments after those in `args`. */
  function MoreArgs(args: seq<Node>, ts: seq<Token>): (r: ParsedArgs)
    requires Closed(ts)
    ensures r.ArgsDone? ==> Leaves(ts, r.rest)
    decreases |ts|, 4
  {
    if ts[0] == OpTok(Close) then ArgsDone(args, ts[1..])
    else if ts[0] != OpTok(Comma) then ArgsFail
    else
      match ExprAt(ts[1..], 0)
      case Done(arg, rest) => MoreArgs(args + [arg], rest)
      case Fail => ArgsFail
  }

  /** A whole token list: one expression, and nothing after it. */
  function ParseTokens(ts: seq<Token>): Result<Node>
    requires Closed(ts)
  {
    match ExprAt(ts, 0)
    case Done(node, rest) => if rest[0] == End then Ok(node) else Err
    case Fail => Err
  }

  // ---- the text around it ----------------------------------------------------------------

  function LStrip(s: string): (r: string)
    ensures |r| <= |s|
  {
    if s != [] && IsSpace(s[0]) then LStrip(s[1..]) else s
  }

  function RStrip(s: string): (r: string)
    ensures |r| <= |s|
  {
    if s != [] && IsSpace(s[|s| - 1]) then RStrip(s[..|s| - 1]) else s
  }

  function Strip(s: string): string {
    RStrip(LStrip(s))
  }

  /** Whether a doubled brace `cc` occurs anywhere in `s`. */
  predicate HasDouble(s: string, c: char) {
    exists k :: 0 <= k < |s| - 1 && s[k] == c && s[k + 1] == c
  }

  predicate Wrapped(s: string) {
    && 4 <= |s|
    && s[0] == '{' && s[1] == '{'
    && s[|s| - 2] == '}' && s[|s| - 1] == '}'
  }

  function Unwrap(s: string): string
    requires Wrapped(s)
  {
    s[2..|s| - 2]
  }

  function Inner(text: string): string {
    var raw := Strip(text);
    if Wrapped(raw) then Strip(Unwrap(raw)) else raw
  }

  /** The meaning of a text: its tree, or a malformed expression. */
  function ParseText(text: string): Result<Node> {
    ParseInner(Inner(text))
  }

  function ParseInner(inner: string): Result<Node> {
    if HasDouble(inner, '{') || HasDouble(inner, '}') || inner == [] then Err
    else
      match Lex(inner)
      case Ok(ts) => ParseTokens(ts)
      case Err => Err
  }

  // ---- the algorithm ---------------------------------------------------------------------

  class TokenParser {
    const toks: seq<Token>
    var pos: nat

    ghost predicate Valid()
      reads this
    {
      pos < |toks| && Closed(toks)
    }

    constructor (toks: seq<Token>)
      requires Closed(toks)
      ensures Valid() && this.toks == toks && pos == 0
    {
      this.toks := toks;
      pos := 0;
    }

    /** The tokens not yet consumed. */
    ghost function Remaining(): (ts: seq<Token>)
      requires Valid()
      reads this
      ensures Closed(ts)
    {
      toks[pos..]
    }

    /** The parser returned what `p` says and stands where `p` says. */
    ghost predicate Yields(r: Result<Node>, p: Parsed)
      reads this
    {
      match p
      case Done(node, rest) => r == Ok(node) && Valid() && Remaining() == rest
      case Fail => r.Err?
    }

    method Next() returns (t: Token)
      requires Valid() && Remaining()[0] != End
      modifies this
      ensures Valid()
      ensures t == old(Remaining())[0] && Remaining() == old(Remaining())[1..]
    {
      t := toks[pos];
      pos := pos + 1;
    }

    method ParseExpr(minPrec: nat) returns (r: Result<Node>)
      requires Valid()
      modifies this
      ensures Yields(r, old(ExprAt(Remaining(), minPrec)))
      decreases |toks| - pos, 3
    {
      ghost var goal := ExprAt(Remaining(), minPrec);
      r := ParseUnary();
      if r.Err? {
        return;
      }
      var left := r.value;
      while true
        invariant Valid() && pos > old(pos)
        invariant goal == Climb(left, Remaining(), minPrec)
        decreases |toks| - pos
      {
        var op := BinOpOf(toks[pos]);
        ghost var here := Remaining();
        if op.None? || Precedence(op.value) < minPrec {
          return Ok(left);
        }
        ghost var operand := ExprAt(here[1..], Precedence(op.value) + 1);
        ClimbOver(left, here, minPrec, op.value, operand);
        var _ := Next();
        var right := ParseExpr(Precedence(op.value) + 1);
        if right.Err? {
          return Err;
        }
        left := Binary(op.value, left, right.value);
      }
    }

    method ParseUnary() returns (r: Result<Node>)
      requires Valid()
      modifies this
      ensures Yields(r, old(UnaryAt(Remaining())))
      decreases |toks| - pos, 2
    {
      var uop := UnOpOf(toks[pos]);
      if uop.Some? {
        var _ := Next();
        r := ParseUnary();
        if r.Ok? {
          r := Ok(Unary(uop.value, r.value));
        }
      } else {
        r := ParsePrimary();
      }
    }

    method ParsePrimary() returns (r: Result<Node>)
      requires Valid()
      modifies this
      ensures Yields(r, old(PrimaryAt(Remaining())))
      decreases |toks| - pos, 1
    {
      if toks[pos] == End {
        return Err;
      }
      var t := Next();
      match t {
        case NumTok(value) =>
          r := Ok(Literal(value));
        case StrTok(text) =>
          r := Ok(Literal(Str(text)));
        case OpTok(symbol) =>
          if symbol != Open {
            return Err;
          }
          r := ParseExpr(0);
          if r.Ok? {
            if toks[pos] != OpTok(Close) {
              return Err;
            }
            var _ := Next();
          }
        case Ident(name) =>
          var literal := KeywordLiteral(name);
          if literal.Some? {
            r := Ok(Literal(literal.value));
          } else if toks[pos] == OpTok(Open) {
            r := ParseCall(name);
          } else {
            r := ParseRef(name);
          }
      }
    }

    method ParseRef(first: string) returns (r: Result<Node>)
      requires Valid()
      modifies this
      ensures Yields(r, old(RefFrom([first], Remaining())))
      ensures r.Ok? ==> pos >= old(pos)
    {
      ghost var goal := RefFrom([first], Remaining());
      var path := [first];
      while toks[pos] == OpTok(Dot)
        invariant Valid() && pos >= old(pos)
        invariant goal == RefFrom(path, Remaining())
        decreases |toks| - pos
      {
        RefStep(path, Remaining());
        var _ := Next();
        if !toks[pos].Ident? {
          return Err;
        }
        var t := Next();
        path := path + [t.name];
      }
      assert path + [] == path;
      return Ok(Ref(path));
    }

    method ParseCall(name: string) returns (r: Result<Node>)
      requires Valid() && Remaining()[0] == OpTok(Open)
      modifies this
      ensures r.Ok? ==> Valid() && pos > old(pos)
      ensures match CallArgsAt(old(Remaining())[1..])
              case ArgsDone(args, rest) => r == Ok(Call(name, args)) && Remaining() == rest
              case ArgsFail => r.Err?
      decreases |toks| - pos, 0
    {
      hide ExprAt;
      var _ := Next();
      ghost var start := Remaining();
      var args: seq<Node> := [];
      if toks[pos] != OpTok(Close) {
        var arg := ParseExpr(0);
        if arg.Err? {
          return Err;
        }
        args := [arg.value];
        while toks[pos] == OpTok(Comma)
          invariant Valid() && pos > old(pos) + 1
          invariant CallArgsAt(start) == MoreArgs(args, Remaining())
          decreases |toks| - pos
        {
          var _ := Next();
          arg := ParseExpr(0);
          if arg.Err? {
            return Err;
          }
          args := args + [arg.value];
        }
      }
      if toks[pos] != OpTok(Close) {
        return Err;
      }
      var _ := Next();
      return Ok(Call(name, args));
    }

    method Parse() returns (r: Result<Node>)
      requires Valid() && pos == 0
      modifies this
      ensures r == ParseTokens(toks)
    {
      assert toks[0..] == toks;
      r := ParseExpr(0);
      if r.Ok? && toks[pos] != End {
        r := Err;
      }
    }
  }

  /** `parse`: strip, unwrap the optional braces, tokenize, parse. */
  method Parse(text: string) returns (r: Result<Node>)
    ensures r == ParseText(text)
  {
    var inner := Strip(text);
    if Wrapped(inner) {
      inner := Strip(Unwrap(inner));
    }
    if HasDouble(inner, '{') || HasDouble(inner, '}') {
      return Err;
    }
    if inner == [] {
      return Err;
    }
    var toks := Tokenize(inner);
    if toks.Err? {
      return Err;
    }
    var parser := new TokenParser(toks.value);
    r := parser.Parse();
  }
}
