/** The parser and the rendering are inverse to each other. */
module RoundTrip {
  import opened Wrappers
  import opened Values
  import opened ExprAst
  import opened Lexer
  import opened Parser
  import opened Rendering

  // ---- parsing tokens back ---------------------------------------------------------------

  /** What may follow an operand: the end, a closing delimiter, or a binary operator. */
  predicate Follows(ts: seq<Token>) {
    Closed(ts) && (ts[0] in {End, OpTok(Close), OpTok(Comma)} || BinOpOf(ts[0]).Some?)
  }

  /** No operator of `ts` would be taken at a level tighter than `level`. */
  predicate BindsAtMost(ts: seq<Token>, level: nat)
    requires Closed(ts)
  {
    BinOpOf(ts[0]).Some? ==> Precedence(BinOpOf(ts[0]).value) <= level
  }

  predicate Bare(node: Node, level: nat) {
    node.Binary? && Precedence(node.op) >= level
  }

  lemma SymbolIsOperator(op: BinOp)
    ensures BinOpOf(OpTok(SymbolOf(op))) == Some(op)
  {
  }

  lemma LiteralReads(value: Value, rest: seq<Token>)
    requires LiteralSpellable(value) && Closed(rest)
    ensures UnaryAt([LiteralToken(value)] + rest) == Done(Literal(value), rest)
  {
    assert ([LiteralToken(value)] + rest)[1..] == rest;
  }

  lemma RefStep(name: string, ts: seq<Token>, path: seq<string>, rest: seq<Token>)
    requires Closed(ts) && ts[0] == Ident(name) && KeywordLiteral(name).None? && ts[1] != OpTok(Open)
    requires PathAt(ts[1..]) == PathDone(path, rest)
    ensures UnaryAt(ts) == Done(Ref([name] + path), rest)
  {
  }

  lemma HeadAndTail(path: seq<string>)
    requires path != []
    ensures [path[0]] + path[1..] == path
  {
  }

  /** The tokens of a path, seen from its head. */
  lemma PathSplits(path: seq<string>, rest: seq<Token>)
    requires path != [] && Closed(rest)
    ensures var ts := PathTokens(path) + rest;
      Closed(ts) && ts[0] == Ident(path[0]) && ts[1..] == DottedTokens(path[1..]) + rest
  {
    hide DottedTokens;
    var ts := PathTokens(path) + rest;
    assert ts == [Ident(path[0])] + (DottedTokens(path[1..]) + rest);
  }

  lemma RefReads(path: seq<string>, rest: seq<Token>)
    requires path != [] && IsHead(path[0]) && Follows(rest)
    ensures UnaryAt(PathTokens(path) + rest) == Done(Ref(path), rest)
  {
    hide UnaryAt, PathAt, DottedTokens, PathTokens, Spelling;
    PathSplits(path, rest);
    PathReads(path[1..], rest);
    DottedNotOpen(path[1..], rest);
    RefStep(path[0], PathTokens(path) + rest, path[1..], rest);
    HeadAndTail(path);
  }

  lemma ParenReads(ts: seq<Token>, node: Node, rest: seq<Token>)
    requires Closed(ts) && ts[0] == OpTok(Open) && Closed(rest)
    requires ExprAt(ts[1..], 0) == Done(node, [OpTok(Close)] + rest)
    ensures UnaryAt(ts) == Done(node, rest)
  {
    assert ([OpTok(Close)] + rest)[1..] == rest;
  }

  lemma PrefixReads(ts: seq<Token>, uop: UnOp, operand: Node, rest: seq<Token>)
    requires Closed(ts) && UnOpOf(ts[0]) == Some(uop) && UnaryAt(ts[1..]) == Done(operand, rest)
    ensures UnaryAt(ts) == Done(Unary(uop, operand), rest)
  {
  }

  lemma CallTokens(node: Node, level: nat, rest: seq<Token>)
    requires node.Call?
    ensures Tokens(node, level) + rest
         == [Ident(node.name), OpTok(Open)] + (ArgTokens(node.args) + ([OpTok(Close)] + rest))
  {
  }

  lemma PrefixTokens(node: Node, level: nat, rest: seq<Token>)
    requires node.Unary?
    ensures Tokens(node, level) + rest
         == [OpTok(if node.uop.Not? then Bang else Minus)] + (Tokens(node.operand, UNARY_LEVEL) + rest)
  {
  }

  lemma ParenTokens(node: Node, level: nat, rest: seq<Token>)
    requires node.Binary? && !Bare(node, level)
    ensures Tokens(node, level) + rest == [OpTok(Open)] + (Tokens(node, 0) + ([OpTok(Close)] + rest))
  {
  }

  /** An operand is read whole, and nothing after it. */
  lemma {:induction false} UnaryReads(node: Node, level: nat, rest: seq<Token>)
    requires WellFormed(node) && Follows(rest) && !Bare(node, level)
    ensures UnaryAt(Tokens(node, level) + rest) == Done(node, rest)
    decreases node, 1
  {
    var ts := Tokens(node, level) + rest;
    match node
    case Literal(value) =>
      LiteralReads(value, rest);
    case Ref(path) =>
      RefReads(path, rest);
    case Call(_, _) =>
      CallReads(node, rest);
      CallTokens(node, level, rest);
    case Unary(uop, operand) =>
      PrefixTokens(node, level, rest);
      UnaryReads(operand, UNARY_LEVEL, rest);
      PrefixReads(ts, uop, operand, rest);
    case Binary(_, _, _) =>
      ParenTokens(node, level, rest);
      ExprReads(node, 0, [OpTok(Close)] + rest, 0);
      ParenReads(ts, node, rest);
  }

  lemma DottedNotOpen(path: seq<string>, rest: seq<Token>)
    requires Follows(rest)
    ensures (DottedTokens(path) + rest)[0] != OpTok(Open)
  {
  }

  /** One more dotted name. */
  lemma PathStep(name: string, ts: seq<Token>, path: seq<string>, rest: seq<Token>)
    requires Closed(ts) && |ts| > 2 && ts[0] == OpTok(Dot) && ts[1] == Ident(name)
    requires PathAt(ts[2..]) == PathDone(path, rest)
    ensures PathAt(ts) == PathDone([name] + path, rest)
  {
  }

  lemma TwoAhead(a: Token, b: Token, mid: seq<Token>, rest: seq<Token>)
    requires Closed(rest)
    ensures var ts := [a, b] + mid + rest;
      Closed(ts) && |ts| > 2 && ts[0] == a && ts[1] == b && ts[2..] == mid + rest
  {
  }

  /** The tokens of further names, seen from the first. */
  lemma DottedSplits(path: seq<string>, rest: seq<Token>)
    requires path != [] && Closed(rest)
    ensures var ts := DottedTokens(path) + rest;
      && Closed(ts) && |ts| > 2 && ts[0] == OpTok(Dot) && ts[1] == Ident(path[0])
      && ts[2..] == DottedTokens(path[1..]) + rest
  {
    hide Closed;
    TwoAhead(OpTok(Dot), Ident(path[0]), DottedTokens(path[1..]), rest);
  }

  lemma {:induction false} PathReads(path: seq<string>, rest: seq<Token>)
    requires Follows(rest)
    ensures PathAt(DottedTokens(path) + rest) == PathDone(path, rest)
  {
    if path == [] {
      assert DottedTokens(path) + rest == rest;
    } else {
      hide PathAt, DottedTokens;
      DottedSplits(path, rest);
      PathReads(path[1..], rest);
      PathStep(path[0], DottedTokens(path) + rest, path[1..], rest);
      HeadAndTail(path);
    }
  }

  lemma {:induction false} CallReads(call: Node, rest: seq<Token>)
    requires WellFormed(call) && call.Call? && Closed(rest)
    ensures UnaryAt([Ident(call.name), OpTok(Open)] + (ArgTokens(call.args) + ([OpTok(Close)] + rest)))
         == Done(call, rest)
    decreases call, 0, 1
  {
    var args := ArgTokens(call.args) + ([OpTok(Close)] + rest);
    var ts := [Ident(call.name), OpTok(Open)] + args;
    assert ts[2..] == args;
    CallArgsRead(call, rest);
  }

  lemma {:induction false} CallArgsRead(call: Node, rest: seq<Token>)
    requires WellFormed(call) && call.Call? && Closed(rest)
    ensures CallArgsAt(ArgTokens(call.args) + ([OpTok(Close)] + rest)) == ArgsDone(call.args, rest)
    decreases call, 0, 0
  {
    var tail := [OpTok(Close)] + rest;
    assert tail[1..] == rest;
    var ts := ArgTokens(call.args) + tail;
    if call.args == [] {
      assert ts == tail;
    } else {
      var more := MoreArgTokens(call.args[1..]) + tail;
      assert ts == Tokens(call.args[0], 0) + more;
      TokensNotClose(call.args[0], 0, more);
      ExprReads(call.args[0], 0, more, 0);
      assert call.args[..1] == [call.args[0]];
      MoreArgsRead(call, 1, rest);
    }
  }

  lemma {:induction false} TokensNotClose(node: Node, level: nat, rest: seq<Token>)
    requires WellFormed(node)
    ensures (Tokens(node, level) + rest)[0] != OpTok(Close)
  {
    if Bare(node, level) {
      var p := Precedence(node.op);
      var tail := [OpTok(SymbolOf(node.op))] + Tokens(node.right, p + 1) + rest;
      assert Tokens(node, level) + rest == Tokens(node.left, p) + tail;
      TokensNotClose(node.left, p, tail);
    }
  }

  lemma {:induction false} MoreArgsRead(call: Node, k: nat, rest: seq<Token>)
    requires WellFormed(call) && call.Call? && Closed(rest) && 1 <= k <= |call.args|
    ensures MoreArgs(call.args[..k], MoreArgTokens(call.args[k..]) + ([OpTok(Close)] + rest))
         == ArgsDone(call.args, rest)
    decreases call, 0, 0, |call.args| - k
  {
    hide MoreArgs, Tokens, MoreArgTokens, ExprAt;
    var tail := [OpTok(Close)] + rest;
    if k == |call.args| {
      NoMoreArgs(call.args, tail);
      NoMoreTokens(call.args[k..], tail);
      assert call.args[..k] == call.args;
      assert tail[1..] == rest;
    } else {
      var arg := call.args[k];
      var more := MoreArgTokens(call.args[k + 1..]) + tail;
      MoreArgsShape(call.args, k, tail);
      MoreFollows(call.args[k + 1..], tail);
      ExprReads(arg, 0, more, 0);
      NextArg(call.args[..k], Tokens(arg, 0) + more, arg, more);
      assert call.args[..k] + [arg] == call.args[..k + 1];
      MoreArgsRead(call, k + 1, rest);
    }
  }

  lemma MoreFollows(args: seq<Node>, tail: seq<Token>)
    requires Closed(tail) && tail[0] == OpTok(Close)
    ensures Follows(MoreArgTokens(args) + tail) && BindsAtMost(MoreArgTokens(args) + tail, 0)
  {
  }

  lemma NoMoreTokens(args: seq<Node>, tail: seq<Token>)
    requires args == []
    ensures MoreArgTokens(args) + tail == tail
  {
  }

  lemma MoreArgsShape(args: seq<Node>, k: nat, tail: seq<Token>)
    requires k < |args|
    ensures MoreArgTokens(args[k..]) + tail
         == [OpTok(Comma)] + (Tokens(args[k], 0) + (MoreArgTokens(args[k + 1..]) + tail))
  {
    assert args[k..][1..] == args[k + 1..];
  }

  lemma NoMoreArgs(args: seq<Node>, ts: seq<Token>)
    requires Closed(ts) && ts[0] == OpTok(Close) && |ts| > 1
    ensures MoreArgs(args, ts) == ArgsDone(args, ts[1..])
  {
  }

  lemma NextArg(args: seq<Node>, ts: seq<Token>, arg: Node, rest: seq<Token>)
    requires Closed(ts) && ExprAt(ts, 0) == Done(arg, rest)
    ensures MoreArgs(args, [OpTok(Comma)] + ts) == MoreArgs(args + [arg], rest)
  {
    assert ([OpTok(Comma)] + ts)[1..] == ts;
  }

  /** Written at `level` and read at any looser level, a tree becomes the left operand of whatever
      follows it. */
  /** A binary node that needs no parentheses, seen from its operator. */
  lemma BareSplits(node: Node, level: nat, rest: seq<Token>)
    requires Bare(node, level)
    ensures var p := Precedence(node.op);
      Tokens(node, level) + rest
      == Tokens(node.left, p) + ([OpTok(SymbolOf(node.op))] + (Tokens(node.right, p + 1) + rest))
  {
  }

  lemma FollowsIsClosed(rest: seq<Token>)
    requires Follows(rest)
    ensures Closed(rest)
  {
  }

  /** An operator may follow an operand, and binds no tighter than itself. */
  lemma OperatorFollows(op: BinOp, right: seq<Token>)
    requires Closed(right)
    ensures var tail := [OpTok(SymbolOf(op))] + right;
      && Follows(tail) && BindsAtMost(tail, Precedence(op)) && tail[1..] == right
      && BinOpOf(tail[0]) == Some(op)
  {
    SymbolIsOperator(op);
  }

  lemma {:induction false} ClimbsFrom(node: Node, level: nat, rest: seq<Token>, minPrec: nat)
    requires WellFormed(node) && Follows(rest) && BindsAtMost(rest, level) && minPrec <= level
    ensures ExprAt(Tokens(node, level) + rest, minPrec) == Climb(node, rest, minPrec)
    decreases node, if Bare(node, level) then 0 else 2, 0
  {
    if !Bare(node, level) {
      UnaryReads(node, level, rest);
    } else {
      hide Tokens, ExprAt, Climb, Follows, BinOpOf;
      var op, p := node.op, Precedence(node.op);
      var right := Tokens(node.right, p + 1) + rest;
      var tail := [OpTok(SymbolOf(op))] + right;
      BareSplits(node, level, rest);
      assert Closed(right) by { FollowsIsClosed(rest); }
      OperatorFollows(op, right);
      ClimbsFrom(node.left, p, tail, minPrec);
      ExprReads(node.right, p + 1, rest, p + 1);
      ClimbOver(node.left, tail, minPrec, op, Done(node.right, rest));
    }
  }

  lemma {:induction false} ExprReads(node: Node, level: nat, rest: seq<Token>, minPrec: nat)
    requires WellFormed(node) && Follows(rest) && BindsAtMost(rest, level) && minPrec <= level
    requires BinOpOf(rest[0]).Some? ==> Precedence(BinOpOf(rest[0]).value) < minPrec
    ensures ExprAt(Tokens(node, level) + rest, minPrec) == Done(node, rest)
    decreases node, if Bare(node, level) then 0 else 2, 1
  {
    ClimbsFrom(node, level, rest, minPrec);
  }

  lemma TokensRoundTrip(node: Node)
    requires WellFormed(node)
    ensures ParseTokens(Tokens(node, 0) + [End]) == Ok(node)
  {
    ExprReads(node, 0, [End], 0);
  }
}
