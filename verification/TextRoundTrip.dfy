/** From text to tree and back: every layout of a tree parses to that tree, and the trees some text
    parses to are exactly the well-formed ones. */
module TextRoundTrip {
  import opened Wrappers
  import opened ExprAst
  import opened Lexer
  import opened Parser
  import opened Rendering
  import opened RoundTrip
  import opened LexRoundTrip

  // ---- the tokens of a well-formed tree can be spelled -----------------------------------

  ghost predicate TokenSound(t: Token) {
    TokenSpellable(t) && (t.StrTok? ==> BraceFree(t.text))
  }

  ghost predicate AllSound(ts: seq<Token>) {
    forall k | 0 <= k < |ts| :: ts[k] == End || TokenSound(ts[k])
  }

  ghost predicate AllSpellable(ts: seq<Token>) {
    forall k | 0 <= k < |ts| :: TokenSound(ts[k])
  }

  lemma SpellableJoins(a: seq<Token>, b: seq<Token>)
    requires AllSpellable(a) && AllSpellable(b)
    ensures AllSpellable(a + b)
  {
    hide TokenSound;
  }

  lemma {:induction false} TreeSpellable(node: Node, level: nat)
    requires WellFormed(node)
    ensures AllSpellable(Tokens(node, level))
    decreases node, 1
  {
    match node
    case Literal(_) =>
    case Ref(path) => DottedSpellable(path[1..]);
    case Call(_, args) =>
      if args != [] {
        TreeSpellable(args[0], 0);
        ArgsSpellable(node, 1);
      }
    case Unary(_, operand) => TreeSpellable(operand, UNARY_LEVEL);
    case Binary(op, left, right) =>
      TreeSpellable(left, Precedence(op));
      TreeSpellable(right, Precedence(op) + 1);
      SpellableJoins(Tokens(left, Precedence(op)), [OpTok(SymbolOf(op))]);
      SpellableJoins(Tokens(left, Precedence(op)) + [OpTok(SymbolOf(op))], Tokens(right, Precedence(op) + 1));
  }

  lemma {:induction false} DottedSpellable(path: seq<string>)
    requires forall k | 0 <= k < |path| :: IsName(path[k])
    ensures AllSpellable(DottedTokens(path))
  {
    if path != [] {
      DottedSpellable(path[1..]);
    }
  }

  lemma {:induction false} ArgsSpellable(call: Node, k: nat)
    requires WellFormed(call) && call.Call? && k <= |call.args|
    ensures AllSpellable(MoreArgTokens(call.args[k..]))
    decreases call, 0, |call.args| - k
  {
    if k < |call.args| {
      TreeSpellable(call.args[k], 0);
      assert call.args[k..][1..] == call.args[k + 1..];
      ArgsSpellable(call, k + 1);
    }
  }

  // ---- no layout looks like a template ---------------------------------------------------

  predicate Plain(c: char) {
    !IsSpace(c) && c != '{' && c != '}'
  }

  /** A spelling starts and ends with a character that is neither white space nor a brace. */
  lemma SpellEnds(t: Token)
    requires TokenSpellable(t)
    ensures var s := Spell(t); Plain(s[0]) && Plain(s[|s| - 1])
  {
    if t.NumTok? {
      NumberRoundTrip(t.value);
      assert IsNumberChar(Spell(t)[0]);
    }
  }

  lemma BraceFreeHasNoDouble(s: string)
    ensures BraceFree(s) <==> !HasDouble(s, '{') && !HasDouble(s, '}')
  {
    if !HasDouble(s, '{') && !HasDouble(s, '}') {
      forall k | 0 <= k < |s| - 1
        ensures !BracePair(s, k)
      {
        assert !(s[k] == '{' && s[k + 1] == '{');
      }
    }
    if BraceFree(s) {
      assert forall k | 0 <= k < |s| - 1 && s[k] == s[k + 1] :: !BracePair(s, k) ==> s[k] != '{' && s[k] != '}';
    }
  }

  lemma JoinBraceFree(a: string, b: string)
    requires BraceFree(a) && BraceFree(b)
    requires b == [] || (b[0] != '{' && b[0] != '}')
    ensures BraceFree(a + b)
  {
    forall k | 0 <= k < |a + b| - 1
      ensures !BracePair(a + b, k)
    {
      if k + 1 < |a| {
        assert !BracePair(a, k);
      } else if k >= |a| {
        assert !BracePair(b, k - |a|);
      }
    }
  }

  lemma NoBraces(s: string)
    requires forall k | 0 <= k < |s| :: s[k] != '{' && s[k] != '}'
    ensures BraceFree(s)
  {
  }

  lemma SpellBraceFree(t: Token)
    requires TokenSound(t)
    ensures BraceFree(Spell(t))
  {
    match t
    case StrTok(text) =>
      var quote := if '\'' in text then "\"" else "'";
      NoBraces(quote);
      assert BraceFree(quote + text) by { QuotedBraceFree(quote[0], text); }
      JoinBraceFree(quote + text, quote);
    case NumTok(v) =>
      NumberRoundTrip(v);
      NoBraces(Spell(t));
    case Ident(name) => NoBraces(name);
    case OpTok(symbol) => NoBraces(Spelling(symbol));
  }

  lemma QuotedBraceFree(quote: char, text: string)
    requires quote != '{' && quote != '}' && BraceFree(text)
    ensures BraceFree([quote] + text)
  {
    var s := [quote] + text;
    forall k | 0 <= k < |s| - 1
      ensures !BracePair(s, k)
    {
      if k > 0 {
        assert !BracePair(text, k - 1);
      }
    }
  }

  lemma {:induction false} LaidBraceFree(ts: seq<Token>, gaps: seq<string>)
    requires IsLayout(ts, gaps) && AllSpellable(ts)
    ensures BraceFree(Laid(ts, gaps))
    ensures Laid(ts, gaps) != [] ==> Laid(ts, gaps)[0] != '{' && Laid(ts, gaps)[0] != '}'
  {
    NoBraces(gaps[0]);
    if ts != [] {
      RestIsLayout(ts, gaps);
      LaidBraceFree(ts[1..], gaps[1..]);
      SpellBraceFree(ts[0]);
      SpellEnds(ts[0]);
      JoinBraceFree(gaps[0], Spell(ts[0]));
      JoinBraceFree(gaps[0] + Spell(ts[0]), Laid(ts[1..], gaps[1..]));
    }
  }

  // ---- white space around ----------------------------------------------------------------

  lemma {:induction false} LStripSpaces(gap: string, s: string)
    requires AllSpaces(gap)
    ensures LStrip(gap + s) == LStrip(s)
  {
    if gap == [] {
      assert gap + s == s;
    } else {
      assert (gap + s)[1..] == gap[1..] + s;
      LStripSpaces(gap[1..], s);
    }
  }

  lemma {:induction false} RStripSpaces(s: string, gap: string)
    requires AllSpaces(gap)
    ensures RStrip(s + gap) == RStrip(s)
  {
    if gap == [] {
      assert s + gap == s;
    } else {
      var front := gap[..|gap| - 1];
      assert (s + gap)[..|s + gap| - 1] == s + front;
      RStripSpaces(s, front);
    }
  }

  lemma StripSpaces(before: string, s: string, after: string)
    requires AllSpaces(before) && AllSpaces(after)
    requires s != [] && !IsSpace(s[0]) && !IsSpace(s[|s| - 1])
    ensures Strip(before + s + after) == s
  {
    assert before + s + after == before + (s + after);
    LStripSpaces(before, s + after);
    assert (s + after)[0] == s[0];
    RStripSpaces(s, after);
  }

  // ---- the round trip --------------------------------------------------------------------

  /** A layout with no white space before the first token or after the last. */
  ghost predicate IsTight(ts: seq<Token>, gaps: seq<string>) {
    IsLayout(ts, gaps) && gaps[0] == [] && gaps[|ts|] == []
  }

  lemma {:induction false} LaidEnds(ts: seq<Token>, gaps: seq<string>)
    requires IsLayout(ts, gaps) && gaps[|ts|] == [] && ts != []
    ensures var s := Laid(ts, gaps); s != [] && Plain(s[|s| - 1]) && (gaps[0] == [] ==> Plain(s[0]))
  {
    RestIsLayout(ts, gaps);
    SpellEnds(ts[0]);
    if |ts| > 1 {
      LaidEnds(ts[1..], gaps[1..]);
    }
  }

  /** A layout reads back as its tree, and nothing would be stripped or unwrapped from it. */
  lemma TightParses(node: Node, gaps: seq<string>)
    requires WellFormed(node) && IsTight(Tokens(node, 0), gaps)
    ensures var s := Laid(Tokens(node, 0), gaps);
      s != [] && !IsSpace(s[0]) && !IsSpace(s[|s| - 1]) && !Wrapped(s) && ParseInner(s) == Ok(node)
  {
    hide Tokens, Laid, Lex, ParseTokens, AllSpellable;
    var ts := Tokens(node, 0);
    LaidEnds(ts, gaps);
    TreeSpellable(node, 0);
    LaidBraceFree(ts, gaps);
    BraceFreeHasNoDouble(Laid(ts, gaps));
    LexLaid(ts, gaps);
    TokensRoundTrip(node);
  }

  /** Every layout of a well-formed tree parses to that tree. */
  lemma LayoutParses(node: Node, gaps: seq<string>, before: string, after: string)
    requires WellFormed(node) && IsTight(Tokens(node, 0), gaps) && AllSpaces(before) && AllSpaces(after)
    ensures ParseText(before + Laid(Tokens(node, 0), gaps) + after) == Ok(node)
  {
    hide Tokens, WellFormed, Laid, ParseInner, Strip, AllSpaces, Wrapped;
    TightParses(node, gaps);
    StripSpaces(before, Laid(Tokens(node, 0), gaps), after);
  }

  /** The braces an effect writes its values in are punctuation around the same language. */
  lemma BracesParse(node: Node, gaps: seq<string>, before: string, after: string, left: string, right: string)
    requires WellFormed(node) && IsTight(Tokens(node, 0), gaps)
    requires AllSpaces(before) && AllSpaces(after) && AllSpaces(left) && AllSpaces(right)
    ensures ParseText(before + ("{{" + (left + Laid(Tokens(node, 0), gaps) + right) + "}}") + after) == Ok(node)
  {
    hide Tokens, WellFormed, Laid, ParseInner, Strip, AllSpaces;
    var body := left + Laid(Tokens(node, 0), gaps) + right;
    var wrapped := "{{" + body + "}}";
    StripSpaces(before, wrapped, after);
    assert Wrapped(wrapped) && Unwrap(wrapped) == body;
    TightParses(node, gaps);
    StripSpaces(left, Laid(Tokens(node, 0), gaps), right);
  }

  // ---- and nothing else parses -----------------------------------------------------------

  lemma SliceBraceFree(s: string, i: nat, j: nat)
    requires i <= j <= |s| && BraceFree(s)
    ensures BraceFree(s[i..j])
  {
    forall k | 0 <= k < j - i - 1
      ensures !BracePair(s[i..j], k)
    {
      assert !BracePair(s, i + k);
    }
  }

  lemma NumberIsSpellable(text: string)
    requires AllNumberChars(text) && NumberOf(text).Ok?
    ensures NumberSpellable(NumberOf(text).value)
  {
    var dot := IndexOf(text, '.');
    if dot < |text| {
      var whole, fraction := text[..dot], text[dot + 1..];
      DottedIsDecimal(ParseNat(whole + fraction), |fraction|);
    }
  }

  lemma DottedIsDecimal(units: nat, places: nat)
    ensures FiniteDecimal(units as real / Pow10(places) as real)
  {
    if places == 0 {
      assert Pow10(1) == 10 * Pow10(0);
      assert IsDecimalOf(units as real / Pow10(places) as real, 10 * units, 1);
    } else {
      assert IsDecimalOf(units as real / Pow10(places) as real, units, places);
    }
  }

  lemma ScanSound(s: string)
    requires s != [] && BraceFree(s) && Scan(s).Emit?
    ensures TokenSound(Scan(s).token)
  {
    var c := s[0];
    if IsQuote(c) {
      var j := IndexOf(s[1..], c);
      assert s[1..][..j] == s[1..1 + j];
      SliceBraceFree(s, 1, 1 + j);
    } else if IsDigit(c) || (c == '.' && 1 < |s| && IsDigit(s[1])) {
      NumberIsSpellable(s[..SpanLen(s, IsNumberChar)]);
    } else if IsWordStart(c) {
      var word := s[..SpanLen(s, IsWordChar)];
      assert forall k | 0 <= k < |word| :: word[k] == s[k];
    }
  }

  lemma {:induction false} LexSound(s: string)
    requires BraceFree(s) && Lex(s).Ok?
    ensures AllSound(Lex(s).value)
  {
    if s != [] {
      match Scan(s)
      case Skip =>
        SliceBraceFree(s, 1, |s|);
        assert s[1..|s|] == s[1..];
        LexSound(s[1..]);
      case Emit(_, length) =>
        ScanSound(s);
        SliceBraceFree(s, length, |s|);
        assert s[length..|s|] == s[length..];
        LexSound(s[length..]);
      case Stuck =>
    }
  }

  ghost predicate SoundParse(p: Parsed) {
    p.Done? ==> WellFormed(p.node) && AllSound(p.rest)
  }

  lemma {:induction false} ExprSound(ts: seq<Token>, minPrec: nat)
    requires Closed(ts) && AllSound(ts)
    ensures SoundParse(ExprAt(ts, minPrec))
    decreases |ts|, 3
  {
    UnarySound(ts);
    if UnaryAt(ts).Done? {
      ClimbSound(UnaryAt(ts).node, UnaryAt(ts).rest, minPrec);
    }
  }

  lemma {:induction false} ClimbSound(left: Node, ts: seq<Token>, minPrec: nat)
    requires Closed(ts) && AllSound(ts) && WellFormed(left)
    ensures SoundParse(Climb(left, ts, minPrec))
    decreases |ts|, 2
  {
    var op := BinOpOf(ts[0]);
    if op.Some? && Precedence(op.value) >= minPrec {
      var right := ExprAt(ts[1..], Precedence(op.value) + 1);
      ExprSound(ts[1..], Precedence(op.value) + 1);
      if right.Done? {
        ClimbSound(Binary(op.value, left, right.node), right.rest, minPrec);
      }
    }
  }

  lemma {:induction false} UnarySound(ts: seq<Token>)
    requires Closed(ts) && AllSound(ts)
    ensures SoundParse(UnaryAt(ts))
    decreases |ts|, 2
  {
    if UnOpOf(ts[0]).Some? {
      UnarySound(ts[1..]);
    } else {
      PrimarySound(ts);
    }
  }

  lemma {:induction false} PrimarySound(ts: seq<Token>)
    requires Closed(ts) && AllSound(ts)
    ensures SoundParse(PrimaryAt(ts))
    decreases |ts|, 1
  {
    match ts[0]
    case NumTok(_) =>
    case StrTok(_) =>
    case OpTok(_) => ExprSound(ts[1..], 0);
    case Ident(name) =>
      if KeywordLiteral(name).None? {
        if ts[1] == OpTok(Open) {
          CallArgsSound(ts[2..]);
        } else {
          PathSound(ts[1..]);
        }
      }
    case End =>
  }

  lemma {:induction false} PathSound(ts: seq<Token>)
    requires Closed(ts) && AllSound(ts)
    ensures PathAt(ts).PathDone? ==>
      AllSound(PathAt(ts).rest) && forall k | 0 <= k < |PathAt(ts).path| :: IsName(PathAt(ts).path[k])
    decreases |ts|
  {
    if ts[0] == OpTok(Dot) && ts[1].Ident? {
      PathSound(ts[2..]);
    }
  }

  ghost predicate SoundArgs(p: ParsedArgs) {
    p.ArgsDone? ==> AllSound(p.rest) && forall k | 0 <= k < |p.args| :: WellFormed(p.args[k])
  }

  lemma {:induction false} CallArgsSound(ts: seq<Token>)
    requires Closed(ts) && AllSound(ts)
    ensures SoundArgs(CallArgsAt(ts))
    decreases |ts|, 4
  {
    if ts[0] != OpTok(Close) {
      ExprSound(ts, 0);
      if ExprAt(ts, 0).Done? {
        MoreArgsSound([ExprAt(ts, 0).node], ExprAt(ts, 0).rest);
      }
    }
  }

  lemma {:induction false} MoreArgsSound(args: seq<Node>, ts: seq<Token>)
    requires Closed(ts) && AllSound(ts) && forall k | 0 <= k < |args| :: WellFormed(args[k])
    ensures SoundArgs(MoreArgs(args, ts))
    decreases |ts|, 4
  {
    if ts[0] == OpTok(Comma) {
      var arg := ExprAt(ts[1..], 0);
      ExprSound(ts[1..], 0);
      if arg.Done? {
        MoreArgsSound(args + [arg.node], arg.rest);
      }
    }
  }

  lemma ParseTokensSound(ts: seq<Token>)
    requires Closed(ts) && AllSound(ts)
    ensures ParseTokens(ts).Ok? ==> WellFormed(ParseTokens(ts).value)
  {
    ExprSound(ts, 0);
  }

  lemma ParseSound(inner: string)
    ensures ParseInner(inner).Ok? ==> WellFormed(ParseInner(inner).value)
  {
    BraceFreeHasNoDouble(inner);
    if BraceFree(inner) && Lex(inner).Ok? {
      LexSound(inner);
      ParseTokensSound(Lex(inner).value);
    }
  }

  /** The layout that puts one space between any two tokens. */
  function OneSpace(n: nat): seq<string> {
    seq(n + 1, k => if k == 0 || k == n then [] else " ")
  }

  /** A tree is the meaning of some text exactly when it is well-formed. */
  lemma ParseableIffWellFormed(node: Node)
    ensures (exists text :: ParseText(text) == Ok(node)) <==> WellFormed(node)
  {
    if text :| ParseText(text) == Ok(node) {
      ParseSound(Inner(text));
    }
    if WellFormed(node) {
      var ts := Tokens(node, 0);
      TreeSpellable(node, 0);
      assert IsTight(ts, OneSpace(|ts|));
      LayoutParses(node, OneSpace(|ts|), [], []);
      assert ParseText([] + Laid(ts, OneSpace(|ts|)) + []) == Ok(node);
    }
  }

  /** Two operators in a row group by the precedence table, and to the left when it does not decide. */
  lemma OperatorsGroup(a: Node, b: Node, c: Node, op1: BinOp, op2: BinOp)
    requires WellFormed(a) && WellFormed(b) && WellFormed(c)
    requires !a.Binary? && !b.Binary? && !c.Binary?
    ensures ParseTokens(Tokens(a, 0) + [OpTok(SymbolOf(op1))] + Tokens(b, 0) + [OpTok(SymbolOf(op2))]
                        + Tokens(c, 0) + [End])
         == Ok(if Precedence(op2) > Precedence(op1)
               then Binary(op1, a, Binary(op2, b, c))
               else Binary(op2, Binary(op1, a, b), c))
  {
    hide Tokens, ParseTokens, WellFormed, Around, SymbolOf, Precedence;
    AroundTwo(Tokens(a, 0), op1, Tokens(b, 0), op2, Tokens(c, 0));
    if Precedence(op2) > Precedence(op1) {
      TokensToTheRight(a, b, c, op1, op2);
      PairWellFormed(op2, b, c);
      PairWellFormed(op1, a, Binary(op2, b, c));
      TokensRoundTrip(Binary(op1, a, Binary(op2, b, c)));
    } else {
      TokensToTheLeft(a, b, c, op1, op2);
      PairWellFormed(op1, a, b);
      PairWellFormed(op2, Binary(op1, a, b), c);
      TokensRoundTrip(Binary(op2, Binary(op1, a, b), c));
    }
  }

  /** Two operands about an operator. */
  function Around(a: seq<Token>, op: BinOp, b: seq<Token>): seq<Token> {
    a + [OpTok(SymbolOf(op))] + b
  }

  lemma TokensToTheRight(a: Node, b: Node, c: Node, op1: BinOp, op2: BinOp)
    requires !a.Binary? && !b.Binary? && !c.Binary? && Precedence(op2) > Precedence(op1)
    ensures Tokens(Binary(op1, a, Binary(op2, b, c)), 0)
         == Around(Tokens(a, 0), op1, Around(Tokens(b, 0), op2, Tokens(c, 0)))
  {
    hide Tokens, SymbolOf, Around, Precedence;
    var p1, p2 := Precedence(op1), Precedence(op2);
    LevelIrrelevant(a, p1);
    LevelIrrelevant(b, p2);
    LevelIrrelevant(c, p2 + 1);
    BareTokens(Binary(op2, b, c), p1 + 1);
    BareTokens(Binary(op1, a, Binary(op2, b, c)), 0);
  }

  lemma TokensToTheLeft(a: Node, b: Node, c: Node, op1: BinOp, op2: BinOp)
    requires !a.Binary? && !b.Binary? && !c.Binary? && Precedence(op2) <= Precedence(op1)
    ensures Tokens(Binary(op2, Binary(op1, a, b), c), 0)
         == Around(Around(Tokens(a, 0), op1, Tokens(b, 0)), op2, Tokens(c, 0))
  {
    hide Tokens, SymbolOf, Around, Precedence;
    var p1, p2 := Precedence(op1), Precedence(op2);
    LevelIrrelevant(a, p1);
    LevelIrrelevant(b, p1 + 1);
    LevelIrrelevant(c, p2 + 1);
    BareTokens(Binary(op1, a, b), p2);
    BareTokens(Binary(op2, Binary(op1, a, b), c), 0);
  }

  lemma AroundTwo(a: seq<Token>, op1: BinOp, b: seq<Token>, op2: BinOp, c: seq<Token>)
    ensures var ts := a + [OpTok(SymbolOf(op1))] + b + [OpTok(SymbolOf(op2))] + c;
      Around(a, op1, Around(b, op2, c)) == ts && Around(Around(a, op1, b), op2, c) == ts
  {
    hide SymbolOf;
  }

  lemma BareTokens(node: Node, level: nat)
    requires Bare(node, level)
    ensures Tokens(node, level)
         == Around(Tokens(node.left, Precedence(node.op)), node.op, Tokens(node.right, Precedence(node.op) + 1))
  {
  }

  lemma PairWellFormed(op: BinOp, left: Node, right: Node)
    requires WellFormed(left) && WellFormed(right)
    ensures WellFormed(Binary(op, left, right))
  {
  }

  lemma LevelIrrelevant(node: Node, level: nat)
    requires !node.Binary?
    ensures Tokens(node, level) == Tokens(node, 0)
  {
  }
}
