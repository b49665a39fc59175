/** The tokenizer of the expression language. Character classes are ASCII. */
module Lexer {
  import opened Wrappers
  import opened Values

  datatype Symbol =
    | OrSym | AndSym | EqSym | NeSym | LeSym | GeSym | Open | Close | Comma | Dot
    | Bang | LtSym | GtSym | Plus | Minus | Star | Slash | ContainsSym

  datatype Token =
    | StrTok(text: string)
    | NumTok(value: Value)
    | Ident(name: string)
    | OpTok(symbol: Symbol)
    | End

  const WORD_OP := "contains"

  function Spelling(symbol: Symbol): (text: string)
    ensures text != []
  {
    match symbol
    case OrSym => "||"
    case AndSym => "&&"
    case EqSym => "=="
    case NeSym => "!="
    case LeSym => "<="
    case GeSym => ">="
    case Open => "("
    case Close => ")"
    case Comma => ","
    case Dot => "."
    case Bang => "!"
    case LtSym => "<"
    case GtSym => ">"
    case Plus => "+"
    case Minus => "-"
    case Star => "*"
    case Slash => "/"
    case ContainsSym => WORD_OP
  }

  /** The punctuation, longest spelling first, in the order it is tried. */
  const PUNCT: seq<Symbol> :=
    [OrSym, AndSym, EqSym, NeSym, LeSym, GeSym, Open, Close, Comma, Dot,
     Bang, LtSym, GtSym, Plus, Minus, Star, Slash]

  predicate IsSpace(c: char) {
    9 <= c as int <= 13 || 28 <= c as int <= 32
  }

  predicate IsDigit(c: char) {
    '0' <= c <= '9'
  }

  predicate IsNumberChar(c: char) {
    IsDigit(c) || c == '.'
  }

  predicate IsWordStart(c: char) {
    'a' <= c <= 'z' || 'A' <= c <= 'Z' || c == '_'
  }

  predicate IsWordChar(c: char) {
    IsWordStart(c) || IsDigit(c)
  }

  predicate IsQuote(c: char) {
    c == '\'' || c == '"'
  }

  // ---- numbers ---------------------------------------------------------------------------

  function DigitOf(c: char): (d: nat)
    requires IsDigit(c)
    ensures d < 10
  {
    c as int - '0' as int
  }

  predicate AllDigits(s: string) {
    forall k | 0 <= k < |s| :: IsDigit(s[k])
  }

  predicate AllNumberChars(s: string) {
    forall k | 0 <= k < |s| :: IsNumberChar(s[k])
  }

  function ParseNat(s: string): nat
    requires AllDigits(s)
  {
    if s == [] then 0 else 10 * ParseNat(s[..|s| - 1]) + DigitOf(s[|s| - 1])
  }

  function Pow10(k: nat): (p: nat)
    ensures p >= 1
  {
    if k == 0 then 1 else 10 * Pow10(k - 1)
  }

  /** The number a run of digits and dots spells: an integer without a dot, a double with exactly
      one dot and a digit, and no number otherwise. */
  function NumberOf(text: string): Result<Value>
    requires AllNumberChars(text)
  {
    var dot := IndexOf(text, '.');
    var whole := text[..dot];
    assert AllDigits(whole) by {
      forall k | 0 <= k < dot ensures IsDigit(whole[k]) { assert whole[k] in whole; }
    }
    if dot == |text| then
      if text == [] then Err else Ok(Num(IntNum, ParseNat(whole) as real))
    else
      var fraction := text[dot + 1..];
      if '.' in fraction || |text| == 1 then Err
      else Ok(Num(DoubleNum, ParseNat(whole + fraction) as real / Pow10(|fraction|) as real))
  }

  // ---- one token -------------------------------------------------------------------------

  /** How many leading characters of `s` satisfy `p`. */
  function SpanLen(s: string, p: char -> bool): (n: nat)
    ensures n <= |s|
    ensures forall k | 0 <= k < n :: p(s[k])
    ensures n < |s| ==> !p(s[n])
  {
    if s != [] && p(s[0]) then 1 + SpanLen(s[1..], p) else 0
  }

  /** Where `c` first occurs in `s`, or the length of `s`. */
  function IndexOf(s: string, c: char): (n: nat)
    ensures n <= |s|
    ensures c !in s[..n]
    ensures n < |s| ==> s[n] == c
  {
    if s == [] || s[0] == c then 0
    else
      assert s[..1 + IndexOf(s[1..], c)] == [s[0]] + s[1..][..IndexOf(s[1..], c)];
      1 + IndexOf(s[1..], c)
  }

  function FirstPrefix(table: seq<Symbol>, s: string): (p: Option<Symbol>)
    ensures p.Some? ==> p.value in table && Spelling(p.value) <= s
    ensures p.None? ==> forall t | t in table :: !(Spelling(t) <= s)
  {
    if table == [] then None
    else if Spelling(table[0]) <= s then Some(table[0])
    else
      assert forall t | t in table :: t == table[0] || t in table[1..];
      FirstPrefix(table[1..], s)
  }

  /** What the tokenizer does at the head of the remaining text. */
  datatype Step = Skip | Emit(token: Token, length: nat) | Stuck

  function Scan(s: string): (step: Step)
    requires s != []
    ensures step.Emit? ==> 1 <= step.length <= |s|
  {
    var c := s[0];
    if IsSpace(c) then Skip
    else if IsQuote(c) then
      var j := IndexOf(s[1..], c);
      if j == |s| - 1 then Stuck else Emit(StrTok(s[1..][..j]), j + 2)
    else if IsDigit(c) || (c == '.' && 1 < |s| && IsDigit(s[1])) then
      var j := SpanLen(s, IsNumberChar);
      match NumberOf(s[..j])
      case Ok(value) => Emit(NumTok(value), j)
      case Err => Stuck
    else if IsWordStart(c) then
      var j := SpanLen(s, IsWordChar);
      var word := s[..j];
      Emit(if word == WORD_OP then OpTok(ContainsSym) else Ident(word), j)
    else
      match FirstPrefix(PUNCT, s)
      case Some(p) => Emit(OpTok(p), |Spelling(p)|)
      case None => Stuck
  }

  /** The tokens of a text: the specification of `Tokenize`. */
  function Lex(s: string): (r: Result<seq<Token>>)
    ensures r.Ok? ==> |r.value| > 0 && r.value[|r.value| - 1] == End
  {
    if s == [] then Ok([End])
    else
      match Scan(s)
      case Skip => Lex(s[1..])
      case Emit(token, length) => Then([token], Lex(s[length..]))
      case Stuck => Err
  }

  /** `tokens` read so far, followed by whatever the rest of the text lexes to. */
  function Then(tokens: seq<Token>, rest: Result<seq<Token>>): Result<seq<Token>> {
    match rest
    case Ok(more) => Ok(tokens + more)
    case Err => Err
  }

  lemma ThenStep(tokens: seq<Token>, token: Token, rest: Result<seq<Token>>)
    ensures Then(tokens, Then([token], rest)) == Then(tokens + [token], rest)
  {
    if rest.Ok? {
      assert tokens + ([token] + rest.value) == (tokens + [token]) + rest.value;
    }
  }

  // ---- the algorithm ---------------------------------------------------------------------

  /** The end of the run of characters satisfying `p` that starts at `i`. */
  method Advance(s: string, i: nat, p: char -> bool) returns (j: nat)
    requires i <= |s|
    ensures j == i + SpanLen(s[i..], p) <= |s|
  {
    j := i;
    while j < |s| && p(s[j])
      invariant i <= j <= |s|
      invariant SpanLen(s[i..], p) == (j - i) + SpanLen(s[j..], p)
    {
      assert s[j..][1..] == s[j + 1..];
      j := j + 1;
    }
  }

  /** The closing quote of a string opened just before `i`, or the end of the text. */
  method FindQuote(s: string, i: nat, quote: char) returns (j: nat)
    requires i <= |s|
    ensures j == i + IndexOf(s[i..], quote) <= |s|
  {
    j := i;
    while j < |s| && s[j] != quote
      invariant i <= j <= |s|
      invariant IndexOf(s[i..], quote) == (j - i) + IndexOf(s[j..], quote)
    {
      assert s[j..][1..] == s[j + 1..];
      j := j + 1;
    }
  }

  method MatchFirst(table: seq<Symbol>, s: string, i: nat) returns (p: Option<Symbol>)
    requires i <= |s|
    ensures p == FirstPrefix(table, s[i..])
  {
    var k := 0;
    while k < |table|
      invariant 0 <= k <= |table|
      invariant FirstPrefix(table, s[i..]) == FirstPrefix(table[k..], s[i..])
    {
      assert table[k..][1..] == table[k + 1..];
      if Spelling(table[k]) <= s[i..] {
        return Some(table[k]);
      }
      k := k + 1;
    }
    return None;
  }

  /** One turn of the tokenizer's loop: what stands at `i`, and how long it is. */
  method ScanAt(s: string, i: nat) returns (step: Step)
    requires i < |s|
    ensures step == Scan(s[i..])
  {
    var c := s[i];
    if IsSpace(c) {
      return Skip;
    }
    if IsQuote(c) {
      var j := FindQuote(s, i + 1, c);
      assert s[i..][1..] == s[i + 1..];
      if j >= |s| {
        return Stuck;
      }
      assert s[i..][1..][..j - (i + 1)] == s[i + 1..j];
      return Emit(StrTok(s[i + 1..j]), j + 1 - i);
    }
    if IsDigit(c) || (c == '.' && i + 1 < |s| && IsDigit(s[i + 1])) {
      var j := Advance(s, i, IsNumberChar);
      assert s[i..][..j - i] == s[i..j];
      var number := NumberOf(s[i..j]);
      return if number.Ok? then Emit(NumTok(number.value), j - i) else Stuck;
    }
    if IsWordStart(c) {
      var j := Advance(s, i, IsWordChar);
      var word := s[i..j];
      assert s[i..][..j - i] == word;
      return Emit(if word == WORD_OP then OpTok(ContainsSym) else Ident(word), j - i);
    }
    var p := MatchFirst(PUNCT, s, i);
    return if p.Some? then Emit(OpTok(p.value), |Spelling(p.value)|) else Stuck;
  }

  /** What the text lexes to from `i` on. */
  lemma LexFrom(s: string, i: nat)
    requires i <= |s|
    ensures Lex(s[i..]) ==
      if i == |s| then Ok([End])
      else
        match Scan(s[i..])
        case Skip => Lex(s[i + 1..])
        case Emit(token, length) => Then([token], Lex(s[i + length..]))
        case Stuck => Err
  {
    hide Scan, Then;
    if i < |s| {
      match Scan(s[i..])
      case Skip => assert s[i..][1..] == s[i + 1..];
      case Emit(_, length) => assert s[i..][length..] == s[i + length..];
      case Stuck =>
    }
  }

  lemma ThenNothing(r: Result<seq<Token>>)
    ensures r == Then([], r)
  {
    if r.Ok? {
      assert [] + r.value == r.value;
    }
  }

  method Tokenize(s: string) returns (r: Result<seq<Token>>)
    ensures r == Lex(s)
  {
    hide Lex, Scan;
    var toks: seq<Token> := [];
    var i := 0;
    assert s[0..] == s;
    ThenNothing(Lex(s));
    while i < |s|
      invariant 0 <= i <= |s|
      invariant Lex(s) == Then(toks, Lex(s[i..]))
    {
      LexFrom(s, i);
      var step := ScanAt(s, i);
      match step {
        case Skip =>
          i := i + 1;
        case Emit(token, length) =>
          ThenStep(toks, token, Lex(s[i + length..]));
          toks := toks + [token];
          i := i + length;
        case Stuck =>
          return Err;
      }
    }
    LexFrom(s, i);
    return Ok(toks + [End]);
  }
}
