/** A laid-out token list lexes back to itself, whatever the layout. */
module LexRoundTrip {
  import opened Wrappers
  import opened Values
  import opened Lexer
  import opened Rendering

  // ---- numbers ---------------------------------------------------------------------------

  lemma {:induction false} ParseNatAppend(a: string, b: string)
    requires AllDigits(a) && AllDigits(b)
    ensures ParseNat(a + b) == ParseNat(a) * Pow10(|b|) + ParseNat(b)
  {
    if b == [] {
      assert a + b == a;
    } else {
      var front, last := b[..|b| - 1], b[|b| - 1];
      ParseNatAppend(a, front);
      assert (a + b)[..|a + b| - 1] == a + front;
      assert (a + b)[|a + b| - 1] == last;
      ShiftSum(ParseNat(a), Pow10(|front|), ParseNat(front), DigitOf(last));
    }
  }

  lemma ShiftSum(high: nat, p: nat, low: nat, d: nat)
    ensures 10 * (high * p + low) + d == high * (10 * p) + (10 * low + d)
  {
  }

  lemma {:induction false} NatRoundTrip(n: nat)
    ensures ParseNat(NatToString(n)) == n
  {
    var s := NatToString(n);
    if n < 10 {
      assert s[..0] == [];
    } else {
      NatRoundTrip(n / 10);
      assert s[..|s| - 1] == NatToString(n / 10);
    }
  }

  lemma {:induction false} LastDigitsRoundTrip(n: nat, k: nat)
    ensures ParseNat(LastDigits(n, k)) == n % Pow10(k)
  {
    if k > 0 {
      var s := LastDigits(n, k);
      LastDigitsRoundTrip(n / 10, k - 1);
      assert s[..|s| - 1] == LastDigits(n / 10, k - 1);
      SplitModulus(n, Pow10(k - 1));
    }
  }

  lemma SplitModulus(n: nat, p: nat)
    requires p >= 1
    ensures n % (10 * p) == 10 * (n / 10 % p) + n % 10
  {
    var q := n / 10;
    var a := q / p;
    assert q == a * p + q % p;
    assert n == 10 * q + n % 10;
    assert n == a * (10 * p) + (10 * (q % p) + n % 10);
    var r := 10 * (q % p) + n % 10;
    assert 0 <= r < 10 * p;
    UniqueRemainder(n, 10 * p, a, r);
  }

  lemma UniqueRemainder(n: nat, d: nat, q: nat, r: nat)
    requires d >= 1 && r < d && n == q * d + r
    ensures n % d == r
  {
    var q', r' := n / d, n % d;
    assert n == q' * d + r';
    if q > q' {
      assert q * d >= (q' + 1) * d by { MulMonotone(q' + 1, q, d); }
    } else if q < q' {
      assert q' * d >= (q + 1) * d by { MulMonotone(q + 1, q', d); }
    }
  }

  lemma MulMonotone(a: nat, b: nat, d: nat)
    requires a <= b
    ensures a * d <= b * d
  {
    assert b * d == a * d + (b - a) * d;
  }

  lemma DecimalRoundTrip(r: real)
    requires FiniteDecimal(r)
    ensures NumberOf(DecimalToString(r)) == Ok(Num(DoubleNum, r))
  {
    var s := DecimalToString(r);
    var units: nat, places: nat :|
      && IsDecimalOf(r, units, places)
      && s == NatToString(Quotient(units, Pow10(places))) + "." + LastDigits(units, places);
    var whole, fraction := NatToString(Quotient(units, Pow10(places))), LastDigits(units, places);
    DigitsBack(units, places);
    NumberOfDotted(whole, fraction);
  }

  lemma DigitsBack(units: nat, places: nat)
    ensures ParseNat(NatToString(Quotient(units, Pow10(places))) + LastDigits(units, places)) == units
  {
    var p := Pow10(places);
    var q := Quotient(units, p);
    ParseNatAppend(NatToString(q), LastDigits(units, places));
    NatRoundTrip(q);
    LastDigitsRoundTrip(units, places);
    UniqueRemainder(units, p, q, units - q * p);
  }

  lemma NumberOfDotted(whole: string, fraction: string)
    requires AllDigits(whole) && AllDigits(fraction) && whole != []
    ensures var s := whole + "." + fraction;
            AllNumberChars(s) &&
            NumberOf(s) == Ok(Num(DoubleNum, ParseNat(whole + fraction) as real / Pow10(|fraction|) as real))
  {
    var s := whole + "." + fraction;
    DotAfterDigits(whole, fraction);
    assert s[..|whole|] == whole && s[|whole| + 1..] == fraction;
  }

  lemma DotAfterDigits(whole: string, fraction: string)
    requires AllDigits(whole) && AllDigits(fraction)
    ensures IndexOf(whole + "." + fraction, '.') == |whole|
    ensures '.' !in fraction
  {
    assert '.' !in whole;
    IndexAfter(whole, '.', fraction);
  }

  lemma {:induction false} IndexAfter(a: string, c: char, b: string)
    requires c !in a
    ensures IndexOf(a + [c] + b, c) == |a|
  {
    var s := a + [c] + b;
    if a != [] {
      assert a[0] != c;
      assert s[1..] == a[1..] + [c] + b;
      IndexAfter(a[1..], c, b);
    }
  }

  lemma {:induction false} NoDotInDigits(s: string)
    requires AllDigits(s)
    ensures IndexOf(s, '.') == |s|
  {
    if s != [] {
      NoDotInDigits(s[1..]);
    }
  }

  lemma NumberRoundTrip(v: Value)
    requires NumberSpellable(v)
    ensures var s := Spell(NumTok(v));
            AllNumberChars(s) && IsDigit(s[0]) && NumberOf(s) == Ok(v)
  {
    if v.kind.IntNum? {
      var s := NatToString(v.n.Floor);
      NatRoundTrip(v.n.Floor);
      NoDotInDigits(s);
      assert s[..|s|] == s;
    } else {
      DecimalRoundTrip(v.n);
    }
  }

  // ---- one token -------------------------------------------------------------------------

  lemma {:induction false} SpanAll(a: string, b: string, p: char -> bool)
    requires forall k | 0 <= k < |a| :: p(a[k])
    requires b == [] || !p(b[0])
    ensures SpanLen(a + b, p) == |a|
  {
    if a == [] {
      assert a + b == b;
    } else {
      assert (a + b)[1..] == a[1..] + b;
      SpanAll(a[1..], b, p);
    }
  }

  lemma ScanWord(name: string, after: string)
    requires name != [] && IsWordStart(name[0]) && forall k | 0 <= k < |name| :: IsWordChar(name[k])
    requires after == [] || !IsWordChar(after[0])
    ensures Scan(name + after) == Emit(if name == WORD_OP then OpTok(ContainsSym) else Ident(name), |name|)
  {
    SpanAll(name, after, IsWordChar);
    assert (name + after)[..|name|] == name;
  }

  lemma ScanNumber(v: Value, after: string)
    requires NumberSpellable(v) && (after == [] || !IsNumberChar(after[0]))
    ensures Scan(Spell(NumTok(v)) + after) == Emit(NumTok(v), |Spell(NumTok(v))|)
  {
    var s := Spell(NumTok(v));
    NumberRoundTrip(v);
    SpanAll(s, after, IsNumberChar);
    assert (s + after)[..|s|] == s;
  }

  lemma ScanString(text: string, after: string)
    requires Quotable(text)
    ensures Scan(Spell(StrTok(text)) + after) == Emit(StrTok(text), |text| + 2)
  {
    var quote := if '\'' in text then '"' else '\'';
    var s := [quote] + text + [quote] + after;
    assert Spell(StrTok(text)) + after == s;
    assert s[1..] == text + [quote] + after;
    IndexAfter(text, quote, after);
    assert s[1..][..|text|] == text;
  }

  function PunctIndex(symbol: Symbol): nat {
    match symbol
    case OrSym => 0 case AndSym => 1 case EqSym => 2 case NeSym => 3 case LeSym => 4 case GeSym => 5
    case Open => 6 case Close => 7 case Comma => 8 case Dot => 9 case Bang => 10 case LtSym => 11
    case GtSym => 12 case Plus => 13 case Minus => 14 case Star => 15 case Slash => 16
    case ContainsSym => 17
  }

  lemma PunctIndexed()
    ensures |PUNCT| == 17
    ensures forall k | 0 <= k < 17 :: PunctIndex(PUNCT[k]) == k
    ensures forall symbol | PunctIndex(symbol) < 17 :: PUNCT[PunctIndex(symbol)] == symbol
  {
  }

  /** A spelling tried before `symbol`'s is not a prefix of it with `after` behind it. */
  lemma NotPrefix(symbol: Symbol, after: string, other: Symbol)
    requires PunctIndex(other) < PunctIndex(symbol) < 17 && Separate(OpTok(symbol), after)
    ensures !(Spelling(other) <= Spelling(symbol) + after)
  {
    var s, o := Spelling(symbol) + after, Spelling(other);
    assert s[0] == Spelling(symbol)[0];
    assert |s| > 1 ==> s[1] == if |Spelling(symbol)| > 1 then Spelling(symbol)[1] else after[0];
    PrefixChars(o, s);
  }

  lemma PrefixChars(o: string, s: string)
    ensures o <= s ==> forall k | 0 <= k < |o| :: o[k] == s[k]
  {
  }

  lemma {:induction false} FirstIs(table: seq<Symbol>, s: string, n: nat)
    requires n < |table| && Spelling(table[n]) <= s
    requires forall k | 0 <= k < n :: !(Spelling(table[k]) <= s)
    ensures FirstPrefix(table, s) == Some(table[n])
  {
    if n > 0 {
      FirstIs(table[1..], s, n - 1);
    }
  }

  lemma ScanPunct(symbol: Symbol, after: string)
    requires !symbol.ContainsSym? && Separate(OpTok(symbol), after)
    ensures Scan(Spelling(symbol) + after) == Emit(OpTok(symbol), |Spelling(symbol)|)
  {
    PunctFirst(symbol, after);
    PunctHead(symbol, after);
    ScanFallsThrough(Spelling(symbol) + after);
  }

  predicate StartsPunct(s: string)
    requires s != []
  {
    && !IsSpace(s[0]) && !IsQuote(s[0]) && !IsDigit(s[0]) && !IsWordStart(s[0])
    && (s[0] == '.' && |s| > 1 ==> !IsDigit(s[1]))
  }

  lemma PunctHead(symbol: Symbol, after: string)
    requires !symbol.ContainsSym? && Separate(OpTok(symbol), after)
    ensures StartsPunct(Spelling(symbol) + after)
  {
    var s := Spelling(symbol) + after;
    assert s[0] == Spelling(symbol)[0];
    assert symbol.Dot? && |s| > 1 ==> s[1] == after[0];
  }

  lemma ScanFallsThrough(s: string)
    requires s != [] && StartsPunct(s)
    ensures Scan(s) ==
      match FirstPrefix(PUNCT, s)
      case Some(p) => Emit(OpTok(p), |Spelling(p)|)
      case None => Stuck
  {
  }

  lemma PunctFirst(symbol: Symbol, after: string)
    requires !symbol.ContainsSym? && Separate(OpTok(symbol), after)
    ensures FirstPrefix(PUNCT, Spelling(symbol) + after) == Some(symbol)
  {
    PunctIndexed();
    var table, n := PUNCT, PunctIndex(symbol);
    forall k | 0 <= k < n
      ensures !(Spelling(table[k]) <= Spelling(symbol) + after)
    {
      NotPrefix(symbol, after, table[k]);
    }
    FirstIs(table, Spelling(symbol) + after, n);
  }

  lemma ScanToken(t: Token, after: string)
    requires TokenSpellable(t) && Separate(t, after)
    ensures Scan(Spell(t) + after) == Emit(t, |Spell(t)|)
  {
    match t
    case StrTok(text) => ScanString(text, after);
    case NumTok(v) => ScanNumber(v, after);
    case Ident(name) => ScanWord(name, after);
    case OpTok(symbol) =>
      if symbol.ContainsSym? {
        ScanWord(WORD_OP, after);
      } else {
        ScanPunct(symbol, after);
      }
  }

  // ---- a whole text ----------------------------------------------------------------------

  lemma {:induction false} LexSpaces(gap: string, s: string)
    requires AllSpaces(gap)
    ensures Lex(gap + s) == Lex(s)
  {
    if gap == [] {
      assert gap + s == s;
    } else {
      assert (gap + s)[1..] == gap[1..] + s;
      LexSpaces(gap[1..], s);
    }
  }

  lemma LexToken(t: Token, after: string)
    requires TokenSpellable(t) && Separate(t, after)
    ensures Lex(Spell(t) + after) == Then([t], Lex(after))
  {
    ScanToken(t, after);
    assert (Spell(t) + after)[|Spell(t)|..] == after;
  }

  /** What stands after the first token of a layout does not run into it. */
  lemma SeparateFromRest(ts: seq<Token>, gaps: seq<string>)
    requires IsLayout(ts, gaps) && ts != [] && IsLayout(ts[1..], gaps[1..])
    ensures Separate(ts[0], Laid(ts[1..], gaps[1..]))
  {
    var rest := Laid(ts[1..], gaps[1..]);
    if gaps[1] != [] {
      assert rest[0] == gaps[1][0];
    } else if |ts| > 1 {
      assert Separate(ts[0], Spell(ts[1]));
      assert rest[0] == Spell(ts[1])[0];
    }
  }

  lemma {:induction false} LexLaid(ts: seq<Token>, gaps: seq<string>)
    requires IsLayout(ts, gaps)
    ensures Lex(Laid(ts, gaps)) == Ok(ts + [End])
  {
    if ts == [] {
      LexSpaces(gaps[0], []);
      assert gaps[0] + [] == gaps[0] && ts + [End] == [End];
    } else {
      RestIsLayout(ts, gaps);
      var rest := Laid(ts[1..], gaps[1..]);
      SeparateFromRest(ts, gaps);
      assert Laid(ts, gaps) == gaps[0] + (Spell(ts[0]) + rest);
      hide Lex, Spell, Laid, Separate;
      LexSpaces(gaps[0], Spell(ts[0]) + rest);
      LexToken(ts[0], rest);
      LexLaid(ts[1..], gaps[1..]);
      assert [ts[0]] + (ts[1..] + [End]) == ts + [End];
    }
  }
}
