/** Decimal coercion: a value that fits the declared precision and scale is kept at exactly that scale. */
module Decimals {
  import opened Wrappers
  import opened Lexer

  /** A finite decimal as it is spelled: `(-1)^negative * coefficient * 10^exponent`. */
  datatype Decimal = Decimal(negative: bool, coefficient: nat, exponent: int)

  /** The arithmetic context's precision: no result may have more digits. */
  const CONTEXT_DIGITS: nat := 28

  function Digits(n: nat): (d: nat)
    ensures d >= 1
  {
    if n < 10 then 1 else 1 + Digits(n / 10)
  }

  /** Shift the coefficient so that the exponent becomes `-scale`; refused beyond the context. */
  function Quantize(d: Decimal, scale: nat): Result<Decimal>
    requires d.exponent + scale >= 0
  {
    var coefficient := d.coefficient * Pow10(d.exponent + scale);
    if Digits(coefficient) > CONTEXT_DIGITS then Err else Ok(Decimal(d.negative, coefficient, -(scale as int)))
  }

  function AsDecimal(d: Decimal, precision: nat, scale: nat): Result<Decimal> {
    if -d.exponent > scale then Err
    else if Digits(d.coefficient) + scale + d.exponent > precision then Err
    else Quantize(d, scale)
  }

  /** The coefficient of the same number written at exponent `-scale`. */
  function Scaled(d: Decimal, scale: nat): nat
    requires d.exponent + scale >= 0
  {
    d.coefficient * Pow10(d.exponent + scale)
  }

  lemma {:induction false} DigitsBound(n: nat, k: nat)
    requires k >= 1
    ensures Digits(n) <= k <==> n < Pow10(k)
  {
    assert Pow10(k) == 10 * Pow10(k - 1);
    if n >= 10 {
      if k > 1 {
        DigitsBound(n / 10, k - 1);
      }
    }
  }

  lemma {:induction false} DigitsShift(n: nat, k: nat)
    requires n > 0
    ensures Digits(n * Pow10(k)) == Digits(n) + k
  {
    if k > 0 {
      var m := n * Pow10(k - 1);
      DigitsShift(n, k - 1);
      TimesTen(n, Pow10(k - 1));
      assert m >= 1 by { Positive(n, Pow10(k - 1)); }
    }
  }

  lemma TimesTen(n: nat, p: nat)
    ensures n * (10 * p) == 10 * (n * p)
  {
  }

  lemma Positive(a: nat, b: nat)
    requires a > 0 && b > 0
    ensures a * b > 0
  {
  }

  /** An accepted value comes back exactly: same sign, same number, at the declared scale. */
  lemma AcceptedExactly(d: Decimal, precision: nat, scale: nat)
    requires AsDecimal(d, precision, scale).Ok?
    ensures d.exponent + scale >= 0
    ensures AsDecimal(d, precision, scale).value == Decimal(d.negative, Scaled(d, scale), -(scale as int))
    ensures 1 <= precision && scale <= precision ==> Scaled(d, scale) < Pow10(precision)
  {
    hide Digits, Pow10;
    if 1 <= precision {
      DigitsBound(Scaled(d, scale), precision);
      if d.coefficient > 0 {
        DigitsShift(d.coefficient, d.exponent + scale);
      } else {
        assert Scaled(d, scale) == 0;
      }
    }
  }

  /** A nonzero value is refused exactly when it is spelled with too many places or is too large. */
  lemma RefusedExactly(d: Decimal, precision: nat, scale: nat)
    requires d.coefficient > 0 && 1 <= precision <= CONTEXT_DIGITS
    ensures AsDecimal(d, precision, scale).Err? <==>
            -d.exponent > scale || Scaled(d, scale) >= Pow10(precision)
  {
    if -d.exponent <= scale {
      DigitsShift(d.coefficient, d.exponent + scale);
      DigitsBound(Scaled(d, scale), precision);
    }
  }

  /** A zero is refused for its spelling alone: its one digit still counts against the places the
      scale leaves, so a type with none before the point refuses zero written without any. */
  lemma ZeroRefusedExactly(negative: bool, exponent: int, precision: nat, scale: nat)
    requires 1 <= precision <= CONTEXT_DIGITS
    ensures AsDecimal(Decimal(negative, 0, exponent), precision, scale).Err? <==>
            -exponent > scale || scale + exponent >= precision
  {
  }

  /** Beyond the context's precision the declared precision no longer decides: what is accepted is
      also limited to the context's digits. */
  lemma WidePrecision(d: Decimal, precision: nat, scale: nat)
    requires d.coefficient > 0 && precision > CONTEXT_DIGITS
    ensures AsDecimal(d, precision, scale).Err? <==>
            -d.exponent > scale || Scaled(d, scale) >= Pow10(CONTEXT_DIGITS)
  {
    if -d.exponent <= scale {
      DigitsShift(d.coefficient, d.exponent + scale);
      DigitsBound(Scaled(d, scale), CONTEXT_DIGITS);
    }
  }

  /** Coercing a coerced value returns it. */
  lemma CoercedAgain(d: Decimal, precision: nat, scale: nat)
    requires AsDecimal(d, precision, scale).Ok?
    ensures AsDecimal(AsDecimal(d, precision, scale).value, precision, scale) == AsDecimal(d, precision, scale)
  {
    var out := AsDecimal(d, precision, scale).value;
    if d.coefficient > 0 {
      DigitsShift(d.coefficient, d.exponent + scale);
    }
    assert Pow10(0) == 1 && Scaled(out, scale) == out.coefficient;
  }

  /** A number and its negation are accepted alike. */
  lemma SignAside(d: Decimal, precision: nat, scale: nat)
    ensures var other := Decimal(!d.negative, d.coefficient, d.exponent);
            AsDecimal(other, precision, scale) ==
              match AsDecimal(d, precision, scale)
              case Ok(out) => Ok(Decimal(!out.negative, out.coefficient, out.exponent))
              case Err => Err
  {
  }

  /** The number a decimal held at scale `scale` stands for. */
  function ToReal(d: Decimal, scale: nat): real {
    var magnitude := d.coefficient as real / Pow10(scale) as real;
    if d.negative then -magnitude else magnitude
  }
}
