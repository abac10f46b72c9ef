/** Doubles, each in one form only. */
module Floats {

  /** A sign, a whole mantissa and a binary exponent; an infinity; or a NaN. */
  datatype FloatForm =
    | Finite(negative: bool, mantissa: nat, exponent: int)
    | Infinity(negative: bool)
    | NaN
  {
    /** A binary64 value with its mantissa scaled up as far as it goes (the sign
        also tells the two zeros apart). */
    predicate IsDouble() {
      Finite? ==>
        && mantissa < 0x20_0000_0000_0000 && -1074 <= exponent <= 971
        && (exponent == -1074 || mantissa >= 0x10_0000_0000_0000)
    }
  }

  type PyFloat = f: FloatForm | f.IsDouble() witness NaN

  function Power2(e: int): real
    decreases if e < 0 then -e else e
  {
    if e == 0 then 1.0 else if e > 0 then 2.0 * Power2(e - 1) else Power2(e + 1) / 2.0
  }

  function Magnitude(f: FloatForm): real
    requires f.Finite?
  {
    (f.mantissa as real) * Power2(f.exponent)
  }

  function FloatValue(f: FloatForm): real
    requires f.Finite?
  {
    if f.negative then -Magnitude(f) else Magnitude(f)
  }

  lemma {:induction false} Power2Positive(e: int)
    ensures 0.0 < Power2(e)
    decreases if e < 0 then -e else e
  {
    if e != 0 {
      Power2Positive(if e < 0 then e + 1 else e - 1);
    }
  }

  lemma {:induction false} Power2Grows(e: int, n: nat)
    ensures n > 0 ==> 2.0 * Power2(e) <= Power2(e + n)
    decreases n
  {
    if n > 0 {
      Power2Positive(e);
      Power2Grows(e, n - 1);
      assert Power2(e + n) == 2.0 * Power2(e + n - 1);
    }
  }

  lemma MulGrows(x: real, y: real, p: real)
    requires x <= y && 0.0 < p
    ensures x * p <= y * p && (x < y ==> x * p < y * p)
  {
  }

  lemma MantissaBounds(m: nat)
    ensures m < 0x20_0000_0000_0000 <==> m as real < 9007199254740992.0
    ensures m >= 0x10_0000_0000_0000 <==> m as real >= 4503599627370496.0
  {
  }

  lemma Outgrows(x: real, p: real, y: real, q: real)
    requires x < 9007199254740992.0 && 4503599627370496.0 <= y && 0.0 < p && 2.0 * p <= q
    ensures x * p < y * q
  {
    MulGrows(x, 9007199254740992.0, p);
    MulGrows(4503599627370496.0, y, q);
  }

  /** A double with the larger exponent has the larger magnitude. */
  lemma ExponentDecides(a: PyFloat, b: PyFloat)
    requires a.Finite? && b.Finite? && a.exponent < b.exponent
    ensures Magnitude(a) < Magnitude(b)
  {
    hide Power2;
    Power2Positive(a.exponent);
    Power2Grows(a.exponent, b.exponent - a.exponent);
    assert a.exponent + (b.exponent - a.exponent) == b.exponent;
    MantissaBounds(a.mantissa);
    MantissaBounds(b.mantissa);
    Outgrows(a.mantissa as real, Power2(a.exponent), b.mantissa as real, Power2(b.exponent));
  }

  /** Two doubles are the same number exactly when they are the same double or
      both are zero: no number has two forms. */
  lemma OneForm(a: PyFloat, b: PyFloat)
    requires a.Finite? && b.Finite?
    ensures FloatValue(a) == FloatValue(b) <==> a == b || (a.mantissa == 0 && b.mantissa == 0)
  {
    Power2Positive(a.exponent);
    Power2Positive(b.exponent);
    MulGrows(0.0, a.mantissa as real, Power2(a.exponent));
    MulGrows(0.0, b.mantissa as real, Power2(b.exponent));
    if a.exponent < b.exponent {
      ExponentDecides(a, b);
    } else if b.exponent < a.exponent {
      ExponentDecides(b, a);
    } else if a.mantissa < b.mantissa {
      MulGrows(a.mantissa as real, b.mantissa as real, Power2(a.exponent));
    } else if b.mantissa < a.mantissa {
      MulGrows(b.mantissa as real, a.mantissa as real, Power2(a.exponent));
    }
  }
}
