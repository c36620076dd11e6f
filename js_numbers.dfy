/**
 * The views of a JavaScript number that the shot calculator depends on: its
 * comparison with the power cap, the digits `toString` prints after the point
 * (read back by `parseInt` for the sort key), and `Math.round(p * 100)`.
 */
module JsNumbers {

  /** One decimal digit of a printed number. */
  type Digit = d: int | 0 <= d <= 9

  /**
   * A power as the calculator sees it. A finite power is given by the digits
   * `toString` prints: the integer part and the digits after the point
   * (`frac == []` when no point is printed). The power formula never yields a
   * negative number, but it yields NaN for 0 / 0 and Infinity for a division
   * of a positive number by zero.
   */
  datatype PowerValue = Finite(whole: nat, frac: seq<Digit>) | NaN | Infinity

  function Pow10(n: nat): (p: nat)
    ensures p >= 1
  {
    if n == 0 then 1 else 10 * Pow10(n - 1)
  }

  /** The value of the digits after the point, 0.d0 d1 d2 ... */
  function FracValue(frac: seq<Digit>): (v: real)
    ensures 0.0 <= v < 1.0
  {
    if frac == [] then 0.0 else (frac[0] as real + FracValue(frac[1..])) / 10.0
  }

  /** The number a finite power stands for. */
  function Value(p: PowerValue): (v: real)
    requires p.Finite?
    ensures p.whole as real <= v < p.whole as real + 1.0
  {
    p.whole as real + FracValue(p.frac)
  }

  /** JavaScript's `p < 100`, which is false for NaN and for Infinity. */
  predicate BelowCap(p: PowerValue)
  {
    p.Finite? && Value(p) < 100.0
  }

  /** A power is below the cap exactly when it is finite with an integer part below 100. */
  lemma BelowCapByWholePart(p: PowerValue)
    ensures BelowCap(p) <==> p.Finite? && p.whole < 100
  {
  }

  /** `parseInt` of a non-empty string of decimal digits; leading zeros are allowed. */
  function ParseDigits(ds: seq<Digit>): (n: nat)
    ensures n < Pow10(|ds|)
  {
    if ds == [] then 0 else ParseDigits(ds[..|ds| - 1]) * 10 + ds[|ds| - 1]
  }

  /**
   * The sort key of a power with digits after the point:
   * `parseInt(p.toString().split('.')[1].slice(0, 3))`, the integer spelled by
   * the first up to three digits after the point.
   */
  function FractionKey(frac: seq<Digit>): (k: nat)
    requires frac != []
    ensures k < 1000
  {
    var n := if |frac| < 3 then |frac| else 3;
    assert Pow10(1) == 10 && Pow10(2) == 100 && Pow10(3) == 1000;
    ParseDigits(frac[..n])
  }

  /** With three or more digits the key is the fraction scaled by 1000 and truncated. */
  lemma FractionKeyOfLongFraction(frac: seq<Digit>)
    requires |frac| >= 3
    ensures FractionKey(frac) as real <= FracValue(frac) * 1000.0 < FractionKey(frac) as real + 1.0
  {
    var t := frac[..3];
    assert t[..2][..1] == frac[..1] && t[..2] == frac[..2];
    assert ParseDigits(t) == (frac[0] as int * 10 + frac[1]) * 10 + frac[2] by {
      assert ParseDigits(frac[..1]) == frac[0] by {
        assert frac[..1][..0] == [];
      }
    }
    FracValueFirstDigits(frac);
  }

  /**
   * The key is the integer the first up to three digits after the point spell:
   * those digits read as a fraction and scaled by 10, 100 or 1000, according
   * to how many there are. With one or two digits that is the whole fraction
   * scaled by 10 or 100, not by 1000.
   */
  lemma FractionKeyScalesLeadingDigits(frac: seq<Digit>)
    requires frac != []
    ensures |frac| == 1 ==> FractionKey(frac) as real == FracValue(frac) * 10.0
    ensures |frac| == 2 ==> FractionKey(frac) as real == FracValue(frac) * 100.0
    ensures |frac| >= 3 ==> FractionKey(frac) as real == FracValue(frac[..3]) * 1000.0
  {
    var n := if |frac| < 3 then |frac| else 3;
    var t := frac[..n];
    assert FractionKey(frac) == ParseDigits(t);
    if n == 1 {
      KeyOfOneDigit(t);
    } else if n == 2 {
      KeyOfTwoDigits(t);
    } else {
      KeyOfThreeDigits(t);
    }
    if |frac| < 3 {
      assert t == frac;
    }
  }

  lemma KeyOfOneDigit(t: seq<Digit>)
    requires |t| == 1
    ensures ParseDigits(t) as real == FracValue(t) * 10.0
  {
    assert t[..0] == [] && t[1..] == [];
  }

  lemma KeyOfTwoDigits(t: seq<Digit>)
    requires |t| == 2
    ensures ParseDigits(t) as real == FracValue(t) * 100.0
  {
    KeyOfOneDigit(t[..1]);
    KeyOfOneDigit(t[1..]);
    assert t[..|t| - 1] == t[..1];
    assert FracValue(t) == (t[0] as real + FracValue(t[1..])) / 10.0;
  }

  lemma KeyOfThreeDigits(t: seq<Digit>)
    requires |t| == 3
    ensures ParseDigits(t) as real == FracValue(t) * 1000.0
  {
    KeyOfTwoDigits(t[..2]);
    assert t[..|t| - 1] == t[..2];
    assert t[..2][..1] == t[..1] && t[..1][..0] == [];
    FracValueFirstDigits(t);
    assert DropThree(t) == [];
  }

  /**
   * With fewer than three digits the key is not the fraction scaled by 1000:
   * the power 12.5 has the key 5, not 500.
   */
  lemma HalfHasKeyFive()
    ensures FractionKey([5]) == 5
    ensures FracValue([5]) * 1000.0 == 500.0
  {
    assert [5][..1][..0] == [];
  }

  /** Digit `i` after the point, 0 past the printed digits. */
  function DigitAt(frac: seq<Digit>, i: nat): Digit
  {
    if i < |frac| then frac[i] else 0
  }

  /** The digits after the third one. */
  function DropThree(frac: seq<Digit>): seq<Digit>
  {
    if |frac| <= 3 then [] else frac[3..]
  }

  /** The fraction scaled by 1000 is its first three digits plus what follows them. */
  lemma FracValueFirstDigits(frac: seq<Digit>)
    ensures FracValue(frac) * 1000.0
      == (100 * DigitAt(frac, 0) + 10 * DigitAt(frac, 1) + DigitAt(frac, 2)) as real + FracValue(DropThree(frac))
  {
    if |frac| == 0 {
    } else if |frac| == 1 {
      assert frac[1..] == [];
    } else if |frac| == 2 {
      assert frac[1..][1..] == [];
    } else {
      var f1, f2 := frac[1..], frac[1..][1..];
      assert f2[1..] == DropThree(frac);
      assert FracValue(frac) == (frac[0] as real + FracValue(f1)) / 10.0;
      assert FracValue(f1) == (frac[1] as real + FracValue(f2)) / 10.0;
      assert FracValue(f2) == (frac[2] as real + FracValue(DropThree(frac))) / 10.0;
    }
  }

  /**
   * `Math.round(p * 100)` on the printed digits, as a number of hundredths:
   * the nearest integer to `100 * p`, halves rounded up. The calculator
   * reports this count divided by 100.
   */
  function RoundToHundredths(p: PowerValue): (h: nat)
    requires p.Finite?
    ensures h as real <= Value(p) * 100.0 + 0.5 < h as real + 1.0
    ensures Value(p) - 0.005 < h as real / 100.0 <= Value(p) + 0.005
  {
    FracValueFirstDigits(p.frac);
    p.whole * 100 + 10 * DigitAt(p.frac, 0) + DigitAt(p.frac, 1) + if DigitAt(p.frac, 2) >= 5 then 1 else 0
  }
}
