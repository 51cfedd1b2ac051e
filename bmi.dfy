/** The body-mass index as the two record forms show it: computed on exact reals, rounded
    to hundredths as `toFixed(2)` does, and classified into eight bands. */
module Bmi {
  import opened Wrappers
  import opened Strings
  import opened Decimal

  /** `weight / (height * height)` rounded half up to hundredths, as an integer count of hundredths. */
  function Hundredths(weight: real, height: real): (h: int)
    requires weight > 0.0 && height > 0.0
    ensures h >= 0
  {
    ((weight / (height * height)) * 100.0 + 0.5).Floor
  }

  /** The band cut-offs in hundredths: 16.0, 17.0, 18.5, 25, 30, 35 and 40. */
  const Cutoffs: seq<int> := [1600, 1700, 1850, 2500, 3000, 3500, 4000]

  const Labels: seq<string> := [
    "Delgadez severa (< 16.0)",
    "Delgadez moderada (16.0\U{2013}16.9)",
    "Delgadez leve (17.0\U{2013}18.4)",
    "Peso normal (18.5\U{2013}24.9)",
    "Sobrepeso (25.0\U{2013}29.9)",
    "Obesidad grado I (30.0\U{2013}34.9)",
    "Obesidad grado II (35.0\U{2013}39.9)",
    "Obesidad grado III (\U{2265} 40)"
  ]

  /** The ternary chain of the status preview, as the index of the label it picks. */
  function Band(h: int): (b: nat)
    ensures b < |Labels|
  {
    if h < 1600 then 0
    else if h < 1700 then 1
    else if h < 1850 then 2
    else if h < 2500 then 3
    else if h < 3000 then 4
    else if h < 3500 then 5
    else if h < 4000 then 6
    else 7
  }

  function BandLabel(h: int): (r: string)
    ensures r == Labels[Band(h)] && r != ""
  {
    LabelsNonEmpty(Band(h));
    Labels[Band(h)]
  }

  lemma LabelsNonEmpty(k: nat)
    requires k < |Labels|
    ensures |Labels[k]| > 0
  {
  }

  /** How many of the cut-offs `cs` the value has reached. */
  function Reached(cs: seq<int>, h: int): (n: nat)
    ensures n <= |cs|
  {
    if cs == [] then 0 else (if cs[0] <= h then 1 else 0) + Reached(cs[1..], h)
  }

  /** The chain picks band k exactly when k cut-offs have been reached: every band is the
      half-open interval [Cutoffs[k-1], Cutoffs[k]). */
  lemma BandIsReached(h: int)
    ensures Band(h) == Reached(Cutoffs, h)
  {
    var c := Cutoffs;
    ReachedCons(4000, [], h);
    ReachedCons(3500, [4000], h);
    ReachedCons(3000, [3500, 4000], h);
    ReachedCons(2500, [3000, 3500, 4000], h);
    ReachedCons(1850, [2500, 3000, 3500, 4000], h);
    ReachedCons(1700, [1850, 2500, 3000, 3500, 4000], h);
    ReachedCons(1600, [1700, 1850, 2500, 3000, 3500, 4000], h);
  }

  lemma ReachedCons(x: int, cs: seq<int>, h: int)
    ensures Reached([x] + cs, h) == (if x <= h then 1 else 0) + Reached(cs, h)
  {
    assert ([x] + cs)[1..] == cs;
  }

  /** Each band is the half-open range between consecutive cut-offs. */
  lemma BandInterval(h: int, k: nat)
    requires k < |Labels|
    ensures Band(h) == k <==> (k == 0 || Cutoffs[k - 1] <= h) && (k == 7 || h < Cutoffs[k])
  {
  }

  /** A larger index never falls in a lower band. */
  lemma BandMonotone(h1: int, h2: int)
    requires h1 <= h2
    ensures Band(h1) <= Band(h2)
  {
  }

  /** The eight labels are pairwise different, so every index names exactly one of them. */
  lemma LabelsDistinct(i: nat, j: nat)
    requires i < |Labels| && j < |Labels| && i != j
    ensures Labels[i] != Labels[j]
  {
    assert |Labels[0]| == 24 && |Labels[1]| == 29 && |Labels[2]| == 25 && |Labels[3]| == 23;
    assert |Labels[4]| == 21 && |Labels[5]| == 28 && |Labels[6]| == 29 && |Labels[7]| == 25;
    assert Labels[1][0] != Labels[6][0];
    assert Labels[2][0] != Labels[7][0];
  }

  /** `String(h / 100)` for a value with at most two decimals: no trailing zeros, no point for a
      whole number. */
  function HundredthsText(h: nat): (r: string)
    ensures |r| >= 1
  {
    var whole := NatToDecimal(h / 100);
    var f := h % 100;
    if f == 0 then whole
    else if f % 10 == 0 then whole + "." + [DigitChar(f / 10)]
    else whole + "." + [DigitChar(f / 10), DigitChar(f % 10)]
  }

  /** The text of the preview reads back, through parseFloat, as the rounded index. */
  lemma HundredthsTextValue(h: nat)
    ensures ParseFloat(HundredthsText(h)) == Some(h as real / 100.0)
  {
    var t := HundredthsText(h);
    assert t[0] == NatToDecimal(h / 100)[0];
    ParseFloatUnsigned(t);
    HundredthsUnsigned(h);
  }

  lemma HundredthsUnsigned(h: nat)
    ensures ParseUnsigned(HundredthsText(h)) == Some(h as real / 100.0)
  {
    Decompose(h);
    if h % 100 == 0 {
      WholeUnsigned(h, h / 100);
    } else if h % 100 % 10 == 0 {
      OneDecimalUnsigned(h, h / 100, h % 100 / 10);
    } else {
      TwoDecimalsUnsigned(h, h / 100, h % 100 / 10, h % 100 % 10);
    }
  }

  /** `toFixed(2)` of `h / 100`: always exactly two decimals. */
  function FixedText(h: nat): (r: string)
    ensures |r| >= 4 && r[|r| - 3] == '.'
  {
    NatToDecimal(h / 100) + "." + [DigitChar(h % 100 / 10), DigitChar(h % 100 % 10)]
  }

  /** The `toFixed(2)` text reads back, through parseFloat, as the rounded index. */
  lemma FixedTextValue(h: nat)
    ensures ParseFloat(FixedText(h)) == Some(h as real / 100.0)
  {
    var t := FixedText(h);
    assert t[0] == NatToDecimal(h / 100)[0];
    ParseFloatUnsigned(t);
    FixedUnsigned(h);
  }

  lemma FixedUnsigned(h: nat)
    ensures ParseUnsigned(FixedText(h)) == Some(h as real / 100.0)
  {
    Decompose(h);
    TwoDecimalsUnsigned(h, h / 100, h % 100 / 10, h % 100 % 10);
  }

  lemma Decompose(h: nat)
    ensures h == 100 * (h / 100) + 10 * (h % 100 / 10) + h % 100 % 10
    ensures h % 100 / 10 < 10 && h % 100 % 10 < 10
  {
  }

  lemma WholeUnsigned(h: nat, w: nat)
    requires h == 100 * w
    ensures ParseUnsigned(NatToDecimal(w)) == Some(h as real / 100.0)
  {
    ParseUnsignedNat(w);
    assert w as real == h as real / 100.0;
  }

  lemma OneDecimalUnsigned(h: nat, w: nat, a: nat)
    requires a < 10 && h == 100 * w + 10 * a
    ensures ParseUnsigned(NatToDecimal(w) + "." + [DigitChar(a)]) == Some(h as real / 100.0)
  {
    OneDigitValue(h, w, a);
    DecimalRoundTrip(w);
    ParseUnsignedFraction(NatToDecimal(w), w, [DigitChar(a)], h as real / 100.0);
  }

  lemma TwoDecimalsUnsigned(h: nat, w: nat, a: nat, b: nat)
    requires a < 10 && b < 10 && h == 100 * w + 10 * a + b
    ensures ParseUnsigned(NatToDecimal(w) + "." + [DigitChar(a), DigitChar(b)]) == Some(h as real / 100.0)
  {
    TwoDigitValue(h, w, a, b);
    DecimalRoundTrip(w);
    ParseUnsignedFraction(NatToDecimal(w), w, [DigitChar(a), DigitChar(b)], h as real / 100.0);
  }

  lemma OneDigitValue(h: nat, w: nat, a: nat)
    requires a < 10 && h == 100 * w + 10 * a
    ensures IsDigits([DigitChar(a)])
    ensures w as real + FractionValue([DigitChar(a)]) == h as real / 100.0
  {
    var fp := [DigitChar(a)];
    assert fp[1..] == [];
  }

  lemma TwoDigitValue(h: nat, w: nat, a: nat, b: nat)
    requires a < 10 && b < 10 && h == 100 * w + 10 * a + b
    ensures IsDigits([DigitChar(a), DigitChar(b)])
    ensures w as real + FractionValue([DigitChar(a), DigitChar(b)]) == h as real / 100.0
  {
    var fp := [DigitChar(a), DigitChar(b)];
    assert fp[1..] == [DigitChar(b)];
    assert fp[1..][1..] == [];
    assert FractionValue(fp[1..]) == b as real / 10.0;
  }

  /** The typical adult example: 50 kg at 1.60 m is 19.53, normal weight. */
  lemma NormalWeightExample()
    ensures Hundredths(50.0, 1.6) == 1953
    ensures BandLabel(1953) == "Peso normal (18.5\U{2013}24.9)"
  {
    assert (50.0 / (1.6 * 1.6)) * 100.0 + 0.5 == 5000.0 / 2.56 + 0.5;
  }
}
