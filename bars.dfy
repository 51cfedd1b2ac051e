/** The arithmetic the income charts share: the largest income (never below 1), each row's
    percentage of it, and the minimum bar height. Incomes are exact reals. */
module Bars {
  import opened Wrappers

  /** `Math.max(...xs, 1)`. */
  function MaxOf(xs: seq<real>): (m: real)
    ensures m >= 1.0
    ensures forall i :: 0 <= i < |xs| ==> xs[i] <= m
    ensures m == 1.0 || exists i :: 0 <= i < |xs| && xs[i] == m
  {
    if xs == [] then 1.0
    else
      var m := MaxOf(xs[..|xs| - 1]);
      assert forall i :: 0 <= i < |xs| - 1 ==> xs[i] == xs[..|xs| - 1][i];
      if xs[|xs| - 1] > m then xs[|xs| - 1] else m
  }

  /** `(x / max) * 100`, with the largest income as `max`. */
  function Percent(x: real, max: real): real
    requires max >= 1.0
  {
    (x / max) * 100.0
  }

  /** With no negative income, every percentage lies between 0 and 100. */
  lemma PercentBounds(xs: seq<real>, i: int)
    requires forall j :: 0 <= j < |xs| ==> xs[j] >= 0.0
    requires 0 <= i < |xs|
    ensures 0.0 <= Percent(xs[i], MaxOf(xs)) <= 100.0
  {
    FractionBounds(xs[i], MaxOf(xs));
  }

  lemma FractionBounds(x: real, m: real)
    requires 0.0 <= x <= m && m >= 1.0
    ensures 0.0 <= Percent(x, m) <= 100.0
  {
  }

  /** The largest row fills the whole bar when it reaches 1. */
  lemma PercentOfMax(xs: seq<real>, i: int)
    requires 0 <= i < |xs| && xs[i] >= 1.0
    requires forall j :: 0 <= j < |xs| ==> xs[j] <= xs[i]
    ensures Percent(xs[i], MaxOf(xs)) == 100.0
  {
    var m := MaxOf(xs);
    assert m == xs[i];
    FractionWhole(m);
  }

  lemma FractionWhole(m: real)
    requires m >= 1.0
    ensures Percent(m, m) == 100.0
  {
    assert m / m == 1.0;
  }

  /** `Math.max(pct, 2)`. */
  function Height(pct: real): (h: real)
    ensures h >= 2.0 && h >= pct
    ensures h == pct || h == 2.0
  {
    if pct > 2.0 then pct else 2.0
  }

  /** A bar for a row with no negative income is between 2% and 100% tall. */
  lemma HeightBounds(xs: seq<real>, i: int)
    requires forall j :: 0 <= j < |xs| ==> xs[j] >= 0.0
    requires 0 <= i < |xs|
    ensures 2.0 <= Height(Percent(xs[i], MaxOf(xs))) <= 100.0
  {
    PercentBounds(xs, i);
  }

  /** What the cache hands a chart: whether the first request is in flight, whether an error
      is stored, and the data when it is an array (None for anything else). */
  datatype Fetch<T> = Fetch(isLoading: bool, error: bool, data: Option<seq<T>>)

  /** The mount that a chart reaches: data loaded, no error, and an array. */
  predicate HasRows<T>(f: Fetch<T>) {
    !f.isLoading && !f.error && f.data.Some?
  }
}
