/** `mulberry32`, the seeded generator that scatters the decorative circles of the home gallery
    and the login screen, and the `Array.from` loop that draws them.

    The generator keeps its seed in a JavaScript number that grows by 0x6d2b79f5 on every
    call; each call reads the seed through the 32-bit operators only, so what it returns
    depends on the seed modulo 2^32. Words are modelled as naturals below 2^32 with the
    bitwise operators written out bit by bit. */
module Mulberry32 {

  const Golden: nat := 0x6d2b79f5
  const Two32: nat := 0x1_0000_0000

  function Pow2(n: nat): (r: nat)
    ensures r >= 1
  {
    if n == 0 then 1 else 2 * Pow2(n - 1)
  }

  lemma Pow32()
    ensures Pow2(32) == Two32
  {
    assert Pow2(8) == 256;
    assert Pow2(16) == 65536;
    assert Pow2(24) == 16777216;
  }

  /** `a ^ b` on the low `n` bits. */
  function Xor(a: nat, b: nat, n: nat): (r: nat)
    ensures r < Pow2(n)
  {
    if n == 0 then 0 else (a + b) % 2 + 2 * Xor(a / 2, b / 2, n - 1)
  }

  /** `a | b` on the low `n` bits. */
  function Or(a: nat, b: nat, n: nat): (r: nat)
    ensures r < Pow2(n)
  {
    if n == 0 then 0 else (if a % 2 == 1 || b % 2 == 1 then 1 else 0) + 2 * Or(a / 2, b / 2, n - 1)
  }

  /** `Math.imul`, read back as an unsigned word: the product modulo 2^32. */
  function Imul(a: nat, b: nat): (r: nat)
    ensures r < Two32
  {
    (a * b) % Two32
  }

  /** The word `t` holds after the first `r` of the closure's three statements, starting from
      the advanced seed `t0`; `>>> k` is division by 2^k. */
  function Rounds(t0: nat, r: nat): (w: nat)
    requires t0 < Two32
    ensures w < Two32
  {
    if r == 0 then t0
    else
      var s := Rounds(t0, r - 1);
      Pow32();
      if r == 1 then Imul(Xor(s, s / 32768, 32), Or(s, 1, 32))
      else if r == 2 then Xor(s, (s + Imul(Xor(s, s / 128, 32), Or(s, 61, 32))) % Two32, 32)
      else Xor(s, s / 16384, 32)
  }

  /** What a call returns once the seed has become `x`: the mixed word over 2^32. */
  function Unit(x: int): (r: real)
    ensures 0.0 <= r < 1.0
  {
    Rounds(x % Two32, 3) as real / 4294967296.0
  }

  /** The seed after `k` calls. */
  function SeedAfter(seed: int, k: nat): int {
    seed + k * 0x6d2b79f5
  }

  /** What the first `m` calls of a generator seeded with `seed` return, in order. */
  function Outputs(seed: int, m: nat): (r: seq<real>)
    ensures |r| == m && forall k :: 0 <= k < m ==> r[k] == Unit(SeedAfter(seed, k + 1))
  {
    seq(m, k requires 0 <= k < m => Unit(SeedAfter(seed, k + 1)))
  }

  lemma OutputsSnoc(seed: int, m: nat)
    ensures Outputs(seed, m + 1) == Outputs(seed, m) + [Unit(SeedAfter(seed, m + 1))]
  {
  }

  /** Every call returns a value in [0, 1). */
  lemma OutputsInUnit(seed: int, m: nat)
    ensures forall k :: 0 <= k < m ==> 0.0 <= Outputs(seed, m)[k] < 1.0
  {
  }

  /** The closure `mulberry32(seed)` returns: its captured seed, and the values it has
      returned so far. */
  class Rng {
    ghost const start: int
    var seed: int
    ghost var drawn: seq<real>

    ghost predicate Valid()
      reads this
    {
      seed == SeedAfter(start, |drawn|) && drawn == Outputs(start, |drawn|)
    }

    constructor(seed: int)
      ensures Valid() && start == seed && drawn == []
    {
      this.seed := seed;
      start := seed;
      drawn := [];
    }

    /** One call: the seed advances, and the three statements mix it into the result. */
    method Next() returns (r: real)
      requires Valid()
      modifies this
      ensures Valid()
      ensures seed == old(seed) + Golden
      ensures drawn == old(drawn) + [r]
    {
      seed := seed + Golden;
      var t := seed % Two32;
      Pow32();
      t := Imul(Xor(t, t / 32768, 32), Or(t, 1, 32));
      assert t == Rounds(seed % Two32, 1);
      t := Xor(t, (t + Imul(Xor(t, t / 128, 32), Or(t, 61, 32))) % Two32, 32);
      assert t == Rounds(seed % Two32, 2);
      t := Xor(t, t / 16384, 32);
      r := t as real / 4294967296.0;
      assert r == Unit(seed);
      OutputsSnoc(start, |drawn|);
      drawn := drawn + [r];
    }
  }

  /** The value of the latest call is `Unit` of the seed it left. */
  lemma LatestDraw(g: Rng)
    requires g.Valid() && g.drawn != []
    ensures g.drawn[|g.drawn| - 1] == Unit(g.seed)
  {
  }

  /** A circle's size in pixels and its left and top offsets in percent. */
  datatype Style = Style(size: real, left: real, top: real)

  /** The object the `Array.from` callback builds from its three calls, in the order its
      properties are written: `size: rand() * span + least`, then left, then top. */
  function StyleOf(u: real, v: real, w: real, span: real, least: real): Style {
    Style(u * span + least, v * 100.0, w * 100.0)
  }

  /** Circle `i` is built from the draws 3i, 3i + 1 and 3i + 2. */
  function Layout(draws: seq<real>, n: nat, span: real, least: real): (r: seq<Style>)
    requires 3 * n <= |draws|
    ensures |r| == n
    ensures forall i :: 0 <= i < n ==> r[i] == StyleOf(draws[3 * i], draws[3 * i + 1], draws[3 * i + 2], span, least)
  {
    seq(n, i requires 0 <= i < n => StyleOf(draws[3 * i], draws[3 * i + 1], draws[3 * i + 2], span, least))
  }

  /** `n` circles from a generator seeded with `seed`. */
  function Styles(seed: int, n: nat, span: real, least: real): seq<Style> {
    Layout(Outputs(seed, 3 * n), n, span, least)
  }

  lemma LayoutSnoc(draws: seq<real>, n: nat, span: real, least: real, more: seq<real>)
    requires 3 * n == |draws| && |more| == 3
    ensures Layout(draws + more, n + 1, span, least)
            == Layout(draws, n, span, least) + [StyleOf(more[0], more[1], more[2], span, least)]
  {
    var a := Layout(draws + more, n + 1, span, least);
    var b := Layout(draws, n, span, least) + [StyleOf(more[0], more[1], more[2], span, least)];
    forall i | 0 <= i < n + 1
      ensures a[i] == b[i]
    {
      if i < n {
        assert (draws + more)[3 * i] == draws[3 * i];
        assert (draws + more)[3 * i + 1] == draws[3 * i + 1];
        assert (draws + more)[3 * i + 2] == draws[3 * i + 2];
      } else {
        assert (draws + more)[3 * i] == more[0];
        assert (draws + more)[3 * i + 1] == more[1];
        assert (draws + more)[3 * i + 2] == more[2];
      }
    }
  }

  /** The `useMemo` body: a fresh generator and one callback per circle, three calls each. */
  method FloatStyles(seed: int, n: nat, span: real, least: real) returns (styles: seq<Style>)
    ensures styles == Styles(seed, n, span, least)
  {
    var rand := new Rng(seed);
    styles := [];
    for i := 0 to n
      invariant rand.Valid() && rand.start == seed && |rand.drawn| == 3 * i
      invariant styles == Layout(rand.drawn, i, span, least)
    {
      ghost var before := rand.drawn;
      var size := rand.Next();
      var left := rand.Next();
      var top := rand.Next();
      assert rand.drawn == before + [size, left, top];
      LayoutSnoc(before, i, span, least, [size, left, top]);
      styles := styles + [StyleOf(size, left, top, span, least)];
    }
  }

  /** One draw scaled by `span` and shifted by `least`. */
  lemma DrawBounds(u: real, span: real, least: real)
    requires 0.0 <= u < 1.0 && span > 0.0
    ensures least <= u * span + least < least + span
  {
    assert u * span < span by {
      assert (1.0 - u) * span > 0.0;
    }
  }

  /** With draws in [0, 1), every size lies in [least, least + span) and every offset in
      [0, 100). */
  lemma LayoutBounds(draws: seq<real>, n: nat, span: real, least: real, i: int)
    requires 3 * n <= |draws| && span > 0.0 && 0 <= i < n
    requires forall k :: 0 <= k < |draws| ==> 0.0 <= draws[k] < 1.0
    ensures least <= Layout(draws, n, span, least)[i].size < least + span
    ensures 0.0 <= Layout(draws, n, span, least)[i].left < 100.0
    ensures 0.0 <= Layout(draws, n, span, least)[i].top < 100.0
  {
    DrawBounds(draws[3 * i], span, least);
  }

  /** Every circle a seed produces is within those bounds. */
  lemma StyleBounds(seed: int, n: nat, span: real, least: real, i: int)
    requires span > 0.0 && 0 <= i < n
    ensures least <= Styles(seed, n, span, least)[i].size < least + span
    ensures 0.0 <= Styles(seed, n, span, least)[i].left < 100.0
    ensures 0.0 <= Styles(seed, n, span, least)[i].top < 100.0
  {
    OutputsInUnit(seed, 3 * n);
    LayoutBounds(Outputs(seed, 3 * n), n, span, least, i);
  }

  /** Fewer circles from the same seed are a prefix: each circle depends on its index only. */
  lemma StylesPrefix(seed: int, n: nat, m: nat, span: real, least: real)
    requires m <= n
    ensures Styles(seed, n, span, least)[..m] == Styles(seed, m, span, least)
  {
  }
}
