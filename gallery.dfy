/** The public before/after gallery of the home page: the image list it fetches, the notices
    and cards it renders, the reveal-on-scroll flags, and the decorative circles. */
module Gallery {
  import opened Wrappers
  import opened Strings
  import opened ClinicalImagesService
  import opened ControlImagesPage
  import opened Mulberry32

  /** The SWR key: the stripped base, interpolated, and the image list path. */
  function ListUrl(env: Option<string>): (r: string)
    ensures r == Interpolate(ApiBaseUrl(env)) + "/api/v1/clinical-images"
  {
    Interpolate(ApiBaseUrl(env)) + "/api/v1/clinical-images"
  }

  /** The gallery reads the very list the administration page manages. */
  lemma ListUrlIsEndpoint(env: Option<string>)
    ensures ListUrl(env) == List(env)
  {
  }

  /** `getImageUrl`: an absolute path as is, otherwise under the stripped base's storage. */
  function CardImageUrl(env: Option<string>, path: string): (r: string)
    ensures StartsWith(path, "http") ==> r == path
    ensures !StartsWith(path, "http") ==> r == Interpolate(ApiBaseUrl(env)) + "/storage/" + path
  {
    ImageUrl(Interpolate(ApiBaseUrl(env)), path)
  }

  /** Trailing slashes on the variable do not change any image URL. */
  lemma CardImageUrlSlashes(base: string, k: nat, path: string)
    requires base == [] || base[|base| - 1] != '/'
    ensures CardImageUrl(Some(base + seq(k, _ => '/')), path) == CardImageUrl(Some(base), path)
  {
    TrailingSlashesIgnored(base, k);
    TrailingSlashesIgnored(base, 0);
    assert base + seq(0, _ => '/') == base;
  }

  /** The three hover gradients. */
  const Gradients: seq<string> := ["from-emerald-400 to-blue-500", "from-blue-400 to-emerald-500",
                                   "from-emerald-500 to-blue-400"]

  function Gradient(index: nat): (g: string)
    ensures g in Gradients
  {
    Gradients[index % |Gradients|]
  }

  /** The gradient cycles with period three, and neighbouring cards never share one. */
  lemma GradientCycles(index: nat)
    ensures Gradient(index + 3) == Gradient(index)
    ensures Gradient(index + 1) != Gradient(index)
  {
    var a, b, c := Gradients[0], Gradients[1], Gradients[2];
    assert a[5] == 'e' && b[5] == 'b' && c[5] == 'e';
    assert a[13] == '4' && c[13] == '5';
  }

  /** The `visible` array after `setVisible(images.map(() => false))`: one flag per image,
      all down. */
  function Hidden(n: nat): (r: seq<bool>)
    ensures |r| == n && forall i :: 0 <= i < n ==> !r[i]
  {
    seq(n, _ => false)
  }

  /** `prev.map((v, i) => (i === idx ? true : v))`. */
  function Reveal(vs: seq<bool>, idx: int): (r: seq<bool>)
    ensures |r| == |vs|
    ensures 0 <= idx < |vs| ==> r[idx]
    ensures forall i :: 0 <= i < |vs| && i != idx ==> r[i] == vs[i]
  {
    seq(|vs|, i requires 0 <= i < |vs| => if i == idx then true else vs[i])
  }

  /** Revealing is idempotent, and the order in which cards scroll into view does not matter. */
  lemma RevealOrder(vs: seq<bool>, a: int, b: int)
    ensures Reveal(Reveal(vs, a), a) == Reveal(vs, a)
    ensures Reveal(Reveal(vs, a), b) == Reveal(Reveal(vs, b), a)
  {
  }

  /** A flag once raised stays raised; an index outside the cards changes nothing. */
  lemma RevealMonotone(vs: seq<bool>, idx: int)
    ensures forall i :: 0 <= i < |vs| && vs[i] ==> Reveal(vs, idx)[i]
    ensures !(0 <= idx < |vs|) ==> Reveal(vs, idx) == vs
  {
  }

  /** The component's `visible` state. */
  class Visibility {
    var visible: seq<bool>

    constructor()
      ensures visible == []
    {
      visible := [];
    }

    /** The effect on `images`: any loaded list, even an empty one, resets the flags. */
    method OnImages(images: Option<seq<ClinicalImage>>)
      modifies this
      ensures images.Some? ==> visible == Hidden(|images.value|)
      ensures images.None? ==> visible == old(visible)
    {
      if images.Some? {
        visible := Hidden(|images.value|);
      }
    }

    /** The observer callback for one entry: only an intersecting card is revealed. */
    method OnIntersect(idx: int, isIntersecting: bool)
      modifies this
      ensures visible == if isIntersecting then Reveal(old(visible), idx) else old(visible)
    {
      if isIntersecting {
        visible := Reveal(visible, idx);
      }
    }
  }

  /** What `useSWR` reports. */
  datatype Swr = Swr(data: Option<seq<ClinicalImage>>, error: bool, isLoading: bool)

  /** The four independent blocks under the header. */
  datatype Notices = Notices(loading: bool, failed: bool, empty: bool, grid: bool)

  function NoticesOf(s: Swr): (n: Notices)
    ensures n.loading == s.isLoading && n.failed == s.error
    ensures n.empty <==> s.data.Some? && |s.data.value| == 0
    ensures n.grid <==> s.data.Some? && |s.data.value| > 0
    ensures !(n.empty && n.grid)
  {
    Notices(s.isLoading, s.error, s.data.Some? && |s.data.value| == 0,
            s.data.Some? && |s.data.value| > 0)
  }

  /** One card of the grid. `description` is what is shown under the title, when anything. */
  datatype Card = Card(gradient: string, shown: bool, delayMs: int, title: string,
                       description: Option<string>, beforeSrc: string, beforeAlt: string,
                       afterSrc: string, afterAlt: string)

  /** `item.description && …`: neither null nor the empty string. */
  function ShownDescription(d: Option<string>): (r: Option<string>)
    ensures r.Some? <==> d.Some? && d.value != ""
    ensures r.Some? ==> r == d
  {
    if d.Some? && d.value != "" then d else None
  }

  function CardOf(env: Option<string>, visible: seq<bool>, index: nat, item: ClinicalImage): Card {
    Card(Gradient(index), index < |visible| && visible[index], index * 150, item.title,
         ShownDescription(item.description),
         CardImageUrl(env, item.beforeImage), "Antes - " + item.title,
         CardImageUrl(env, item.afterImage), "Despu\U{00E9}s - " + item.title)
  }

  /** The grid: one card per image, in order. */
  function Cards(env: Option<string>, visible: seq<bool>, images: seq<ClinicalImage>): (r: seq<Card>)
    ensures |r| == |images|
    ensures forall i :: 0 <= i < |images| ==> r[i] == CardOf(env, visible, i, images[i])
  {
    seq(|images|, i requires 0 <= i < |images| => CardOf(env, visible, i, images[i]))
  }

  /** Card `i` shows image `i`'s pictures, takes the `i mod 3` gradient, waits 150 ms per
      card before it, and is faded in exactly when its flag is up; a freshly loaded list shows
      every card faded out. */
  lemma CardsFaithful(env: Option<string>, visible: seq<bool>, images: seq<ClinicalImage>, i: int)
    requires 0 <= i < |images|
    ensures var c := Cards(env, visible, images)[i];
      c.gradient == Gradients[i % 3] && c.delayMs == 150 * i
      && c.beforeSrc == CardImageUrl(env, images[i].beforeImage)
      && c.afterSrc == CardImageUrl(env, images[i].afterImage)
      && (c.shown <==> i < |visible| && visible[i])
    ensures !Cards(env, Hidden(|images|), images)[i].shown
  {
  }

  /** The circles behind the gallery: eight of them from seed 456789, `rand() * 80 + 20`
      pixels across. */
  function FloatCircles(): seq<Style> {
    Styles(456789, 8, 80.0, 20.0)
  }

  /** Each circle is 20 to 100 pixels across and placed inside the section. */
  lemma FloatCirclesBounds(i: int)
    requires 0 <= i < 8
    ensures |FloatCircles()| == 8
    ensures 20.0 <= FloatCircles()[i].size < 100.0
    ensures 0.0 <= FloatCircles()[i].left < 100.0 && 0.0 <= FloatCircles()[i].top < 100.0
  {
    StyleBounds(456789, 8, 80.0, 20.0, i);
  }
}
