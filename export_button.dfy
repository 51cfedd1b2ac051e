/** The "Exportar a PDF" button: the captured element becomes one tall image, laid on as many
    A4 pages as it needs, each page showing the next page-height slice of it. The capture
    and PDF libraries are left out; the page arithmetic is modelled on exact reals. */
module ExportButton {
  import opened Wrappers

  /** The least integer at or above `x`. */
  function Ceil(x: real): (r: int)
    ensures (r - 1) as real < x <= r as real
  {
    if x.Floor as real == x then x.Floor else x.Floor + 1
  }

  /** How much of the image is left after `j` pages. */
  function LeftAfter(imgHeight: real, pageHeight: real, j: nat): real {
    imgHeight - (j as real) * pageHeight
  }

  /** The number of pages an image of height `imgHeight` takes: at least one, and otherwise
      the image's height in page heights, rounded up. */
  function PageCount(imgHeight: real, pageHeight: real): (n: nat)
    requires pageHeight > 0.0
    ensures n >= 1
    ensures LeftAfter(imgHeight, pageHeight, n) <= 0.0
    ensures forall j: nat :: 1 <= j < n ==> LeftAfter(imgHeight, pageHeight, j) > 0.0
  {
    var c := Ceil(imgHeight / pageHeight);
    CeilPages(imgHeight, pageHeight, c);
    if c < 1 then 1 else c
  }

  lemma CeilPages(imgHeight: real, pageHeight: real, c: int)
    requires pageHeight > 0.0 && c == Ceil(imgHeight / pageHeight)
    ensures imgHeight - (c as real) * pageHeight <= 0.0
    ensures c < 1 ==> imgHeight - pageHeight <= 0.0
    ensures forall j: nat :: 1 <= j < c ==> LeftAfter(imgHeight, pageHeight, j) > 0.0
  {
    var x := imgHeight / pageHeight;
    assert imgHeight == x * pageHeight;
    forall j: nat | 1 <= j < c
      ensures LeftAfter(imgHeight, pageHeight, j) > 0.0
    {
      assert (j as real) < x;
      assert imgHeight - (j as real) * pageHeight == (x - j as real) * pageHeight;
    }
    assert imgHeight - (c as real) * pageHeight == (x - c as real) * pageHeight;
    assert imgHeight - pageHeight == (x - 1.0) * pageHeight;
  }

  /** The pagination loop: the first page at position 0, then one more page for as long as
      some of the image is left, each placed one page height further up. It returns the
      position of every page added. */
  method Paginate(imgHeight: real, pageHeight: real) returns (positions: seq<real>)
    requires pageHeight > 0.0
    ensures |positions| == PageCount(imgHeight, pageHeight)
    ensures forall k :: 0 <= k < |positions| ==> positions[k] == -(k as real) * pageHeight
  {
    var n := PageCount(imgHeight, pageHeight);
    var heightLeft := imgHeight;
    var position := 0.0;
    positions := [position];
    heightLeft := heightLeft - pageHeight;
    while heightLeft > 0.0
      invariant 1 <= |positions| <= n
      invariant heightLeft == LeftAfter(imgHeight, pageHeight, |positions|)
      invariant forall k :: 0 <= k < |positions| ==> positions[k] == -(k as real) * pageHeight
      decreases n - |positions|
    {
      LeftAfterDecreases(imgHeight, pageHeight, n, |positions|);
      position := heightLeft - imgHeight;
      positions := positions + [position];
      heightLeft := heightLeft - pageHeight;
    }
  }

  /** Every page added leaves less of the image. */
  lemma LeftAfterDecreases(imgHeight: real, pageHeight: real, i: nat, j: nat)
    requires pageHeight > 0.0
    ensures i <= j ==> LeftAfter(imgHeight, pageHeight, j) <= LeftAfter(imgHeight, pageHeight, i)
  {
    assert LeftAfter(imgHeight, pageHeight, j) == LeftAfter(imgHeight, pageHeight, i) - ((j - i) as real) * pageHeight;
  }

  /** The image keeps the canvas's proportions at the page's width. */
  function ImgHeight(canvasHeight: real, canvasWidth: real, pageWidth: real): (h: real)
    requires canvasWidth > 0.0
    ensures h * canvasWidth == canvasHeight * pageWidth
  {
    (canvasHeight * pageWidth) / canvasWidth
  }

  /** A JavaScript number as the height arithmetic can produce it: a finite value, the
      positive infinity of a positive number divided by zero, or the NaN of zero by zero. */
  datatype JsNumber = Finite(v: real) | PosInfinity | NaN

  /** `(canvas.height * pageWidth) / canvas.width` with JavaScript's division, which does
      not throw on a zero divisor. */
  function JsImgHeight(canvasHeight: real, canvasWidth: real, pageWidth: real): (r: JsNumber)
    requires canvasHeight >= 0.0 && canvasWidth >= 0.0 && pageWidth > 0.0
    ensures canvasWidth > 0.0 ==> r == Finite(ImgHeight(canvasHeight, canvasWidth, pageWidth))
    ensures canvasWidth == 0.0 && canvasHeight > 0.0 ==> r == PosInfinity
    ensures canvasWidth == 0.0 && canvasHeight == 0.0 ==> r == NaN
  {
    if canvasWidth > 0.0 then Finite(ImgHeight(canvasHeight, canvasWidth, pageWidth))
    else if canvasHeight * pageWidth > 0.0 then PosInfinity
    else NaN
  }

  /** `heightLeft -= pageHeight`: infinity and NaN absorb the subtraction. */
  function JsMinus(x: JsNumber, pageHeight: real): JsNumber {
    match x
    case Finite(v) => Finite(v - pageHeight)
    case PosInfinity => PosInfinity
    case NaN => NaN
  }

  /** `heightLeft > 0`: false for NaN. */
  predicate JsPositive(x: JsNumber) {
    x.PosInfinity? || (x.Finite? && x.v > 0.0)
  }

  /** `heightLeft` after `j` pages, in JavaScript arithmetic. */
  function JsLeftAfter(imgHeight: JsNumber, pageHeight: real, j: nat): JsNumber {
    if j == 0 then imgHeight else JsMinus(JsLeftAfter(imgHeight, pageHeight, j - 1), pageHeight)
  }

  /** On a finite height JavaScript's arithmetic is the exact one the pagination loop uses. */
  lemma {:induction false} JsLeftAfterFinite(imgHeight: real, pageHeight: real, j: nat)
    ensures JsLeftAfter(Finite(imgHeight), pageHeight, j) == Finite(LeftAfter(imgHeight, pageHeight, j))
  {
    if j > 0 {
      JsLeftAfterFinite(imgHeight, pageHeight, j - 1);
      assert LeftAfter(imgHeight, pageHeight, j) == LeftAfter(imgHeight, pageHeight, j - 1) - pageHeight;
    }
  }

  lemma {:induction false} InfinityStays(pageHeight: real, j: nat)
    ensures JsLeftAfter(PosInfinity, pageHeight, j) == PosInfinity
  {
    if j > 0 {
      InfinityStays(pageHeight, j - 1);
    }
  }

  /** As written: a canvas of no width and some height makes the image infinitely tall, so
      after every number of pages `heightLeft > 0` still holds and the loop adds pages
      forever. */
  lemma ZeroWidthNeverEnds(canvasHeight: real, pageWidth: real, pageHeight: real)
    requires canvasHeight > 0.0 && pageWidth > 0.0
    ensures JsImgHeight(canvasHeight, 0.0, pageWidth) == PosInfinity
    ensures forall j: nat :: JsPositive(JsLeftAfter(JsImgHeight(canvasHeight, 0.0, pageWidth), pageHeight, j))
  {
    forall j: nat
      ensures JsPositive(JsLeftAfter(JsImgHeight(canvasHeight, 0.0, pageWidth), pageHeight, j))
    {
      InfinityStays(pageHeight, j);
    }
  }

  /** As written: an empty canvas gives a NaN height, which fails `heightLeft > 0`, so a
      single page is added. */
  lemma EmptyCanvasOnePage(pageWidth: real, pageHeight: real)
    requires pageWidth > 0.0
    ensures JsImgHeight(0.0, 0.0, pageWidth) == NaN
    ensures !JsPositive(JsLeftAfter(JsImgHeight(0.0, 0.0, pageWidth), pageHeight, 1))
  {
  }

  /** An image no taller than a page takes one page; each further page height adds one. */
  lemma PageCountSteps(imgHeight: real, pageHeight: real)
    requires pageHeight > 0.0
    ensures imgHeight <= pageHeight ==> PageCount(imgHeight, pageHeight) == 1
    ensures imgHeight > pageHeight ==> PageCount(imgHeight, pageHeight) == PageCount(imgHeight - pageHeight, pageHeight) + 1
  {
    var n := PageCount(imgHeight, pageHeight);
    if imgHeight > pageHeight {
      var m := PageCount(imgHeight - pageHeight, pageHeight);
      assert LeftAfter(imgHeight - pageHeight, pageHeight, m) == LeftAfter(imgHeight, pageHeight, m + 1);
      assert n <= m + 1;
      assert LeftAfter(imgHeight, pageHeight, 1) == imgHeight - pageHeight;
      assert LeftAfter(imgHeight - pageHeight, pageHeight, n - 1) == LeftAfter(imgHeight, pageHeight, n);
      assert n - 1 >= m;
    }
  }

  /** How the capture ends: the canvas and page sizes, or an exception from loading the
      libraries, capturing the element or building the PDF. */
  datatype Capture = Captured(canvasHeight: real, canvasWidth: real, pageWidth: real, pageHeight: real)
                   | CaptureFailed

  const NothingToExport := "No hay contenido para exportar."
  const ExportFailed := "Error al generar el PDF. Int\U{00E9}ntalo de nuevo."

  const DefaultFileName := "historia-clinica.pdf"

  /** The `filename` prop, `"historia-clinica.pdf"` when the caller passes none. */
  function FileName(filename: Option<string>): (r: string)
    ensures filename.Some? ==> r == filename.value
    ensures filename.None? ==> r == DefaultFileName
  {
    match filename
    case Some(f) => f
    case None => DefaultFileName
  }

  const BusyCaption := "Exportando..."
  const IdleCaption := "Exportar a PDF"

  /** The button's caption: the busy text exactly while an export runs, the idle text
      exactly while none does. */
  function Caption(isExporting: bool): (r: string)
    ensures r == BusyCaption <==> isExporting
    ensures r == IdleCaption <==> !isExporting
  {
    if isExporting then BusyCaption else IdleCaption
  }

  class Exporter {
    var isExporting: bool
    /** The alerts shown so far. */
    ghost var alerts: seq<string>

    constructor()
      ensures !isExporting && alerts == []
    {
      isExporting := false;
      alerts := [];
    }

    /** `handleExport`: with no element it alerts and exports nothing; otherwise it returns
        the positions of the pages it adds (none when the capture fails, with an alert) and
        the name the PDF is saved under (None when nothing is saved). The
        busy flag is down again on every path. The button is disabled while an export runs,
        so a new one starts only when none is under way. A canvas without width, on which
        the source's loop never ends (ZeroWidthNeverEnds), is treated here as a failed
        capture: the error alert, and nothing saved. */
    method HandleExport(hasElement: bool, capture: Capture, filename: Option<string>)
      returns (pages: seq<real>, savedAs: Option<string>)
      requires !isExporting
      requires capture.Captured? ==> capture.canvasHeight >= 0.0 && capture.canvasWidth >= 0.0 && capture.pageHeight > 0.0
      modifies this
      ensures !isExporting
      ensures !hasElement ==> pages == [] && savedAs == None && alerts == old(alerts) + [NothingToExport]
      ensures hasElement && (capture.CaptureFailed? || capture.canvasWidth == 0.0) ==>
                pages == [] && savedAs == None && alerts == old(alerts) + [ExportFailed]
      ensures hasElement && capture.Captured? && capture.canvasWidth > 0.0 ==>
                savedAs == Some(FileName(filename)) && alerts == old(alerts)
                && var h := ImgHeight(capture.canvasHeight, capture.canvasWidth, capture.pageWidth);
                   |pages| == PageCount(h, capture.pageHeight)
                   && forall k :: 0 <= k < |pages| ==> pages[k] == -(k as real) * capture.pageHeight
    {
      if !hasElement {
        alerts := alerts + [NothingToExport];
        return [], None;
      }
      isExporting := true;
      if capture.CaptureFailed? || capture.canvasWidth == 0.0 {
        alerts := alerts + [ExportFailed];
        pages, savedAs := [], None;
      } else {
        var imgHeight := ImgHeight(capture.canvasHeight, capture.canvasWidth, capture.pageWidth);
        pages := Paginate(imgHeight, capture.pageHeight);
        savedAs := Some(FileName(filename));
      }
      isExporting := false;
    }
  }
}
