/** PDF to image: renders the first 50 pages of one PDF to PNG images, in page order, and
    names each image's download after the PDF. */
module PdfToImage {
  import opened Files
  import FileNameHelper
  import Decimal

  /** Pages rendered at most. */
  const PageCap: nat := 50

  /** The PNG data URL of a rendered page, as the 1-based page it shows. */
  datatype PageImage = PageImage(page: nat)

  /** The images pushed while visiting pages `1..upTo` in order: one for each page whose
      canvas yields a 2D context (`hasContext`). */
  function Rendered(upTo: nat, hasContext: nat -> bool): (r: seq<PageImage>)
    ensures |r| <= upTo
  {
    if upTo == 0 then []
    else Rendered(upTo - 1, hasContext) + (if hasContext(upTo) then [PageImage(upTo)] else [])
  }

  /** Every image shows a page in `1..upTo` with a context, in increasing page order. */
  predicate PagesInOrder(r: seq<PageImage>, upTo: nat, hasContext: nat -> bool) {
    && (forall i :: 0 <= i < |r| ==> 1 <= r[i].page <= upTo && hasContext(r[i].page))
    && (forall i, j :: 0 <= i < j < |r| ==> r[i].page < r[j].page)
  }

  /** The rendered images are exactly the pages in `1..upTo` with a context, in increasing
      page order. */
  lemma {:induction false} RenderedSpec(upTo: nat, hasContext: nat -> bool)
    ensures PagesInOrder(Rendered(upTo, hasContext), upTo, hasContext)
    ensures forall p :: 1 <= p <= upTo && hasContext(p) ==> PageImage(p) in Rendered(upTo, hasContext)
  {
    if upTo > 0 {
      var before := Rendered(upTo - 1, hasContext);
      var added := if hasContext(upTo) then [PageImage(upTo)] else [];
      RenderedSpec(upTo - 1, hasContext);
      assert Rendered(upTo, hasContext) == before + added;
      assert PagesInOrder(before + added, upTo, hasContext) by {
        forall i | 0 <= i < |before| ensures before[i].page < upTo {
          assert before[i].page <= upTo - 1;
        }
      }
      forall p | 1 <= p <= upTo && hasContext(p)
        ensures PageImage(p) in before + added
      {
        if p < upTo {
          assert PageImage(p) in before;
        } else {
          assert PageImage(p) in added;
        }
      }
    }
  }

  /** When every canvas has a context, page `k + 1` is image `k` and all `upTo` pages are rendered. */
  lemma {:induction false} RenderedAll(upTo: nat, hasContext: nat -> bool)
    requires forall p :: 1 <= p <= upTo ==> hasContext(p)
    ensures |Rendered(upTo, hasContext)| == upTo
    ensures forall k :: 0 <= k < upTo ==> Rendered(upTo, hasContext)[k] == PageImage(k + 1)
  {
    if upTo > 0 {
      RenderedAll(upTo - 1, hasContext);
    }
  }

  const ImageInfix: string := "-page-"
  const ImageSuffix: string := ".png"

  /** `${getFileBaseName(name)}-page-${idx + 1}.png`, the download name of image `idx`. */
  function ImageName(fileName: string, idx: nat): (r: string)
    ensures var base := FileNameHelper.BaseName(fileName);
            && |r| == |base| + |ImageInfix| + |Decimal.Decimal(idx + 1)| + |ImageSuffix|
            && r[..|base|] == base
            && r[|base|..|base| + |ImageInfix|] == ImageInfix
            && Decimal.AllDigits(r[|base| + |ImageInfix|..|r| - |ImageSuffix|])
            && Decimal.Value(r[|base| + |ImageInfix|..|r| - |ImageSuffix|]) == idx + 1
            && r[|r| - |ImageSuffix|..] == ImageSuffix
  {
    var base := FileNameHelper.BaseName(fileName);
    NameSlices(base, Decimal.Decimal(idx + 1));
    Decimal.ValueOfDecimal(idx + 1);
    base + ImageInfix + Decimal.Decimal(idx + 1) + ImageSuffix
  }

  /** Where the parts of an image name sit in it. */
  lemma NameSlices(base: string, digits: string)
    ensures var r := base + ImageInfix + digits + ImageSuffix;
            && |r| == |base| + |ImageInfix| + |digits| + |ImageSuffix|
            && r[..|base|] == base
            && r[|base|..|base| + |ImageInfix|] == ImageInfix
            && r[|base| + |ImageInfix|..|r| - |ImageSuffix|] == digits
            && r[|r| - |ImageSuffix|..] == ImageSuffix
  {
  }

  /** Images of one PDF get distinct download names. */
  lemma ImageNameInjective(fileName: string, a: nat, b: nat)
    requires ImageName(fileName, a) == ImageName(fileName, b)
    ensures a == b
  {
    var base := FileNameHelper.BaseName(fileName);
    var da, db := Decimal.Decimal(a + 1), Decimal.Decimal(b + 1);
    var start := |base| + |ImageInfix|;
    assert da == ImageName(fileName, a)[start..start + |da|];
    assert db == ImageName(fileName, b)[start..start + |db|];
    Decimal.DecimalInjective(a + 1, b + 1);
  }

  class Converter {
    var file: Option<FileRef>
    var images: seq<PageImage>
    var isProcessing: bool

    constructor ()
      ensures file == None && images == [] && !isProcessing
    {
      file := None;
      images := [];
      isProcessing := false;
    }

    /** `handleFiles`: takes the first file and clears the images. */
    method HandleFiles(files: seq<FileRef>)
      modifies this`file, this`images
      ensures |files| == 0 ==> unchanged(this)
      ensures |files| > 0 ==> file == Some(files[0]) && images == []
    {
      if |files| > 0 {
        file := Some(files[0]);
        images := [];
      }
    }

    /** `processPDF`: with a file selected, loads it (`totalPages`, `None` when pdf.js cannot
        load it) and renders pages `1..min(totalPages, 50)` in order. */
    method ProcessPdf(totalPages: Option<nat>, hasContext: nat -> bool)
      modifies this`images, this`isProcessing
      ensures file.None? ==> unchanged(this)
      ensures file.Some? ==> !isProcessing
      ensures file.Some? && totalPages.None? ==> images == old(images)
      ensures file.Some? && totalPages.Some? ==>
        images == Rendered(Min(totalPages.value, PageCap), hasContext) && |images| <= PageCap
    {
      if file.None? {
        return;
      }
      isProcessing := true;
      if totalPages.Some? {
        var pagesToProcess := Min(totalPages.value, PageCap);
        var imageUrls: seq<PageImage> := [];
        var i := 1;
        while i <= pagesToProcess
          invariant 1 <= i <= pagesToProcess + 1
          invariant imageUrls == Rendered(i - 1, hasContext)
        {
          if hasContext(i) {
            imageUrls := imageUrls + [PageImage(i)];
          }
          i := i + 1;
        }
        images := imageUrls;
      }
      isProcessing := false;
    }

    /** `reset`: clears file, images and processing flag. */
    method Reset()
      modifies this
      ensures file == None && images == [] && !isProcessing
    {
      file := None;
      images := [];
      isProcessing := false;
    }
  }
}
