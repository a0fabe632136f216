/** PDF splitter: every page of one PDF becomes its own one-page PDF, `page-{k}.pdf`,
    inside a ZIP archive, with a percentage shown while the pages are copied. */
module PdfSplitter {
  import opened Files
  import FileNameHelper
  import Decimal
  import Rounding

  /** One archive entry: its file name and the pages of the PDF stored under it. */
  datatype ZipEntry = ZipEntry(name: string, pages: seq<PdfPage>)

  /** The extension of the archive's download name. */
  const ZipExtension: string := "zip"

  const EntryPrefix: string := "page-"
  const EntrySuffix: string := ".pdf"

  /** `page-${k}.pdf`. */
  function EntryName(k: nat): (name: string)
    ensures |name| == |EntryPrefix| + |Decimal.Decimal(k)| + |EntrySuffix|
    ensures name[..|EntryPrefix|] == EntryPrefix
    ensures name[|name| - |EntrySuffix|..] == EntrySuffix
    ensures Decimal.AllDigits(name[|EntryPrefix|..|name| - |EntrySuffix|])
    ensures Decimal.Value(name[|EntryPrefix|..|name| - |EntrySuffix|]) == k
  {
    var digits := Decimal.Decimal(k);
    var name := EntryPrefix + digits + EntrySuffix;
    assert name[|EntryPrefix|..|name| - |EntrySuffix|] == digits;
    Decimal.ValueOfDecimal(k);
    name
  }

  /** Distinct page numbers give distinct entry names, so no entry overwrites another. */
  lemma EntryNameInjective(a: nat, b: nat)
    requires EntryName(a) == EntryName(b)
    ensures a == b
  {
    var da, db := Decimal.Decimal(a), Decimal.Decimal(b);
    assert |da| == |db|;
    assert da == EntryName(a)[|EntryPrefix|..|EntryPrefix| + |da|];
    assert db == EntryName(b)[|EntryPrefix|..|EntryPrefix| + |db|];
    Decimal.DecimalInjective(a, b);
  }

  /** The archive for the `n`-page PDF in `f`: entry `k` is `page-{k+1}.pdf` holding page `k` alone. */
  function Entries(f: FileRef, n: nat): (r: seq<ZipEntry>)
    ensures |r| == n
    ensures forall k :: 0 <= k < n ==> r[k].name == EntryName(k + 1) && r[k].pages == [PdfPage(f, k)]
  {
    seq(n, (k: nat) => ZipEntry(EntryName(k + 1), [PdfPage(f, k)]))
  }

  /** The archive's entries have pairwise distinct names. */
  lemma EntriesDistinctNames(f: FileRef, n: nat)
    ensures forall i, j :: 0 <= i < j < n ==> Entries(f, n)[i].name != Entries(f, n)[j].name
  {
    forall i, j | 0 <= i < j < n
      ensures Entries(f, n)[i].name != Entries(f, n)[j].name
    {
      assert Decimal.Value(EntryName(i + 1)[|EntryPrefix|..|EntryName(i + 1)| - |EntrySuffix|]) == i + 1;
    }
  }

  /** `Math.round(10 + (i / pageCount) * 80)`, the percentage after copying page `i`. */
  function Progress(i: nat, pageCount: nat): (r: int)
    requires pageCount > 0
    ensures 2 * r * pageCount <= 20 * pageCount + 160 * i + pageCount < 2 * r * pageCount + 2 * pageCount
  {
    Rounding.RoundDiv(10 * pageCount + 80 * i, pageCount)
  }

  /** While pages are copied the percentage stays between 10 and 90. */
  lemma ProgressBounds(i: nat, pageCount: nat)
    requires i < pageCount
    ensures 10 <= Progress(i, pageCount) <= 90
  {
    Rounding.RoundDivExact(10, pageCount);
    Rounding.RoundDivExact(90, pageCount);
    Rounding.RoundDivMonotone(10 * pageCount, 10 * pageCount + 80 * i, pageCount);
    Rounding.RoundDivMonotone(10 * pageCount + 80 * i, 90 * pageCount, pageCount);
  }

  /** The percentage never goes down from one page to the next. */
  lemma ProgressMonotone(i: nat, j: nat, pageCount: nat)
    requires i <= j && pageCount > 0
    ensures Progress(i, pageCount) <= Progress(j, pageCount)
  {
    Rounding.RoundDivMonotone(10 * pageCount + 80 * i, 10 * pageCount + 80 * j, pageCount);
  }

  class Splitter {
    var file: Option<FileRef>
    var isProcessing: bool
    /** The archive (its object URL), as its entries. */
    var result: Option<seq<ZipEntry>>
    var progress: int

    constructor ()
      ensures file == None && !isProcessing && result == None && progress == 0
    {
      file := None;
      isProcessing := false;
      result := None;
      progress := 0;
    }

    /** `handleFiles`: takes the first file, clears the result and the percentage. */
    method HandleFiles(files: seq<FileRef>)
      modifies this`file, this`result, this`progress
      ensures |files| == 0 ==> unchanged(this)
      ensures |files| > 0 ==> file == Some(files[0]) && result == None && progress == 0
    {
      if |files| > 0 {
        file := Some(files[0]);
        result := None;
        progress := 0;
      }
    }

    /** `splitPDF`: with a file selected, loads it (`pageCount`, `None` when pdf-lib cannot
        load it) and adds one entry per page, updating the percentage after each; on
        success the archive is kept and the percentage is 100. */
    method SplitPdf(pageCount: Option<nat>)
      modifies this`isProcessing, this`result, this`progress
      ensures file.None? ==> unchanged(this)
      ensures file.Some? ==> !isProcessing
      ensures file.Some? && pageCount.Some? ==>
        result == Some(Entries(file.value, pageCount.value)) && progress == 100
      ensures file.Some? && pageCount.None? ==> result == old(result) && progress == 10
    {
      if file.None? {
        return;
      }
      var f := file.value;
      isProcessing := true;
      progress := 10;
      if pageCount.Some? {
        var n := pageCount.value;
        var zip: seq<ZipEntry> := [];
        var i := 0;
        while i < n
          invariant 0 <= i <= n
          invariant zip == Entries(f, i)
          invariant i == 0 ==> progress == 10
          invariant i > 0 ==> progress == Progress(i - 1, n)
          invariant 10 <= progress <= 90
        {
          zip := zip + [ZipEntry(EntryName(i + 1), [PdfPage(f, i)])];
          ProgressBounds(i, n);
          progress := Progress(i, n);
          i := i + 1;
        }
        result := Some(zip);
        progress := 100;
      }
      isProcessing := false;
    }

    /** The name offered for download: the file's name with the extension `zip`. */
    function DownloadName(): (name: string)
      reads this
      requires file.Some?
      ensures name == FileNameHelper.BaseName(file.value.name) + "." + ZipExtension
      ensures file.value.name != "" ==>
        FileNameHelper.BaseName(name) == FileNameHelper.BaseName(file.value.name) &&
        FileNameHelper.Extension(name) == ZipExtension
    {
      var original := file.value.name;
      FileNameHelper.RenamedName(original, ZipExtension);
      FileNameHelper.OutputFileName(original, ZipExtension)
    }

    /** `reset`: clears file, result and processing flag; the percentage is left alone. */
    method Reset()
      modifies this`file, this`result, this`isProcessing
      ensures file == None && result == None && !isProcessing
    {
      file := None;
      result := None;
      isProcessing := false;
    }
  }
}
