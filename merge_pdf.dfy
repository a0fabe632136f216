/** Merge PDF: an ordered list of PDFs that grows by selection and shrinks by position,
    merged (when at least two are listed) into one document holding every page of every
    file in list order. */
module MergePdf {
  import opened Files
  import FileNameHelper

  const MinFiles: nat := 2

  /** `prev.filter((_, i) => i !== index)` from position `offset` on: drops the element whose
      position in the whole list is `index`. */
  function WithoutPosition(files: seq<FileRef>, index: int, offset: nat): (r: seq<FileRef>)
    ensures |r| <= |files|
    decreases |files|
  {
    if files == [] then []
    else (if offset != index then [files[0]] else []) + WithoutPosition(files[1..], index, offset + 1)
  }

  /** Removing position `index` drops exactly that file and keeps the others in order; an
      index outside the list drops nothing. */
  function RemoveAt(files: seq<FileRef>, index: int): (r: seq<FileRef>)
    ensures 0 <= index < |files| ==> r == files[..index] + files[index + 1..]
    ensures !(0 <= index < |files|) ==> r == files
  {
    WithoutPositionSpec(files, index, 0);
    WithoutPosition(files, index, 0)
  }

  lemma {:induction false} WithoutPositionSpec(files: seq<FileRef>, index: int, offset: nat)
    ensures offset <= index < offset + |files| ==>
      WithoutPosition(files, index, offset) == files[..index - offset] + files[index - offset + 1..]
    ensures !(offset <= index < offset + |files|) ==> WithoutPosition(files, index, offset) == files
    decreases |files|
  {
    if files != [] {
      var rest := files[1..];
      WithoutPositionSpec(rest, index, offset + 1);
      assert files == [files[0]] + rest;
      if offset == index {
        assert WithoutPosition(files, index, offset) == WithoutPosition(rest, index, offset + 1);
        assert files[..0] + files[1..] == rest;
      } else if offset < index < offset + |files| {
        var j := index - offset;
        assert WithoutPosition(files, index, offset) == [files[0]] + rest[..j - 1] + rest[j..];
        assert files[..j] == [files[0]] + rest[..j - 1];
        assert files[j + 1..] == rest[j..];
      } else {
        assert WithoutPosition(files, index, offset) == [files[0]] + rest;
      }
    }
  }

  /** All pages of the PDF in `f`, which has `n` pages, as `copyPages` copies them. */
  function PagesOf(f: FileRef, n: nat): seq<PdfPage>
  {
    seq(n, (k: nat) => PdfPage(f, k))
  }

  /** Every listed file loads (`pageCount` gives its page count, `None` when pdf-lib
      cannot load it). */
  predicate AllLoad(files: seq<FileRef>, pageCount: FileRef -> Option<nat>) {
    forall i :: 0 <= i < |files| ==> pageCount(files[i]).Some?
  }

  /** Total pages of the listed files. */
  function TotalPages(files: seq<FileRef>, pageCount: FileRef -> Option<nat>): nat
    requires AllLoad(files, pageCount)
  {
    if files == [] then 0 else pageCount(files[0]).value + TotalPages(files[1..], pageCount)
  }

  /** The merged document: each file's pages, file after file. */
  function Merged(files: seq<FileRef>, pageCount: FileRef -> Option<nat>): (r: seq<PdfPage>)
    requires AllLoad(files, pageCount)
    ensures |r| == TotalPages(files, pageCount)
    ensures forall p :: p in r ==> exists i :: 0 <= i < |files| && p.source == files[i] &&
                                            p.index < pageCount(files[i]).value
  {
    if files == [] then []
    else
      var r := PagesOf(files[0], pageCount(files[0]).value) + Merged(files[1..], pageCount);
      assert forall p :: p in r ==> p in PagesOf(files[0], pageCount(files[0]).value) ||
                                    p in Merged(files[1..], pageCount);
      r
  }

  /** Merging a concatenation of lists concatenates the merged parts. */
  lemma {:induction false} MergedAppend(a: seq<FileRef>, b: seq<FileRef>, pageCount: FileRef -> Option<nat>)
    requires AllLoad(a, pageCount) && AllLoad(b, pageCount)
    ensures AllLoad(a + b, pageCount)
    ensures Merged(a + b, pageCount) == Merged(a, pageCount) + Merged(b, pageCount)
  {
    assert forall i :: 0 <= i < |a + b| ==> (a + b)[i] == if i < |a| then a[i] else b[i - |a|];
    if a == [] {
      assert a + b == b;
    } else {
      assert (a + b)[0] == a[0];
      assert (a + b)[1..] == a[1..] + b;
      MergedAppend(a[1..], b, pageCount);
    }
  }

  class Merger {
    var files: seq<FileRef>
    var isProcessing: bool
    /** The merged PDF (its object URL), as its pages. */
    var result: Option<seq<PdfPage>>

    constructor ()
      ensures files == [] && !isProcessing && result == None
    {
      files := [];
      isProcessing := false;
      result := None;
    }

    /** The merge button's enabling condition: only an idle tool with at least two files
        can merge. */
    predicate MergeEnabled()
      reads this
      ensures MergeEnabled() ==> !isProcessing && |files| >= MinFiles
      ensures isProcessing || |files| < MinFiles ==> !MergeEnabled()
    {
      !isProcessing && |files| >= MinFiles
    }

    /** `handleFiles`: appends the selection after the listed files and clears the result. */
    method HandleFiles(newFiles: seq<FileRef>)
      modifies this`files, this`result
      ensures files == old(files) + newFiles && result == None
    {
      files := files + newFiles;
      result := None;
    }

    /** `removeFile(index)`: the result is left as it was. */
    method RemoveFile(index: int)
      modifies this`files
      ensures files == RemoveAt(old(files), index)
    {
      files := RemoveAt(files, index);
    }

    /** `mergeFiles`: with fewer than two files nothing happens; otherwise each file is
        loaded in list order and its pages appended, and the first file that fails to load
        aborts the merge, leaving the result as it was. */
    method MergeFiles(pageCount: FileRef -> Option<nat>)
      modifies this`isProcessing, this`result
      ensures |files| < MinFiles ==> unchanged(this)
      ensures !old(isProcessing) ==> (!old(MergeEnabled()) <==> unchanged(this) && |files| < MinFiles)
      ensures |files| >= MinFiles ==> !isProcessing
      ensures |files| >= MinFiles && AllLoad(files, pageCount) ==>
        result == Some(Merged(files, pageCount))
      ensures |files| >= MinFiles && !AllLoad(files, pageCount) ==> result == old(result)
    {
      if |files| < MinFiles {
        return;
      }
      isProcessing := true;
      var merged: seq<PdfPage> := [];
      var i := 0;
      var failed := false;
      while i < |files| && !failed
        invariant 0 <= i <= |files|
        invariant AllLoad(files[..i], pageCount)
        invariant merged == Merged(files[..i], pageCount)
        invariant failed ==> i < |files| && pageCount(files[i]).None?
        invariant result == old(result)
        decreases |files| - i, if failed then 0 else 1
      {
        var file := files[i];
        match pageCount(file)
        case None =>
          failed := true;
        case Some(n) =>
          assert files[..i + 1] == files[..i] + [file];
          assert Merged([file], pageCount) == PagesOf(file, n);
          MergedAppend(files[..i], [file], pageCount);
          merged := merged + PagesOf(file, n);
          i := i + 1;
      }
      if !failed {
        assert files[..i] == files;
        assert AllLoad(files, pageCount);
        result := Some(merged);
      }
      isProcessing := false;
    }

    /** The name offered for download: the first file's name with the extension `pdf`. */
    function DownloadName(): (name: string)
      reads this
      requires files != []
      ensures name == FileNameHelper.BaseName(files[0].name) + "." + PdfExtension
      ensures files[0].name != "" ==>
        FileNameHelper.BaseName(name) == FileNameHelper.BaseName(files[0].name) &&
        FileNameHelper.Extension(name) == PdfExtension
    {
      var first := files[0].name;
      FileNameHelper.RenamedName(first, PdfExtension);
      FileNameHelper.OutputFileName(first, PdfExtension)
    }

    /** "Clear All". */
    method ClearAll()
      modifies this`files, this`result
      ensures files == [] && result == None
    {
      files := [];
      result := None;
    }
  }
}
