/** Image to PDF: a growing list of image items (non-images are skipped and counted),
    removal by id, and generation of a PDF with one page per image in list order. */
module ImageToPdf {
  import opened Files
  import FileNameHelper

  datatype Status = Pending | Processing | Completed | Error

  /** `FileItem`: a random id, the file, its status and progress (the preview URL is the
      file's own object URL and is not kept separately). */
  datatype FileItem = FileItem(id: string, file: FileRef, status: Status, progress: int)

  /** The two messages the tool shows. */
  datatype Notice = SkippedFiles(count: nat) | GenerationFailed

  /** The generated jsPDF document: for each page, the images drawn on it. */
  datatype PdfDoc = PdfDoc(pages: seq<seq<FileRef>>)

  const ImagePrefix: string := "image/"

  /** `file.type.startsWith('image/')`. */
  predicate IsImage(f: FileRef) {
    ImagePrefix <= f.mimeType
  }

  /** `newFiles.filter(file => file.type.startsWith('image/'))`. */
  function Images(files: seq<FileRef>): (r: seq<FileRef>)
    ensures |r| <= |files|
  {
    if files == [] then []
    else if IsImage(files[0]) then [files[0]] + Images(files[1..])
    else Images(files[1..])
  }

  /** The filter keeps exactly the images, and drops nothing exactly when every input is one. */
  lemma {:induction false} ImagesSpec(files: seq<FileRef>)
    ensures forall f :: f in Images(files) <==> f in files && IsImage(f)
    ensures |Images(files)| == |files| <==> forall i :: 0 <= i < |files| ==> IsImage(files[i])
  {
    if files != [] {
      var rest := files[1..];
      ImagesSpec(rest);
      assert files == [files[0]] + rest;
      if !IsImage(files[0]) {
        assert |Images(files)| == |Images(rest)| <= |rest| < |files|;
      } else {
        assert (forall i :: 0 <= i < |files| ==> IsImage(files[i])) <==>
               (forall i :: 0 <= i < |rest| ==> IsImage(rest[i])) by {
          forall i | 0 <= i < |rest| ensures rest[i] == files[i + 1] { }
        }
      }
    }
  }

  /** Filtering a concatenation keeps the kept files of each part, in order. */
  lemma {:induction false} ImagesAppend(a: seq<FileRef>, b: seq<FileRef>)
    ensures Images(a + b) == Images(a) + Images(b)
  {
    if a == [] {
      assert a + b == b;
    } else {
      assert (a + b)[0] == a[0];
      assert (a + b)[1..] == a[1..] + b;
      ImagesAppend(a[1..], b);
    }
  }

  /** The number of inputs that are skipped. */
  function SkippedCount(files: seq<FileRef>): (n: nat)
    ensures n == 0 <==> forall i :: 0 <= i < |files| ==> IsImage(files[i])
  {
    ImagesSpec(files);
    |files| - |Images(files)|
  }

  /** The new items for the accepted images: in input order, each pending with progress 0,
      the `k`-th one with the id `idFor(k)` (ids come from `Math.random` in the source). */
  function NewItems(images: seq<FileRef>, idFor: nat -> string): (r: seq<FileItem>)
    ensures |r| == |images|
    ensures forall k :: 0 <= k < |r| ==>
              r[k].file == images[k] && r[k].id == idFor(k) && r[k].status == Pending && r[k].progress == 0
  {
    seq(|images|, k requires 0 <= k < |images| => FileItem(idFor(k), images[k], Pending, 0))
  }

  /** `prev.filter(item => item.id !== id)`. */
  function WithoutId(items: seq<FileItem>, id: string): (r: seq<FileItem>)
    ensures |r| <= |items|
    ensures forall x :: x in r <==> x in items && x.id != id
  {
    if items == [] then []
    else (if items[0].id != id then [items[0]] else []) + WithoutId(items[1..], id)
  }

  /** Removal by id works item by item: on a concatenation it removes from each part and
      keeps the survivors in their order. */
  lemma {:induction false} WithoutIdAppend(a: seq<FileItem>, b: seq<FileItem>, id: string)
    ensures WithoutId(a + b, id) == WithoutId(a, id) + WithoutId(b, id)
  {
    if a == [] {
      assert a + b == b;
    } else {
      assert (a + b)[0] == a[0];
      assert (a + b)[1..] == a[1..] + b;
      WithoutIdAppend(a[1..], b, id);
    }
  }

  /** Removing an id that no item has changes nothing. */
  lemma {:induction false} WithoutAbsentId(items: seq<FileItem>, id: string)
    requires forall i :: 0 <= i < |items| ==> items[i].id != id
    ensures WithoutId(items, id) == items
  {
    if items != [] {
      WithoutAbsentId(items[1..], id);
    }
  }

  /** The pages of the generated PDF: page `k` shows image `k`. */
  function OnePagePerImage(items: seq<FileItem>): (r: seq<seq<FileRef>>)
    ensures |r| == |items|
    ensures forall k :: 0 <= k < |r| ==> r[k] == [items[k].file]
  {
    seq(|items|, k requires 0 <= k < |items| => [items[k].file])
  }

  class Converter {
    var files: seq<FileItem>
    var isProcessing: bool
    /** The generated PDF (its object URL). */
    var result: Option<PdfDoc>
    var errorMessage: Option<Notice>

    constructor ()
      ensures files == [] && !isProcessing && result == None && errorMessage == None
    {
      files := [];
      isProcessing := false;
      result := None;
      errorMessage := None;
    }

    /** `handleFiles`: keeps the images, reports how many inputs were skipped, and appends
        one pending item per image; with no image the list and result stay as they were. */
    method HandleFiles(newFiles: seq<FileRef>, idFor: nat -> string)
      modifies this`files, this`result, this`errorMessage
      ensures errorMessage.Some? <==> SkippedCount(newFiles) > 0
      ensures errorMessage.Some? ==> errorMessage == Some(SkippedFiles(SkippedCount(newFiles)))
      ensures Images(newFiles) == [] ==> files == old(files) && result == old(result)
      ensures Images(newFiles) != [] ==>
        files == old(files) + NewItems(Images(newFiles), idFor) && result == None
    {
      errorMessage := None;
      var imageFiles := Images(newFiles);
      var nonImageCount := |newFiles| - |imageFiles|;
      if nonImageCount > 0 {
        errorMessage := Some(SkippedFiles(nonImageCount));
      }
      if |imageFiles| == 0 {
        return;
      }
      var items := NewItems(imageFiles, idFor);
      files := files + items;
      result := None;
    }

    /** The remove button of item `id`. */
    method RemoveById(id: string)
      modifies this`files
      ensures files == WithoutId(old(files), id)
      ensures forall x :: x in files <==> x in old(files) && x.id != id
    {
      files := WithoutId(files, id);
    }

    /** `generatePDF`: with items present, draws image `i` on the first page when `i == 0`
        and on a newly added page otherwise. `decodes(f)` says whether `f` can be read and
        loaded as an image; the first one that cannot aborts the run with a message. */
    method GeneratePdf(decodes: FileRef -> bool)
      modifies this`isProcessing, this`result, this`errorMessage
      ensures old(files) == [] ==> unchanged(this)
      ensures files != [] ==> !isProcessing
      ensures files != [] && (forall k :: 0 <= k < |files| ==> decodes(files[k].file)) ==>
        result == Some(PdfDoc(OnePagePerImage(files))) && errorMessage == None
      ensures files != [] && !(forall k :: 0 <= k < |files| ==> decodes(files[k].file)) ==>
        result == old(result) && errorMessage == Some(GenerationFailed)
    {
      if |files| == 0 {
        return;
      }
      isProcessing := true;
      errorMessage := None;
      var pages: seq<seq<FileRef>> := [[]];
      var i := 0;
      var failed := false;
      while i < |files| && !failed
        invariant 0 <= i <= |files|
        invariant |pages| == if i == 0 then 1 else i
        invariant forall k :: 0 <= k < i ==> pages[k] == [files[k].file]
        invariant i == 0 ==> pages == [[]]
        invariant forall k :: 0 <= k < i ==> decodes(files[k].file)
        invariant failed ==> i < |files| && !decodes(files[i].file)
        decreases |files| - i, if failed then 0 else 1
      {
        var item := files[i];
        if !decodes(item.file) {
          failed := true;
        } else {
          if i > 0 {
            pages := pages + [[]];
          }
          pages := pages[|pages| - 1 := pages[|pages| - 1] + [item.file]];
          i := i + 1;
        }
      }
      if failed {
        errorMessage := Some(GenerationFailed);
      } else {
        assert pages == OnePagePerImage(files);
        result := Some(PdfDoc(pages));
      }
      isProcessing := false;
    }

    /** The name offered for download: the first image's name with the extension `pdf`. */
    function DownloadName(): (name: string)
      reads this
      requires files != []
      ensures name == FileNameHelper.BaseName(files[0].file.name) + "." + PdfExtension
      ensures files[0].file.name != "" ==>
        FileNameHelper.BaseName(name) == FileNameHelper.BaseName(files[0].file.name) &&
        FileNameHelper.Extension(name) == PdfExtension
    {
      var first := files[0].file.name;
      FileNameHelper.RenamedName(first, PdfExtension);
      FileNameHelper.OutputFileName(first, PdfExtension)
    }

    /** The close button on the message. */
    method DismissError()
      modifies this`errorMessage
      ensures errorMessage == None
    {
      errorMessage := None;
    }

    /** `reset`: empties the list and clears result, processing flag and message. */
    method Reset()
      modifies this
      ensures files == [] && result == None && !isProcessing && errorMessage == None
    {
      files := [];
      result := None;
      isProcessing := false;
      errorMessage := None;
    }
  }
}
