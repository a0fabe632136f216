/** The PDF rotator: thumbnails of the first 30 pages, each with an extra rotation the user
    turns in 90-degree steps, and a save step that writes the non-zero rotations into the
    loaded document. */
module PdfRotator {
  import opened Files

  /** Pages shown (and so rotatable) at most. */
  const PreviewCap: nat := 30

  /** One thumbnail: the 1-based page whose rendering it shows, and its rotation in degrees. */
  datatype Preview = Preview(page: nat, rotation: nat)

  /** One click on a thumbnail: `(rotation + 90) % 360`. Rotations are never negative, so
      JavaScript's `%` and Dafny's agree here. */
  function Turn(rotation: nat): (r: nat)
    ensures r < 360
    ensures (r - rotation - 90) % 360 == 0
  {
    (rotation + 90) % 360
  }

  predicate RightAngle(r: nat) {
    r == 0 || r == 90 || r == 180 || r == 270
  }

  /** A right angle turned is a right angle. */
  lemma TurnKeepsRightAngle(r: nat)
    requires RightAngle(r)
    ensures RightAngle(Turn(r))
  {
  }

  /** Four turns are a full revolution. */
  lemma FourTurns(r: nat)
    ensures Turn(Turn(Turn(Turn(r)))) == r % 360
  {
  }

  /** Four clicks on a thumbnail restore the rotation it had. */
  lemma FourTurnsRestore(r: nat)
    requires RightAngle(r)
    ensures Turn(Turn(Turn(Turn(r)))) == r
  {
    FourTurns(r);
  }

  /** The thumbnails for a document of `numPages` pages: pages 1, 2, ... up to the cap,
      none rotated. */
  function InitialPreviews(numPages: nat): (r: seq<Preview>)
    ensures |r| == Min(numPages, PreviewCap) && |r| <= PreviewCap
    ensures forall i :: 0 <= i < |r| ==> r[i].page == i + 1 && r[i].rotation == 0
  {
    seq(Min(numPages, PreviewCap), (i: nat) => Preview(i + 1, 0))
  }

  /** The page rotations after saving: page `i` gets the rotation of thumbnail `i` when that
      thumbnail exists and is rotated; every other page keeps its own. */
  function Applied(pages: seq<nat>, previews: seq<Preview>): (r: seq<nat>)
    ensures |r| == |pages|
    ensures forall i :: 0 <= i < |pages| && i < |previews| && previews[i].rotation != 0 ==>
              r[i] == previews[i].rotation
    ensures forall i :: 0 <= i < |pages| && (i >= |previews| || previews[i].rotation == 0) ==>
              r[i] == pages[i]
  {
    seq(|pages|, i requires 0 <= i < |pages| =>
      if i < |previews| && previews[i].rotation != 0 then previews[i].rotation else pages[i])
  }

  /** Pages past the preview cap are never rotated by saving. */
  lemma PagesPastCapUntouched(pages: seq<nat>, previews: seq<Preview>)
    requires |previews| <= PreviewCap
    ensures |Applied(pages, previews)| == |pages|
    ensures forall i :: PreviewCap <= i < |pages| ==> Applied(pages, previews)[i] == pages[i]
  {
  }

  /** Saving thumbnails that were never turned leaves every page as it was. */
  lemma UnturnedSaveIsIdentity(pages: seq<nat>, numPages: nat)
    ensures Applied(pages, InitialPreviews(numPages)) == pages
  {
  }

  /** Saving's pass over the thumbnails, in place on the loaded document's page rotations:
      each thumbnail that has a page and a non-zero rotation sets that page's rotation. */
  method ApplyRotations(pages: array<nat>, previews: seq<Preview>)
    modifies pages
    ensures pages[..] == Applied(old(pages[..]), previews)
  {
    var i := 0;
    while i < |previews|
      invariant 0 <= i <= |previews|
      invariant forall k :: 0 <= k < pages.Length ==>
        pages[k] == if k < i && previews[k].rotation != 0 then previews[k].rotation else old(pages[k])
    {
      if i < pages.Length && previews[i].rotation != 0 {
        pages[i] := previews[i].rotation;
      }
      i := i + 1;
    }
  }

  class Rotator {
    var file: Option<FileRef>
    var previews: seq<Preview>
    var isProcessing: bool
    /** The saved document (its object URL), as the rotations of its pages. */
    var result: Option<seq<nat>>

    /** At most 30 thumbnails, in page order, each at a right angle. */
    ghost predicate Valid()
      reads this
    {
      && |previews| <= PreviewCap
      && forall i :: 0 <= i < |previews| ==> previews[i].page == i + 1 && RightAngle(previews[i].rotation)
    }

    constructor ()
      ensures Valid()
      ensures file == None && previews == [] && !isProcessing && result == None
    {
      file := None;
      previews := [];
      isProcessing := false;
      result := None;
    }

    /** `handleFiles`: takes the first file and, when the document loads with `numPages`
        pages, renders one thumbnail per page up to the cap. When it does not load
        (`numPages == None`) the thumbnails are left as they were. */
    method HandleFiles(files: seq<FileRef>, numPages: Option<nat>)
      requires Valid()
      modifies this
      ensures Valid()
      ensures |files| == 0 ==> unchanged(this)
      ensures |files| > 0 ==> file == Some(files[0]) && result == None && !isProcessing
      ensures |files| > 0 && numPages.None? ==> previews == old(previews)
      ensures |files| > 0 && numPages.Some? ==>
        && previews == InitialPreviews(numPages.value)
        && |previews| == Min(numPages.value, PreviewCap)
        && forall i :: 0 <= i < |previews| ==> previews[i].page == i + 1 && previews[i].rotation == 0
    {
      if |files| > 0 {
        file := Some(files[0]);
        result := None;
        isProcessing := true;
        if numPages.Some? {
          var pageCount := Min(numPages.value, PreviewCap);
          var p: seq<Preview> := [];
          var i := 1;
          while i <= pageCount
            invariant 1 <= i <= pageCount + 1
            invariant |p| == i - 1
            invariant forall k :: 0 <= k < |p| ==> p[k] == Preview(k + 1, 0)
          {
            p := p + [Preview(i, 0)];
            i := i + 1;
          }
          previews := p;
        }
        isProcessing := false;
      }
    }

    /** `rotatePage(index)`: turns one thumbnail. An index outside the list throws in the
        source before any state is set, so nothing changes. */
    method RotatePage(index: int)
      requires Valid()
      modifies this`previews
      ensures Valid()
      ensures |previews| == |old(previews)|
      ensures 0 <= index < |previews| ==>
        previews[index] == old(previews[index]).(rotation := Turn(old(previews[index].rotation)))
      ensures forall i :: 0 <= i < |previews| && i != index ==> previews[i] == old(previews[i])
    {
      if 0 <= index < |previews| {
        TurnKeepsRightAngle(previews[index].rotation);
        previews := previews[index := previews[index].(rotation := Turn(previews[index].rotation))];
      }
    }

    /** `rotateAll`: turns every thumbnail, keeping the list's length and order. */
    method RotateAll()
      requires Valid()
      modifies this`previews
      ensures Valid()
      ensures |previews| == |old(previews)|
      ensures forall i :: 0 <= i < |previews| ==>
        previews[i] == old(previews[i]).(rotation := Turn(old(previews[i].rotation)))
    {
      forall r: nat | RightAngle(r) ensures RightAngle(Turn(r)) {
        TurnKeepsRightAngle(r);
      }
      var before := previews;
      previews := seq(|before|, i requires 0 <= i < |before| => before[i].(rotation := Turn(before[i].rotation)));
    }

    /** `saveRotated`: with a file selected, loads it (`loaded` gives its pages' rotations,
        `None` when loading fails), applies the thumbnails' rotations and keeps the result. */
    method SaveRotated(loaded: Option<seq<nat>>)
      requires Valid()
      modifies this`isProcessing, this`result
      ensures Valid()
      ensures file.None? ==> unchanged(this)
      ensures file.Some? ==> !isProcessing
      ensures file.Some? && loaded.Some? ==> result == Some(Applied(loaded.value, previews))
      ensures file.Some? && loaded.None? ==> result == old(result)
    {
      if file.None? {
        return;
      }
      isProcessing := true;
      if loaded.Some? {
        var source := loaded.value;
        var pages := new nat[|source|](i requires 0 <= i < |source| => source[i]);
        assert pages[..] == source;
        ApplyRotations(pages, previews);
        result := Some(pages[..]);
      }
      isProcessing := false;
    }

    /** `reset`: drops the file, thumbnails and result; the processing flag is left alone. */
    method Reset()
      requires Valid()
      modifies this`file, this`previews, this`result
      ensures Valid()
      ensures file == None && previews == [] && result == None
    {
      file := None;
      previews := [];
      result := None;
    }
  }
}
