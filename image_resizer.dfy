/** The image resizer: one image, a width and a height the user edits, optionally locked to
    the image's natural aspect ratio, and a resize step over a canvas. */
module ImageResizer {
  import opened Files
  import Rounding

  /** A width and height in pixels (`{ w, h }`). Edited values may be zero or negative. */
  datatype Dims = Dims(w: int, h: int)

  /** `Math.round((value / anchor) * other)`: the paired dimension for `value` when the
      ratio is locked; `anchor` is the natural size of the edited dimension, `other` the
      natural size of the paired one. Computed exactly, as `Math.round(value * other / anchor)`. */
  function Scaled(value: int, anchor: int, other: int): (r: int)
    requires anchor > 0
    ensures 2 * r * anchor <= 2 * value * other + anchor < 2 * r * anchor + 2 * anchor
  {
    Rounding.RoundDiv(value * other, anchor)
  }

  /** With the ratio locked, entering the natural size of one side gives back exactly the
      natural size of the other. */
  lemma ScaledNatural(anchor: int, other: int)
    requires anchor > 0
    ensures Scaled(anchor, anchor, other) == other
  {
    assert anchor * other == other * anchor;
    Rounding.RoundDivExact(other, anchor);
  }

  /** A locked update keeps the aspect ratio within rounding: `h / w` differs from
      `other / anchor` by at most half a pixel of `h`, i.e. `|h * anchor - w * other| <= anchor / 2`. */
  lemma ScaledKeepsRatio(w: int, anchor: int, other: int)
    requires anchor > 0
    ensures var h := Scaled(w, anchor, other);
            -anchor <= 2 * (h * anchor - w * other) <= anchor
  {
    var h := Scaled(w, anchor, other);
    assert 2 * (h * anchor - w * other) == 2 * h * anchor - 2 * w * other;
  }

  /** Larger input never gives a smaller paired dimension. */
  lemma ScaledMonotone(w1: int, w2: int, anchor: int, other: int)
    requires anchor > 0 && other >= 0 && w1 <= w2
    ensures Scaled(w1, anchor, other) <= Scaled(w2, anchor, other)
  {
    assert w1 * other <= w2 * other by {
      assert w2 * other - w1 * other == (w2 - w1) * other;
    }
    Rounding.RoundDivMonotone(w1 * other, w2 * other, anchor);
  }

  /** `parseInt(text) || 0`: `None` stands for text that does not parse (`NaN`). */
  function FieldValue(parsed: Option<int>): (v: int)
    ensures parsed.None? ==> v == 0
    ensures parsed.Some? ==> v == parsed.value
  {
    match parsed
    case None => 0
    case Some(n) => n
  }

  class Resizer {
    var file: Option<FileRef>
    /** The object URL of the selected file, as the file it refers to. */
    var preview: Option<FileRef>
    var originalDims: Dims
    var dims: Dims
    var maintainRatio: bool
    var isProcessing: bool
    /** The resized image's data URL, as the size it was drawn at. */
    var result: Option<Dims>

    constructor ()
      ensures file == None && preview == None && result == None && !isProcessing
      ensures originalDims == Dims(0, 0) && dims == Dims(0, 0) && maintainRatio
    {
      file := None;
      preview := None;
      originalDims := Dims(0, 0);
      dims := Dims(0, 0);
      maintainRatio := true;
      isProcessing := false;
      result := None;
    }

    /** The "Resize Image" button's enabling condition: only an idle tool with a positive
        width and height can resize. */
    predicate ResizeEnabled()
      reads this
      ensures ResizeEnabled() ==> !isProcessing && dims.w >= 1 && dims.h >= 1
      ensures isProcessing || dims.w <= 0 || dims.h <= 0 ==> !ResizeEnabled()
    {
      !isProcessing && dims.w > 0 && dims.h > 0
    }

    /** `handleFiles`: takes the first file only and clears the previous result. When the
        image decodes (`natural`), both the natural and the edited size become its size. */
    method HandleFiles(files: seq<FileRef>, natural: Option<Dims>)
      modifies this
      ensures |files| == 0 ==> unchanged(this)
      ensures |files| > 0 ==> file == Some(files[0]) && preview == Some(files[0]) && result == None
      ensures |files| > 0 && natural.Some? ==> originalDims == natural.value && dims == natural.value
      ensures |files| > 0 && natural.None? ==> originalDims == old(originalDims) && dims == old(dims)
      ensures maintainRatio == old(maintainRatio) && isProcessing == old(isProcessing)
    {
      if |files| > 0 {
        var f := files[0];
        file := Some(f);
        preview := Some(f);
        if natural.Some? {
          originalDims := natural.value;
          dims := natural.value;
        }
        result := None;
      }
    }

    /** `updateWidth`: sets the width; with the ratio locked and a known natural width the
        height follows it, otherwise the height is kept. */
    method UpdateWidth(w: int)
      modifies this`dims
      ensures maintainRatio && originalDims.w > 0 ==>
        dims == Dims(w, Scaled(w, originalDims.w, originalDims.h))
      ensures !(maintainRatio && originalDims.w > 0) ==> dims == Dims(w, old(dims.h))
    {
      if maintainRatio && originalDims.w > 0 {
        var h := Scaled(w, originalDims.w, originalDims.h);
        dims := Dims(w, h);
      } else {
        dims := dims.(w := w);
      }
    }

    /** `updateHeight`: the same with the roles of width and height exchanged. */
    method UpdateHeight(h: int)
      modifies this`dims
      ensures maintainRatio && originalDims.h > 0 ==>
        dims == Dims(Scaled(h, originalDims.h, originalDims.w), h)
      ensures !(maintainRatio && originalDims.h > 0) ==> dims == Dims(old(dims.w), h)
    {
      if maintainRatio && originalDims.h > 0 {
        var w := Scaled(h, originalDims.h, originalDims.w);
        dims := Dims(w, h);
      } else {
        dims := dims.(h := h);
      }
    }

    /** The width field's `onChange`: text that is not a number becomes 0 and so disables
        the resize button. */
    method OnWidthInput(parsed: Option<int>)
      modifies this`dims
      ensures maintainRatio && originalDims.w > 0 ==>
        dims == Dims(FieldValue(parsed), Scaled(FieldValue(parsed), originalDims.w, originalDims.h))
      ensures !(maintainRatio && originalDims.w > 0) ==> dims == Dims(FieldValue(parsed), old(dims.h))
      ensures parsed.None? ==> !ResizeEnabled()
    {
      UpdateWidth(FieldValue(parsed));
    }

    /** The height field's `onChange`. */
    method OnHeightInput(parsed: Option<int>)
      modifies this`dims
      ensures maintainRatio && originalDims.h > 0 ==>
        dims == Dims(Scaled(FieldValue(parsed), originalDims.h, originalDims.w), FieldValue(parsed))
      ensures !(maintainRatio && originalDims.h > 0) ==> dims == Dims(old(dims.w), FieldValue(parsed))
      ensures parsed.None? ==> !ResizeEnabled()
    {
      UpdateHeight(FieldValue(parsed));
    }

    /** The "Maintain aspect ratio" checkbox. */
    method SetMaintainRatio(locked: bool)
      modifies this`maintainRatio
      ensures maintainRatio == locked
    {
      maintainRatio := locked;
    }

    /** `handleResize`, reached only through the enabled button: with a file and preview it
        marks the tool busy and loads the preview. Only when the preview decodes (`decodes`;
        there is no error handler) does it draw the image at `dims`, keeping the result when
        the canvas gives a 2D context (`hasContext`), and become idle again. */
    method Resize(decodes: bool, hasContext: bool)
      modifies this`isProcessing, this`result
      ensures !old(ResizeEnabled()) ==> unchanged(this)
      ensures old(ResizeEnabled()) && (file.None? || preview.None?) ==> unchanged(this)
      ensures old(ResizeEnabled()) && file.Some? && preview.Some? && !decodes ==>
        isProcessing && result == old(result)
      ensures old(ResizeEnabled()) && file.Some? && preview.Some? && decodes ==>
        !isProcessing && result == if hasContext then Some(dims) else old(result)
    {
      if !ResizeEnabled() || file.None? || preview.None? {
        return;
      }
      isProcessing := true;
      if decodes {
        if hasContext {
          result := Some(dims);
        }
        isProcessing := false;
      }
    }

    /** `reset`: clears file, preview, result and the processing flag; sizes and the ratio
        lock are kept. */
    method Reset()
      modifies this`file, this`preview, this`result, this`isProcessing
      ensures file == None && preview == None && result == None && !isProcessing
    {
      file := None;
      preview := None;
      result := None;
      isProcessing := false;
    }
  }
}
