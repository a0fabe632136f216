/** Output-file naming shared by every tool: the base name of a file, the name with a
    new extension, and the lower-cased extension, all by the last `.` in the name. */
module FileNameHelper {

  /** JavaScript's `s.lastIndexOf(c)`: the index of the last `c` in `s`, or -1. */
  function LastIndexOf(s: string, c: char): (k: int)
    ensures -1 <= k < |s|
    ensures k >= 0 ==> s[k] == c
    ensures forall j :: k < j < |s| ==> s[j] != c
  {
    if |s| == 0 then -1
    else if s[|s| - 1] == c then |s| - 1
    else LastIndexOf(s[..|s| - 1], c)
  }

  /** An index into `s` clamped the way `String.prototype.substring` clamps it. */
  function Clamp(i: int, len: nat): (c: nat)
    ensures c <= len
  {
    if i < 0 then 0 else if i > len then len else i
  }

  /** JavaScript's `s.substring(start, end)`: both ends clamped to `[0, |s|]`, swapped when
      `start > end`. */
  function Substring(s: string, start: int, end: int): (r: string)
    ensures var a, b := Clamp(start, |s|), Clamp(end, |s|);
            r == if a <= b then s[a..b] else s[b..a]
    ensures 0 <= start <= end <= |s| ==> r == s[start..end]
    ensures 0 <= end <= start <= |s| ==> r == s[end..start]
    ensures start <= 0 && end <= 0 ==> r == ""
    ensures start >= |s| && end >= |s| ==> r == ""
    ensures 0 <= start <= |s| < end ==> r == s[start..]
  {
    var a, b := Clamp(start, |s|), Clamp(end, |s|);
    if a <= b then s[a..b] else s[b..a]
  }

  /** ASCII `toLowerCase` of one character. */
  function LowerChar(c: char): (l: char)
    ensures 'A' <= c <= 'Z' ==> l as int == c as int + 32
    ensures !('A' <= c <= 'Z') ==> l == c
  {
    if 'A' <= c <= 'Z' then (c as int + 32) as char else c
  }

  /** ASCII `toLowerCase` of a string. */
  function ToLower(s: string): (r: string)
    ensures |r| == |s|
    ensures forall i :: 0 <= i < |s| ==> r[i] == LowerChar(s[i])
  {
    seq(|s|, i requires 0 <= i < |s| => LowerChar(s[i]))
  }

  /** `getFileBaseName`: the text before the last `.`, or the whole name when that text
      is empty (`""` is falsy, so `||` falls back to the name). */
  function BaseName(fileName: string): (base: string)
    ensures forall k :: 0 < k < |fileName| && fileName[k] == '.' && '.' !in fileName[k + 1..] ==>
              base == fileName[..k]
    ensures (forall j :: 0 < j < |fileName| ==> fileName[j] != '.') ==> base == fileName
    ensures fileName != "" ==> base != ""
  {
    var k := LastIndexOf(fileName, '.');
    assert forall j :: k < j < |fileName| ==> fileName[j] != '.';
    var prefix := Substring(fileName, 0, k);
    if prefix == "" then fileName else prefix
  }

  /** `'.'` starts `ext`, as `ext.startsWith('.')` asks. */
  predicate StartsWithDot(ext: string) {
    |ext| > 0 && ext[0] == '.'
  }

  /** `generateOutputFileName`: the base name followed by the new extension, with exactly
      one `.` between them whether or not the extension was given with its dot. */
  function OutputFileName(originalFileName: string, newExtension: string): (r: string)
    ensures var base := BaseName(originalFileName);
            var bare := if StartsWithDot(newExtension) then newExtension[1..] else newExtension;
            && |r| == |base| + 1 + |bare|
            && r[..|base|] == base
            && r[|base|] == '.'
            && r[|base| + 1..] == bare
  {
    var baseName := BaseName(originalFileName);
    var extension := if StartsWithDot(newExtension) then newExtension else "." + newExtension;
    baseName + extension
  }

  /** `getFileExtension`: the lower-cased text after the last `.`; with no `.` at all this
      is the whole name lower-cased. */
  function Extension(fileName: string): (ext: string)
    ensures '.' !in ext
    ensures var k := LastIndexOf(fileName, '.');
            |ext| == |fileName| - (k + 1) &&
            forall i :: 0 <= i < |ext| ==> ext[i] == LowerChar(fileName[k + 1 + i])
  {
    var k := LastIndexOf(fileName, '.');
    ToLower(Substring(fileName, k + 1, |fileName|))
  }

  /** The documented base name of "document.pdf". */
  lemma BaseNameExample()
    ensures BaseName("document.pdf") == "document"
  {
    var name := "document.pdf";
    assert name[8] == '.' && name[9..] == "pdf";
    LastDotUnique(name, 8);
    assert Substring(name, 0, 8) == name[..8] == "document";
  }

  /** The documented renaming of "document.pdf" to a JPEG name. */
  lemma OutputNameExample()
    ensures OutputFileName("document.pdf", "jpg") == "document.jpg"
  {
    BaseNameExample();
    assert "document" + ".jpg" == "document.jpg";
  }

  /** The documented extension of "document.pdf". */
  lemma ExtensionExample()
    ensures Extension("document.pdf") == "pdf"
  {
    var name := "document.pdf";
    assert name[8] == '.' && name[9..] == "pdf";
    LastDotUnique(name, 8);
    var ext := Extension(name);
    assert |ext| == 3;
    assert ext[0] == LowerChar('p') == 'p';
    assert ext[1] == LowerChar('d') == 'd';
    assert ext[2] == LowerChar('f') == 'f';
  }

  /** A name without a dot is its own extension, lower-cased. */
  lemma NoDotExample()
    ensures Extension("README") == "readme"
  {
    var name := "README";
    assert '.' !in name;
    assert LastIndexOf(name, '.') == -1;
    assert name[0..] == name;
  }

  /** The extension may be given with or without its leading dot. */
  lemma LeadingDotIrrelevant(fileName: string, ext: string)
    requires !StartsWithDot(ext)
    ensures OutputFileName(fileName, "." + ext) == OutputFileName(fileName, ext)
  {
  }

  /** Splitting at the last dot and joining again gives the name back, and the extension
      is the lower-cased text after that dot. */
  lemma {:induction false} SplitRoundTrip(fileName: string)
    requires LastIndexOf(fileName, '.') > 0
    ensures var k := LastIndexOf(fileName, '.');
            && BaseName(fileName) + "." + fileName[k + 1..] == fileName
            && Extension(fileName) == ToLower(fileName[k + 1..])
  {
    var k := LastIndexOf(fileName, '.');
    assert Substring(fileName, 0, k) == fileName[..k];
    assert BaseName(fileName) == fileName[..k];
    assert Substring(fileName, k + 1, |fileName|) == fileName[k + 1..];
    assert fileName[..k] + "." + fileName[k + 1..] == fileName by {
      assert fileName == fileName[..k] + [fileName[k]] + fileName[k + 1..];
    }
  }

  /** Renaming to a dot-free extension `e` yields a name whose base is the old base and
      whose extension is `e` lower-cased: the output is `{base}.{e}`. */
  lemma {:induction false} OutputNameParts(fileName: string, ext: string)
    requires fileName != "" && '.' !in ext
    ensures BaseName(OutputFileName(fileName, ext)) == BaseName(fileName)
    ensures Extension(OutputFileName(fileName, ext)) == ToLower(ext)
  {
    var base := BaseName(fileName);
    var out := OutputFileName(fileName, ext);
    assert out == base + "." + ext;
    assert out[|base|] == '.';
    assert out[|base| + 1..] == ext;
    assert '.' !in out[|base| + 1..];
    LastDotUnique(out, |base|);
  }

  /** A dot with no dot after it is the last dot. */
  lemma LastDotUnique(s: string, k: nat)
    requires k < |s| && s[k] == '.' && '.' !in s[k + 1..]
    ensures LastIndexOf(s, '.') == k
  {
    assert forall j :: k < j < |s| ==> s[j] == s[k + 1..][j - k - 1];
  }

  /** The output name for a lower-case, dot-free extension such as `pdf` or `zip` has the
      input's base name and exactly that extension. */
  lemma RenamedParts(fileName: string, ext: string)
    requires fileName != "" && '.' !in ext
    requires forall i :: 0 <= i < |ext| ==> !('A' <= ext[i] <= 'Z')
    ensures BaseName(OutputFileName(fileName, ext)) == BaseName(fileName)
    ensures Extension(OutputFileName(fileName, ext)) == ext
  {
    OutputNameParts(fileName, ext);
  }

  /** The download name for a lower-case, dot-free extension: spelled out it is the base
      name, a dot and the extension, and it splits back into those two parts. */
  lemma RenamedName(fileName: string, ext: string)
    requires '.' !in ext
    requires forall i :: 0 <= i < |ext| ==> !('A' <= ext[i] <= 'Z')
    ensures OutputFileName(fileName, ext) == BaseName(fileName) + "." + ext
    ensures fileName != "" ==>
      BaseName(OutputFileName(fileName, ext)) == BaseName(fileName) &&
      Extension(OutputFileName(fileName, ext)) == ext
  {
    var base := BaseName(fileName);
    assert !StartsWithDot(ext) by {
      if |ext| > 0 {
        assert ext[0] in ext;
      }
    }
    assert OutputFileName(fileName, ext) == base + ("." + ext);
    assert base + ("." + ext) == base + "." + ext;
    if fileName != "" {
      RenamedParts(fileName, ext);
    }
  }

  /** Renaming an already renamed file to the same dot-free extension changes nothing. */
  lemma OutputNameIdempotent(fileName: string, ext: string)
    requires fileName != "" && '.' !in ext
    ensures OutputFileName(OutputFileName(fileName, ext), ext) == OutputFileName(fileName, ext)
  {
    OutputNameParts(fileName, ext);
  }
}
