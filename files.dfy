/** Values shared by every tool: the optional value, the browser's file handle and a PDF page. */
module Files {

  datatype Option<+T> = None | Some(value: T)

  /** A native `File` handle as the browser hands it to a tool: `handle` tells two
      selected files apart, `name` and `mimeType` are its `name` and `type`. */
  datatype FileRef = FileRef(handle: nat, name: string, mimeType: string)

  /** Page `index` (0-based) of the PDF held by `source`, as a codec copies it. */
  datatype PdfPage = PdfPage(source: FileRef, index: nat)

  /** The extension given to every generated PDF's download name. */
  const PdfExtension: string := "pdf"

  /** JavaScript's `Math.min` on two naturals. */
  function Min(a: nat, b: nat): (m: nat)
    ensures m <= a && m <= b
    ensures m == a || m == b
  {
    if a <= b then a else b
  }
}
