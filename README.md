# File-Helper tool workflows in Dafny

File-Helper is a client-side website of file tools. What it computes itself, rather than
delegating to a codec library, is modelled here:

- **Output naming** (`utils/fileNameHelper.ts`): base name, extension swap and extension,
  all cut at the last `.` (module `FileNameHelper`).
- **Tool workflows**: each functional tool component is a class whose fields are the
  component's React state and whose methods are its handlers, each taken as one atomic
  transition. The classes are `PdfRotator.Rotator`, `ImageResizer.Resizer`,
  `ImageToPdf.Converter`, `MergePdf.Merger`, `PdfSplitter.Splitter` and
  `PdfToImage.Converter`. Library calls are parameters of the handlers:
  - a PDF's page count, or `None` when the library throws while loading;
  - whether an image decodes, and whether a canvas yields a 2D context.

  A result object URL is modelled as the abstract artifact it points to: pages, archive
  entries or a size.
- **Routing** (`pages/ToolPage.tsx`): lookup of a tool by slug, redirect of unknown slugs
  to `/`, the page title, and the "Related Tools" list (module `ToolPage`).

Shared pieces: `Files` holds the file handle, PDF page and `Math.min`. `Decimal` renders
numbers in template literals such as `page-${k}.pdf`. `Rounding` computes `Math.round(n / d)`
exactly as `floor(n / d + 1/2)` over integers.

## Model

| member | source | states |
|---|---|---|
| Files.Min | tools/PDFRotator.tsx:25 | `Math.min`: no larger than either argument and equal to one of them |
| Decimal.Decimal | tools/PDFSplitter.tsx:39 | the rendered number is non-empty, all digits, and has no leading zero unless it is 0 |
| Decimal.ValueOfDecimal | tools/PDFSplitter.tsx:39 | reading the decimal text back gives the number |
| Decimal.DecimalInjective | tools/PDFSplitter.tsx:39 | distinct numbers render as distinct text |
| Rounding.RoundDiv | tools/ImageResizer.tsx:35 | the result r satisfies r <= n/d + 1/2 < r + 1, i.e. it is `Math.round(n / d)` |
| Rounding.RoundDivUnique | tools/ImageResizer.tsx:35 | that window holds exactly one integer, so the bounds characterise the rounding |
| Rounding.RoundDivExact | tools/ImageResizer.tsx:35 | an exact quotient k*d/d rounds to k |
| Rounding.RoundDivMonotone | tools/PDFSplitter.tsx:41 | a larger numerator never rounds lower |
| FileNameHelper.LastIndexOf | utils/fileNameHelper.ts:6 | `lastIndexOf`: -1, or an index holding the character with no occurrence after it |
| FileNameHelper.Substring | utils/fileNameHelper.ts:6-24 | JavaScript `substring`: for every pair of bounds, the slice between the clamped bounds, taken in either order; so an in-range pair gives that slice, and both bounds on the same side of the string give "" |
| FileNameHelper.ToLower | utils/fileNameHelper.ts:24 | `toLowerCase` on ASCII: same length, each letter A-Z mapped to its lower case, other characters kept |
| FileNameHelper.BaseName | utils/fileNameHelper.ts:5-7 | when the last dot is at an index k > 0 the base is the prefix before it; with no dot after index 0 it is the whole name; never empty for a non-empty name |
| FileNameHelper.OutputFileName | utils/fileNameHelper.ts:13-17 | the result is the base name, exactly one `.`, then the extension without its leading dot |
| FileNameHelper.Extension | utils/fileNameHelper.ts:23-25 | the text after the last dot (the whole name when there is none), lower-cased; it never contains a dot |
| FileNameHelper.BaseNameExample | utils/fileNameHelper.ts:1-7 | "document.pdf" has the base name "document" |
| FileNameHelper.OutputNameExample | utils/fileNameHelper.ts:9-17 | "document.pdf" renamed to "jpg" is "document.jpg" |
| FileNameHelper.ExtensionExample | utils/fileNameHelper.ts:19-25 | "document.pdf" has the extension "pdf" |
| FileNameHelper.NoDotExample | utils/fileNameHelper.ts:23-25 | "README" has the extension "readme" |
| FileNameHelper.LeadingDotIrrelevant | utils/fileNameHelper.ts:15 | renaming to ".e" and to "e" give the same name |
| FileNameHelper.SplitRoundTrip | utils/fileNameHelper.ts:5-24 | with the last dot at index k > 0, base + "." + text after the dot is the name again, and the extension is that text lower-cased |
| FileNameHelper.OutputNameParts | utils/fileNameHelper.ts:13-17 | for a non-empty name and a dot-free extension e, the output's base is the input's base and its extension is e lower-cased |
| FileNameHelper.RenamedParts | utils/fileNameHelper.ts:13-17 | the same for a lower-case extension such as "pdf" or "zip": the output's extension is exactly it |
| FileNameHelper.OutputNameIdempotent | utils/fileNameHelper.ts:13-17 | renaming a renamed name to the same dot-free extension changes nothing |
| FileNameHelper.RenamedName | utils/fileNameHelper.ts:13-17 | for a lower-case, dot-free extension the output is exactly base + "." + extension and splits back into those parts |
| ToolPage.Find | pages/ToolPage.tsx:43 | the result is a catalog entry with the slug as id; there is none exactly when no entry has that id |
| ToolPage.FindIsFirst | pages/ToolPage.tsx:43 | the entry found is the first one whose id is the slug |
| ToolPage.FindByOwnId | pages/ToolPage.tsx:43 | with distinct ids, each entry is found by its own id |
| ToolPage.PageTitle | pages/ToolPage.tsx:48 | the title is the tool's title followed by " - FileHelper.xyz \| Free Online Tool" |
| ToolPage.PageTitleDeterminesToolTitle | pages/ToolPage.tsx:48 | equal page titles mean equal tool titles |
| ToolPage.Candidates | pages/ToolPage.tsx:158 | an entry is a candidate exactly when it is in the catalog, has another id and the same category |
| ToolPage.CandidatesAppend | pages/ToolPage.tsx:158 | filtering keeps catalog order: filtering a concatenation concatenates the filtered parts |
| ToolPage.RelatedTools | pages/ToolPage.tsx:158 | at most 6 entries, all related to the tool, a prefix of the candidates of length min(candidates, 6) |
| ToolPage.RelatedExcludesSelf | pages/ToolPage.tsx:158 | the current tool is never among its related tools |
| ToolPage.RelatedComplete | pages/ToolPage.tsx:158 | with at most 6 candidates every related catalog entry is listed |
| ToolPage.Route | pages/ToolPage.tsx:42-56 | an unknown slug redirects to "/"; a known one shows the tool `Find` returns (the first with that id), with its page title and related tools |
| PdfRotator.Turn | tools/PDFRotator.tsx:48 | one click gives a rotation below 360 congruent to the old one plus 90 |
| PdfRotator.TurnKeepsRightAngle | tools/PDFRotator.tsx:48 | rotations in {0, 90, 180, 270} stay in that set |
| PdfRotator.FourTurns | tools/PDFRotator.tsx:48 | four turns give the rotation mod 360 |
| PdfRotator.FourTurnsRestore | tools/PDFRotator.tsx:48 | four turns restore a right-angle rotation |
| PdfRotator.InitialPreviews | tools/PDFRotator.tsx:25-36 | min(pages, 30) thumbnails; thumbnail i shows page i + 1 at rotation 0 |
| PdfRotator.Applied | tools/PDFRotator.tsx:65-69 | one rotation per page: a page with a thumbnail rotated away from 0 takes that rotation; every other page keeps its own |
| PdfRotator.PagesPastCapUntouched | tools/PDFRotator.tsx:65-69 | with at most 30 thumbnails, saving never changes a page from index 30 on |
| PdfRotator.UnturnedSaveIsIdentity | tools/PDFRotator.tsx:65-69 | saving untouched thumbnails leaves every page's rotation as it was |
| PdfRotator.ApplyRotations | tools/PDFRotator.tsx:65-69 | in place: page i takes thumbnail i's rotation when both exist and it is non-zero, otherwise keeps its own |
| PdfRotator.Rotator.constructor | tools/PDFRotator.tsx:10-13 | no file, no thumbnails, not processing, no result |
| PdfRotator.Rotator.HandleFiles | tools/PDFRotator.tsx:15-44 | empty selection: no change; else first file taken, result cleared, and on load min(pages, 30) thumbnails in page order at rotation 0 |
| PdfRotator.Rotator.RotatePage | tools/PDFRotator.tsx:46-50 | thumbnail `index` turned by 90 mod 360, all others and the length unchanged |
| PdfRotator.Rotator.RotateAll | tools/PDFRotator.tsx:52-54 | every thumbnail turned, length and order kept |
| PdfRotator.Rotator.SaveRotated | tools/PDFRotator.tsx:56-79 | without a file nothing changes; on load the result is the pages with the thumbnails' rotations applied; on failure the result is kept |
| PdfRotator.Rotator.Reset | tools/PDFRotator.tsx:81-85 | file, thumbnails and result cleared; the processing flag is not touched |
| ImageResizer.Scaled | tools/ImageResizer.tsx:35 | the paired dimension is `Math.round(value * other / anchor)` |
| ImageResizer.ScaledNatural | tools/ImageResizer.tsx:33-46 | locked, entering the natural size of one side gives the natural size of the other |
| ImageResizer.ScaledKeepsRatio | tools/ImageResizer.tsx:35 | locked, the edited size keeps the natural ratio within rounding: 2 * abs(h * ow - w * oh) <= ow |
| ImageResizer.ScaledMonotone | tools/ImageResizer.tsx:35 | a larger input never gives a smaller paired dimension |
| ImageResizer.FieldValue | tools/ImageResizer.tsx:96 | text that is not a number becomes 0, a number is kept |
| ImageResizer.Resizer.ResizeEnabled | tools/ImageResizer.tsx:121 | the resize button is enabled only for an idle tool with a positive width and height, and disabled when processing or when either side is <= 0 |
| ImageResizer.Resizer.constructor | tools/ImageResizer.tsx:8-14 | no file, sizes 0 by 0, ratio locked, not processing, no result |
| ImageResizer.Resizer.HandleFiles | tools/ImageResizer.tsx:16-31 | empty selection: no change; else only the first file taken, result cleared, natural and edited size set from the decoded image |
| ImageResizer.Resizer.UpdateWidth | tools/ImageResizer.tsx:33-40 | width set; height rescaled when locked with a known natural width, else kept; nothing else changes |
| ImageResizer.Resizer.UpdateHeight | tools/ImageResizer.tsx:42-49 | the symmetric update of the height |
| ImageResizer.Resizer.OnWidthInput | tools/ImageResizer.tsx:96 | the width becomes the typed number (0 for non-numeric text, which disables the resize button); the height is rescaled when the ratio is locked and the natural width is known, and kept otherwise |
| ImageResizer.Resizer.OnHeightInput | tools/ImageResizer.tsx:105 | the symmetric update: the height becomes the typed number (0 for non-numeric text, which disables the button); the width follows when locked with a known natural height |
| ImageResizer.Resizer.SetMaintainRatio | tools/ImageResizer.tsx:114 | the ratio lock follows the checkbox |
| ImageResizer.Resizer.Resize | tools/ImageResizer.tsx:51-68 | a disabled button (processing or a side <= 0) or a missing file changes nothing; a preview that does not decode leaves the tool processing with the result unchanged, since there is no error handler; otherwise the tool becomes idle with the image at the edited size when a context exists |
| ImageResizer.Resizer.Reset | tools/ImageResizer.tsx:70-75 | file, preview, result and processing cleared; sizes and ratio lock kept |
| ImageToPdf.Images | tools/ImageToPDF.tsx:18 | the filter never yields more files than it is given |
| ImageToPdf.ImagesSpec | tools/ImageToPDF.tsx:18 | exactly the inputs whose MIME type starts with "image/" are kept; all are kept exactly when all are images |
| ImageToPdf.ImagesAppend | tools/ImageToPDF.tsx:18 | the filter keeps input order |
| ImageToPdf.SkippedCount | tools/ImageToPDF.tsx:19 | zero exactly when every input is an image |
| ImageToPdf.WithoutId | tools/ImageToPDF.tsx:133 | an item survives exactly when its id differs |
| ImageToPdf.WithoutIdAppend | tools/ImageToPDF.tsx:133 | removal keeps the survivors in order |
| ImageToPdf.WithoutAbsentId | tools/ImageToPDF.tsx:133 | removing an id nobody has changes nothing |
| ImageToPdf.NewItems | tools/ImageToPDF.tsx:27-33 | one item per accepted image, in order: item k holds image k with id idFor(k), pending at progress 0 |
| ImageToPdf.OnePagePerImage | tools/ImageToPDF.tsx:48-71 | one page per item, in list order; page k holds item k's image alone |
| ImageToPdf.Converter.constructor | tools/ImageToPDF.tsx:10-13 | empty list, not processing, no result, no message |
| ImageToPdf.Converter.HandleFiles | tools/ImageToPDF.tsx:15-37 | message set exactly when files were skipped, with their count; no image: list and result kept; else pending items appended in order, result cleared |
| ImageToPdf.Converter.RemoveById | tools/ImageToPDF.tsx:133 | exactly the items with that id removed, the rest kept in order |
| ImageToPdf.Converter.GeneratePdf | tools/ImageToPDF.tsx:39-85 | empty list: no change; all decode: one page per item in list order; else result kept with an error message; never left processing |
| ImageToPdf.Converter.DownloadName | tools/ImageToPDF.tsx:174 | exactly the first image's base name, ".", "pdf"; for a non-empty name it splits back into that base and the extension "pdf" |
| ImageToPdf.Converter.DismissError | tools/ImageToPDF.tsx:117 | the message is cleared |
| ImageToPdf.Converter.Reset | tools/ImageToPDF.tsx:96-101 | list emptied; result, processing flag and message cleared |
| MergePdf.RemoveAt | tools/MergePDF.tsx:43-45 | position `index` dropped and the others kept in order; an index outside the list drops nothing |
| MergePdf.WithoutPosition | tools/MergePDF.tsx:44 | the position filter never yields more files than it is given |
| MergePdf.WithoutPositionSpec | tools/MergePDF.tsx:44 | the position filter started at any offset drops exactly the element at that position |
| MergePdf.Merged | tools/MergePDF.tsx:25-30 | the page count is the sum of the files' page counts, and each page comes from a listed file |
| MergePdf.MergedAppend | tools/MergePDF.tsx:25-30 | merging a concatenated list concatenates the merged parts |
| MergePdf.Merger.constructor | tools/MergePDF.tsx:9-11 | empty list, not processing, no result |
| MergePdf.Merger.MergeEnabled | tools/MergePDF.tsx:74 | the merge button is enabled only for an idle tool with at least 2 files, and disabled when processing or when fewer are listed |
| MergePdf.Merger.HandleFiles | tools/MergePDF.tsx:13-16 | selection appended after the listed files; result cleared |
| MergePdf.Merger.RemoveFile | tools/MergePDF.tsx:43-45 | the list loses position `index` only; the result is not cleared |
| MergePdf.Merger.MergeFiles | tools/MergePDF.tsx:18-41 | fewer than 2 files: no change, which for an idle tool is exactly when the merge button is disabled; all load: the files' pages concatenated in list order; a failed load keeps the result |
| MergePdf.Merger.DownloadName | tools/MergePDF.tsx:84 | exactly the first file's base name, ".", "pdf"; for a non-empty name it splits back into that base and the extension "pdf" |
| MergePdf.Merger.ClearAll | tools/MergePDF.tsx:91 | list and result emptied |
| PdfSplitter.EntryName | tools/PDFSplitter.tsx:39 | "page-", then digits that read back as k, then ".pdf" |
| PdfSplitter.EntryNameInjective | tools/PDFSplitter.tsx:39 | distinct page numbers give distinct entry names |
| PdfSplitter.EntriesDistinctNames | tools/PDFSplitter.tsx:34-39 | no two entries of an archive share a name |
| PdfSplitter.Entries | tools/PDFSplitter.tsx:34-39 | n entries; entry k is named page-(k+1).pdf and holds page k alone |
| PdfSplitter.Progress | tools/PDFSplitter.tsx:41 | the percentage after copying page i is the integer nearest to 10 + 80 * i / n (halves rounded up), as `Math.round` gives |
| PdfSplitter.ProgressBounds | tools/PDFSplitter.tsx:41 | while pages are copied the percentage lies in [10, 90] |
| PdfSplitter.ProgressMonotone | tools/PDFSplitter.tsx:41 | the percentage never decreases from page to page |
| PdfSplitter.Splitter.constructor | tools/PDFSplitter.tsx:10-13 | no file, not processing, no result, progress 0 |
| PdfSplitter.Splitter.HandleFiles | tools/PDFSplitter.tsx:15-21 | empty selection: no change; else first file, result cleared, progress 0 |
| PdfSplitter.Splitter.SplitPdf | tools/PDFSplitter.tsx:23-53 | no file: no change; on load N entries page-1.pdf..page-N.pdf, entry k holding page k only, progress 100; on failure result kept, progress 10 |
| PdfSplitter.Splitter.DownloadName | tools/PDFSplitter.tsx:98 | exactly the file's base name, ".", "zip"; for a non-empty name it splits back into that base and the extension "zip" |
| PdfSplitter.Splitter.Reset | tools/PDFSplitter.tsx:55-59 | file, result and processing cleared; progress not touched |
| PdfToImage.Rendered | tools/PDFToImage.tsx:34-48 | at most `upTo` images |
| PdfToImage.RenderedSpec | tools/PDFToImage.tsx:36-47 | the images show exactly the pages in 1..upTo whose canvas has a context, in strictly increasing page order |
| PdfToImage.RenderedAll | tools/PDFToImage.tsx:36-47 | when every canvas has a context, image k shows page k + 1 and all pages are rendered |
| PdfToImage.ImageName | tools/PDFToImage.tsx:116 | the PDF's base name, "-page-", digits that read back as idx + 1, ".png" |
| PdfToImage.ImageNameInjective | tools/PDFToImage.tsx:116 | images of one PDF get distinct download names |
| PdfToImage.Converter.constructor | tools/PDFToImage.tsx:12-14 | no file, no images, not processing |
| PdfToImage.Converter.HandleFiles | tools/PDFToImage.tsx:16-21 | empty selection: no change; else first file, images cleared |
| PdfToImage.Converter.ProcessPdf | tools/PDFToImage.tsx:23-56 | no file: no change; on load the images of pages 1..min(pages, 50) with a context, at most 50; on failure images kept |
| PdfToImage.Converter.Reset | tools/PDFToImage.tsx:58-62 | file, images and processing cleared |

## Left out

- Codec work is not modelled: jsPDF assembly and fit-to-page scaling, pdf-lib load, copy and save, pdf.js rendering, JSZip archiving. Each appears only as its outcome, passed in as a parameter.
- Failures part-way through a loop are not modelled. A page render or copy that throws after the document has loaded is not separate from a failed load, so a failure is an `Option` of the load.
- Object URLs and their revocation, `FileReader`, canvas drawing, `sessionStorage` (where image-to-PDF stores its output name) and DOM meta tags are left out. So are `alert`, `console.error`, `window.scrollTo`, the dark-mode flag and React rendering.
- Async sequencing is not modelled. Each handler is one atomic transition, and `img.onload` is folded into the handler that installs it. Whether the image decodes is a parameter; when it does not, the callback never runs and only the handler's synchronous part takes effect.
- Random item ids (`Math.random`) are an input function `idFor`.
- Floating-point rounding is replaced by exact arithmetic. `Math.round` of a ratio is computed exactly over integers, so a double-precision deviation at an exact .5 tie is not captured.
- `toLowerCase` is modelled for ASCII only.
- The catalog in constants.tsx is a parameter: a sequence of (id, title, category) records. Its descriptions, FAQs and icons are omitted, and its literal content is not part of this model.
- `rotatePage` with an index outside the list throws a TypeError before any state is set. The model keeps the state unchanged.
- ImageResizer.Resizer.Resize: the source handler checks only for a file and a preview. The button's disabled condition is part of this method because the button is the handler's only caller.
- The presentational components, the "coming soon" tools, the ZIP extractor, the image compressor and the WebP converter are not part of this model.
