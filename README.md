# PDF annotation viewer — Dafny model

This project models the annotation viewer of a small Next.js application: the
`PDFViewer` component, which shows one page of a loaded PDF with a transparent
canvas on top. The canvas paints the annotations stored for the current page.
An "Export PDF" button burns every stored annotation into a copy of the document
through pdf-lib.

What is modelled:

- **Annotation store** (`Annotations`): the record `{x, y, mode, color, text?, path?}`
  and the page-indexed map kept in a ref. `Lookup` reads a page the way
  `annotations.current[page] || []` does. `Drawable` picks out the modes that both
  passes draw: highlight, underline and comment. Modes are kept as strings, as in
  the component, so "signature" and any other string draw nothing.
- **Session** (`Viewer.PdfViewer`): a class holding the loaded document, `numPages`,
  `currentPage`, the toolbar mode and colour, the store and the overlay canvas.
  Its methods are the handlers: load, page navigation, the mode and colour
  setters, and Clear. Its invariant keeps `currentPage` a page of the document
  (or 0 when there are none).
- **Preview render pass** (`Preview`, `Viewer.PdfViewer.RenderAnnotations`): the
  canvas 2D context is a class with `fillStyle`, `globalAlpha` and the list of
  marks painted so far. The paint loop is proved to leave exactly
  `PreviewMarks` on the overlay: one mark per drawn annotation, in stored order,
  with the fixed footprints.
- **Export pass** (`Export`, `Viewer.PdfViewer.ExportPdf`): pages are values holding
  their size and the primitives drawn on them. `drawRectangle`/`drawText` calls
  become `Primitive` values placed through the flip `y ↦ height - y`. The
  export loop is proved equal to `ExportDocument`.
- **Geometry** (`Geometry`): rectangles, vertical and horizontal spans, the flip
  and the mirror image of a span. The key proved facts: a highlight's exported
  rectangle is the exact mirror of its preview rectangle. An underline's is not:
  the preview paints it below the anchor, while the export draws it above the
  flipped anchor.

Coordinates are `real` (JavaScript numbers without rounding).
`Viewer.PdfViewer.Append` and `Annotations.Append` form a test harness. The
component never adds an annotation: the canvas has no pointer handlers, and
`isDrawing`/`signaturePath` are never used. The harness exists only to populate
the store for `Viewer.StaleOverlayAfterNavigation`, a client method that runs a
concrete session through the verified contracts. `Export.ExportScenario` works
a concrete three-page export out from the export functions.

Behaviour worth knowing:

- A stored page index that names no page makes the export fail (`PageMissing`:
  `getSize` on an undefined page throws). The page is not skipped.
- Loading a document does not clear the store.
- The preview paints a comment glyph at alpha 0.5, in blue. The export draws the
  same glyph, not the comment's text.
- The preview fills highlights and underlines with the stored colour. The export
  uses fixed yellow and blue.

## Model

| member | source | states |
|---|---|---|
| `Annotations.Lookup` | components/PDFViewer.tsx:66 | the page's stored sequence, or the empty sequence for a page absent from the store (the empty-array fallback, also line 101) |
| `Annotations.Drawn` | components/PDFViewer.tsx:70-77 | true exactly for the modes "highlight", "underline" and "comment", the ones the if-chain draws something for |
| `Annotations.Drawable` | components/PDFViewer.tsx:70-77 | the filtered page holds only highlight, underline or comment annotations and is no longer than the page; a page of only such modes keeps all, a page of only other modes keeps none |
| `Annotations.DrawableKeepsExactlyDrawn` | components/PDFViewer.tsx:70-77 | an annotation is kept if and only if it is stored for the page and its mode is highlight, underline or comment |
| `Annotations.DrawableConcat` | components/PDFViewer.tsx:66 | the filter distributes over concatenation, so the kept annotations stay in their stored order |
| `Annotations.SignatureNotDrawn` | components/PDFViewer.tsx:145 | the "signature" mode the toolbar sets is not drawn, and a page holding only such an annotation draws nothing |
| `Annotations.Append` | components/PDFViewer.tsx:17 | test harness, not part of the component: adds an annotation at the end of a page's sequence, creating it when absent, and leaves every other page as it was |
| `Preview.HighlightBox` | components/PDFViewer.tsx:71 | the preview highlight is a 100×20 rectangle centred on the anchor |
| `Preview.UnderlineBox` | components/PDFViewer.tsx:73 | the preview underline is 100×3, centred horizontally on the anchor, and starts 5 px below it in screen space |
| `Preview.PreviewMark` | components/PDFViewer.tsx:67-77 | the mark one drawn annotation leaves: the highlight or underline box in the stored colour, or the blue glyph at the anchor, all at alpha 0.5 |
| `Preview.PreviewMarks` | components/PDFViewer.tsx:66-80 | the marks the forEach leaves on a cleared overlay, one step per stored annotation, nothing for a mode that is not drawn |
| `Preview.FillStyleAfter` | components/PDFViewer.tsx:67-75 | the fill style left after one annotation: its stored colour, or "blue" after a comment |
| `Preview.PreviewFollowsStoredOrder` | components/PDFViewer.tsx:66-80 | the overlay holds one mark per drawn annotation of the page, the k-th mark coming from the k-th drawn annotation |
| `Preview.PreviewColour` | components/PDFViewer.tsx:67-76 | highlights and underlines are painted in the stored colour and comments as a blue glyph, all at alpha 0.5; the fill style left behind is that colour, or blue after a comment |
| `Preview.Canvas.constructor` | components/PDFViewer.tsx:61 | a fresh 2D context: fill style "#000000", alpha 1, nothing painted |
| `Preview.Canvas.ClearRect` | components/PDFViewer.tsx:64 | clearing the full surface removes every mark and keeps the context's style |
| `Preview.Canvas.FillRect` | components/PDFViewer.tsx:71-73 | a rectangle is painted with the fill style and alpha current at that moment |
| `Preview.Canvas.FillText` | components/PDFViewer.tsx:76 | a glyph is painted at the given point with the current fill style and alpha |
| `Geometry.FlipY` | components/PDFViewer.tsx:105 | the screen-to-page transform `height - y` used at lines 105, 114 and 123 |
| `Geometry.MirrorInvolution` | components/PDFViewer.tsx:105 | the flip `v ↦ height - v` is its own inverse, so mirroring a span twice gives it back |
| `Export.ExportPrimitive` | components/PDFViewer.tsx:102-127 | the primitive for one drawn annotation: highlight rectangle (x-50, h-y-10, 100, 20) yellow at 0.5, underline rectangle (x-50, h-y+5, 100, 3) blue at 0.8, comment glyph at (x, h-y) blue at size 12 |
| `Export.ExportPrimitives` | components/PDFViewer.tsx:101-128 | the primitives the inner forEach draws on one page, one step per stored annotation, nothing for a mode that is not drawn |
| `Export.Annotate` | components/PDFViewer.tsx:98-128 | a page with the primitives for its annotations drawn after its existing content, through the flip for its own height |
| `Export.ExportDocument` | components/PDFViewer.tsx:91-129 | no document gives NotLoaded; a stored page index naming no page gives PageMissing; otherwise every page of the copy is annotated with its own stored annotations |
| `Export.ExportFollowsStoredOrder` | components/PDFViewer.tsx:101-128 | a page receives exactly one primitive per drawn annotation stored for it, in stored order |
| `Export.PreviewAndExportCorrespond` | components/PDFViewer.tsx:101-128 | preview and export draw the same annotations in the same order: the k-th overlay mark and the k-th exported primitive come from the same annotation |
| `Export.RectangleMirrorsPreviewOnlyForHighlight` | components/PDFViewer.tsx:103-118 | for highlight and underline the exported rectangle keeps the preview's horizontal extent, and its vertical extent is the mirror of the preview's under the flip if and only if the mode is highlight |
| `Export.UnderlineExportOnOppositeSide` | components/PDFViewer.tsx:111-119 | the preview underline lies below its anchor and so does its mirror below the flipped anchor, while the exported underline lies above the flipped anchor |
| `Export.CommentGlyphAtFlippedAnchor` | components/PDFViewer.tsx:120-126 | the exported comment glyph sits at the flipped anchor: same x, and flipping its y back gives the preview's y |
| `Export.ExportIgnoresColourAndText` | components/PDFViewer.tsx:102-127 | the exported primitive depends only on position and mode: highlights are yellow at opacity 0.5, underlines blue at 0.8, whatever colour or text was stored |
| `Export.ExportOutcome` | components/PDFViewer.tsx:91-99 | export does nothing exactly when no document is loaded, and fails exactly when some stored page index names no page of the document |
| `Export.ExportedPage` | components/PDFViewer.tsx:97-129 | a successful export keeps the page count, each page's size and earlier content, adds as many primitives as the page has drawn annotations, and leaves a page without stored annotations unchanged |
| `Export.ExportEmptyStoreCopies` | components/PDFViewer.tsx:94-97 | with an empty store the exported document equals the loaded one |
| `Export.ExportScenario` | components/PDFViewer.tsx:97-126 | on three 792-unit-tall pages with a highlight at (150, 100) on page 0 and a comment at (40, 700) on page 2, page 1 is unchanged, the highlight's rectangle has page-space y = 792 - 100 - 10 = 682, and the glyph sits at y = 92 |
| `Viewer.DrawAnnotations` | components/PDFViewer.tsx:101-128 | the inner loop over one page's annotations leaves that page with exactly the primitives `ExportPrimitives` gives for them appended to its content |
| `Viewer.Navigate` | components/PDFViewer.tsx:83-89 | navigation moves by exactly +1 or -1 or stays, only ever lands on a page of the document, stays in range from a page in range, is a no-op for Prev on page 0 and Next on the last page, and moves whenever the neighbour exists |
| `Viewer.NavigateUndo` | components/PDFViewer.tsx:83-89 | a Next that moved is undone by Prev, and a Prev that moved is undone by Next |
| `Viewer.PdfViewer.constructor` | components/PDFViewer.tsx:9-19 | no document, zero pages, page 0, no mode, colour #FF0000, empty store |
| `Viewer.PdfViewer.RenderAnnotations` | components/PDFViewer.tsx:58-81 | with a canvas, the overlay ends up showing exactly the preview marks of the given page's annotations (nothing for a page absent from the store), with alpha back at 1 and the fill style of the last annotation; the store is not modified |
| `Viewer.PdfViewer.LoadPdf` | components/PDFViewer.tsx:25-32 | a parsed document sets the document, `numPages` to its page count and `currentPage` to 0, keeps the store, and keeps the session invariant; a failed parse changes nothing |
| `Viewer.PdfViewer.MovePage` | components/PDFViewer.tsx:84-86 | `currentPage` becomes `Navigate` of the old page, the invariant is kept, and the result says whether the page changed |
| `Viewer.PdfViewer.GoToPage` | components/PDFViewer.tsx:83-89 | as `MovePage`, then the overlay shows the annotations of the page moved to; a move that is refused leaves the overlay untouched |
| `Viewer.PdfViewer.GoToPageAsWritten` | components/PDFViewer.tsx:87 | as `MovePage`, then the overlay shows the annotations of the page that was current before the move |
| `Viewer.PdfViewer.SetAnnotationMode` | components/PDFViewer.tsx:143-146 | the toolbar buttons set the mode |
| `Viewer.PdfViewer.SetColor` | components/PDFViewer.tsx:147 | the colour picker sets the colour |
| `Viewer.PdfViewer.Clear` | components/PDFViewer.tsx:148 | the store becomes empty, every page looks up as empty, the overlay is blank with its style kept; on an empty store and blank overlay a second Clear changes nothing |
| `Viewer.PdfViewer.Append` | components/PDFViewer.tsx:17 | test harness, not part of the component: the store becomes `Annotations.Append` of the old store |
| `Viewer.StaleOverlayAfterNavigation` | components/PDFViewer.tsx:87 | a two-page session with a highlight on page 0: after Next, the as-written redraw shows that highlight over page 1, which has no annotations, and the corrected redraw shows nothing |
| `Viewer.PdfViewer.ExportPdf` | components/PDFViewer.tsx:91-129 | for any enumeration of the stored page indices, each listed once, the export loop's outcome equals `ExportDocument` of the loaded document and the store |

## Left out

- components/FileUploader.tsx, components/Header.tsx, components/PDFAnnotation.tsx, app/layout.tsx, app/page.tsx: intake, markup and wiring with no annotation logic.
- Capturing annotations: the component has no code that adds one, so there is no capture or signature state machine; `isDrawing` and `signaturePath` are never used.
- pdf-lib itself: `PDFDocument.load`, `save`, `create` and `copyPages` are not modelled. A load is a parameter (`None` for a failed parse), and the save-and-reload copy in the export is the identity. `drawRectangle` and `drawText` are sinks recorded as `Primitive` values and are assumed never to throw. `Export.ExportOutcome` holds only under that assumption: pdf-lib's standard fonts use the WinAnsi encoding, which has no code for the comment glyph U+1F4AC, so `drawText` with the default font may throw on a comment.
- `updatePdfPreview`, `adjustCanvasSize` and the download link: the page preview in an iframe, the 500 ms timer, resizing the canvas to the iframe (which in a browser also resets the context's style), and the `annotated.pdf` download. The redraw these lead to is modelled as a direct call of the render pass with the page the scheduling closure saw. Because the canvas resize that precedes it (and resets the context's style) is left out, `LoadPdf`, `GoToPage` and `GoToPageAsWritten` state the overlay's marks after a redraw but leave its `fillStyle` and `globalAlpha` unspecified.
- The canvas size and clipping: `clearRect` over the full surface is modelled as removing every mark, and marks are not clipped. Colour strings are stored as given, not parsed; a canvas ignores an unparsable `fillStyle`.
- `getContext("2d")` returning nothing is folded into the canvas being absent.
- React state updates are modelled as immediate; batching and effect scheduling are not modelled. The load effect runs once in this application, because the uploader is replaced by the viewer after the first file.
- The width returned by `getSize` is read but unused by the component, and it is unused here.
- Viewer.PdfViewer.ExportPdf: the key enumeration order of `for…in` is a parameter (JavaScript gives non-negative integer keys in ascending order, then any negative keys in insertion order), so the contract covers every order rather than the one order JavaScript uses. The outcome does not depend on the order.
- Viewer.PdfViewer.LoadPdf: on a successful load, the contract says the overlay shows the page that was current when the load began. In this application that page is always 0.

## Findings

| source | as written | input that shows it | evidently intended | confidence | as-written member | corrected member |
|---|---|---|---|---|---|---|
| components/PDFViewer.tsx:87 | the overlay redraw that `goToPage` schedules (through `updatePdfPreview`, the timer at line 46, and `adjustCanvasSize` at line 55) is made of closures from the render in which the button was pressed, so `renderAnnotations` reads the `currentPage` from before the move | a two-page document with a highlight at (150, 100) on page 0, then Next: the overlay on page 1 shows page 0's highlight (`StaleOverlayAfterNavigation`) | the overlay shows the annotations of the page moved to | medium, not executed; latent, because the component never adds an annotation | `Viewer.PdfViewer.GoToPageAsWritten` | `Viewer.PdfViewer.GoToPage` |
