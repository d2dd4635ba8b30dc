/** The export pass: every stored annotation becomes a pdf-lib drawing primitive on
    a copy of the loaded document, placed through the y-axis flip into page space. */
module Export {
  import opened Geometry
  import opened Annotations
  import opened Preview

  datatype Rgb = Rgb(red: real, green: real, blue: real)

  const Yellow: Rgb := Rgb(1.0, 1.0, 0.0)
  const Blue: Rgb := Rgb(0.0, 0.0, 1.0)

  /** A `drawRectangle` or `drawText` call, as data. */
  datatype Primitive =
    | Rectangle(box: Rect, color: Rgb, opacity: real)
    | Text(text: string, x: real, y: real, color: Rgb, size: real)

  /** A page of the document: its size and the primitives drawn on it, in order. */
  datatype Page = Page(width: real, height: real, content: seq<Primitive>)

  /** What one click on "Export PDF" ends with: nothing without a loaded document,
      a rejected export when a stored page index names no page (`getSize` of an
      undefined page throws), or the annotated copy offered for download. */
  datatype ExportResult = NotLoaded | PageMissing | Saved(pages: seq<Page>)

  /** The primitive one drawn annotation becomes on a page of the given height.
      The stored colour and text play no part. */
  function ExportPrimitive(a: Annotation, pageHeight: real): Primitive
    requires Drawn(a)
  {
    if a.mode == HighlightMode then
      Rectangle(Rect(a.x - 50.0, FlipY(a.y, pageHeight) - 10.0, 100.0, 20.0), Yellow, 0.5)
    else if a.mode == UnderlineMode then
      Rectangle(Rect(a.x - 50.0, FlipY(a.y, pageHeight) + 5.0, 100.0, 3.0), Blue, 0.8)
    else
      Text(CommentGlyph, a.x, FlipY(a.y, pageHeight), Blue, 12.0)
  }

  /** The primitives the inner loop draws on one page, visiting its annotations one by one. */
  function ExportPrimitives(anns: seq<Annotation>, pageHeight: real): seq<Primitive>
  {
    if anns == [] then []
    else
      var last := anns[|anns| - 1];
      ExportPrimitives(anns[..|anns| - 1], pageHeight)
        + (if Drawn(last) then [ExportPrimitive(last, pageHeight)] else [])
  }

  /** A page with the primitives for the given annotations drawn on top of its content. */
  function Annotate(p: Page, anns: seq<Annotation>): Page
  {
    p.(content := p.content + ExportPrimitives(anns, p.height))
  }

  /** Every page index in the store names a page of a document with `n` pages. */
  predicate IndexesPages(store: Store, n: int)
  {
    forall k :: k in store ==> 0 <= k < n
  }

  /** The outcome of the export pass over the loaded document, if any. The order in
      which pages are visited does not matter: each page only receives its own
      annotations. */
  function ExportDocument(doc: Option<seq<Page>>, store: Store): ExportResult
  {
    match doc
    case None => NotLoaded
    case Some(pages) =>
      if !IndexesPages(store, |pages|) then PageMissing
      else Saved(seq(|pages|, i requires 0 <= i < |pages| => Annotate(pages[i], Lookup(store, i))))
  }

  /** The page receives exactly one primitive per drawn annotation, in stored order. */
  lemma {:induction false} ExportFollowsStoredOrder(anns: seq<Annotation>, pageHeight: real)
    ensures |ExportPrimitives(anns, pageHeight)| == |Drawable(anns)|
    ensures forall k :: 0 <= k < |Drawable(anns)| ==>
      ExportPrimitives(anns, pageHeight)[k] == ExportPrimitive(Drawable(anns)[k], pageHeight)
  {
    if anns != [] {
      ExportFollowsStoredOrder(anns[..|anns| - 1], pageHeight);
    }
  }

  /** Preview and export agree on which annotations they draw and in which order:
      the k-th overlay mark and the k-th exported primitive come from the same
      annotation. */
  lemma PreviewAndExportCorrespond(anns: seq<Annotation>, pageHeight: real)
    ensures |ExportPrimitives(anns, pageHeight)| == |PreviewMarks(anns)| == |Drawable(anns)|
    ensures forall k :: 0 <= k < |Drawable(anns)| ==>
      && PreviewMarks(anns)[k] == PreviewMark(Drawable(anns)[k])
      && ExportPrimitives(anns, pageHeight)[k] == ExportPrimitive(Drawable(anns)[k], pageHeight)
  {
    PreviewFollowsStoredOrder(anns);
    ExportFollowsStoredOrder(anns, pageHeight);
  }

  /** For the two rectangle modes the exported rectangle keeps the preview's
      horizontal extent, and its vertical extent is the mirror image of the
      preview's under the flip exactly when the mode is highlight. */
  lemma RectangleMirrorsPreviewOnlyForHighlight(a: Annotation, pageHeight: real)
    requires a.mode == HighlightMode || a.mode == UnderlineMode
    ensures PreviewMark(a).FilledRect? && ExportPrimitive(a, pageHeight).Rectangle?
    ensures HorizontalSpan(ExportPrimitive(a, pageHeight).box) == HorizontalSpan(PreviewMark(a).box)
    ensures VerticalSpan(ExportPrimitive(a, pageHeight).box) == MirrorSpan(VerticalSpan(PreviewMark(a).box), pageHeight)
        <==> a.mode == HighlightMode
  {
  }

  /** The underline lands on opposite sides of its anchor: the preview paints it
      below the anchor on screen, whose mirror lies below the flipped anchor in
      page space, while the export draws it above the flipped anchor. */
  lemma UnderlineExportOnOppositeSide(a: Annotation, pageHeight: real)
    requires a.mode == UnderlineMode
    ensures VerticalSpan(PreviewMark(a).box).lo > a.y
    ensures MirrorSpan(VerticalSpan(PreviewMark(a).box), pageHeight).hi < FlipY(a.y, pageHeight)
    ensures VerticalSpan(ExportPrimitive(a, pageHeight).box).lo > FlipY(a.y, pageHeight)
  {
  }

  /** A comment glyph is drawn at the flipped anchor, so flipping its position back
      gives the point the preview paints it at. */
  lemma CommentGlyphAtFlippedAnchor(a: Annotation, pageHeight: real)
    requires a.mode == CommentMode
    ensures PreviewMark(a).Glyph? && ExportPrimitive(a, pageHeight).Text?
    ensures ExportPrimitive(a, pageHeight).x == PreviewMark(a).x
    ensures FlipY(ExportPrimitive(a, pageHeight).y, pageHeight) == PreviewMark(a).y
    ensures ExportPrimitive(a, pageHeight).text == PreviewMark(a).text
  {
  }

  /** Export uses fixed colours: two annotations that differ only in stored colour,
      text or path export to the same primitive. */
  lemma ExportIgnoresColourAndText(a: Annotation, b: Annotation, pageHeight: real)
    requires Drawn(a) && a.x == b.x && a.y == b.y && a.mode == b.mode
    ensures ExportPrimitive(a, pageHeight) == ExportPrimitive(b, pageHeight)
    ensures a.mode == HighlightMode ==> ExportPrimitive(a, pageHeight) == Rectangle(ExportPrimitive(a, pageHeight).box, Yellow, 0.5)
    ensures a.mode == UnderlineMode ==> ExportPrimitive(a, pageHeight) == Rectangle(ExportPrimitive(a, pageHeight).box, Blue, 0.8)
  {
  }

  /** Without a loaded document the export does nothing; with one it fails exactly
      when some stored page index names no page of it. */
  lemma ExportOutcome(doc: Option<seq<Page>>, store: Store)
    ensures doc.None? <==> ExportDocument(doc, store) == NotLoaded
    ensures ExportDocument(doc, store) == PageMissing <==>
      doc.Some? && exists k :: k in store && !(0 <= k < |doc.value|)
  {
  }

  /** A successful export keeps every page's size and earlier content, adds one
      primitive per drawn annotation stored for that page, and leaves a page with
      no stored annotations exactly as it was. */
  lemma {:induction false} ExportedPage(pages: seq<Page>, store: Store, i: int)
    requires IndexesPages(store, |pages|) && 0 <= i < |pages|
    ensures ExportDocument(Some(pages), store).Saved?
    ensures |ExportDocument(Some(pages), store).pages| == |pages|
    ensures var p := ExportDocument(Some(pages), store).pages[i];
      && p.width == pages[i].width && p.height == pages[i].height
      && p.content[..|pages[i].content|] == pages[i].content
      && |p.content| == |pages[i].content| + |Drawable(Lookup(store, i))|
      && (i !in store ==> p == pages[i])
  {
    var p := ExportDocument(Some(pages), store).pages[i];
    ExportFollowsStoredOrder(Lookup(store, i), pages[i].height);
    assert p.content == pages[i].content + ExportPrimitives(Lookup(store, i), pages[i].height);
    if i !in store {
      assert p.content == pages[i].content + [];
    }
  }

  /** Exporting with an empty store gives back the document unchanged. */
  lemma ExportEmptyStoreCopies(pages: seq<Page>)
    ensures ExportDocument(Some(pages), map[]) == Saved(pages)
  {
    var r := ExportDocument(Some(pages), map[]);
    forall i | 0 <= i < |pages|
      ensures r.pages[i] == pages[i]
    {
      ExportedPage(pages, map[], i);
    }
  }

  /** A three-page, 792-unit-tall document with a highlight at (150, 100) on page 0
      and a comment on page 2: the export leaves page 1 alone, puts the highlight's
      rectangle at page-space y = 792 - 100 - 10 = 682, and the comment glyph at
      the flipped anchor. */
  lemma ExportScenario()
    ensures var blank := Page(612.0, 792.0, []);
      var highlight := Annotation(150.0, 100.0, HighlightMode, "#FF0000", None, None);
      var comment := Annotation(40.0, 700.0, CommentMode, "#FF0000", Some("check"), None);
      var r := ExportDocument(Some([blank, blank, blank]), map[0 := [highlight], 2 := [comment]]);
      && r.Saved? && |r.pages| == 3
      && r.pages[0].content == [Rectangle(Rect(100.0, 682.0, 100.0, 20.0), Yellow, 0.5)]
      && r.pages[1] == blank
      && r.pages[2].content == [Text(CommentGlyph, 40.0, 92.0, Blue, 12.0)]
  {
    var blank := Page(612.0, 792.0, []);
    var highlight := Annotation(150.0, 100.0, HighlightMode, "#FF0000", None, None);
    var comment := Annotation(40.0, 700.0, CommentMode, "#FF0000", Some("check"), None);
    var store := map[0 := [highlight], 2 := [comment]];
    assert Lookup(store, 0) == [highlight] && Lookup(store, 1) == [] && Lookup(store, 2) == [comment];
    assert ExportPrimitives([highlight], 792.0) == [Rectangle(Rect(100.0, 682.0, 100.0, 20.0), Yellow, 0.5)];
    assert ExportPrimitives([comment], 792.0) == [Text(CommentGlyph, 40.0, 92.0, Blue, 12.0)];
    ExportedPage([blank, blank, blank], store, 1);
  }
}
