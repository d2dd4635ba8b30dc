/** The viewer session: the loaded document, the page counters, the toolbar
    choices, the annotation store and the overlay canvas, with the handlers that
    change them and the render and export passes that read them. */
module Viewer {
  import opened Geometry
  import opened Annotations
  import opened Preview
  import opened Export

  datatype Direction = Prev | Next

  /** The page `goToPage` lands on: one step in the given direction when that step
      names a page of the document, otherwise the current page. */
  function Navigate(current: int, numPages: int, direction: Direction): (p: int)
    ensures p == current || (direction == Next && p == current + 1) || (direction == Prev && p == current - 1)
    ensures p != current ==> 0 <= p < numPages
    ensures 0 <= current < numPages ==> 0 <= p < numPages
    ensures direction == Prev && current == 0 ==> p == current
    ensures direction == Next && current == numPages - 1 ==> p == current
    ensures direction == Next && 0 <= current && current + 1 < numPages ==> p == current + 1
    ensures direction == Prev && 1 <= current <= numPages ==> p == current - 1
  {
    var target := match direction case Next => current + 1 case Prev => current - 1;
    if 0 <= target < numPages then target else current
  }

  /** Stepping forward and then back (or back and then forward) returns to the
      starting page whenever the first step moved. */
  lemma NavigateUndo(current: int, numPages: int)
    requires 0 <= current < numPages
    ensures Navigate(current, numPages, Next) != current ==>
      Navigate(Navigate(current, numPages, Next), numPages, Prev) == current
    ensures Navigate(current, numPages, Prev) != current ==>
      Navigate(Navigate(current, numPages, Prev), numPages, Next) == current
  {
  }

  /** The inner `forEach` of `exportPDF`: draws each annotation of one page, in
      stored order, through the flip for that page's height. */
  method DrawAnnotations(page: Page, anns: seq<Annotation>) returns (drawn: Page)
    ensures drawn == Annotate(page, anns)
  {
    var height := page.height;
    drawn := page;
    var j := 0;
    while j < |anns|
      invariant 0 <= j <= |anns|
      invariant drawn == page.(content := page.content + ExportPrimitives(anns[..j], height))
    {
      var a := anns[j];
      if a.mode == HighlightMode {
        drawn := drawn.(content := drawn.content
          + [Rectangle(Rect(a.x - 50.0, height - a.y - 10.0, 100.0, 20.0), Rgb(1.0, 1.0, 0.0), 0.5)]);
      } else if a.mode == UnderlineMode {
        drawn := drawn.(content := drawn.content
          + [Rectangle(Rect(a.x - 50.0, height - a.y + 5.0, 100.0, 3.0), Rgb(0.0, 0.0, 1.0), 0.8)]);
      } else if a.mode == CommentMode {
        drawn := drawn.(content := drawn.content
          + [Text(CommentGlyph, a.x, height - a.y, Rgb(0.0, 0.0, 1.0), 12.0)]);
      }
      assert anns[..j + 1][..j] == anns[..j];
      j := j + 1;
    }
    assert anns[..j] == anns;
  }

  class PdfViewer {
    /** The loaded document, as the sequence of its pages. */
    var pdfDoc: Option<seq<Page>>
    var numPages: int
    var currentPage: int
    /** The toolbar mode; no handler reads it. */
    var annotationMode: Option<string>
    /** The colour picker's value; no handler reads it. */
    var color: string
    /** The annotation store kept in a ref. */
    var annotations: Store
    /** The overlay canvas, absent until it is mounted. */
    const canvas: Canvas?

    /** The page counters always describe the loaded document: `currentPage` is a
        page of it, or 0 when it has no pages. */
    ghost predicate Valid()
      reads this
    {
      && numPages == (if pdfDoc.Some? then |pdfDoc.value| else 0)
      && 0 <= currentPage
      && (currentPage < numPages || currentPage == 0)
    }

    /** The state before any document is loaded. */
    constructor (canvas: Canvas?)
      ensures Valid() && this.canvas == canvas
      ensures pdfDoc == None && numPages == 0 && currentPage == 0
      ensures annotationMode == None && color == "#FF0000" && annotations == map[]
    {
      pdfDoc := None;
      numPages := 0;
      currentPage := 0;
      annotationMode := None;
      color := "#FF0000";
      annotations := map[];
      this.canvas := canvas;
    }

    /** `renderAnnotations` for the page the calling closure sees as current: clears
        the overlay, then paints that page's annotations in stored order, resetting
        the alpha to 1 after each one. It never touches the store. */
    method RenderAnnotations(page: int)
      modifies canvas
      ensures canvas != null ==> canvas.marks == PreviewMarks(Lookup(annotations, page))
      ensures canvas != null && Lookup(annotations, page) != [] ==>
        && canvas.globalAlpha == 1.0
        && canvas.fillStyle == FillStyleAfter(Lookup(annotations, page)[|Lookup(annotations, page)| - 1])
      ensures canvas != null && Lookup(annotations, page) == [] ==>
        canvas.fillStyle == old(canvas.fillStyle) && canvas.globalAlpha == old(canvas.globalAlpha)
    {
      if canvas == null {
        return;
      }
      canvas.ClearRect();
      var anns := Lookup(annotations, page);
      var i := 0;
      while i < |anns|
        invariant 0 <= i <= |anns|
        invariant canvas.marks == PreviewMarks(anns[..i])
        invariant i == 0 ==> canvas.fillStyle == old(canvas.fillStyle) && canvas.globalAlpha == old(canvas.globalAlpha)
        invariant i > 0 ==> canvas.globalAlpha == 1.0 && canvas.fillStyle == FillStyleAfter(anns[i - 1])
      {
        var a := anns[i];
        canvas.fillStyle := a.color;
        canvas.globalAlpha := 0.5;
        if a.mode == HighlightMode {
          canvas.FillRect(Rect(a.x - 50.0, a.y - 10.0, 100.0, 20.0));
        } else if a.mode == UnderlineMode {
          canvas.FillRect(Rect(a.x - 50.0, a.y + 5.0, 100.0, 3.0));
        } else if a.mode == CommentMode {
          canvas.fillStyle := "blue";
          canvas.FillText(CommentGlyph, a.x, a.y);
        }
        canvas.globalAlpha := 1.0;
        assert anns[..i + 1][..i] == anns[..i];
        i := i + 1;
      }
      assert anns[..i] == anns;
    }

    /** `loadPdf`: on a document that parsed, records it, sets the page count and
        returns to the first page; the store is left as it was. A document with
        pages also triggers the deferred overlay redraw, which reads the page that
        was current when the load began. A failed parse changes nothing. */
    method LoadPdf(loaded: Option<seq<Page>>)
      requires Valid()
      modifies this`pdfDoc, this`numPages, this`currentPage, canvas
      ensures Valid()
      ensures loaded.None? ==> pdfDoc == old(pdfDoc) && numPages == old(numPages) && currentPage == old(currentPage)
      ensures loaded.Some? ==> pdfDoc == loaded && numPages == |loaded.value| && currentPage == 0
      ensures canvas != null && loaded.Some? && |loaded.value| > 0 ==>
        canvas.marks == PreviewMarks(Lookup(annotations, old(currentPage)))
      ensures canvas != null && (loaded.None? || |loaded.value| == 0) ==> unchanged(canvas)
    {
      if loaded.None? {
        return;
      }
      var captured := currentPage;
      pdfDoc := loaded;
      numPages := |loaded.value|;
      currentPage := 0;
      if |loaded.value| > 0 {
        RenderAnnotations(captured);
      }
    }

    /** The state change of `goToPage`: move to the neighbouring page when there is one. */
    method MovePage(direction: Direction) returns (moved: bool)
      requires Valid()
      modifies this`currentPage
      ensures Valid()
      ensures currentPage == Navigate(old(currentPage), numPages, direction)
      ensures moved <==> currentPage != old(currentPage)
    {
      var newPage := if direction == Next then currentPage + 1 else currentPage - 1;
      moved := 0 <= newPage < numPages;
      if moved {
        currentPage := newPage;
      }
    }

    /** `goToPage`, with the deferred overlay redraw painting the page just moved
        to. A move at either end of the document changes nothing. */
    method GoToPage(direction: Direction)
      requires Valid()
      modifies this`currentPage, canvas
      ensures Valid()
      ensures currentPage == Navigate(old(currentPage), numPages, direction)
      ensures currentPage != old(currentPage) && canvas != null ==>
        canvas.marks == PreviewMarks(Lookup(annotations, currentPage))
      ensures currentPage == old(currentPage) && canvas != null ==> unchanged(canvas)
    {
      var moved := MovePage(direction);
      if moved {
        RenderAnnotations(currentPage);
      }
    }

    /** `goToPage` as the component runs it: the redraw it schedules belongs to the
        render in which the button was clicked, so it paints the annotations of the
        page that was current before the move. */
    method GoToPageAsWritten(direction: Direction)
      requires Valid()
      modifies this`currentPage, canvas
      ensures Valid()
      ensures currentPage == Navigate(old(currentPage), numPages, direction)
      ensures currentPage != old(currentPage) && canvas != null ==>
        canvas.marks == PreviewMarks(Lookup(annotations, old(currentPage)))
      ensures currentPage == old(currentPage) && canvas != null ==> unchanged(canvas)
    {
      var captured := currentPage;
      var moved := MovePage(direction);
      if moved {
        RenderAnnotations(captured);
      }
    }

    /** The toolbar's mode buttons. */
    method SetAnnotationMode(mode: string)
      modifies this`annotationMode
      ensures annotationMode == Some(mode)
    {
      annotationMode := Some(mode);
    }

    /** The colour picker. */
    method SetColor(value: string)
      modifies this`color
      ensures color == value
    {
      color := value;
    }

    /** The Clear button: replaces the store by an empty one and redraws the
        overlay, which is then blank. A second Clear changes nothing. */
    method Clear()
      modifies this`annotations, canvas
      ensures annotations == map[]
      ensures forall page :: Lookup(annotations, page) == []
      ensures canvas != null ==>
        && canvas.marks == []
        && canvas.fillStyle == old(canvas.fillStyle)
        && canvas.globalAlpha == old(canvas.globalAlpha)
      ensures old(annotations) == map[] && (canvas != null ==> old(canvas.marks) == []) ==>
        && annotations == old(annotations)
        && (canvas != null ==> canvas.marks == old(canvas.marks))
    {
      annotations := map[];
      RenderAnnotations(currentPage);
      assert PreviewMarks([]) == [];
    }

    /** Test harness only, not part of the component: adds an annotation to a page
        so that the render and export properties can be exercised. */
    method Append(page: int, a: Annotation)
      modifies this`annotations
      ensures annotations == Annotations.Append(old(annotations), page, a)
    {
      annotations := Annotations.Append(annotations, page, a);
    }

    /** `exportPDF`: on a copy of the loaded document, visits the store's page
        indices in the order the engine enumerates them (each exactly once) and
        draws each annotation's primitive on that page. */
    method ExportPdf(keyOrder: seq<int>) returns (r: ExportResult)
      requires forall k :: k in annotations <==> k in keyOrder
      requires forall i, j :: 0 <= i < j < |keyOrder| ==> keyOrder[i] != keyOrder[j]
      ensures r == ExportDocument(pdfDoc, annotations)
    {
      if pdfDoc.None? {
        return NotLoaded;
      }
      var original := pdfDoc.value;
      var pages := original;
      var i := 0;
      while i < |keyOrder|
        invariant 0 <= i <= |keyOrder|
        invariant forall k :: k in keyOrder[..i] ==> 0 <= k < |original|
        invariant |pages| == |original|
        invariant forall p :: 0 <= p < |pages| ==>
          pages[p] == if p in keyOrder[..i] then Annotate(original[p], Lookup(annotations, p)) else original[p]
      {
        var pageIndex := keyOrder[i];
        if !(0 <= pageIndex < |pages|) {
          assert pageIndex in annotations && !IndexesPages(annotations, |original|);
          return PageMissing;
        }
        assert pageIndex !in keyOrder[..i];
        var page := DrawAnnotations(pages[pageIndex], Lookup(annotations, pageIndex));
        assert keyOrder[..i + 1] == keyOrder[..i] + [pageIndex];
        pages := pages[pageIndex := page];
        i := i + 1;
      }
      assert keyOrder[..i] == keyOrder;
      forall p | 0 <= p < |pages| && p !in keyOrder
        ensures pages[p] == Annotate(original[p], Lookup(annotations, p))
      {
        assert original[p].content + [] == original[p].content;
      }
      return Saved(pages);
    }
  }

  /** A two-page document with a highlight on the first page: after "Next" the
      redraw as the component schedules it still shows that highlight over the
      second page, which has no annotations; the corrected redraw shows nothing. */
  method StaleOverlayAfterNavigation()
  {
    var c := new Canvas();
    var v := new PdfViewer(c);
    v.LoadPdf(Some([Page(612.0, 792.0, []), Page(612.0, 792.0, [])]));
    v.Append(0, Annotation(150.0, 100.0, HighlightMode, "#FF0000", None, None));
    v.GoToPageAsWritten(Next);
    assert v.currentPage == 1 && Lookup(v.annotations, 1) == [];
    assert c.marks == [FilledRect(Rect(100.0, 90.0, 100.0, 20.0), "#FF0000", 0.5)];
    assert c.marks != PreviewMarks(Lookup(v.annotations, v.currentPage));

    var d := new Canvas();
    var w := new PdfViewer(d);
    w.LoadPdf(Some([Page(612.0, 792.0, []), Page(612.0, 792.0, [])]));
    w.Append(0, Annotation(150.0, 100.0, HighlightMode, "#FF0000", None, None));
    w.GoToPage(Next);
    assert w.currentPage == 1 && d.marks == [];
  }
}
