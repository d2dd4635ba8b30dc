/** The overlay preview: what `renderAnnotations` paints on the canvas that lies over
    the page preview, in screen space. */
module Preview {
  import opened Geometry
  import opened Annotations

  /** One thing painted on the overlay, with the fill style and alpha the canvas
      context held when it was painted. */
  datatype Mark =
    | FilledRect(box: Rect, fill: string, alpha: real)
    | Glyph(text: string, x: real, y: real, fill: string, alpha: real)

  /** The speech-balloon character drawn for a comment. */
  const CommentGlyph: string := "\U{1F4AC}"
  /** The alpha set before each annotation is painted. */
  const PaintAlpha: real := 0.5
  /** The fill style a comment glyph is painted with. */
  const CommentFill: string := "blue"

  function Mid(s: Span): real
  {
    (s.lo + s.hi) / 2.0
  }

  /** The highlight footprint: 100 by 20, centred on the anchor. */
  function HighlightBox(a: Annotation): (r: Rect)
    ensures Mid(HorizontalSpan(r)) == a.x && Mid(VerticalSpan(r)) == a.y
    ensures r.width == 100.0 && r.height == 20.0
  {
    Rect(a.x - 50.0, a.y - 10.0, 100.0, 20.0)
  }

  /** The underline footprint: 100 by 3, centred horizontally on the anchor and
      starting 5 pixels below it (screen y grows downwards). */
  function UnderlineBox(a: Annotation): (r: Rect)
    ensures Mid(HorizontalSpan(r)) == a.x && r.width == 100.0 && r.height == 3.0
    ensures VerticalSpan(r).lo == a.y + 5.0 && VerticalSpan(r).lo > a.y
  {
    Rect(a.x - 50.0, a.y + 5.0, 100.0, 3.0)
  }

  /** The mark one drawn annotation leaves: highlight and underline in the stored
      colour, the comment glyph in blue at the anchor, all at the alpha set for it. */
  function PreviewMark(a: Annotation): Mark
    requires Drawn(a)
  {
    if a.mode == HighlightMode then FilledRect(HighlightBox(a), a.color, PaintAlpha)
    else if a.mode == UnderlineMode then FilledRect(UnderlineBox(a), a.color, PaintAlpha)
    else Glyph(CommentGlyph, a.x, a.y, CommentFill, PaintAlpha)
  }

  /** What the paint loop leaves on a cleared overlay after visiting the given
      annotations one by one: a mark for each drawn mode, nothing for any other. */
  function PreviewMarks(anns: seq<Annotation>): seq<Mark>
  {
    if anns == [] then []
    else
      var last := anns[|anns| - 1];
      PreviewMarks(anns[..|anns| - 1]) + (if Drawn(last) then [PreviewMark(last)] else [])
  }

  /** The fill style the context is left with after painting one annotation. */
  function FillStyleAfter(a: Annotation): string
  {
    if a.mode == CommentMode then CommentFill else a.color
  }

  /** The overlay holds exactly one mark per drawn annotation, in stored order. */
  lemma {:induction false} PreviewFollowsStoredOrder(anns: seq<Annotation>)
    ensures |PreviewMarks(anns)| == |Drawable(anns)|
    ensures forall k :: 0 <= k < |Drawable(anns)| ==> PreviewMarks(anns)[k] == PreviewMark(Drawable(anns)[k])
  {
    if anns != [] {
      PreviewFollowsStoredOrder(anns[..|anns| - 1]);
    }
  }

  /** A highlight or underline is painted in the colour stored with it; a comment
      glyph is always blue. */
  lemma PreviewColour(a: Annotation)
    requires Drawn(a)
    ensures a.mode == CommentMode <==> PreviewMark(a).Glyph?
    ensures PreviewMark(a).fill == FillStyleAfter(a)
    ensures PreviewMark(a).alpha == PaintAlpha
  {
  }

  /** The 2D context of the overlay canvas: its fill style, its global alpha and
      the marks currently visible on it. */
  class Canvas {
    var fillStyle: string
    var globalAlpha: real
    var marks: seq<Mark>

    /** A fresh context: black fill, full opacity, nothing painted. */
    constructor ()
      ensures fillStyle == "#000000" && globalAlpha == 1.0 && marks == []
    {
      fillStyle := "#000000";
      globalAlpha := 1.0;
      marks := [];
    }

    /** `clearRect(0, 0, width, height)`: wipes the whole surface; the context's
        style state is kept. */
    method ClearRect()
      modifies this`marks
      ensures marks == []
    {
      marks := [];
    }

    /** `fillRect`: paints a rectangle with the current style. */
    method FillRect(r: Rect)
      modifies this`marks
      ensures marks == old(marks) + [FilledRect(r, fillStyle, globalAlpha)]
    {
      marks := marks + [FilledRect(r, fillStyle, globalAlpha)];
    }

    /** `fillText`: paints text at a point with the current style. */
    method FillText(text: string, x: real, y: real)
      modifies this`marks
      ensures marks == old(marks) + [Glyph(text, x, y, fillStyle, globalAlpha)]
    {
      marks := marks + [Glyph(text, x, y, fillStyle, globalAlpha)];
    }
  }
}
