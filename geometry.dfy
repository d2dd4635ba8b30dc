/** Screen-space and page-space geometry shared by the preview and the export.
    Screen space has its origin at the top-left corner with y growing downwards;
    PDF page space has its origin at the bottom-left corner with y growing upwards. */
module Geometry {

  /** An axis-aligned rectangle given by one corner and its extent, the way both
      `fillRect` and `drawRectangle` take it. */
  datatype Rect = Rect(x: real, y: real, width: real, height: real)

  /** A closed interval on one axis. */
  datatype Span = Span(lo: real, hi: real)

  function HorizontalSpan(r: Rect): Span
  {
    Span(r.x, r.x + r.width)
  }

  function VerticalSpan(r: Rect): Span
  {
    Span(r.y, r.y + r.height)
  }

  /** The y-axis flip between screen space and the page space of a page of the given height. */
  function FlipY(v: real, pageHeight: real): real
  {
    pageHeight - v
  }

  /** The image of a vertical span under the flip: the ends swap roles. */
  function MirrorSpan(s: Span, pageHeight: real): Span
  {
    Span(FlipY(s.hi, pageHeight), FlipY(s.lo, pageHeight))
  }

  /** The flip is its own inverse, so mirroring twice gives the span back. */
  lemma MirrorInvolution(s: Span, pageHeight: real)
    ensures FlipY(FlipY(s.lo, pageHeight), pageHeight) == s.lo
    ensures MirrorSpan(MirrorSpan(s, pageHeight), pageHeight) == s
  {
  }
}
