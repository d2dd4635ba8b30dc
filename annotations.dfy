/** The annotation record and the page-indexed store the viewer keeps in a ref. */
module Annotations {

  datatype Option<T> = None | Some(value: T)

  datatype Point = Point(x: real, y: real)

  /** One stored annotation: an anchor in screen pixels, the tool mode as a string,
      the colour picked when it was made, and the optional `text` and `path` fields
      the record type declares. */
  datatype Annotation = Annotation(
    x: real,
    y: real,
    mode: string,
    color: string,
    text: Option<string>,
    path: Option<Point>)

  /** The modes the viewer's render and export passes recognise. The toolbar also
      offers "signature", which both passes ignore. */
  const HighlightMode: string := "highlight"
  const UnderlineMode: string := "underline"
  const CommentMode: string := "comment"
  const SignatureMode: string := "signature"

  /** Page number to the annotations on that page, in insertion (paint) order. */
  type Store = map<int, seq<Annotation>>

  /** `annotations.current[page] || []`: a page absent from the store reads as empty. */
  function Lookup(store: Store, page: int): seq<Annotation>
  {
    if page in store then store[page] else []
  }

  /** True for the modes that the render and export passes draw something for. */
  predicate Drawn(a: Annotation)
  {
    a.mode == HighlightMode || a.mode == UnderlineMode || a.mode == CommentMode
  }

  /** The annotations of a page that produce a mark, in stored order. */
  function Drawable(anns: seq<Annotation>): (d: seq<Annotation>)
    ensures |d| <= |anns|
    ensures forall k :: 0 <= k < |d| ==> Drawn(d[k])
    ensures (forall k :: 0 <= k < |anns| ==> Drawn(anns[k])) ==> d == anns
    ensures (forall k :: 0 <= k < |anns| ==> !Drawn(anns[k])) ==> d == []
  {
    if anns == [] then []
    else
      var init := anns[..|anns| - 1];
      var last := anns[|anns| - 1];
      assert anns == init + [last];
      assert forall k :: 0 <= k < |init| ==> init[k] == anns[k];
      Drawable(init) + (if Drawn(last) then [last] else [])
  }

  /** Filtering distributes over concatenation: the drawn annotations of a page
      split in two are those of the first part followed by those of the second,
      so the filter keeps the stored order. */
  lemma {:induction false} DrawableConcat(s: seq<Annotation>, t: seq<Annotation>)
    ensures Drawable(s + t) == Drawable(s) + Drawable(t)
  {
    if t == [] {
      assert s + t == s;
    } else {
      var init := t[..|t| - 1];
      var last := t[|t| - 1];
      assert (s + t)[..|s + t| - 1] == s + init;
      assert (s + t)[|s + t| - 1] == last;
      DrawableConcat(s, init);
    }
  }

  /** An annotation is kept by the filter if and only if it is stored for the
      page and its mode is drawn. */
  lemma {:induction false} DrawableKeepsExactlyDrawn(anns: seq<Annotation>, a: Annotation)
    ensures a in Drawable(anns) <==> a in anns && Drawn(a)
  {
    if anns != [] {
      var init := anns[..|anns| - 1];
      var last := anns[|anns| - 1];
      assert anns == init + [last];
      DrawableKeepsExactlyDrawn(init, a);
    }
  }

  /** The toolbar's signature mode is not one that gets drawn. */
  lemma SignatureNotDrawn(a: Annotation)
    requires a.mode == SignatureMode
    ensures !Drawn(a) && Drawable([a]) == []
  {
  }

  /** Test harness only: the viewer itself never adds an annotation. Appending to a
      page's sequence (creating it when absent) lets the render and export
      properties be stated about a populated store. */
  function Append(store: Store, page: int, a: Annotation): (s: Store)
    ensures s.Keys == store.Keys + {page}
    ensures Lookup(s, page) == Lookup(store, page) + [a]
    ensures forall q :: q != page ==> Lookup(s, q) == Lookup(store, q)
  {
    store[page := Lookup(store, page) + [a]]
  }
}
