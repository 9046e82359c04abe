/**
 Edge detection of the scroll container (src/index.js, handleHorizontalScroll and
 handleVerticalScroll). One scroll event is classified from a snapshot of the active
 axis: the scroll offset, the viewport extent, the content extent and the edge
 threshold. The far edge (right or bottom) is checked first and wins over the near
 edge (left or top); at most one of the two is reported.
 */
module Edges {

  datatype Option<+T> = None | Some(value: T)

  /** One callback invocation of the component, in the order the component makes them. */
  datatype Event =
    | ReachLeft(offset: int)                  // onReachLeft(scrollLeft)
    | ReachRight(offset: int)                 // onReachRight(scrollLeft)
    | ReachTop                                // onReachTop()
    | ReachBottom                             // onReachBottom()
    | Scroll(scrolledTo: int, previous: int)  // onScroll(scrolledTo, prevScroll)

  predicate IsHorizontalEdge(e: Event) { e.ReachLeft? || e.ReachRight? }

  predicate IsVerticalEdge(e: Event) { e.ReachTop? || e.ReachBottom? }

  /** Which end of the scrollable range a scroll event reached. */
  datatype Edge = Near | Far

  /** How far the content can still be scrolled toward the far edge. */
  function Remaining(offset: int, viewport: int, content: int): int
  {
    content - (offset + viewport)
  }

  /**
   The comparison shared by both axes: the far edge is reached when the end of the
   viewport lies within `distance` of the end of the content; otherwise the near edge
   is reached when the offset lies within `distance` of zero.
   */
  function Classify(offset: int, viewport: int, content: int, distance: int): (r: Option<Edge>)
    ensures r == Some(Far) <==> Remaining(offset, viewport, content) <= distance
    ensures r == Some(Near) <==> Remaining(offset, viewport, content) > distance && offset <= distance
    ensures r == None <==> Remaining(offset, viewport, content) > distance && offset > distance
    // both thresholds hold (a short scrollable range): the far edge wins
    ensures Remaining(offset, viewport, content) <= distance && offset <= distance ==> r == Some(Far)
  {
    var nearEdge := 0;
    var farEdge := content;
    var scrolledNear := offset;
    var scrolledFar := offset + viewport;
    if scrolledFar >= farEdge - distance then Some(Far)
    else if scrolledNear <= nearEdge + distance then Some(Near)
    else None
  }

  /** handleHorizontalScroll: the callback it invokes, if any. */
  function HorizontalEdge(scrollLeft: int, scrollWidth: int, offsetWidth: int, horizontalInfiniteDistance: int): (r: Option<Event>)
    ensures r == Some(ReachRight(scrollLeft)) <==> scrollLeft + offsetWidth >= scrollWidth - horizontalInfiniteDistance
    ensures r == Some(ReachLeft(scrollLeft)) <==>
              scrollLeft + offsetWidth < scrollWidth - horizontalInfiniteDistance && scrollLeft <= horizontalInfiniteDistance
    ensures r.Some? ==> IsHorizontalEdge(r.value) && r.value.offset == scrollLeft
  {
    match Classify(scrollLeft, offsetWidth, scrollWidth, horizontalInfiniteDistance)
    case Some(Far) => Some(ReachRight(scrollLeft))
    case Some(Near) => Some(ReachLeft(scrollLeft))
    case None => None
  }

  /** handleVerticalScroll: the callback it invokes, if any (the vertical callbacks carry no offset). */
  function VerticalEdge(scrollTop: int, scrollHeight: int, offsetHeight: int, verticalInfiniteDistance: int): (r: Option<Event>)
    ensures r == Some(ReachBottom) <==> scrollTop + offsetHeight >= scrollHeight - verticalInfiniteDistance
    ensures r == Some(ReachTop) <==>
              scrollTop + offsetHeight < scrollHeight - verticalInfiniteDistance && scrollTop <= verticalInfiniteDistance
    ensures r.Some? ==> IsVerticalEdge(r.value)
  {
    match Classify(scrollTop, offsetHeight, scrollHeight, verticalInfiniteDistance)
    case Some(Far) => Some(ReachBottom)
    case Some(Near) => Some(ReachTop)
    case None => None
  }

  /** Scrolling further toward the far edge never leaves the far edge. */
  lemma FarEdgeStaysReached(offset: int, further: int, viewport: int, content: int, distance: int)
    requires offset <= further
    requires Classify(offset, viewport, content, distance) == Some(Far)
    ensures Classify(further, viewport, content, distance) == Some(Far)
  {
  }

  /** Scrolling back toward the near edge from the near edge keeps reporting an edge. */
  lemma NearEdgeStaysReached(offset: int, back: int, viewport: int, content: int, distance: int)
    requires back <= offset
    requires Classify(offset, viewport, content, distance) == Some(Near)
    ensures Classify(back, viewport, content, distance).Some?
  {
  }

  /**
   Vertical mode, threshold 50, content height 1000, viewport height 200: offset 760
   reaches the bottom, offset 10 the top, offset 400 neither.
   */
  lemma VerticalExample()
    ensures VerticalEdge(760, 1000, 200, 50) == Some(ReachBottom)
    ensures VerticalEdge(10, 1000, 200, 50) == Some(ReachTop)
    ensures VerticalEdge(400, 1000, 200, 50) == None
  {
  }

  /**
   Horizontal mode, threshold 0: at offset 0 the left edge is reported when the content
   is wider than the viewport; at the largest offset the right edge is reported.
   */
  lemma HorizontalEnds(scrollWidth: int, offsetWidth: int)
    requires offsetWidth < scrollWidth
    ensures HorizontalEdge(0, scrollWidth, offsetWidth, 0) == Some(ReachLeft(0))
    ensures HorizontalEdge(scrollWidth - offsetWidth, scrollWidth, offsetWidth, 0) == Some(ReachRight(scrollWidth - offsetWidth))
  {
  }
}
