/**
 The InfiniteScroll component (src/index.js). Its props that matter to the logic are
 fields (`horizontal` and the two thresholds); the scroll container's offsets
 `scrollLeft` and `scrollTop` are fields as well, written by the browser when the user
 scrolls and by SetScrollPosition; `prevScroll` is the one-slot memo; every callback
 invocation is appended to `output`. The React lifecycle hooks become the explicit
 methods Mount and Update.
 */
module ScrollWrapper {
  import opened Edges
  import opened ScrollMemo

  /** The sizes the container reports at a scroll event: content and viewport extents. */
  datatype Extents = Extents(scrollWidth: int, offsetWidth: int, scrollHeight: int, offsetHeight: int)

  /** The offset handleScroll compares with the memo: scrollLeft in horizontal mode, else scrollTop. */
  function ActiveOffset(horizontal: bool, scrollLeft: int, scrollTop: int): int
  {
    if horizontal then scrollLeft else scrollTop
  }

  /** The edge callback (at most one) that handleScroll invokes, for the configured axis only. */
  function EdgeEvents(horizontal: bool, scrollLeft: int, scrollTop: int, ext: Extents,
                      horizontalInfiniteDistance: int, verticalInfiniteDistance: int): (r: seq<Event>)
    ensures |r| <= 1
    ensures forall e <- r :: if horizontal then IsHorizontalEdge(e) && e.offset == scrollLeft else IsVerticalEdge(e)
    ensures horizontal ==>
              (r == [ReachRight(scrollLeft)] <==> scrollLeft + ext.offsetWidth >= ext.scrollWidth - horizontalInfiniteDistance)
    ensures horizontal ==>
              (r == [ReachLeft(scrollLeft)] <==>
                 scrollLeft + ext.offsetWidth < ext.scrollWidth - horizontalInfiniteDistance && scrollLeft <= horizontalInfiniteDistance)
    ensures !horizontal ==>
              (r == [ReachBottom] <==> scrollTop + ext.offsetHeight >= ext.scrollHeight - verticalInfiniteDistance)
    ensures !horizontal ==>
              (r == [ReachTop] <==>
                 scrollTop + ext.offsetHeight < ext.scrollHeight - verticalInfiniteDistance && scrollTop <= verticalInfiniteDistance)
  {
    var edge := if horizontal then HorizontalEdge(scrollLeft, ext.scrollWidth, ext.offsetWidth, horizontalInfiniteDistance)
                else VerticalEdge(scrollTop, ext.scrollHeight, ext.offsetHeight, verticalInfiniteDistance);
    if edge.Some? then [edge.value] else []
  }

  class InfiniteScroll {
    var horizontal: bool
    var horizontalInfiniteDistance: int
    var verticalInfiniteDistance: int
    var scrollLeft: int
    var scrollTop: int
    var prevScroll: int
    var output: seq<Event>

    /** A freshly created component: memo 0, container at the origin, nothing reported yet. */
    constructor (horizontal: bool, horizontalInfiniteDistance: int, verticalInfiniteDistance: int)
      ensures this.horizontal == horizontal
      ensures this.horizontalInfiniteDistance == horizontalInfiniteDistance
      ensures this.verticalInfiniteDistance == verticalInfiniteDistance
      ensures scrollLeft == 0 && scrollTop == 0 && prevScroll == 0 && output == []
      ensures Synced()
    {
      this.horizontal := horizontal;
      this.horizontalInfiniteDistance := horizontalInfiniteDistance;
      this.verticalInfiniteDistance := verticalInfiniteDistance;
      scrollLeft, scrollTop := 0, 0;
      prevScroll := 0;
      output := [];
    }

    function ScrolledTo(): int
      reads this
    {
      ActiveOffset(horizontal, scrollLeft, scrollTop)
    }

    /** The memo agrees with the container's offset on the active axis. */
    predicate Synced()
      reads this
    {
      prevScroll == ScrolledTo()
    }

    /**
     handleScroll: report the edge reached on the configured axis, then report
     onScroll(scrolledTo, prevScroll) if the offset changed, and remember it. When the
     memo already agreed with the container (as after a programmatic set), no onScroll
     is reported.
     */
    method HandleScroll(ext: Extents)
      modifies this`prevScroll, this`output
      ensures output == old(output)
                        + EdgeEvents(horizontal, scrollLeft, scrollTop, ext, horizontalInfiniteDistance, verticalInfiniteDistance)
                        + ScrollNotice(old(prevScroll), ScrolledTo())
      ensures prevScroll == ScrolledTo() && Synced()
      // the onScroll part is one step of ScrollTrace; by ScrollTraceAppend, a run of
      // scroll events, each handled here, reports exactly ScrollTrace of their offsets
      ensures ScrollNotice(old(prevScroll), ScrolledTo()) == ScrollTrace(old(prevScroll), [ScrolledTo()])
      ensures old(Synced()) ==> forall e <- output[|old(output)|..] :: !e.Scroll?
    {
      var scrolledTo: int;
      if horizontal {
        var edge := HorizontalEdge(scrollLeft, ext.scrollWidth, ext.offsetWidth, horizontalInfiniteDistance);
        if edge.Some? {
          output := output + [edge.value];
        }
        scrolledTo := scrollLeft;
      } else {
        var edge := VerticalEdge(scrollTop, ext.scrollHeight, ext.offsetHeight, verticalInfiniteDistance);
        if edge.Some? {
          output := output + [edge.value];
        }
        scrolledTo := scrollTop;
      }

      if scrolledTo == prevScroll {
        return;
      }

      output := output + [Scroll(scrolledTo, prevScroll)];
      prevScroll := scrolledTo;
    }

    /**
     The effect of setScrollPosition(position) between the old state and this one:
     the memo holds `position`, and the active axis's offset was written only when
     `position` differed from the old memo.
     */
    twostate predicate PositionedTo(position: int)
      reads this
    {
      && prevScroll == position
      && scrollLeft == (if old(horizontal) && position != old(prevScroll) then position else old(scrollLeft))
      && scrollTop == (if !old(horizontal) && position != old(prevScroll) then position else old(scrollTop))
    }

    /**
     setScrollPosition: a no-op when `position` equals the memo; otherwise writes it to
     the active axis's offset and to the memo. It never reports anything.
     */
    method SetScrollPosition(position: int)
      modifies this`scrollLeft, this`scrollTop, this`prevScroll
      ensures PositionedTo(position)
      ensures position == old(prevScroll) ==> unchanged(this)
      ensures output == old(output)
      ensures old(Synced()) ==> Synced()
    {
      if position == prevScroll {
        return;
      }

      if horizontal {
        scrollLeft := position;
      } else {
        scrollTop := position;
      }

      prevScroll := position;
    }

    /**
     componentDidMount: applies `position` only when it is truthy, that is nonzero. On a
     fresh component (memo 0) this is exactly the effect of setScrollPosition(position).
     */
    method Mount(position: int)
      modifies this`scrollLeft, this`scrollTop, this`prevScroll
      ensures position != 0 ==> PositionedTo(position)
      ensures position == 0 ==> unchanged(this)
      ensures old(prevScroll) == 0 ==> PositionedTo(position)
      ensures output == old(output)
    {
      if position != 0 {
        SetScrollPosition(position);
      }
    }

    /** componentDidUpdate: applies `position` only when it differs from the previous props' position. */
    method Update(prevPosition: int, position: int)
      modifies this`scrollLeft, this`scrollTop, this`prevScroll
      ensures position != prevPosition ==> PositionedTo(position)
      ensures position == prevPosition ==> unchanged(this)
      ensures output == old(output)
    {
      if position != prevPosition {
        SetScrollPosition(position);
      }
    }
  }
}
