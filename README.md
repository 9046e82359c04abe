# InfiniteScroll (react-scroll-wrapper) in Dafny

A model of the decision logic of the `InfiniteScroll` React component: a scroll
container that reports when the user scrolls near an edge, reports scroll moves
through `onScroll`, and moves itself when the `position` prop changes.

- `edges.dfy`, module `Edges`: edge classification of one scroll event
  (`handleHorizontalScroll`, `handleVerticalScroll`) as pure functions over integer
  geometry. The far edge (right/bottom) is checked first and wins. At most one edge is
  reported. Horizontal callbacks carry `scrollLeft`. Vertical callbacks carry nothing.
- `memo.dfy`, module `ScrollMemo`: the one-slot memo `prevScroll`. `ScrollNotice` is
  the `onScroll` decision of one event. `ScrollTrace` replays a run of scroll events
  at given offsets. The lemmas about it state what the memo guarantees across events.
- `infinite_scroll.dfy`, module `ScrollWrapper`: class `InfiniteScroll`. Its fields are
  the props the logic reads (`horizontal`, the two thresholds), the container's offsets
  `scrollLeft`/`scrollTop`, the memo `prevScroll`, and `output`, the sequence of callback
  invocations (`ReachLeft(off)`, `ReachRight(off)`, `ReachTop`, `ReachBottom`,
  `Scroll(new, old)`). The methods are `HandleScroll`, `SetScrollPosition`, `Mount`
  (componentDidMount) and `Update` (componentDidUpdate).

DOM geometry is plain integers. The browser's writes of `scrollLeft`/`scrollTop` when
the user scrolls are assignments to the public fields before `HandleScroll` is called.
The extents (`scrollWidth`, `offsetWidth`, `scrollHeight`, `offsetHeight`) are a
parameter of `HandleScroll`. The constructor takes `horizontal` and the two thresholds
as parameters, and `Mount` takes any `position`. The component's defaults (`horizontal`
false, thresholds 0, position 0) are one choice of these. Every callback invocation is
recorded in `output`, including those whose default callback does nothing.

Two facts worth noting came out of the model:
- `setScrollPosition` always leaves `prevScroll == position`, in both branches.
- At mount the memo is 0, so the truthiness test in componentDidMount never changes the
  outcome compared to calling `setScrollPosition` directly (`Mount`'s third ensures).

## Model

| member | source | states |
|---|---|---|
| Edges.Classify | src/index.js:32-41 | far edge exactly when the content left to scroll is within the threshold; otherwise near edge exactly when the offset is within the threshold of 0; far wins when both hold; neither otherwise |
| Edges.HorizontalEdge | src/index.js:28-42 | `ReachRight(scrollLeft)` iff `scrollLeft + offsetWidth >= scrollWidth - horizontalInfiniteDistance`; `ReachLeft(scrollLeft)` iff that fails and `scrollLeft <= horizontalInfiniteDistance`; only horizontal events, carrying `scrollLeft` |
| Edges.VerticalEdge | src/index.js:44-59 | `ReachBottom` iff `scrollTop + offsetHeight >= scrollHeight - verticalInfiniteDistance`; `ReachTop` iff that fails and `scrollTop <= verticalInfiniteDistance`; only vertical events |
| Edges.FarEdgeStaysReached | src/index.js:35-38 | once the far edge is reached, any larger offset with the same geometry still reaches it |
| Edges.NearEdgeStaysReached | src/index.js:37-41 | once the near edge is reached, any smaller offset still reports an edge |
| Edges.VerticalExample | src/index.js:49-58 | threshold 50, content 1000, viewport 200: offset 760 gives bottom, 10 gives top, 400 gives nothing |
| Edges.HorizontalEnds | src/index.js:32-41 | threshold 0, content wider than the viewport: offset 0 gives `ReachLeft(0)`, the largest offset gives `ReachRight` |
| ScrollMemo.ScrollNotice | src/index.js:74-77 | `Scroll(scrolledTo, prevScroll)` is reported iff the two differ, and nothing else |
| ScrollMemo.ScrollTrace | src/index.js:74-77 | a run of scroll events reports at most one `onScroll` per event |
| ScrollMemo.ScrollTraceOnlyChanges | src/index.js:74-77 | every reported event of a run is an `onScroll` whose new and old offsets differ, and its new offset is one the run scrolled to |
| ScrollMemo.ScrollTraceEnds | src/index.js:74-77 | the first report's old offset is the start memo; the last report's new offset is the memo at the end of the run |
| ScrollMemo.ScrollTraceChained | src/index.js:74-77 | each report's old offset is the previous report's new offset |
| ScrollMemo.ScrollTraceSilent | src/index.js:74 | a run reports no `onScroll` iff every event stayed at the start memo |
| ScrollMemo.NoRepeatedScroll | src/index.js:74-77 | two consecutive `onScroll` reports never carry the same new offset |
| ScrollMemo.ScrollTraceAppend | src/index.js:74-77 | a run split in two reports what the first part reports, then what the second reports starting from the memo the first part left |
| ScrollMemo.ScrollTraceStutter | src/index.js:74 | repeating any scroll event at the same offset adds no report |
| ScrollWrapper.EdgeEvents | src/index.js:61-72 | one scroll event reports at most one edge, only of the configured axis; horizontal: `ReachRight(scrollLeft)` iff the right threshold holds, `ReachLeft(scrollLeft)` iff it fails and the left threshold holds; vertical: `ReachBottom` iff the bottom threshold holds, `ReachTop` iff it fails and the top threshold holds |
| ScrollWrapper.InfiniteScroll.constructor | src/index.js:5-10 | the memo starts at 0, nothing is reported, memo and container agree |
| ScrollWrapper.InfiniteScroll.HandleScroll | src/index.js:61-78 | appends the edge event of the configured axis, whatever the memo holds, then `Scroll(new, old)` only if the active offset (`scrollLeft` if horizontal, else `scrollTop`) changed; the memo ends equal to that offset; the `onScroll` part is one step of `ScrollTrace`, so a run of handled events reports what `ScrollTrace` of their offsets gives (by `ScrollTraceAppend`); when memo and container agreed before, no `onScroll` is reported |
| ScrollWrapper.InfiniteScroll.SetScrollPosition | src/index.js:80-90 | no change at all when `position` equals the memo; otherwise writes `position` to the active axis's offset only and to the memo; never reports anything; keeps memo and container in agreement |
| ScrollWrapper.InfiniteScroll.Mount | src/index.js:12-18 | applies `position` as `setScrollPosition` does only when it is nonzero; with memo 0 this equals applying it unconditionally |
| ScrollWrapper.InfiniteScroll.Update | src/index.js:20-26 | applies `position` as `setScrollPosition` does only when it differs from the previous position |

## Left out

- Rendering (`render`, the inline style, JSX, the container ref) is UI only. So are `propTypes` and `defaultProps`. The props are parameters of the constructor and of `Mount`/`Update`, and the defaults are one choice of them.
- JavaScript numbers are modelled as `int`. Fractional offsets, floating-point rounding, and `NaN` or `undefined` positions are not modelled. `Mount` treats only 0 as falsy.
- Browser behaviour the code cannot see is not modelled: clamping of `scrollLeft`/`scrollTop` to the scrollable range, and the scroll event the browser fires after a programmatic set. The echo event is covered only by `HandleScroll`'s last ensures.
- Callbacks are recorded as events. Callback code that reenters the component or moves the container during `handleScroll` is not modelled.
- React scheduling of lifecycle hooks and event dispatch are replaced by explicit calls to `Mount`, `Update` and `HandleScroll`. Unmounting has no code in the component and is not modelled.
- Props other than `position` (`horizontal`, the thresholds) are fields that a host may reassign between calls. No method of the component changes them.
- ScrollMemo.ScrollTrace: relates a run of scroll events only through their `onScroll` reports. The edge reports are per event (`EdgeEvents`) and are not replayed over runs.
