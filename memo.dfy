/**
 The one-slot scroll memo of the component (src/index.js, the field prevScroll and the
 tail of handleScroll). After the edge check, the offset of the active axis is compared
 with the remembered one: onScroll(scrolledTo, prevScroll) is raised only when they
 differ, and the memo then holds the new offset. ScrollTrace replays a run of scroll
 events at the given offsets and gives the onScroll invocations they raise.
 */
module ScrollMemo {
  import opened Edges

  /** The onScroll invocation raised for one scroll event at `scrolledTo`, if any. */
  function ScrollNotice(prevScroll: int, scrolledTo: int): (r: seq<Event>)
    ensures |r| <= 1
    ensures r != [] <==> scrolledTo != prevScroll
    ensures forall e <- r :: e.Scroll? && e.scrolledTo == scrolledTo && e.previous == prevScroll
  {
    if scrolledTo == prevScroll then [] else [Scroll(scrolledTo, prevScroll)]
  }

  /** The memo after a run of scroll events: the last offset seen, or the start value. */
  function LastOffset(prevScroll: int, offsets: seq<int>): int
  {
    if offsets == [] then prevScroll else offsets[|offsets| - 1]
  }

  /** The onScroll invocations raised by scroll events at `offsets`, in order. */
  function ScrollTrace(prevScroll: int, offsets: seq<int>): (r: seq<Event>)
    ensures |r| <= |offsets|
    decreases |offsets|
  {
    if offsets == [] then []
    else ScrollNotice(prevScroll, offsets[0]) + ScrollTrace(offsets[0], offsets[1..])
  }

  /** Every invocation in a trace is an onScroll whose two offsets differ, and its new offset was seen. */
  lemma {:induction false} ScrollTraceOnlyChanges(prevScroll: int, offsets: seq<int>)
    ensures forall e <- ScrollTrace(prevScroll, offsets) ::
              e.Scroll? && e.scrolledTo != e.previous && e.scrolledTo in offsets
    decreases |offsets|
  {
    if offsets != [] {
      ScrollTraceOnlyChanges(offsets[0], offsets[1..]);
      assert offsets == [offsets[0]] + offsets[1..];
    }
  }

  /**
   The ends of a trace: the first onScroll reports the start value as the previous
   offset, and the last one's new offset is what the memo holds at the end.
   */
  lemma {:induction false} ScrollTraceEnds(prevScroll: int, offsets: seq<int>)
    ensures ScrollTrace(prevScroll, offsets) != [] ==>
              ScrollTrace(prevScroll, offsets)[0].Scroll? &&
              ScrollTrace(prevScroll, offsets)[0].previous == prevScroll
    ensures ScrollTrace(prevScroll, offsets) != [] ==>
              ScrollTrace(prevScroll, offsets)[|ScrollTrace(prevScroll, offsets)| - 1].Scroll? &&
              ScrollTrace(prevScroll, offsets)[|ScrollTrace(prevScroll, offsets)| - 1].scrolledTo == LastOffset(prevScroll, offsets)
    decreases |offsets|
  {
    if offsets != [] {
      var x, rest := offsets[0], offsets[1..];
      ScrollTraceEnds(x, rest);
      var head, tail := ScrollNotice(prevScroll, x), ScrollTrace(x, rest);
      var r := ScrollTrace(prevScroll, offsets);
      assert r == head + tail;
      assert rest != [] ==> LastOffset(x, rest) == LastOffset(prevScroll, offsets);
      if tail == [] {
        ScrollTraceSilent(x, rest);
        assert LastOffset(prevScroll, offsets) == x by {
          if rest != [] {
            assert rest[|rest| - 1] == x;
          }
        }
        if head != [] {
          assert r == head;
        }
      } else {
        assert r[|r| - 1] == tail[|tail| - 1];
        if head == [] {
          assert r == tail;
        } else {
          assert r[0] == head[0];
        }
      }
    }
  }

  /** The invocations chain through the memo: each onScroll reports the new offset of the one before as its previous offset. */
  lemma {:induction false} ScrollTraceChained(prevScroll: int, offsets: seq<int>)
    ensures forall e <- ScrollTrace(prevScroll, offsets) :: e.Scroll?
    ensures forall i :: 0 <= i < |ScrollTrace(prevScroll, offsets)| - 1 ==>
              ScrollTrace(prevScroll, offsets)[i + 1].previous == ScrollTrace(prevScroll, offsets)[i].scrolledTo
    decreases |offsets|
  {
    if offsets != [] {
      var x, rest := offsets[0], offsets[1..];
      ScrollTraceChained(x, rest);
      ScrollTraceEnds(x, rest);
      ScrollTraceOnlyChanges(prevScroll, offsets);
      var head, tail := ScrollNotice(prevScroll, x), ScrollTrace(x, rest);
      var r := ScrollTrace(prevScroll, offsets);
      assert r == head + tail;
      if head == [] {
        assert r == tail;
      } else {
        forall i | 0 <= i < |r| - 1 ensures r[i + 1].previous == r[i].scrolledTo {
          if i == 0 {
            assert r[0] == head[0] && r[1] == tail[0];
          } else {
            assert r[i] == tail[i - 1] && r[i + 1] == tail[i];
          }
        }
      }
    }
  }

  /** No onScroll at all exactly when every scroll event stayed at the start value. */
  lemma {:induction false} ScrollTraceSilent(prevScroll: int, offsets: seq<int>)
    ensures ScrollTrace(prevScroll, offsets) == [] <==> forall i :: 0 <= i < |offsets| ==> offsets[i] == prevScroll
    decreases |offsets|
  {
    if offsets != [] {
      ScrollTraceSilent(offsets[0], offsets[1..]);
      if ScrollTrace(prevScroll, offsets) == [] {
        forall i | 0 <= i < |offsets| ensures offsets[i] == prevScroll {
          if i > 0 {
            assert offsets[1..][i - 1] == offsets[i];
          }
        }
      } else {
        if offsets[0] == prevScroll {
          var i :| 0 <= i < |offsets[1..]| && offsets[1..][i] != offsets[0];
          assert offsets[i + 1] != prevScroll;
        }
      }
    }
  }

  /** onScroll never fires twice in a row for the same offset. */
  lemma NoRepeatedScroll(prevScroll: int, offsets: seq<int>)
    ensures forall e <- ScrollTrace(prevScroll, offsets) :: e.Scroll?
    ensures forall i :: 0 <= i < |ScrollTrace(prevScroll, offsets)| - 1 ==>
              ScrollTrace(prevScroll, offsets)[i + 1].scrolledTo != ScrollTrace(prevScroll, offsets)[i].scrolledTo
  {
    ScrollTraceOnlyChanges(prevScroll, offsets);
    ScrollTraceChained(prevScroll, offsets);
    var r := ScrollTrace(prevScroll, offsets);
    forall i | 0 <= i < |r| - 1 ensures r[i + 1].scrolledTo != r[i].scrolledTo {
      assert r[i + 1] in r;
    }
  }

  /** A run splits at any point: the second part starts from the memo the first part left. */
  lemma {:induction false} ScrollTraceAppend(prevScroll: int, xs: seq<int>, ys: seq<int>)
    ensures ScrollTrace(prevScroll, xs + ys) == ScrollTrace(prevScroll, xs) + ScrollTrace(LastOffset(prevScroll, xs), ys)
    decreases |xs|
  {
    if xs == [] {
      assert xs + ys == ys;
    } else {
      var x, rest := xs[0], xs[1..];
      assert (xs + ys)[0] == x;
      assert (xs + ys)[1..] == rest + ys;
      assert LastOffset(x, rest) == LastOffset(prevScroll, xs);
      calc {
        ScrollTrace(prevScroll, xs + ys);
        ScrollNotice(prevScroll, x) + ScrollTrace(x, rest + ys);
        { ScrollTraceAppend(x, rest, ys); }
        ScrollNotice(prevScroll, x) + (ScrollTrace(x, rest) + ScrollTrace(LastOffset(x, rest), ys));
        (ScrollNotice(prevScroll, x) + ScrollTrace(x, rest)) + ScrollTrace(LastOffset(prevScroll, xs), ys);
        ScrollTrace(prevScroll, xs) + ScrollTrace(LastOffset(prevScroll, xs), ys);
      }
    }
  }

  /**
   A scroll event repeated at the same offset raises nothing more: inserting a copy of
   any event of a run leaves the onScroll invocations unchanged.
   */
  lemma ScrollTraceStutter(prevScroll: int, offsets: seq<int>, i: int)
    requires 0 <= i < |offsets|
    ensures ScrollTrace(prevScroll, offsets[..i + 1] + offsets[i..]) == ScrollTrace(prevScroll, offsets)
  {
    var x, front, back := offsets[i], offsets[..i + 1], offsets[i + 1..];
    assert offsets[i..] == [x] + back;
    assert offsets == front + back;
    assert LastOffset(prevScroll, front) == x;
    calc {
      ScrollTrace(prevScroll, front + offsets[i..]);
      { ScrollTraceAppend(prevScroll, front, offsets[i..]); }
      ScrollTrace(prevScroll, front) + ScrollTrace(x, [x] + back);
      { assert ([x] + back)[0] == x && ([x] + back)[1..] == back; }
      ScrollTrace(prevScroll, front) + ScrollTrace(x, back);
      { ScrollTraceAppend(prevScroll, front, back); }
      ScrollTrace(prevScroll, offsets);
    }
  }
}
