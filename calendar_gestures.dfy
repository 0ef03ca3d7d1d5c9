/** The drag-to-page gesture of src/hooks/useCalendarGestures.ts: a press
    records the start x, each move records the offset from it, and the release
    turns a drag of more than 100 pixels to the right or to the left into a
    page request. The hook's two state variables become the fields of a class,
    and the callbacks a release fires become its results. */
module CalendarGestures {
  import opened Common

  /** The paging threshold in pixels. */
  const Threshold := 100

  /** Which callbacks a release fires, given the press (if any) and the
      offset: right for more than 100 pixels rightwards, left for more than 100
      leftwards, nothing without a press. */
  function Paging(dragStart: Option<int>, dragOffset: int): (r: (bool, bool))
    ensures r.0 <==> dragStart.Some? && dragOffset > Threshold
    ensures r.1 <==> dragStart.Some? && dragOffset < -Threshold
  {
    if dragStart.Some? then (dragOffset > Threshold, dragOffset < -Threshold) else (false, false)
  }

  /** At most one page turn per release, and the thresholds are strict. */
  lemma PagingFiresAtMostOne(dragStart: Option<int>, dragOffset: int)
    ensures !(Paging(dragStart, dragOffset).0 && Paging(dragStart, dragOffset).1)
    ensures Paging(Some(0), 100) == (false, false) && Paging(Some(0), -100) == (false, false)
    ensures Paging(Some(0), 101) == (true, false) && Paging(Some(0), -101) == (false, true)
    ensures Paging(None, dragOffset) == (false, false)
  {
  }

  class CalendarGestures {
    var dragStart: Option<int>
    var dragOffset: int

    /** No offset without a press. */
    ghost predicate Valid()
      reads this
    {
      dragStart.None? ==> dragOffset == 0
    }

    constructor ()
      ensures Valid() && dragStart == None && dragOffset == 0
    {
      dragStart := None;
      dragOffset := 0;
    }

    /** Touch start and mouse down: remember where the press began. */
    method Press(x: int)
      requires Valid()
      modifies this
      ensures Valid()
      ensures dragStart == Some(x) && dragOffset == old(dragOffset)
    {
      dragStart := Some(x);
    }

    /** `handleMove`, behind touch move and mouse move: ignored without a
        press, else the offset from the press. */
    method Move(x: int)
      requires Valid()
      modifies this
      ensures Valid()
      ensures dragStart == old(dragStart)
      ensures old(dragStart).None? ==> dragOffset == old(dragOffset)
      ensures old(dragStart).Some? ==> dragOffset == x - old(dragStart).value
    {
      if dragStart.None? {
        return;
      }
      dragOffset := x - dragStart.value;
    }

    /** `handleEnd`, bound to touch end, mouse up and mouse leave alike:
        report the page turns and reset both fields. */
    method End() returns (swipeRight: bool, swipeLeft: bool)
      requires Valid()
      modifies this
      ensures Valid()
      ensures (swipeRight, swipeLeft) == Paging(old(dragStart), old(dragOffset))
      ensures dragStart == None && dragOffset == 0
    {
      swipeRight, swipeLeft := false, false;
      if dragStart.Some? {
        if dragOffset > Threshold { swipeRight := true; }
        if dragOffset < -Threshold { swipeLeft := true; }
      }
      dragStart := None;
      dragOffset := 0;
    }
  }

  /** A press at 400 dragged to 250 and released turns the page left once. */
  method DragLeftPages() returns (right: bool, left: bool)
    ensures !right && left
  {
    var g := new CalendarGestures();
    g.Press(400);
    g.Move(250);
    right, left := g.End();
  }
}
