/** The swipe-to-act gesture of src/hooks/useSwipeGesture.ts. A touch or a
    mouse drag first locks its direction; a horizontal one drags the item to
    the left, and on release fires the delete callback, the edit callback, or
    nothing, according to how far it went. The hook's state and refs become
    the fields of a class, and the callbacks that fire become results. */
module SwipeGesture {
  import opened Common

  /** The three answers of `getSwipeAction`, also used for the callback that a
      release fires. */
  datatype SwipeAction = NoAction | EditAction | DeleteAction

  const DefaultEditThreshold := 80
  const DefaultDeleteThreshold := 150

  /** The direction lock after one move by (`dx`, `dy`) from the start point:
      once chosen it stays; otherwise it is chosen at the first move of more
      than 5 pixels along either axis, horizontal exactly when the horizontal
      distance is strictly the larger. */
  function LockDirection(lock: Option<bool>, dx: int, dy: int): (r: Option<bool>)
    ensures lock.Some? ==> r == lock
    ensures lock.None? ==> (r.Some? <==> Abs(dx) > 5 || Abs(dy) > 5)
    ensures lock.None? && r.Some? ==> (r.value <==> Abs(dx) > Abs(dy))
  {
    if lock.None? && (Abs(dx) > 5 || Abs(dy) > 5) then Some(Abs(dx) > Abs(dy)) else lock
  }

  /** A horizontal lock needs more than 5 pixels of horizontal travel, and an
      exactly diagonal move locks vertically. */
  lemma HorizontalLockNeedsHorizontalTravel(dx: int, dy: int)
    ensures LockDirection(None, dx, dy) == Some(true) ==> Abs(dx) > 5
    ensures Abs(dx) == Abs(dy) > 5 ==> LockDirection(None, dx, dy) == Some(false)
    ensures Abs(dx) <= 5 && Abs(dy) <= 5 ==> LockDirection(None, dx, dy) == None
  {
  }

  /** The callback a horizontal release with final offset `offset` fires:
      delete when it went at least the delete threshold and a delete callback
      exists, else edit under the same condition for the edit threshold. */
  function ReleaseAction(offset: int, hasEdit: bool, hasDelete: bool, editThreshold: int, deleteThreshold: int): (a: SwipeAction)
    ensures a == DeleteAction <==> offset <= -deleteThreshold && hasDelete
    ensures a == EditAction <==> !(offset <= -deleteThreshold && hasDelete) && offset <= -editThreshold && hasEdit
  {
    if offset <= -deleteThreshold && hasDelete then DeleteAction
    else if offset <= -editThreshold && hasEdit then EditAction
    else NoAction
  }

  /** `getSwipeAction`: the action the current offset would trigger, shown
      while dragging. */
  function ActionForOffset(swipeOffset: int, editThreshold: int, deleteThreshold: int): (a: SwipeAction)
    ensures a == DeleteAction <==> Abs(swipeOffset) >= deleteThreshold
    ensures a == EditAction <==> Abs(swipeOffset) < deleteThreshold && Abs(swipeOffset) >= editThreshold
  {
    if Abs(swipeOffset) >= deleteThreshold then DeleteAction
    else if Abs(swipeOffset) >= editThreshold then EditAction
    else NoAction
  }

  /** With the default thresholds 80 and 150: -160 shows delete, -100 edit and
      -40 nothing. */
  lemma DefaultThresholdExamples()
    ensures ActionForOffset(-160, DefaultEditThreshold, DefaultDeleteThreshold) == DeleteAction
    ensures ActionForOffset(-100, DefaultEditThreshold, DefaultDeleteThreshold) == EditAction
    ensures ActionForOffset(-40, DefaultEditThreshold, DefaultDeleteThreshold) == NoAction
  {
  }

  function Rank(a: SwipeAction): nat {
    match a
    case NoAction => 0
    case EditAction => 1
    case DeleteAction => 2
  }

  /** Swiping further never fires a weaker action. */
  lemma ReleaseMonotone(o1: int, o2: int, hasEdit: bool, hasDelete: bool, editThreshold: int, deleteThreshold: int)
    requires o1 <= o2
    ensures Rank(ReleaseAction(o1, hasEdit, hasDelete, editThreshold, deleteThreshold))
         >= Rank(ReleaseAction(o2, hasEdit, hasDelete, editThreshold, deleteThreshold))
  {
  }

  /** When both callbacks are given and both thresholds are positive, the
      action shown for the displayed offset `Min(0, dx)` is the action a
      release at `dx` fires. */
  lemma ShownIsFired(dx: int, editThreshold: int, deleteThreshold: int)
    requires editThreshold > 0 && deleteThreshold > 0
    ensures ActionForOffset(Min(0, dx), editThreshold, deleteThreshold)
         == ReleaseAction(dx, true, true, editThreshold, deleteThreshold)
  {
  }

  class SwipeGesture {
    const hasEdit: bool
    const hasDelete: bool
    const editThreshold: int
    const deleteThreshold: int

    var swipeOffset: int
    var isAnimating: bool
    var isDragging: bool
    var touchStartX: int
    var touchStartY: int
    var currentX: int
    /** `null` until the gesture's direction is decided. */
    var isSwipingHorizontal: Option<bool>

    /** The item is only ever dragged to the left, and while a horizontal
        gesture is under way it sits at the last move's offset, clamped at 0. */
    ghost predicate Valid()
      reads this
    {
      swipeOffset <= 0 && (isSwipingHorizontal == Some(true) ==> swipeOffset == Min(0, currentX))
    }

    /** The hook's options; absent thresholds take their defaults. */
    constructor (hasEdit: bool, hasDelete: bool, editThreshold: Option<int>, deleteThreshold: Option<int>)
      ensures Valid()
      ensures this.hasEdit == hasEdit && this.hasDelete == hasDelete
      ensures this.editThreshold == editThreshold.GetOr(DefaultEditThreshold)
      ensures this.deleteThreshold == deleteThreshold.GetOr(DefaultDeleteThreshold)
      ensures swipeOffset == 0 && !isAnimating && !isDragging
      ensures touchStartX == 0 && touchStartY == 0 && currentX == 0 && isSwipingHorizontal == None
    {
      this.hasEdit := hasEdit;
      this.hasDelete := hasDelete;
      this.editThreshold := editThreshold.GetOr(DefaultEditThreshold);
      this.deleteThreshold := deleteThreshold.GetOr(DefaultDeleteThreshold);
      swipeOffset := 0;
      isAnimating := false;
      isDragging := false;
      touchStartX := 0;
      touchStartY := 0;
      currentX := 0;
      isSwipingHorizontal := None;
    }

    /** The `swipeAction` the hook returns. */
    function Shown(): (a: SwipeAction)
      reads this
      ensures a == ActionForOffset(swipeOffset, editThreshold, deleteThreshold)
    {
      ActionForOffset(swipeOffset, editThreshold, deleteThreshold)
    }

    /** What touch start and mouse down share: remember the start point,
        forget the lock and stop the animation. */
    method Begin(x: int, y: int)
      requires Valid()
      modifies this
      ensures Valid()
      ensures touchStartX == x && touchStartY == y && isSwipingHorizontal == None && !isAnimating
      ensures swipeOffset == old(swipeOffset) && currentX == old(currentX) && isDragging == old(isDragging)
    {
      touchStartX := x;
      touchStartY := y;
      isSwipingHorizontal := None;
      isAnimating := false;
    }

    /** What touch move and a mouse move while dragging share: decide the
        lock if it is still open, then follow a horizontal gesture. */
    method Follow(x: int, y: int)
      requires Valid()
      modifies this
      ensures Valid()
      ensures var dx := x - old(touchStartX);
        && isSwipingHorizontal == LockDirection(old(isSwipingHorizontal), dx, y - old(touchStartY))
        && (isSwipingHorizontal == Some(true) ==> currentX == dx && swipeOffset == Min(0, dx))
        && (isSwipingHorizontal != Some(true) ==> currentX == old(currentX) && swipeOffset == old(swipeOffset))
      ensures touchStartX == old(touchStartX) && touchStartY == old(touchStartY)
      ensures isAnimating == old(isAnimating) && isDragging == old(isDragging)
    {
      var dx := x - touchStartX;
      var dy := y - touchStartY;
      isSwipingHorizontal := LockDirection(isSwipingHorizontal, dx, dy);
      if isSwipingHorizontal == Some(true) {
        currentX := dx;
        swipeOffset := Min(0, dx);
      }
    }

    /** What touch end and mouse up share: a gesture that never locked
        horizontal just snaps back; a horizontal one animates back, fires the
        release action and reopens the lock. */
    method Finish() returns (fired: SwipeAction)
      requires Valid()
      modifies this
      ensures Valid()
      ensures swipeOffset == 0
      ensures old(isSwipingHorizontal) != Some(true) ==>
        fired == NoAction && isAnimating == old(isAnimating) && isSwipingHorizontal == old(isSwipingHorizontal)
      ensures old(isSwipingHorizontal) == Some(true) ==>
        && fired == ReleaseAction(old(currentX), hasEdit, hasDelete, editThreshold, deleteThreshold)
        && isAnimating && isSwipingHorizontal == None
      ensures touchStartX == old(touchStartX) && touchStartY == old(touchStartY)
      ensures currentX == old(currentX) && isDragging == old(isDragging)
    {
      if isSwipingHorizontal != Some(true) {
        swipeOffset := 0;
        return NoAction;
      }
      var offset := currentX;
      isAnimating := true;
      fired := ReleaseAction(offset, hasEdit, hasDelete, editThreshold, deleteThreshold);
      swipeOffset := 0;
      isSwipingHorizontal := None;
    }

    method TouchStart(x: int, y: int)
      requires Valid()
      modifies this
      ensures Valid()
      ensures touchStartX == x && touchStartY == y && isSwipingHorizontal == None && !isAnimating
      ensures swipeOffset == old(swipeOffset) && currentX == old(currentX) && isDragging == old(isDragging)
    {
      Begin(x, y);
    }

    method TouchMove(x: int, y: int)
      requires Valid()
      modifies this
      ensures Valid()
      ensures var dx := x - old(touchStartX);
        && isSwipingHorizontal == LockDirection(old(isSwipingHorizontal), dx, y - old(touchStartY))
        && (isSwipingHorizontal == Some(true) ==> currentX == dx && swipeOffset == Min(0, dx))
        && (isSwipingHorizontal != Some(true) ==> currentX == old(currentX) && swipeOffset == old(swipeOffset))
      ensures touchStartX == old(touchStartX) && touchStartY == old(touchStartY)
      ensures isAnimating == old(isAnimating) && isDragging == old(isDragging)
    {
      Follow(x, y);
    }

    method TouchEnd() returns (fired: SwipeAction)
      requires Valid()
      modifies this
      ensures Valid()
      ensures swipeOffset == 0
      ensures old(isSwipingHorizontal) != Some(true) ==>
        fired == NoAction && isAnimating == old(isAnimating) && isSwipingHorizontal == old(isSwipingHorizontal)
      ensures old(isSwipingHorizontal) == Some(true) ==>
        && fired == ReleaseAction(old(currentX), hasEdit, hasDelete, editThreshold, deleteThreshold)
        && isAnimating && isSwipingHorizontal == None
      ensures touchStartX == old(touchStartX) && touchStartY == old(touchStartY)
      ensures currentX == old(currentX) && isDragging == old(isDragging)
    {
      fired := Finish();
    }

    method MouseDown(x: int, y: int)
      requires Valid()
      modifies this
      ensures Valid()
      ensures isDragging
      ensures touchStartX == x && touchStartY == y && isSwipingHorizontal == None && !isAnimating
      ensures swipeOffset == old(swipeOffset) && currentX == old(currentX)
    {
      isDragging := true;
      Begin(x, y);
    }

    /** Ignored unless the mouse button is down. */
    method MouseMove(x: int, y: int)
      requires Valid()
      modifies this
      ensures Valid()
      ensures !old(isDragging) ==> unchanged(this)
      ensures old(isDragging) ==>
        var dx := x - old(touchStartX);
        && isSwipingHorizontal == LockDirection(old(isSwipingHorizontal), dx, y - old(touchStartY))
        && (isSwipingHorizontal == Some(true) ==> currentX == dx && swipeOffset == Min(0, dx))
        && (isSwipingHorizontal != Some(true) ==> currentX == old(currentX) && swipeOffset == old(swipeOffset))
        && touchStartX == old(touchStartX) && touchStartY == old(touchStartY)
        && isAnimating == old(isAnimating) && isDragging
    {
      if !isDragging {
        return;
      }
      Follow(x, y);
    }

    /** Ignored unless the mouse button is down; otherwise it ends dragging
        and then ends the gesture as a touch end does. */
    method MouseUp() returns (fired: SwipeAction)
      requires Valid()
      modifies this
      ensures Valid()
      ensures !old(isDragging) ==> unchanged(this) && fired == NoAction
      ensures old(isDragging) ==>
        && !isDragging && swipeOffset == 0
        && (old(isSwipingHorizontal) != Some(true) ==>
              fired == NoAction && isAnimating == old(isAnimating) && isSwipingHorizontal == old(isSwipingHorizontal))
        && (old(isSwipingHorizontal) == Some(true) ==>
              && fired == ReleaseAction(old(currentX), hasEdit, hasDelete, editThreshold, deleteThreshold)
              && isAnimating && isSwipingHorizontal == None)
        && touchStartX == old(touchStartX) && touchStartY == old(touchStartY) && currentX == old(currentX)
    {
      if !isDragging {
        return NoAction;
      }
      isDragging := false;
      fired := Finish();
    }

    /** `onMouseLeave` is bound to the mouse-up handler. */
    method MouseLeave() returns (fired: SwipeAction)
      requires Valid()
      modifies this
      ensures Valid()
      ensures !old(isDragging) ==> unchanged(this) && fired == NoAction
      ensures old(isDragging) ==>
        && !isDragging && swipeOffset == 0
        && (old(isSwipingHorizontal) != Some(true) ==>
              fired == NoAction && isAnimating == old(isAnimating) && isSwipingHorizontal == old(isSwipingHorizontal))
        && (old(isSwipingHorizontal) == Some(true) ==>
              && fired == ReleaseAction(old(currentX), hasEdit, hasDelete, editThreshold, deleteThreshold)
              && isAnimating && isSwipingHorizontal == None)
        && touchStartX == old(touchStartX) && touchStartY == old(touchStartY) && currentX == old(currentX)
    {
      fired := MouseUp();
    }
  }

  /** A whole left swipe with the default thresholds and both callbacks: a
      touch at (300, 100), a move to (140, 110) and a release deletes; the
      item showed delete while dragged and is back at 0 afterwards. */
  method DefaultSwipeDeletes() returns (shown: SwipeAction, fired: SwipeAction, offsetAfter: int)
    ensures shown == DeleteAction && fired == DeleteAction && offsetAfter == 0
  {
    var g := new SwipeGesture(true, true, None, None);
    g.TouchStart(300, 100);
    g.TouchMove(140, 110);
    shown := g.Shown();
    fired := g.TouchEnd();
    offsetAfter := g.swipeOffset;
  }
}
