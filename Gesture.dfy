/**
 * The value-level part of the swipe list: the events the engine receives,
 * the host calls it makes, and the pure decisions of the touch engine
 * (hit test, swipe classification, release decision, snap target, row
 * renumbering after a removal).
 *
 * Coordinates, displacements and velocities are whole pixels (per second);
 * the platform's float readings are taken as integer inputs.
 */
module Gesture {
  import opened ListItems

  datatype Option<T> = None | Some(value: T)

  function Abs(n: int): (m: nat)
  {
    if n < 0 then -n else n
  }

  /** ListView.INVALID_POSITION. */
  const INVALID_POSITION: int := -1

  /** The swipe actions of SwipeListView with their integer codes. */
  datatype SwipeAction = Reveal | Dismiss | Check | NoAction {
    function Code(): (code: int)
    {
      match this
      case Reveal => 0
      case Dismiss => 1
      case Check => 2
      case NoAction => 3
    }
  }

  /** The intercept classifier's TOUCH_STATE_REST, _SCROLLING_X and _SCROLLING_Y. */
  datatype TouchState = Rest | ScrollingX | ScrollingY

  /** AbsListView scroll states: SCROLL_STATE_IDLE, _TOUCH_SCROLL and _FLING. */
  datatype ScrollState = Idle | TouchScroll | Fling

  /** The masked action of a MotionEvent; every other action code is Other. */
  datatype MotionAction = Down | Up | Move | Cancel | Other

  /**
   * A touch event: rawX/rawY are screen coordinates, x/y are relative to the
   * list view.
   */
  datatype MotionEvent = MotionEvent(action: MotionAction, rawX: int, rawY: int, x: int, y: int)

  /** What the velocity tracker reports (signed, pixels per second) once it has seen the event. */
  datatype Velocity = Velocity(x: int, y: int)

  /** android.graphics.Rect: left and top inclusive, right and bottom exclusive. */
  datatype Rect = Rect(left: int, top: int, right: int, bottom: int) {
    /** Rect.contains(x, y): an empty rectangle contains no point. */
    predicate Contains(x: int, y: int)
    {
      left < right && top < bottom && left <= x < right && top <= y < bottom
    }
  }

  /**
   * The host list as the engine sees it during one event: its width, its
   * origin on screen, the first visible position, the hit rectangles of the
   * visible children (child i shows position firstVisible + i) and the
   * adapter's isEnabled.
   */
  datatype ListSnapshot = ListSnapshot(
    width: nat,
    originX: int,
    originY: int,
    firstVisible: int,
    children: seq<Rect>,
    isEnabled: int -> bool)

  /**
   * What the engine does to the outside world: the host's notification hooks
   * (onStartOpen, onStartClose, onMove, onOpened, onClosed, onDismiss) and the
   * two visual repairs at the end of a collapse.
   */
  datatype Effect =
    | OnStartOpen(position: int, action: int, right: bool)
    | OnStartClose(position: int, right: bool)
    | OnMove(position: int, x: int)
    | OnOpened(position: int, toRight: bool)
    | OnClosed(position: int, fromRight: bool)
    | OnDismiss(position: int)
    /** The collapsed row's front view goes back to x = 0 and its back view to alpha 1. */
    | FrontRestored(position: int)
    /** The front view at `from` goes to x = 0 and the one at `to` takes its old x. */
    | FrontShifted(from: int, to: int)

  // ---------------------------------------------------------------- hit test

  /** Child i is under (x, y) and its position is enabled in the adapter. */
  predicate Touched(children: seq<Rect>, firstVisible: int, isEnabled: int -> bool, x: int, y: int, i: int)
  {
    0 <= i < |children| && children[i].Contains(x, y) && isEnabled(firstVisible + i)
  }

  /** The first touched child at index `from` or later. */
  function FirstTouchedFrom(children: seq<Rect>, firstVisible: int, isEnabled: int -> bool, x: int, y: int, from: nat): (r: Option<nat>)
    decreases |children| - from
    ensures r.Some? ==> from <= r.value && Touched(children, firstVisible, isEnabled, x, y, r.value)
    ensures r.Some? ==> forall j :: from <= j < r.value ==> !Touched(children, firstVisible, isEnabled, x, y, j)
    ensures r.None? ==> forall j :: from <= j < |children| ==> !Touched(children, firstVisible, isEnabled, x, y, j)
  {
    if from >= |children| then None
    else if Touched(children, firstVisible, isEnabled, x, y, from) then Some(from)
    else FirstTouchedFrom(children, firstVisible, isEnabled, x, y, from + 1)
  }

  /**
   * The hit-test loop of the touch-down branch: scan the visible children in
   * order and stop at the first whose rectangle holds the point and whose
   * position is enabled.
   */
  method FindTouchedChild(children: seq<Rect>, firstVisible: int, isEnabled: int -> bool, x: int, y: int)
    returns (hit: Option<nat>)
    ensures hit == FirstTouchedFrom(children, firstVisible, isEnabled, x, y, 0)
    ensures hit.Some? ==> hit.value < |children| && children[hit.value].Contains(x, y)
  {
    var i := 0;
    while i < |children|
      invariant 0 <= i <= |children|
      invariant FirstTouchedFrom(children, firstVisible, isEnabled, x, y, 0)
             == FirstTouchedFrom(children, firstVisible, isEnabled, x, y, i)
    {
      if Touched(children, firstVisible, isEnabled, x, y, i) {
        return Some(i);
      }
      i := i + 1;
    }
    return None;
  }

  /**
   * findViewByPosition and findFrontViewByPosition: the child that shows a list
   * position is at index position - firstVisible; None where getChildAt finds
   * no child (the source then dereferences null).
   */
  function ChildIndexForPosition(position: int, firstVisible: int, childCount: nat): (index: Option<nat>)
    ensures index.Some? <==> firstVisible <= position < firstVisible + childCount
    ensures index.Some? ==> firstVisible + index.value == position
  {
    var realPosition := position - firstVisible;
    if 0 <= realPosition < childCount then Some(realPosition) else None
  }

  /**
   * The position of any visible child maps back to that child, so in
   * particular the position recorded for the touched child does.
   */
  lemma ChildIndexOfVisibleChild(list: ListSnapshot, i: nat)
    requires i < |list.children|
    ensures ChildIndexForPosition(list.firstVisible + i, list.firstVisible, |list.children|) == Some(i)
  {
  }

  // ---------------------------------------------------------------- offsets

  /** The translation of a fully open front view: right by viewWidth - rightOffset, left by viewWidth - leftOffset. */
  function OpenOffset(toRight: bool, viewWidth: int, leftOffset: int, rightOffset: int): (offset: int)
  {
    if toRight then viewWidth - rightOffset else -viewWidth + leftOffset
  }

  /** Where the front view of a row in state d rests. */
  function RestingOffset(d: SwipeDirection, viewWidth: int, leftOffset: int, rightOffset: int): (offset: int)
  {
    match d
    case Closed => 0
    case Right => OpenOffset(true, viewWidth, leftOffset, rightOffset)
    case Left => OpenOffset(false, viewWidth, leftOffset, rightOffset)
  }

  /**
   * The state a reveal animation leaves its row in: no swap keeps it, a swap
   * closes an open row and opens a closed one toward swapRight.
   */
  function AfterReveal(d: SwipeDirection, swap: bool, swapRight: bool): (r: SwipeDirection)
    ensures swap ==> (r == Closed <==> d != Closed)
    ensures swap && r != Closed ==> (r == Right <==> swapRight)
    ensures !swap ==> r == d
  {
    if !swap then d
    else if d != Closed then Closed
    else if swapRight then Right
    else Left
  }

  // ---------------------------------------------------------------- gestures

  /** A move turns into a swipe: past the slop, no action yet, horizontal velocity dominant. */
  predicate StartsSwipe(deltaX: int, slop: int, action: SwipeAction, velocity: Velocity)
    ensures StartsSwipe(deltaX, slop, action, velocity) ==> action == NoAction && velocity.x != 0
    ensures StartsSwipe(deltaX, slop, action, velocity) && slop >= 0 ==> deltaX != 0
  {
    Abs(deltaX) > slop && action == NoAction && Abs(velocity.y) < Abs(velocity.x)
  }

  /** The release decision: commit (swap) to the other state, and which way. */
  datatype SwapDecision = SwapDecision(swap: bool, swapRight: bool)

  /**
   * An in-window fling of an open row, horizontal velocity dominant. A closed
   * row never flings: its horizontal velocity is taken as 0 before the test.
   */
  predicate Flung(open: bool, velocity: Velocity, minFling: int, maxFling: int)
    ensures !open ==> !Flung(open, velocity, minFling, maxFling)
    ensures Flung(open, velocity, minFling, maxFling) ==> velocity.x != 0
  {
    open && minFling <= Abs(velocity.x) <= maxFling && Abs(velocity.y) < Abs(velocity.x)
  }

  /**
   * Touch-up: a fling commits unless it points the way the row is already
   * open; otherwise the row commits when dragged past half its width, toward
   * the side it was dragged to.
   */
  function DecideSwap(open: bool, swipedRight: bool, velocity: Velocity, deltaX: int,
                      minFling: int, maxFling: int, viewWidth: nat): (d: SwapDecision)
    ensures Flung(open, velocity, minFling, maxFling) ==>
              d.swapRight == (velocity.x > 0) && (d.swap <==> swipedRight != (velocity.x > 0))
    ensures !Flung(open, velocity, minFling, maxFling) ==>
              (d.swap <==> Abs(deltaX) > viewWidth / 2) && (d.swap ==> d.swapRight == (deltaX > 0))
  {
    var velocityX := if open then Abs(velocity.x) else 0;
    var velocityY := Abs(velocity.y);
    if minFling <= velocityX <= maxFling && velocityY < velocityX then
      var swapRight := velocity.x > 0;
      if open && swipedRight && swapRight then SwapDecision(false, swapRight)
      else if open && !swipedRight && !swapRight then SwapDecision(false, swapRight)
      else SwapDecision(true, swapRight)
    else if Abs(deltaX) > viewWidth / 2 then SwapDecision(true, deltaX > 0)
    else SwapDecision(false, false)
  }

  /** A fling further in the direction a row is open in leaves it open that way. */
  lemma FlingInOpenDirectionKeepsRow(d: SwipeDirection, velocity: Velocity, deltaX: int,
                                     minFling: int, maxFling: int, viewWidth: nat)
    requires d != Closed && Flung(true, velocity, minFling, maxFling)
    requires (d == Right) == (velocity.x > 0)
    ensures var s := DecideSwap(true, d == Right, velocity, deltaX, minFling, maxFling, viewWidth);
            AfterReveal(d, s.swap, s.swapRight) == d
  {
  }

  /** A fling against the direction an open row is open in closes it. */
  lemma OppositeFlingClosesRow(d: SwipeDirection, velocity: Velocity, deltaX: int,
                               minFling: int, maxFling: int, viewWidth: nat)
    requires d != Closed && Flung(true, velocity, minFling, maxFling)
    requires (d == Right) != (velocity.x > 0)
    ensures var s := DecideSwap(true, d == Right, velocity, deltaX, minFling, maxFling, viewWidth);
            AfterReveal(d, s.swap, s.swapRight) == Closed
  {
  }

  /** A closed row opens only when dragged past half its width, toward the drag. */
  lemma ClosedRowOpensPastHalfWidth(velocity: Velocity, deltaX: int, minFling: int, maxFling: int, viewWidth: nat)
    ensures var s := DecideSwap(false, false, velocity, deltaX, minFling, maxFling, viewWidth);
            var after := AfterReveal(Closed, s.swap, s.swapRight);
            (after != Closed <==> Abs(deltaX) > viewWidth / 2) && (after == Right <==> after != Closed && deltaX > 0)
  {
  }

  // ---------------------------------------------------------------- removal

  /** The list once the row at `removed` is gone (also the pending animations once one has ended). */
  function RemoveAt<T>(s: seq<T>, removed: nat): (r: seq<T>)
    requires removed < |s|
    ensures |r| == |s| - 1
  {
    s[..removed] + s[removed + 1..]
  }

  /** A tracked position after the row at `removed` is gone. */
  function Renumber(position: int, removed: int): (renumbered: int)
  {
    if position > removed then position - 1 else position
  }

  /** Renumbering keeps a tracked position on the same row after the removal. */
  lemma RenumberTracksRow<T>(s: seq<T>, position: nat, removed: nat)
    requires removed < |s| && position < |s| && position != removed
    ensures 0 <= Renumber(position, removed) < |RemoveAt(s, removed)|
    ensures RemoveAt(s, removed)[Renumber(position, removed)] == s[position]
  {
  }
}
