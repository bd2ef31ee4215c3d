/**
 * Client code of the swipe list: concrete gestures replayed through the
 * public events, and the end-to-end consequences of the three places where
 * the engine as written departs from what its callers are promised.
 */
module SwipeScenarios {
  import opened ListItems
  import opened Gesture
  import opened SwipeList

  /** Touch slop 8, paging touch slop 16, fling window 50..8000. */
  const Config: ViewConfiguration := ViewConfiguration(8, 16, 50, 8000)

  /** A list 300 wide at the screen origin showing positions 0..5, 100 high each, all enabled. */
  function SixRows(): (list: ListSnapshot)
    ensures list.width == 300 && |list.children| == 6 && list.firstVisible == 0
  {
    ListSnapshot(300, 0, 0, 0,
                 [Rect(0, 0, 300, 100), Rect(0, 100, 300, 200), Rect(0, 200, 300, 300),
                  Rect(0, 300, 300, 400), Rect(0, 400, 300, 500), Rect(0, 500, 300, 600)],
                 p => true)
  }

  function Touch(action: MotionAction, x: int, y: int): (event: MotionEvent)
  {
    MotionEvent(action, x, y, x, y)
  }

  /**
   * Row 3, closed, in a list 300 wide: a quick 200 px swipe to the left is
   * reported as the start of an opening to the left, snaps to -300 on
   * release and, once the animation ends, leaves row 3 open to the left.
   * (A closed row never flings, so it is the displacement past half the
   * width that commits.)
   */
  method SwipeRowThreeLeft() returns (e: SwipeListViewTouchListener)
    ensures fresh(e) && fresh(e.lastItem) && fresh(e.listView)
    ensures e.Valid() && e.IsOpen(3) && !e.WasSwipedRight(3) && e.lastItem.WasSwipedLeft()
    ensures forall p :: p != 3 ==> !e.IsOpen(p)
    ensures e.effects == [OnStartOpen(3, Reveal.Code(), false), OnMove(3, -200), OnOpened(3, false)]
    ensures e.pending == [] && !e.tracking && !e.swiping && e.downPosition == INVALID_POSITION
    ensures !e.paused && e.viewWidth == 300 && e.slop == Config.touchSlop
    ensures e.minFlingVelocity == Config.minFlingVelocity && e.maxFlingVelocity == Config.maxFlingVelocity
  {
    var view := new SwipeListView(2, 1, Config);
    e := view.touchListener;
    var list := SixRows();
    var consumed := e.OnTouch(Touch(Down, 250, 350), list, Velocity(0, 0));
    assert FirstTouchedFrom(list.children, 0, list.isEnabled, 250, 350, 3) == Some(3);
    assert consumed && e.tracking && e.downPosition == 3 && e.viewWidth == 300;
    consumed := e.OnTouch(Touch(Move, 50, 350), list, Velocity(-2000, 0));
    assert consumed && e.swiping && e.swipeCurrentAction == Reveal;
    consumed := e.OnTouch(Touch(Up, 50, 350), list, Velocity(-2000, 0));
    assert !consumed && |e.pending| == 1 && e.pending[0].moveTo == -300;
    e.EndReveal(0);
  }

  /**
   * With row 3 open to the left, a drag of row 5 190 px to the right (past
   * half of 300) is reported as the start of an opening to the right and, on
   * release, starts a committing reveal of a new record of row 5 that also
   * has to collapse row 3.
   */
  method SwipeRowFiveRight(e: SwipeListViewTouchListener)
    requires e.Valid() && e.IsOpen(3) && e.lastItem.WasSwipedLeft() && !e.paused && !e.tracking
    requires e.viewWidth == 300 && e.slop == Config.touchSlop
    requires e.minFlingVelocity == Config.minFlingVelocity && e.maxFlingVelocity == Config.maxFlingVelocity
    requires e.pending == []
    modifies e
    ensures e.Valid() && e.lastItem == old(e.lastItem) && e.IsOpen(3) && e.lastItem.WasSwipedLeft()
    ensures e.effects == old(e.effects) + [OnStartOpen(5, Reveal.Code(), true), OnMove(5, 190)]
    ensures |e.pending| == 1 && e.pending[0].RevealAnimation?
    ensures e.pending[0] == RevealAnimation(300, true, true, e.pending[0].item, true)
    ensures fresh(e.pending[0].item) && e.pending[0].item.position == 5 && !e.pending[0].item.IsOpen()
  {
    var list := SixRows();
    var consumed := e.OnTouch(Touch(Down, 10, 550), list, Velocity(0, 0));
    assert FirstTouchedFrom(list.children, 0, list.isEnabled, 10, 550, 5) == Some(5);
    assert e.downPosition == 5 && e.downX == 10 && e.swipeCurrentAction == NoAction;
    consumed := e.OnTouch(Touch(Move, 200, 550), list, Velocity(1000, 0));
    assert e.tracking && e.swiping && e.swipeCurrentAction == Reveal && e.downPosition == 5;
    consumed := e.OnTouch(Touch(Up, 200, 550), list, Velocity(1000, 0));
  }

  /**
   * The cross-close: after row 3 was opened to the left, row 5 is opened to
   * the right. Once its reveal ends row 5 is the open row and row 3 is being
   * collapsed; once that collapse ends, row 3 is reported dismissed and the
   * open record moves to position 4, the place row 5 takes once row 3 is
   * removed.
   */
  method CrossClose() returns (e: SwipeListViewTouchListener, beforeCollapse: bool)
    ensures beforeCollapse
    ensures e.Valid() && e.pending == []
    ensures e.IsOpen(4) && e.WasSwipedRight(4) && !e.IsOpen(3) && !e.IsOpen(5)
    ensures e.effects == [OnStartOpen(3, Reveal.Code(), false), OnMove(3, -200), OnOpened(3, false),
                          OnStartOpen(5, Reveal.Code(), true), OnMove(5, 190), OnOpened(5, true),
                          OnDismiss(3), FrontRestored(3), FrontShifted(5, 4)]
  {
    e := SwipeRowThreeLeft();
    var row3 := e.lastItem;
    SwipeRowFiveRight(e);
    e.EndReveal(0);
    beforeCollapse := !e.IsOpen(3) && e.IsOpen(5) && e.WasSwipedRight(5);
    assert e.pending == [CrushAnimation(row3, Some(e.lastItem), 3)];
    e.EndCrushAsWritten(0);
  }

  /**
   * A tap on row 2 that moves 5 px, less than the slop, starts no swipe: no
   * notification, no animation, no open row, and the front view stays
   * clickable.
   */
  method TapBelowSlop() returns (e: SwipeListViewTouchListener)
    ensures e.Valid() && e.effects == [] && e.pending == []
    ensures forall p :: !e.IsOpen(p)
    ensures e.frontClickable && !e.swiping && e.swipeCurrentAction == NoAction
  {
    var view := new SwipeListView(2, 1, Config);
    e := view.touchListener;
    var list := SixRows();
    var consumed := e.OnTouch(Touch(Down, 100, 250), list, Velocity(0, 0));
    assert FirstTouchedFrom(list.children, 0, list.isEnabled, 100, 250, 2) == Some(2);
    consumed := e.OnTouch(Touch(Move, 105, 250), list, Velocity(900, 0));
    consumed := e.OnTouch(Touch(Up, 105, 250), list, Velocity(900, 0));
  }

  /** The host's intercept classifier sends a horizontal drag to the engine and keeps vertical ones. */
  method InterceptHorizontalThenVertical() returns (view: SwipeListView, first: bool, second: bool)
    ensures view.touchState == ScrollingY && !first && second
  {
    view := new SwipeListView(2, 1, Config);
    var list := SixRows();
    var i := view.OnInterceptTouchEvent(Touch(Down, 100, 250), list, Velocity(0, 0), false);
    first := view.OnInterceptTouchEvent(Touch(Move, 130, 250), list, Velocity(0, 0), false);
    assert view.touchState == ScrollingX;
    view.ResetScrolling();
    second := view.OnInterceptTouchEvent(Touch(Move, 131, 290), list, Velocity(0, 0), false);
  }

  // ---------------------------------------------------------------- findings

  /**
   * closeAnimate as written, on an open row: once the reveal ends the row is
   * reported opened and left open to the left (its front view at rest).
   */
  method CloseAnimateAsWrittenReopens(e: SwipeListViewTouchListener, position: int)
    requires e.Valid() && e.IsOpen(position)
    modifies e, e.listView`touchState
    ensures e.IsOpen(position) && e.DirectionAt(position) == Left
    ensures e.effects == old(e.effects) + [OnOpened(position, false)]
  {
    e.CloseAnimateAsWritten(position);
    e.EndReveal(|e.pending| - 1);
  }

  /** closeAnimate on an open row: once the reveal ends no row is open and onClosed was reported. */
  method CloseAnimateCloses(e: SwipeListViewTouchListener, position: int)
    requires e.Valid() && e.IsOpen(position)
    modifies e, e.lastItem, e.listView`touchState
    ensures forall p :: !e.IsOpen(p)
    ensures e.effects == old(e.effects) + [OnClosed(position, old(e.WasSwipedRight(position)))]
  {
    e.CloseAnimate(position);
    e.EndReveal(|e.pending| - 1);
  }

  /**
   * closeOpenItem as written: once the reveal ends the row is open again, in
   * the other direction, and onOpened was reported.
   */
  method CloseOpenItemAsWrittenReopens(e: SwipeListViewTouchListener)
    requires e.Valid() && e.lastItem.IsOpen()
    modifies e, e.lastItem, e.listView`touchState
    ensures e.lastItem == old(e.lastItem) && e.lastItem.IsOpen()
    ensures e.lastItem.WasSwipedRight() == old(e.lastItem.WasSwipedLeft())
    ensures e.effects == old(e.effects) + [OnOpened(old(e.lastItem.position), old(e.lastItem.WasSwipedLeft()))]
  {
    e.CloseOpenItemAsWritten();
    e.EndReveal(|e.pending| - 1);
  }

  /** closeOpenItem: once the reveal ends no row is open and onClosed was reported. */
  method CloseOpenItemCloses(e: SwipeListViewTouchListener)
    requires e.Valid() && e.lastItem.IsOpen()
    modifies e, e.lastItem, e.listView`touchState
    ensures forall p :: !e.IsOpen(p)
    ensures e.effects == old(e.effects) + [OnClosed(old(e.lastItem.position), old(e.lastItem.WasSwipedRight()))]
  {
    e.CloseOpenItem();
    e.EndReveal(|e.pending| - 1);
  }

  /**
   * Rows 2 and then 1 are opened; opening row 1 collapses row 2. Returns the
   * engine with that collapse pending and the records of rows 1 and 2.
   */
  method OpenTwoThenOne() returns (e: SwipeListViewTouchListener, row1: ListItem, row2: ListItem)
    ensures fresh(e) && fresh(row1) && fresh(row2)
    ensures e.Valid() && e.lastItem == row1 && row1 != row2
    ensures row1.position == 1 && row1.swipeDirection == Left
    ensures row2.position == 2 && row2.swipeDirection == Left
    ensures e.pending == [CrushAnimation(row2, Some(row1), 2)]
  {
    var view := new SwipeListView(2, 1, Config);
    e := view.touchListener;
    e.OpenAnimate(2);
    e.EndReveal(0);
    row2 := e.lastItem;
    e.OpenAnimate(1);
    row1 := e.pending[0].item;
    e.EndReveal(0);
  }

  /**
   * The collapse as written renumbers row 1 to 0 although the dismissed row
   * 2 comes after it: row 0, never swiped, is then the one reported open.
   */
  method CrushAsWrittenMisnumbersEarlierRow() returns (e: SwipeListViewTouchListener)
    ensures e.IsOpen(0) && !e.IsOpen(1)
  {
    var row1, row2;
    e, row1, row2 := OpenTwoThenOne();
    e.EndCrushAsWritten(0);
  }

  /** The corrected collapse leaves row 1 numbered 1, still open to the left. */
  method CrushKeepsEarlierRow() returns (e: SwipeListViewTouchListener)
    ensures e.IsOpen(1) && e.DirectionAt(1) == Left && !e.IsOpen(0)
  {
    var row1, row2;
    e, row1, row2 := OpenTwoThenOne();
    e.EndCrush(0);
  }
}
