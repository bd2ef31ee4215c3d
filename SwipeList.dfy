/**
 * The swipe list's two stateful objects: the touch engine
 * (SwipeListViewTouchListener), which classifies gestures, tracks the one
 * row it last acted on and sequences the reveal and collapse animations, and
 * the list widget (SwipeListView), which decides whether to intercept touch
 * events and forwards them to the engine.
 *
 * Animations are not run: starting one appends a record to the engine's
 * `pending` list, and the animation's end is an explicit event (EndReveal,
 * EndCrush) that runs the completion logic. Calls on the host's notification
 * hooks and the front-view repairs of a collapse are appended to `effects`.
 */
module SwipeList {
  import opened ListItems
  import opened Gesture

  datatype Result<T> = Success(value: T) | Failure(message: string)

  /** A started animation whose end has not been delivered yet, with what its completion captured. */
  datatype Animation =
    /** Slide a front view to moveTo; at its end toggle `item` when swap holds. */
    | RevealAnimation(moveTo: int, swap: bool, swapRight: bool, item: ListItem, lastItemOpenAndNotMe: bool)
    /** Collapse the row of openItem (its views were looked up at openRow); newItem is the row that replaces it. */
    | CrushAnimation(openItem: ListItem, newItem: Option<ListItem>, openRow: int)

  /** The platform's ViewConfiguration values: the touch slop, the paging touch slop and the fling window. */
  datatype ViewConfiguration = ViewConfiguration(touchSlop: int, pagingTouchSlop: int, minFlingVelocity: int, maxFlingVelocity: int)

  function ItemSet(item: Option<ListItem>): (items: set<ListItem>)
  {
    if item.Some? then {item.value} else {}
  }

  class SwipeListViewTouchListener {
    const swipeFrontView: int
    const swipeBackView: int
    const slop: int
    const minFlingVelocity: int
    const maxFlingVelocity: int
    /** Float fields of the source that nothing ever assigns. */
    const leftOffset: int := 0
    const rightOffset: int := 0
    const listView: SwipeListView

    var viewWidth: nat
    var downX: int
    var swiping: bool
    /** The velocity tracker is held (obtained and not yet recycled). */
    var tracking: bool
    var downPosition: int
    /** The position whose front view the gesture holds, or None once released. */
    var frontView: Option<int>
    /** The clickable and long-clickable flags last set on that front view. */
    var frontClickable: bool
    var paused: bool
    var swipeCurrentAction: SwipeAction
    /** The row last acted upon; it alone decides which row is open. */
    var lastItem: ListItem
    var listViewMoving: bool
    var pending: seq<Animation>
    /** Delayed setEnabled(true) calls posted and not yet run. */
    var reEnablesPosted: nat
    var effects: seq<Effect>

    /** Only a gesture that holds a velocity tracker can be swiping. */
    ghost predicate Valid()
      reads this
    {
      swiping ==> tracking
    }

    constructor (listView: SwipeListView, swipeFrontView: int, swipeBackView: int, vc: ViewConfiguration)
      ensures Valid()
      ensures this.listView == listView && this.swipeFrontView == swipeFrontView && this.swipeBackView == swipeBackView
      ensures slop == vc.touchSlop && minFlingVelocity == vc.minFlingVelocity && maxFlingVelocity == vc.maxFlingVelocity
      ensures fresh(lastItem) && lastItem.position == -1 && !lastItem.IsOpen()
      ensures forall p :: !IsOpen(p)
      ensures viewWidth == 1 && !swiping && !tracking && !paused && !listViewMoving
      ensures swipeCurrentAction == NoAction && frontView == None
      ensures pending == [] && effects == [] && reEnablesPosted == 0
    {
      this.swipeFrontView := swipeFrontView;
      this.swipeBackView := swipeBackView;
      slop := vc.touchSlop;
      minFlingVelocity := vc.minFlingVelocity;
      maxFlingVelocity := vc.maxFlingVelocity;
      this.listView := listView;
      lastItem := new ListItem(-1);
      viewWidth := 1;
      downX := 0;
      swiping := false;
      tracking := false;
      downPosition := 0;
      frontView := None;
      frontClickable := true;
      paused := false;
      swipeCurrentAction := NoAction;
      listViewMoving := false;
      pending := [];
      reEnablesPosted := 0;
      effects := [];
    }

    // ------------------------------------------------------------ queries

    /** The direction of the row at a position: lastItem's when it is that row, closed otherwise. */
    function DirectionAt(position: int): (d: SwipeDirection)
      reads this, lastItem
    {
      if lastItem.position == position then lastItem.swipeDirection else Closed
    }

    /** At most one position is open: lastItem's. */
    function IsOpen(position: int): (open: bool)
      reads this, lastItem
      ensures open <==> DirectionAt(position) != Closed
      ensures open ==> position == lastItem.position
    {
      lastItem.position == position && lastItem.IsOpen()
    }

    function WasSwipedRight(position: int): (right: bool)
      reads this, lastItem
      ensures right <==> DirectionAt(position) == Right
      ensures right ==> IsOpen(position)
    {
      lastItem.position == position && lastItem.WasSwipedRight()
    }

    /**
     * The snap target of a reveal animation: the resting offset of the state
     * that a committing or non-committing reveal takes the direction lastItem
     * records for the position to. It is where the completion leaves the row
     * only when the reveal acts on lastItem itself (or on a fresh record of a
     * closed position) and nothing changes that record before the completion;
     * CloseAnimateAsWritten and CloseOpenItemAsWritten break that condition.
     */
    function CalcSwipeTranslationX(swap: bool, swapRight: bool, position: int): (moveTo: int)
      reads this, lastItem
      ensures moveTo == RestingOffset(AfterReveal(DirectionAt(position), swap, swapRight), viewWidth, leftOffset, rightOffset)
    {
      if IsOpen(position) then
        if !swap then
          if WasSwipedRight(position) then viewWidth - rightOffset else leftOffset - viewWidth
        else 0
      else
        if swap then
          if swapRight then viewWidth - rightOffset else leftOffset - viewWidth
        else 0
    }

    /** isListViewMoving: the flag the scroll listener sets on a touch scroll and clears on idle. */
    function IsListViewMoving(): (moving: bool)
      reads this
    {
      listViewMoving
    }

    method SetEnabled(enabled: bool)
      modifies this`paused
      ensures paused == !enabled
    {
      paused := !enabled;
    }

    // ------------------------------------------------------------ animations

    /** The records that the pending reveals act on. */
    function PendingItems(): (items: set<ListItem>)
      reads this
    {
      set a | a in pending && a.RevealAnimation? :: a.item
    }

    /** animateReveal: start the slide of a front view; `item` is the record its end acts on. */
    method AnimateReveal(swap: bool, swapRight: bool, item: ListItem)
      modifies this`pending
      ensures pending == old(pending) + [RevealAnimation(
                CalcSwipeTranslationX(swap, swapRight, item.position), swap, swapRight, item,
                item.position != lastItem.position && lastItem.IsOpen())]
    {
      var moveTo := CalcSwipeTranslationX(swap, swapRight, item.position);
      var isLastItemOpenAndNotMe := item.position != lastItem.position && lastItem.IsOpen();
      pending := pending + [RevealAnimation(moveTo, swap, swapRight, item, isLastItemOpenAndNotMe)];
    }

    /** animateCrush: start collapsing the row of openItem, whose views are looked up now. */
    method AnimateCrush(openItem: ListItem, newItem: Option<ListItem>)
      modifies this`pending
      ensures pending == old(pending) + [CrushAnimation(openItem, newItem, openItem.position)]
    {
      pending := pending + [CrushAnimation(openItem, newItem, openItem.position)];
    }

    /**
     * The reveal that chooseAnimation starts for the row at `position`: none
     * unless the current action is REVEAL; otherwise one acting on lastItem
     * itself when it is that row, or on a new closed record of that row.
     */
    twostate predicate RevealChosen(swap: bool, swapRight: bool, position: int)
      reads this, lastItem, PendingItems()
    {
      if old(swipeCurrentAction) != Reveal then pending == old(pending)
      else
        && |pending| == |old(pending)| + 1
        && pending[..|old(pending)|] == old(pending)
        && var a := pending[|old(pending)|];
        && a.RevealAnimation?
        && a.moveTo == CalcSwipeTranslationX(swap, swapRight, position)
        && a.swap == swap && a.swapRight == swapRight
        && a.lastItemOpenAndNotMe == (lastItem.position != position && lastItem.IsOpen())
        && if old(lastItem.position) == position then a.item == old(lastItem)
           else fresh(a.item) && a.item.position == position && !a.item.IsOpen()
    }

    method ChooseAnimation(swap: bool, swapRight: bool, position: int)
      modifies this`pending
      ensures RevealChosen(swap, swapRight, position)
    {
      var newItem := new ListItem(position);
      if lastItem.position == position {
        newItem := lastItem;
      }
      if swipeCurrentAction == Reveal {
        AnimateReveal(swap, swapRight, newItem);
      }
    }

    /**
     * The end of a reveal animation: the list's scroll classifier goes back to
     * rest; a committing animation toggles its row (reporting onClosed or
     * onOpened), collapses the row that was open before when that was another
     * row, and makes the toggled row lastItem. A non-committing one changes
     * no row.
     */
    method EndReveal(k: nat)
      requires Valid() && k < |pending| && pending[k].RevealAnimation?
      modifies this`pending, this`effects, this`lastItem, listView`touchState, pending[k].item
      ensures Valid()
      ensures listView.touchState == Rest
      ensures var a := old(pending[k]);
              if a.swap then
                && a.item.swipeDirection == AfterReveal(old(a.item.swipeDirection), true, a.swapRight)
                && a.item.position == old(a.item.position)
                && effects == old(effects) + [if old(a.item.IsOpen())
                                              then OnClosed(old(a.item.position), old(a.item.WasSwipedRight()))
                                              else OnOpened(old(a.item.position), a.swapRight)]
                && pending == RemoveAt(old(pending), k)
                              + (if a.lastItemOpenAndNotMe
                                 then [CrushAnimation(old(lastItem), Some(a.item), old(lastItem.position))]
                                 else [])
                && lastItem == a.item
              else
                && unchanged(a.item)
                && effects == old(effects)
                && pending == RemoveAt(old(pending), k)
                && lastItem == old(lastItem)
    {
      var a := pending[k];
      pending := RemoveAt(pending, k);
      listView.ResetScrolling();
      if a.swap {
        var item := a.item;
        if item.IsOpen() {
          effects := effects + [OnClosed(item.position, item.WasSwipedRight())];
          item.Close();
        } else {
          effects := effects + [OnOpened(item.position, a.swapRight)];
          if a.swapRight {
            item.SwipeRight();
          } else {
            item.SwipeLeft();
          }
        }
        if a.lastItemOpenAndNotMe {
          AnimateCrush(lastItem, Some(item));
        }
        lastItem := item;
      }
    }

    /**
     * The end of a collapse as the source writes it: report onDismiss, restore
     * the collapsed row's views, renumber the replacing row one position down
     * (always), move its front view only when it is not before the dismissed
     * row, and close the dismissed record.
     */
    method EndCrushAsWritten(k: nat)
      requires Valid() && k < |pending| && pending[k].CrushAnimation?
      modifies this`pending, this`effects, pending[k].openItem, ItemSet(pending[k].newItem)
      ensures var a := old(pending[k]);
              && pending == RemoveAt(old(pending), k)
              && !a.openItem.IsOpen()
              && (a.newItem.Some? ==> a.newItem.value.position == old(a.newItem.value.position) - 1)
              && (a.newItem.None? || a.newItem.value != a.openItem ==>
                    a.openItem.position == old(a.openItem.position))
              && (a.newItem.Some? && a.newItem.value != a.openItem ==>
                    a.newItem.value.swipeDirection == old(a.newItem.value.swipeDirection))
              && effects == old(effects) + [OnDismiss(old(a.openItem.position)), FrontRestored(a.openRow)]
                            + (if a.newItem.Some? && a.newItem.value.position >= a.openItem.position
                               then [FrontShifted(old(a.newItem.value.position), a.newItem.value.position)]
                               else [])
    {
      var a := pending[k];
      pending := RemoveAt(pending, k);
      effects := effects + [OnDismiss(a.openItem.position), FrontRestored(a.openRow)];
      if a.newItem.Some? {
        var newItem := a.newItem.value;
        var position := newItem.position;
        var front := position;
        position := position - 1;
        newItem.SetPosition(position);
        if position >= a.openItem.position {
          effects := effects + [FrontShifted(front, position)];
        }
      }
      a.openItem.Close();
    }

    /**
     * The end of a collapse, renumbering the replacing row only when it comes
     * after the dismissed one, so that it keeps naming the same row once the
     * dismissed row is removed.
     */
    method EndCrush(k: nat)
      requires Valid() && k < |pending| && pending[k].CrushAnimation?
      modifies this`pending, this`effects, pending[k].openItem, ItemSet(pending[k].newItem)
      ensures var a := old(pending[k]);
              && pending == RemoveAt(old(pending), k)
              && !a.openItem.IsOpen()
              && a.openItem.position == old(a.openItem.position)
              && (a.newItem.Some? ==>
                    a.newItem.value.position == Renumber(old(a.newItem.value.position), old(a.openItem.position)))
              && (a.newItem.Some? && a.newItem.value != a.openItem ==>
                    a.newItem.value.swipeDirection == old(a.newItem.value.swipeDirection))
              && effects == old(effects) + [OnDismiss(old(a.openItem.position)), FrontRestored(a.openRow)]
                            + (if a.newItem.Some? && old(a.newItem.value.position) > old(a.openItem.position)
                               then [FrontShifted(old(a.newItem.value.position), a.newItem.value.position)]
                               else [])
    {
      var a := pending[k];
      pending := RemoveAt(pending, k);
      var dismissed := a.openItem.position;
      effects := effects + [OnDismiss(dismissed), FrontRestored(a.openRow)];
      if a.newItem.Some? {
        var newItem := a.newItem.value;
        var position := newItem.position;
        if position > dismissed {
          newItem.SetPosition(position - 1);
          effects := effects + [FrontShifted(position, position - 1)];
        }
      }
      a.openItem.Close();
    }

    // ------------------------------------------------------------ programmatic open and close

    /** openAnimate: open a closed row to the left, acting on a new record of it. */
    method OpenAnimate(position: int)
      modifies this`pending
      ensures old(IsOpen(position)) ==> pending == old(pending)
      ensures !old(IsOpen(position)) ==>
                && |pending| == |old(pending)| + 1
                && pending[..|old(pending)|] == old(pending)
                && var a := pending[|old(pending)|];
                && a.RevealAnimation? && a.swap && !a.swapRight
                && a.moveTo == RestingOffset(Left, viewWidth, leftOffset, rightOffset)
                && a.lastItemOpenAndNotMe == lastItem.IsOpen()
                && fresh(a.item) && a.item.position == position && !a.item.IsOpen()
    {
      if !IsOpen(position) {
        var item := new ListItem(position);
        AnimateReveal(true, false, item);
      }
    }

    /**
     * closeAnimate as the source writes it: for an open row it starts a
     * committing reveal on a NEW closed record of that row, so the snap target
     * is the closed offset while the completion opens the record.
     */
    method CloseAnimateAsWritten(position: int)
      modifies this`pending
      ensures !old(IsOpen(position)) ==> pending == old(pending)
      ensures old(IsOpen(position)) ==>
                && |pending| == |old(pending)| + 1
                && pending[..|old(pending)|] == old(pending)
                && var a := pending[|old(pending)|];
                && a.RevealAnimation? && a == RevealAnimation(0, true, false, a.item, false)
                && fresh(a.item) && a.item.position == position && !a.item.IsOpen()
    {
      if IsOpen(position) {
        var item := new ListItem(position);
        AnimateReveal(true, false, item);
      }
    }

    /** closeAnimate acting on lastItem, the open row's own record. */
    method CloseAnimate(position: int)
      modifies this`pending
      ensures !old(IsOpen(position)) ==> pending == old(pending)
      ensures old(IsOpen(position)) ==> pending == old(pending) + [RevealAnimation(0, true, false, lastItem, false)]
    {
      if IsOpen(position) {
        AnimateReveal(true, false, lastItem);
      }
    }

    /** crushOpenItem: collapse the open row, if there is one, with no replacing row. */
    method CrushOpenItem()
      modifies this`pending
      ensures pending == old(pending) + (if lastItem.IsOpen()
                                         then [CrushAnimation(lastItem, None, lastItem.position)]
                                         else [])
    {
      if !lastItem.IsOpen() {
        return;
      }
      AnimateCrush(lastItem, None);
    }

    /**
     * closeOpenItem as the source writes it: start a committing reveal on
     * lastItem and close lastItem at once, so the completion finds it closed
     * and opens it again.
     */
    method CloseOpenItemAsWritten()
      modifies this`pending, lastItem
      ensures !old(lastItem.IsOpen()) ==> pending == old(pending) && unchanged(lastItem)
      ensures old(lastItem.IsOpen()) ==>
                && pending == old(pending) + [RevealAnimation(0, true, old(lastItem.WasSwipedLeft()), lastItem, false)]
                && !lastItem.IsOpen() && lastItem.position == old(lastItem.position)
    {
      if !lastItem.IsOpen() {
        return;
      }
      AnimateReveal(true, lastItem.WasSwipedLeft(), lastItem);
      lastItem.Close();
    }

    /** closeOpenItem leaving the closing to the reveal's completion. */
    method CloseOpenItem()
      modifies this`pending
      ensures !lastItem.IsOpen() ==> pending == old(pending)
      ensures lastItem.IsOpen() ==>
                pending == old(pending) + [RevealAnimation(0, true, lastItem.WasSwipedLeft(), lastItem, false)]
    {
      if !lastItem.IsOpen() {
        return;
      }
      AnimateReveal(true, lastItem.WasSwipedLeft(), lastItem);
    }

    // ------------------------------------------------------------ scrolling

    /**
     * The scroll listener: a touch scroll pauses the engine, collapses the
     * open row and marks the list moving; a fling re-enables it; idle re-enables
     * it, clears the moving flag, resets the list's classifier and posts a
     * delayed re-enable.
     */
    method OnScrollStateChanged(scrollState: ScrollState)
      modifies this`paused, this`listViewMoving, this`pending, this`reEnablesPosted, listView`touchState
      ensures paused == (scrollState == TouchScroll)
      ensures IsListViewMoving() == (match scrollState
                                 case TouchScroll => true
                                 case Idle => false
                                 case Fling => old(IsListViewMoving()))
      ensures pending == old(pending) + (if scrollState == TouchScroll && lastItem.IsOpen()
                                         then [CrushAnimation(lastItem, None, lastItem.position)]
                                         else [])
      ensures scrollState == Idle ==> listView.touchState == Rest && reEnablesPosted == old(reEnablesPosted) + 1
      ensures scrollState != Idle ==> listView.touchState == old(listView.touchState) && reEnablesPosted == old(reEnablesPosted)
    {
      SetEnabled(scrollState != TouchScroll);
      if scrollState == TouchScroll {
        CrushOpenItem();
        listViewMoving := true;
        SetEnabled(false);
      }
      if scrollState != Fling && scrollState != TouchScroll {
        listViewMoving := false;
        listView.ResetScrolling();
        reEnablesPosted := reEnablesPosted + 1;
      }
    }

    /** A delayed setEnabled(true) that the idle scroll state posted runs. */
    method ReEnable()
      requires reEnablesPosted > 0
      modifies this`paused, this`reEnablesPosted
      ensures !paused && reEnablesPosted == old(reEnablesPosted) - 1
    {
      reEnablesPosted := reEnablesPosted - 1;
      SetEnabled(true);
    }

    // ------------------------------------------------------------ touch events

    /** move: report the front view's new offset to onMove. */
    method Move(deltaX: int)
      modifies this`effects
      ensures effects == old(effects) + [OnMove(downPosition, deltaX)]
    {
      effects := effects + [OnMove(downPosition, deltaX)];
    }

    /** No per-gesture field changed. */
    twostate predicate GestureUnchanged()
      reads this
    {
      && downX == old(downX) && swiping == old(swiping) && tracking == old(tracking)
      && downPosition == old(downPosition) && frontView == old(frontView)
      && frontClickable == old(frontClickable) && swipeCurrentAction == old(swipeCurrentAction)
      && pending == old(pending) && effects == old(effects)
    }

    /**
     * Touch-down: ignored while paused; otherwise the action is reset and, when
     * the first enabled visible child holds the point, the gesture takes that
     * row, its starting x, a velocity tracker, and makes the front view
     * clickable only if the row is closed. The event is consumed.
     */
    twostate predicate DownHandled(ev: MotionEvent, list: ListSnapshot, consumed: bool)
      reads this, lastItem
    {
      if old(paused) then !consumed && GestureUnchanged()
      else
        var hit := FirstTouchedFrom(list.children, list.firstVisible, list.isEnabled,
                                    ev.rawX - list.originX, ev.rawY - list.originY, 0);
        && consumed
        && swipeCurrentAction == NoAction
        && swiping == old(swiping) && pending == old(pending) && effects == old(effects)
        && if hit.Some? then
             && downPosition == list.firstVisible + hit.value
             && frontView == Some(downPosition)
             && downX == ev.rawX
             && frontClickable == !IsOpen(downPosition)
             && tracking
           else
             && downPosition == old(downPosition) && frontView == old(frontView)
             && downX == old(downX) && frontClickable == old(frontClickable)
             && tracking == old(tracking)
    }

    /**
     * Touch-move with a tracker and not paused: the move starts a swipe when
     * StartsSwipe holds (reporting onStartClose for an open row, onStartOpen
     * otherwise); a swiping gesture reports its offset, counted from the row's
     * resting offset, and consumes the event.
     */
    twostate predicate MoveHandled(ev: MotionEvent, velocity: Velocity, consumed: bool)
      reads this, lastItem
    {
      if !old(tracking) || old(paused) then !consumed && GestureUnchanged()
      else
        var deltaX := ev.rawX - old(downX);
        var starts := StartsSwipe(deltaX, slop, old(swipeCurrentAction), velocity);
        && downX == old(downX) && tracking && downPosition == old(downPosition)
        && frontView == old(frontView) && frontClickable == old(frontClickable) && pending == old(pending)
        && swiping == (old(swiping) || starts)
        && swipeCurrentAction == (if starts then Reveal else old(swipeCurrentAction))
        && consumed == swiping
        && effects == old(effects)
             + (if !starts then []
                else if IsOpen(downPosition) then [OnStartClose(downPosition, deltaX > 0)]
                else [OnStartOpen(downPosition, Reveal.Code(), deltaX > 0)])
             + (if !swiping then []
                else [OnMove(downPosition, deltaX + RestingOffset(DirectionAt(downPosition), viewWidth, leftOffset, rightOffset))])
    }

    /**
     * Touch-up of a swiping gesture: DecideSwap chooses the reveal that
     * chooseAnimation starts; the tracker is released, the gesture forgets its
     * row and stops swiping, and a committing release makes the front view
     * clickable only if the row was open. Without a tracker or a swipe
     * nothing happens.
     */
    twostate predicate UpHandled(ev: MotionEvent, velocity: Velocity, consumed: bool)
      reads this, lastItem, PendingItems()
    {
      if !old(tracking) || !old(swiping) then !consumed && GestureUnchanged()
      else
        var position := old(downPosition);
        var d := DecideSwap(IsOpen(position), WasSwipedRight(position), velocity, ev.rawX - old(downX),
                            minFlingVelocity, maxFlingVelocity, viewWidth);
        && !consumed
        && RevealChosen(d.swap, d.swapRight, position)
        && !tracking && !swiping && downX == 0
        && downPosition == INVALID_POSITION && frontView == None
        && frontClickable == (if d.swap then IsOpen(position) else old(frontClickable))
        && swipeCurrentAction == old(swipeCurrentAction) && effects == old(effects)
    }

    /** onTouch: what one touch event does to the engine, and whether it is consumed. */
    twostate predicate TouchHandled(ev: MotionEvent, list: ListSnapshot, velocity: Velocity, consumed: bool)
      reads this, lastItem, PendingItems()
    {
      && viewWidth == (if old(viewWidth) < 2 then list.width else old(viewWidth))
      && lastItem == old(lastItem)
      && lastItem.position == old(lastItem.position) && lastItem.swipeDirection == old(lastItem.swipeDirection)
      && paused == old(paused) && listViewMoving == old(listViewMoving) && reEnablesPosted == old(reEnablesPosted)
      && match ev.action
         case Down => DownHandled(ev, list, consumed)
         case Move => MoveHandled(ev, velocity, consumed)
         case Up => UpHandled(ev, velocity, consumed)
         case _ => !consumed && GestureUnchanged()
    }

    method OnTouch(ev: MotionEvent, list: ListSnapshot, velocity: Velocity) returns (consumed: bool)
      requires Valid()
      modifies this
      ensures Valid()
      ensures TouchHandled(ev, list, velocity, consumed)
    {
      if viewWidth < 2 {
        viewWidth := list.width;
      }
      match ev.action {
        case Down =>
          consumed := TouchDown(ev, list);
        case Up =>
          consumed := TouchUp(ev, velocity);
        case Move =>
          consumed := TouchMove(ev, velocity);
        case _ =>
          consumed := false;
      }
    }

    method TouchDown(ev: MotionEvent, list: ListSnapshot) returns (consumed: bool)
      modifies this`swipeCurrentAction, this`downX, this`downPosition, this`frontView, this`frontClickable, this`tracking
      ensures DownHandled(ev, list, consumed)
    {
      if paused {
        return false;
      }
      swipeCurrentAction := NoAction;
      var x := ev.rawX - list.originX;
      var y := ev.rawY - list.originY;
      var hit := FindTouchedChild(list.children, list.firstVisible, list.isEnabled, x, y);
      if hit.Some? {
        downX := ev.rawX;
        downPosition := list.firstVisible + hit.value;
        frontView := Some(downPosition);
        frontClickable := !IsOpen(downPosition);
        tracking := true;
      }
      return true;
    }

    method TouchUp(ev: MotionEvent, velocity: Velocity) returns (consumed: bool)
      requires Valid()
      modifies this`pending, this`tracking, this`downX, this`frontClickable, this`frontView, this`downPosition, this`swiping
      ensures Valid()
      ensures UpHandled(ev, velocity, consumed)
    {
      if !tracking || !swiping {
        return false;
      }
      var deltaX := ev.rawX - downX;
      var d := DecideSwap(IsOpen(downPosition), WasSwipedRight(downPosition), velocity, deltaX,
                          minFlingVelocity, maxFlingVelocity, viewWidth);
      ChooseAnimation(d.swap, d.swapRight, downPosition);
      tracking := false;
      downX := 0;
      if d.swap {
        frontClickable := IsOpen(downPosition);
      }
      frontView := None;
      downPosition := INVALID_POSITION;
      swiping := false;
      return false;
    }

    method TouchMove(ev: MotionEvent, velocity: Velocity) returns (consumed: bool)
      requires Valid()
      modifies this`swiping, this`swipeCurrentAction, this`effects
      ensures Valid()
      ensures MoveHandled(ev, velocity, consumed)
    {
      if !tracking || paused {
        return false;
      }
      var deltaX := ev.rawX - downX;
      if StartsSwipe(deltaX, slop, swipeCurrentAction, velocity) {
        swiping := true;
        var swipingRight := deltaX > 0;
        swipeCurrentAction := Reveal;
        if IsOpen(downPosition) {
          effects := effects + [OnStartClose(downPosition, swipingRight)];
        } else {
          effects := effects + [OnStartOpen(downPosition, swipeCurrentAction.Code(), swipingRight)];
        }
      }
      if swiping {
        var x := deltaX;
        if IsOpen(downPosition) {
          x := x + if WasSwipedRight(downPosition) then viewWidth - rightOffset else leftOffset - viewWidth;
        }
        Move(x);
        return true;
      }
      return false;
    }
  }

  /** The list widget: its intercept classifier and the engine it forwards touches to. */
  class SwipeListView {
    const swipeFrontView: int
    const swipeBackView: int
    const touchSlop: int
    var touchState: TouchState
    var lastMotionX: int
    var lastMotionY: int
    var touchListener: SwipeListViewTouchListener?

    ghost predicate Valid()
      reads this, touchListener
    {
      touchListener != null && touchListener.listView == this && touchListener.Valid()
    }

    constructor (swipeBackView: int, swipeFrontView: int, vc: ViewConfiguration)
      requires swipeFrontView != 0 && swipeBackView != 0
      ensures Valid() && fresh(touchListener) && fresh(touchListener.lastItem)
      ensures this.swipeFrontView == swipeFrontView && this.swipeBackView == swipeBackView
      ensures touchSlop == vc.pagingTouchSlop && touchState == Rest
      ensures touchListener.swipeFrontView == swipeFrontView && touchListener.swipeBackView == swipeBackView
      ensures touchListener.slop == vc.touchSlop && touchListener.minFlingVelocity == vc.minFlingVelocity
      ensures touchListener.maxFlingVelocity == vc.maxFlingVelocity
      ensures touchListener.lastItem.position == -1 && !touchListener.lastItem.IsOpen()
      ensures forall p :: !touchListener.IsOpen(p)
      ensures touchListener.viewWidth == 1 && !touchListener.swiping && !touchListener.tracking
      ensures !touchListener.paused && !touchListener.listViewMoving
      ensures touchListener.swipeCurrentAction == NoAction && touchListener.frontView == None
      ensures touchListener.pending == [] && touchListener.effects == [] && touchListener.reEnablesPosted == 0
    {
      this.swipeFrontView := swipeFrontView;
      this.swipeBackView := swipeBackView;
      touchSlop := vc.pagingTouchSlop;
      touchState := Rest;
      lastMotionX := 0;
      lastMotionY := 0;
      touchListener := null;
      new;
      touchListener := new SwipeListViewTouchListener(this, swipeFrontView, swipeBackView, vc);
    }

    /** init: both view identifiers must be set, or construction fails. */
    static method Init(swipeBackView: int, swipeFrontView: int, vc: ViewConfiguration) returns (r: Result<SwipeListView>)
      ensures r.Failure? <==> swipeFrontView == 0 || swipeBackView == 0
      ensures r.Success? ==>
                && fresh(r.value) && r.value.Valid() && fresh(r.value.touchListener)
                && fresh(r.value.touchListener.lastItem)
                && r.value.swipeFrontView == swipeFrontView && r.value.swipeBackView == swipeBackView
                && r.value.touchState == Rest && r.value.touchSlop == vc.pagingTouchSlop
                && var e := r.value.touchListener;
                && e.slop == vc.touchSlop && e.minFlingVelocity == vc.minFlingVelocity
                && e.maxFlingVelocity == vc.maxFlingVelocity
                && (forall p :: !e.IsOpen(p)) && e.lastItem.position == -1
                && e.viewWidth == 1 && !e.swiping && !e.tracking && !e.paused && !e.listViewMoving
                && e.swipeCurrentAction == NoAction && e.frontView == None
                && e.pending == [] && e.effects == [] && e.reEnablesPosted == 0
    {
      if swipeFrontView == 0 || swipeBackView == 0 {
        return Failure("Missed attribute swipeFrontView or swipeBackView");
      }
      var view := new SwipeListView(swipeBackView, swipeFrontView, vc);
      return Success(view);
    }

    /**
     * closeOpenedItems: the engine's closeOpenItem as the source calls it,
     * which starts a committing reveal on the open record and closes that
     * record at once.
     */
    method CloseOpenedItems()
      requires Valid()
      modifies touchListener`pending, touchListener.lastItem
      ensures Valid()
      ensures var e := touchListener;
              !old(e.lastItem.IsOpen()) ==> e.pending == old(e.pending) && unchanged(e.lastItem)
      ensures var e := touchListener;
              old(e.lastItem.IsOpen()) ==>
                && e.pending == old(e.pending) + [RevealAnimation(0, true, old(e.lastItem.WasSwipedLeft()), e.lastItem, false)]
                && !e.lastItem.IsOpen() && e.lastItem.position == old(e.lastItem.position)
    {
      touchListener.CloseOpenItemAsWritten();
    }

    /** openAnimate: open a closed row to the left, through the engine. */
    method OpenAnimate(position: int)
      requires Valid()
      modifies touchListener`pending
      ensures Valid()
      ensures var e := touchListener;
              old(e.IsOpen(position)) ==> e.pending == old(e.pending)
      ensures var e := touchListener;
              !old(e.IsOpen(position)) ==>
                && |e.pending| == |old(e.pending)| + 1
                && e.pending[..|old(e.pending)|] == old(e.pending)
                && var a := e.pending[|old(e.pending)|];
                && a.RevealAnimation? && a.swap && !a.swapRight
                && a.moveTo == RestingOffset(Left, e.viewWidth, e.leftOffset, e.rightOffset)
                && a.lastItemOpenAndNotMe == e.lastItem.IsOpen()
                && fresh(a.item) && a.item.position == position && !a.item.IsOpen()
    {
      touchListener.OpenAnimate(position);
    }

    /**
     * closeAnimate: the engine's closeAnimate as the source calls it, which
     * starts a committing reveal to 0 on a new closed record of the row.
     */
    method CloseAnimate(position: int)
      requires Valid()
      modifies touchListener`pending
      ensures Valid()
      ensures var e := touchListener;
              !old(e.IsOpen(position)) ==> e.pending == old(e.pending)
      ensures var e := touchListener;
              old(e.IsOpen(position)) ==>
                && |e.pending| == |old(e.pending)| + 1
                && e.pending[..|old(e.pending)|] == old(e.pending)
                && var a := e.pending[|old(e.pending)|];
                && a.RevealAnimation? && a == RevealAnimation(0, true, false, a.item, false)
                && fresh(a.item) && a.item.position == position && !a.item.IsOpen()
    {
      touchListener.CloseAnimateAsWritten(position);
    }

    method ResetScrolling()
      modifies this`touchState
      ensures touchState == Rest
    {
      touchState := Rest;
    }

    /**
     * checkInMoving: a move past the slop on x classifies the gesture as
     * horizontal, past the slop on y as vertical, and y wins when both are;
     * the reference point moves only when some axis moved past the slop.
     */
    method CheckInMoving(x: int, y: int)
      modifies this`touchState, this`lastMotionX, this`lastMotionY
      ensures var xMoved := Abs(x - old(lastMotionX)) > touchSlop;
              var yMoved := Abs(y - old(lastMotionY)) > touchSlop;
              && touchState == (if yMoved then ScrollingY else if xMoved then ScrollingX else old(touchState))
              && (lastMotionX, lastMotionY) == (if xMoved || yMoved then (x, y) else (old(lastMotionX), old(lastMotionY)))
    {
      var xDiff := Abs(x - lastMotionX);
      var yDiff := Abs(y - lastMotionY);
      var xMoved := xDiff > touchSlop;
      var yMoved := yDiff > touchSlop;
      if xMoved {
        touchState := ScrollingX;
        lastMotionX := x;
        lastMotionY := y;
      }
      if yMoved {
        touchState := ScrollingY;
        lastMotionX := x;
        lastMotionY := y;
      }
    }

    /**
     * onInterceptTouchEvent: once horizontal, every event goes to the engine
     * and its answer is returned; otherwise a move is classified and
     * intercepted only when vertical, a down goes to the engine, resets the
     * classifier and is never intercepted, a cancel resets the classifier, an
     * up goes to the engine and is intercepted only when vertical, and the
     * rest is left to ListView's own decision (superIntercept).
     */
    method OnInterceptTouchEvent(ev: MotionEvent, list: ListSnapshot, velocity: Velocity, superIntercept: bool)
      returns (intercept: bool)
      requires Valid()
      modifies this`touchState, this`lastMotionX, this`lastMotionY, touchListener
      ensures Valid()
      ensures old(touchState) == ScrollingX ==>
                && touchListener.TouchHandled(ev, list, velocity, intercept)
                && touchState == ScrollingX && lastMotionX == old(lastMotionX) && lastMotionY == old(lastMotionY)
      ensures old(touchState) != ScrollingX ==>
                match ev.action
                case Move =>
                  && unchanged(touchListener)
                  && var xMoved := Abs(ev.x - old(lastMotionX)) > touchSlop;
                  && var yMoved := Abs(ev.y - old(lastMotionY)) > touchSlop;
                  && touchState == (if yMoved then ScrollingY else if xMoved then ScrollingX else old(touchState))
                  && (lastMotionX, lastMotionY) == (if xMoved || yMoved then (ev.x, ev.y) else (old(lastMotionX), old(lastMotionY)))
                  && intercept == (touchState == ScrollingY)
                case Down =>
                  && touchListener.TouchHandled(ev, list, velocity, !old(touchListener.paused))
                  && touchState == Rest && lastMotionX == ev.x && lastMotionY == ev.y
                  && !intercept
                case Cancel =>
                  && unchanged(touchListener)
                  && touchState == Rest && lastMotionX == old(lastMotionX) && lastMotionY == old(lastMotionY)
                  && intercept == superIntercept
                case Up =>
                  && touchListener.TouchHandled(ev, list, velocity, false)
                  && touchState == old(touchState) && lastMotionX == old(lastMotionX) && lastMotionY == old(lastMotionY)
                  && intercept == (touchState == ScrollingY)
                case Other =>
                  && unchanged(touchListener)
                  && touchState == old(touchState) && lastMotionX == old(lastMotionX) && lastMotionY == old(lastMotionY)
                  && intercept == superIntercept
    {
      if touchState == ScrollingX {
        intercept := touchListener.OnTouch(ev, list, velocity);
        return;
      }
      match ev.action {
        case Move =>
          CheckInMoving(ev.x, ev.y);
          return touchState == ScrollingY;
        case Down =>
          var _ := touchListener.OnTouch(ev, list, velocity);
          touchState := Rest;
          lastMotionX := ev.x;
          lastMotionY := ev.y;
          return false;
        case Cancel =>
          touchState := Rest;
          return superIntercept;
        case Up =>
          var _ := touchListener.OnTouch(ev, list, velocity);
          return touchState == ScrollingY;
        case Other =>
          return superIntercept;
      }
    }
  }
}
