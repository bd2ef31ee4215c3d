# SwipeList swipe-row state machine in Dafny

This project models the state machine behind SwipeList, an Android `ListView`
whose rows can be swiped sideways to show a back view. It has three parts.

- **Row record** (`ListItems.ListItem`, `ListItem.dfy`) is the mutable record of a row the
  engine acted on: a position and a direction (LEFT, RIGHT or CLOSED).
- **Touch engine** (`SwipeList.SwipeListViewTouchListener`, `SwipeList.dfy`) handles DOWN, MOVE and UP events:
  - It holds one `lastItem` reference. `IsOpen(p)` and `WasSwipedRight(p)` are derived from it, so at most one row is open.
  - It classifies a move as a swipe, decides on touch-up whether to commit (swap) or snap back, and computes the snap target.
  - It sequences the reveal and collapse ("crush") animations.
  - The scroll listener drives its `paused` and `listViewMoving` flags.
- **List widget** (`SwipeList.SwipeListView`) runs the REST / SCROLLING_X / SCROLLING_Y intercept classifier in front of the engine. Its `Init` checks the configuration and fails fast.

The pure decisions live in `Gesture.dfy` as functions: hit test, swipe start, release decision, snap
offsets, and renumbering after a removal. `Scenarios.dfy` replays gestures through the public events and
demonstrates the findings below.

Modelling conventions:
- Coordinates, displacements and velocity-tracker readings are integers given as inputs.
- The host list during one event is a `ListSnapshot` value: width, screen origin, first visible position, hit rectangles of the visible children, and the adapter's `isEnabled`. Child `i` shows position `firstVisible + i`.
- Starting an animation appends an `Animation` record to the engine's `pending` list. The animation's end is an explicit call: `EndReveal(k)` or `EndCrush(k)`.
- The `listView.post` inside the collapse completion runs as part of that same call.
- The host's notification hooks (`onStartOpen`, `onMove`, `onOpened`, …) and the front-view repairs at the end of a collapse are appended to the engine's `effects` list.
- The front view the gesture holds is named by its position (`frontView`), with its clickable and long-clickable flag (`frontClickable`).
- `leftOffset` and `rightOffset` are never assigned in the source, so they are constants 0.

Behaviour of the code worth knowing:
- A closed row never flings. Its horizontal velocity is set to 0 before the fling test (SwipeListViewTouchListener.java:480). A quick swipe that opens a row therefore commits only by passing half the row width.
- A collapse reports `onDismiss` for the collapsed row (:268), even when it is the side effect of opening another row.
- The engine calls `onDismiss` with one position. The widget's hook takes an array (SwipeListView.java:207). The model records one position.
- When opening row 5 collapses row 3, the record of row 5 moves to position 4 once the collapse ends, because row 3 is removed from the list. So `IsOpen(5)` holds until the collapse ends and `IsOpen(4)` afterwards (`SwipeScenarios.CrossClose`).

## Model

| member | source | states |
|---|---|---|
| ListItems.ListItem.constructor | java/com/fortysevendeg/android/swipelistview/ListItem.java:13-16 | a new record has the given position and is closed: not open, not swiped right, not swiped left |
| ListItems.ListItem.SetPosition | java/com/fortysevendeg/android/swipelistview/ListItem.java:22-24 | only the position changes; direction and open state are kept |
| ListItems.ListItem.SwipeRight | java/com/fortysevendeg/android/swipelistview/ListItem.java:34-36 | afterwards swiped right and open, not swiped left, position kept |
| ListItems.ListItem.SwipeLeft | java/com/fortysevendeg/android/swipelistview/ListItem.java:38-40 | afterwards swiped left and open, not swiped right, position kept |
| ListItems.ListItem.Close | java/com/fortysevendeg/android/swipelistview/ListItem.java:42-44 | afterwards neither open nor swiped either way, position kept; closing a closed record changes nothing |
| ListItems.ListItem.IsOpen | java/com/fortysevendeg/android/swipelistview/ListItem.java:26-48 | open exactly when swiped right or left, and never both |
| Gesture.FirstTouchedFrom | java/com/fortysevendeg/android/swipelistview/SwipeListViewTouchListener.java:447-450 | the result is a touched child (rectangle holds the point, position enabled) with no touched child before it, or none when no child from `from` on is touched |
| Gesture.FindTouchedChild | java/com/fortysevendeg/android/swipelistview/SwipeListViewTouchListener.java:447-466 | the hit-test loop returns the first touched child, whose rectangle holds the point |
| Gesture.ChildIndexForPosition | java/com/fortysevendeg/android/swipelistview/SwipeListView.java:179-182 | a position has a child index exactly when it is among the visible ones, and that index plus the first visible position is the position |
| Gesture.ChildIndexOfVisibleChild | java/com/fortysevendeg/android/swipelistview/SwipeListViewTouchListener.java:454 | the position of any visible child, in particular the touched one recorded as downPosition, leads back to that child |
| Gesture.AfterReveal | java/com/fortysevendeg/android/swipelistview/SwipeListViewTouchListener.java:329-337 | a committing reveal closes an open row and opens a closed one toward swapRight; a non-committing one keeps the state |
| Gesture.StartsSwipe | java/com/fortysevendeg/android/swipelistview/SwipeListViewTouchListener.java:528 | a move starts a swipe only while no action is set and with non-zero horizontal velocity, and (for a non-negative slop) only with a non-zero displacement |
| Gesture.Flung | java/com/fortysevendeg/android/swipelistview/SwipeListViewTouchListener.java:480-485 | only an open row can fling, and a fling has non-zero horizontal velocity |
| Gesture.DecideSwap | java/com/fortysevendeg/android/swipelistview/SwipeListViewTouchListener.java:479-497 | an in-window horizontal fling of an open row commits unless it points the way the row is open, with swapRight the fling's sign; otherwise the release commits iff the displacement exceeds half the width, toward the displacement |
| Gesture.FlingInOpenDirectionKeepsRow | java/com/fortysevendeg/android/swipelistview/SwipeListViewTouchListener.java:485-490 | a fling further the way a row is open leaves it open that way |
| Gesture.OppositeFlingClosesRow | java/com/fortysevendeg/android/swipelistview/SwipeListViewTouchListener.java:485-493 | a fling against the way a row is open closes it |
| Gesture.ClosedRowOpensPastHalfWidth | java/com/fortysevendeg/android/swipelistview/SwipeListViewTouchListener.java:480-497 | whatever the velocity, a closed row opens iff dragged past half its width, and to the right iff dragged right |
| Gesture.RenumberTracksRow | java/com/fortysevendeg/android/swipelistview/SwipeListViewTouchListener.java:278-289 | decrementing a position only when it is after the removed one keeps it on the same row of the shortened list |
| SwipeList.SwipeListViewTouchListener.constructor | java/com/fortysevendeg/android/swipelistview/SwipeListViewTouchListener.java:95-106 | the slop and fling window come from the configuration; lastItem is a new record at -1, so no position is open; nothing pending |
| SwipeList.SwipeListViewTouchListener.IsOpen | java/com/fortysevendeg/android/swipelistview/SwipeListViewTouchListener.java:560-562 | a position is open iff lastItem is at that position and is open, so at most one position is open |
| SwipeList.SwipeListViewTouchListener.WasSwipedRight | java/com/fortysevendeg/android/swipelistview/SwipeListViewTouchListener.java:556-558 | swiped right iff lastItem is at that position and swiped right; it implies open |
| SwipeList.SwipeListViewTouchListener.CalcSwipeTranslationX | java/com/fortysevendeg/android/swipelistview/SwipeListViewTouchListener.java:347-359 | the snap target is the resting offset (full open offset of the open side, 0 when closed) of the state a reveal with this swap and swapRight takes the direction lastItem records for the position to; that is the state the completion leaves the row in only when the reveal acts on that record and nothing changes it first, which the as-written closeAnimate and closeOpenItem break (see Findings) |
| SwipeList.SwipeListViewTouchListener.IsListViewMoving | java/com/fortysevendeg/android/swipelistview/SwipeListViewTouchListener.java:159-161 | reports the moving flag; OnScrollStateChanged states it in these terms: set on touch scroll, cleared on idle, kept on fling |
| SwipeList.SwipeListViewTouchListener.SetEnabled | java/com/fortysevendeg/android/swipelistview/SwipeListViewTouchListener.java:370-372 | paused is the negation of enabled |
| SwipeList.SwipeListViewTouchListener.AnimateReveal | java/com/fortysevendeg/android/swipelistview/SwipeListViewTouchListener.java:309-316 | a reveal is started toward the snap target, recording whether another row is open |
| SwipeList.SwipeListViewTouchListener.AnimateCrush | java/com/fortysevendeg/android/swipelistview/SwipeListViewTouchListener.java:249-256 | a collapse of the open record's row is started, its views looked up at its current position |
| SwipeList.SwipeListViewTouchListener.ChooseAnimation | java/com/fortysevendeg/android/swipelistview/SwipeListViewTouchListener.java:229-236 | only under REVEAL a reveal is started, on lastItem itself when it is that row and on a new closed record otherwise |
| SwipeList.SwipeListViewTouchListener.EndReveal | java/com/fortysevendeg/android/swipelistview/SwipeListViewTouchListener.java:327-341 | the classifier is reset; a committing reveal toggles its row, fires onClosed or onOpened, collapses the other open row and becomes lastItem; a non-committing one changes no row |
| SwipeList.SwipeListViewTouchListener.EndCrushAsWritten | java/com/fortysevendeg/android/swipelistview/SwipeListViewTouchListener.java:267-289 | onDismiss and repair of the collapsed row; the replacing record always moves down one, its front view only when it is not before the dismissed row; the dismissed record ends closed |
| SwipeList.SwipeListViewTouchListener.EndCrush | java/com/fortysevendeg/android/swipelistview/SwipeListViewTouchListener.java:267-289 | as above, but the replacing record is renumbered by Renumber, so it moves only when after the dismissed row |
| SwipeList.SwipeListViewTouchListener.OpenAnimate | java/com/fortysevendeg/android/swipelistview/SwipeListViewTouchListener.java:203-207 | only a closed position gets a committing left reveal on a new closed record; an open one is left alone |
| SwipeList.SwipeListViewTouchListener.CloseAnimateAsWritten | java/com/fortysevendeg/android/swipelistview/SwipeListViewTouchListener.java:215-219 | only an open position gets a committing reveal to 0, acting on a new closed record |
| SwipeList.SwipeListViewTouchListener.CloseAnimate | java/com/fortysevendeg/android/swipelistview/SwipeListViewTouchListener.java:215-219 | only an open position gets a committing reveal to 0, acting on lastItem |
| SwipeList.SwipeListViewTouchListener.CrushOpenItem | java/com/fortysevendeg/android/swipelistview/SwipeListViewTouchListener.java:410-413 | a collapse of the open row without replacement, or nothing when no row is open |
| SwipeList.SwipeListViewTouchListener.CloseOpenItemAsWritten | java/com/fortysevendeg/android/swipelistview/SwipeListViewTouchListener.java:418-423 | nothing when no row is open; otherwise a committing reveal to 0 on lastItem, which is closed at once |
| SwipeList.SwipeListViewTouchListener.CloseOpenItem | java/com/fortysevendeg/android/swipelistview/SwipeListViewTouchListener.java:418-421 | nothing when no row is open; otherwise a committing reveal to 0 on lastItem, left open until it ends |
| SwipeList.SwipeListViewTouchListener.OnScrollStateChanged | java/com/fortysevendeg/android/swipelistview/SwipeListViewTouchListener.java:382-399 | paused iff touch scroll; touch scroll collapses the open row and sets moving; idle clears moving, resets the classifier and posts one re-enable; fling keeps moving |
| SwipeList.SwipeListViewTouchListener.ReEnable | java/com/fortysevendeg/android/swipelistview/SwipeListViewTouchListener.java:393-397 | a posted re-enable unpauses the engine and is consumed |
| SwipeList.SwipeListViewTouchListener.Move | java/com/fortysevendeg/android/swipelistview/SwipeListViewTouchListener.java:569-570 | onMove is reported with the gesture's position and the offset |
| SwipeList.SwipeListViewTouchListener.OnTouch | java/com/fortysevendeg/android/swipelistview/SwipeListViewTouchListener.java:429-554 | the list width is read on every event while the captured width is below 2, then kept; DOWN, MOVE and UP act as below, other actions change nothing and are not consumed; lastItem, paused and moving are untouched |
| SwipeList.SwipeListViewTouchListener.TouchDown | java/com/fortysevendeg/android/swipelistview/SwipeListViewTouchListener.java:435-469 | rejected while paused; else the action resets, the first touched child's row becomes the gesture's with its x, a tracker, and a front view clickable iff the row is closed; consumed |
| SwipeList.SwipeListViewTouchListener.TouchUp | java/com/fortysevendeg/android/swipelistview/SwipeListViewTouchListener.java:471-513 | nothing without a tracker or a swipe; else DecideSwap's reveal is chosen, the tracker released, position INVALID_POSITION, swiping off, and a commit makes the front view clickable iff the row is open |
| SwipeList.SwipeListViewTouchListener.TouchMove | java/com/fortysevendeg/android/swipelistview/SwipeListViewTouchListener.java:515-551 | with a tracker and unpaused, a swipe starts when StartsSwipe holds (REVEAL, one onStartClose or onStartOpen); a swiping move reports its offset from the row's resting offset and is consumed |
| SwipeList.SwipeListView.constructor | java/com/fortysevendeg/android/swipelistview/SwipeListView.java:143-147 | the paging slop is taken, the engine is created for this widget and the classifier is at rest |
| SwipeList.SwipeListView.Init | java/com/fortysevendeg/android/swipelistview/SwipeListView.java:131-148 | fails iff the front or the back view identifier is 0; otherwise a widget in its initial state |
| SwipeList.SwipeListView.CloseOpenedItems | java/com/fortysevendeg/android/swipelistview/SwipeListView.java:171-173 | as the source calls closeOpenItem: nothing when no row is open; otherwise a committing reveal to 0 on lastItem, which is closed at once |
| SwipeList.SwipeListView.OpenAnimate | java/com/fortysevendeg/android/swipelistview/SwipeListView.java:189-191 | the engine starts opening a closed row |
| SwipeList.SwipeListView.CloseAnimate | java/com/fortysevendeg/android/swipelistview/SwipeListView.java:198-200 | as the source calls closeAnimate: nothing for a closed row; for an open one a committing reveal to 0 on a new closed record of that row |
| SwipeList.SwipeListView.ResetScrolling | java/com/fortysevendeg/android/swipelistview/SwipeListView.java:315-317 | the classifier is at rest whatever it was |
| SwipeList.SwipeListView.CheckInMoving | java/com/fortysevendeg/android/swipelistview/SwipeListView.java:361-380 | past the slop on y gives SCROLLING_Y, else on x SCROLLING_X, else unchanged; the reference point moves iff some axis passed the slop |
| SwipeList.SwipeListView.OnInterceptTouchEvent | java/com/fortysevendeg/android/swipelistview/SwipeListView.java:323-353 | in SCROLLING_X every event goes to the engine and its answer is returned; MOVE classifies and UP forwards, both intercept iff SCROLLING_Y; DOWN forwards, rests and records the point; CANCEL rests; the rest defer to ListView |
| SwipeScenarios.SwipeRowThreeLeft | java/com/fortysevendeg/android/swipelistview/SwipeListViewTouchListener.java:429-554 | row 3 of a 300 wide list, swiped 200 left: onStartOpen(3, REVEAL, left), target -300, onOpened(3, left), row 3 open to the left |
| SwipeScenarios.SwipeRowFiveRight | java/com/fortysevendeg/android/swipelistview/SwipeListViewTouchListener.java:515-536 | with row 3 open, row 5 dragged 190 right: onStartOpen(5, REVEAL, right) and a committing reveal to 300 that must collapse row 3 |
| SwipeScenarios.CrossClose | java/com/fortysevendeg/android/swipelistview/SwipeListViewTouchListener.java:327-341 | opening row 5 closes row 3 and leaves 5 open right; after the collapse as written, the open record is at 4 |
| SwipeScenarios.TapBelowSlop | java/com/fortysevendeg/android/swipelistview/SwipeListViewTouchListener.java:525-550 | a 5 px move under an 8 px slop: no notification, no animation, no row open, front view clickable |
| SwipeScenarios.InterceptHorizontalThenVertical | java/com/fortysevendeg/android/swipelistview/SwipeListView.java:333-380 | a 30 px horizontal move is classified SCROLLING_X and not intercepted; a vertical one SCROLLING_Y and intercepted |
| SwipeScenarios.CloseAnimateAsWrittenReopens | java/com/fortysevendeg/android/swipelistview/SwipeListViewTouchListener.java:215-219 | closing an open row as written ends with it open to the left and onOpened reported |
| SwipeScenarios.CloseAnimateCloses | java/com/fortysevendeg/android/swipelistview/SwipeListViewTouchListener.java:215-219 | closing an open row ends with no row open and onClosed reported |
| SwipeScenarios.CloseOpenItemAsWrittenReopens | java/com/fortysevendeg/android/swipelistview/SwipeListViewTouchListener.java:418-423 | closing the open row as written ends with it open the other way and onOpened reported |
| SwipeScenarios.CloseOpenItemCloses | java/com/fortysevendeg/android/swipelistview/SwipeListViewTouchListener.java:418-421 | closing the open row ends with no row open and onClosed reported |
| SwipeScenarios.OpenTwoThenOne | java/com/fortysevendeg/android/swipelistview/SwipeListViewTouchListener.java:203-207 | opening row 2 and then row 1 leaves row 1 open and a collapse of row 2 pending with row 1 as replacement |
| SwipeScenarios.CrushAsWrittenMisnumbersEarlierRow | java/com/fortysevendeg/android/swipelistview/SwipeListViewTouchListener.java:280-285 | the collapse as written renumbers row 1 to 0, so the never-swiped row 0 is reported open |
| SwipeScenarios.CrushKeepsEarlierRow | java/com/fortysevendeg/android/swipelistview/SwipeListViewTouchListener.java:280-285 | the corrected collapse keeps row 1 open to the left at position 1 |

## Left out

- View-tree access (`getChildAt`, `findViewById`, `getHitRect`, `setX`, `setTranslationX`, `setAlpha`, layout params) is left out. These are platform calls.
- The child lookups assume a visible child. `ChildIndexForPosition` returns None where the source would dereference null.
- Animator machinery (durations, update ticks, the height animation) is left out. An animation's end is an explicit call, and any pending animation may end in any order.
- `calculateAlpha` and the opacity cross-fades are floating-point visual effects and are left out.
- The DISMISS branch of `move` is left out, because the action is only ever set to REVEAL.
- Move: only the `onMove` report is modelled, not the front view's translation or the back view's alpha.
- The 500 ms `Handler.postDelayed` re-enable is a counter of posted calls plus the `ReEnable` event. Its timing is not modelled.
- The synthetic cancel event and `requestDisallowInterceptTouchEvent` sent when a swipe starts are platform plumbing and are left out.
- `view.onTouchEvent` in the DOWN branch and `super.onInterceptTouchEvent` are ListView's own handling. The latter is the `superIntercept` input.
- `setParentView`, `setFrontView` and `setBackView` are left out beyond the front view's position and clickable flag. So is the installation of click and long-click listeners, which are UI callbacks.
- The long-click listener's call of `openAnimate` is not modelled as an event. `OpenAnimate` can be called directly.
- XML attribute parsing, `setAdapter` with its data-set observer, `resetItems` (empty in the source) and the null-checked listener forwarding hooks are glue and are left out.
- `setSwipeListViewListener` is left out. Every notification is recorded in `effects` whether or not a listener is set.
- `swipeOpenOnLongPress`, `swipeActionLeft`/`swipeActionRight` and the animation times are left out: they are fields that the modelled logic never changes or reads.
- SwipeList.SwipeListViewTouchListener.TouchDown: a second DOWN while a velocity tracker is held obtains another one (a leak in the platform). The model only sets `tracking`.
- SwipeList.SwipeListViewTouchListener.EndCrushAsWritten: when the replacing record is the dismissed record itself, the contract does not state the dismissed record's position. That case is not reachable through `EndReveal`.
- preDrawableFrameLayout.java is not part of this model. It is a draw hook without state logic.
- Float truncation (`(int)` casts of offsets and differences) is exact, because all values are integers.

## Findings

| source | as written | input that shows it | evidently intended | confidence | as-written member | corrected member |
|---|---|---|---|---|---|---|
| java/com/fortysevendeg/android/swipelistview/SwipeListViewTouchListener.java:215-219 | `closeAnimate` gives `animateReveal` a new closed `ListItem(position)` | row p open, `closeAnimate(p)`, then the reveal ends: the front view slides to 0, but the new record is opened to the left and `onOpened(p, false)` fires | act on `lastItem`, so the row ends closed and `onClosed` fires | high, not executed | SwipeList.SwipeListViewTouchListener.CloseAnimateAsWritten, SwipeScenarios.CloseAnimateAsWrittenReopens | SwipeList.SwipeListViewTouchListener.CloseAnimate, SwipeScenarios.CloseAnimateCloses |
| java/com/fortysevendeg/android/swipelistview/SwipeListViewTouchListener.java:418-423 | `closeOpenItem` closes `lastItem` at once, before the reveal's completion toggles it | a row open to the left, `closeOpenItem()`, then the reveal ends: the completion finds the row closed, reopens it to the right and fires `onOpened` | leave the closing to the completion, so the row ends closed and `onClosed` fires | high, not executed | SwipeList.SwipeListViewTouchListener.CloseOpenItemAsWritten, SwipeScenarios.CloseOpenItemAsWrittenReopens | SwipeList.SwipeListViewTouchListener.CloseOpenItem, SwipeScenarios.CloseOpenItemCloses |
| java/com/fortysevendeg/android/swipelistview/SwipeListViewTouchListener.java:280-285 | the replacing record is decremented before the test that it comes after the dismissed row | row 2 open, row 1 opened, the collapse of row 2 ends: the record of row 1 moves to 0 and row 0 is reported open | a row before the dismissed one keeps its position | medium, not executed | SwipeList.SwipeListViewTouchListener.EndCrushAsWritten, SwipeScenarios.CrushAsWrittenMisnumbersEarlierRow | SwipeList.SwipeListViewTouchListener.EndCrush, SwipeScenarios.CrushKeepsEarlierRow |

The widget's `CloseOpenedItems` and `CloseAnimate` and the cross-close scenario follow the code and call the
as-written engine methods. The corrected methods state the intended behaviour, and `Scenarios.dfy` proves
what each half leads to once the animation ends.
