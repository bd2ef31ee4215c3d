/**
 * The record of one list row that the touch engine has acted upon: its
 * position in the list and the direction it was swiped open in.
 * Both fields are updated in place (a row is renumbered when an earlier one is
 * removed; its direction flips when it opens and closes).
 */
module ListItems {

  /** The three states of a row; CLOSED means the front view is at rest. */
  datatype SwipeDirection = Left | Right | Closed

  class ListItem {
    var position: int
    var swipeDirection: SwipeDirection

    /** A new record is always closed. */
    constructor (position: int)
      ensures this.position == position
      ensures !IsOpen() && !WasSwipedRight() && !WasSwipedLeft()
    {
      this.position := position;
      this.swipeDirection := Closed;
    }

    /** Renumbering leaves the direction (and so the open state) alone. */
    method SetPosition(position: int)
      modifies this
      ensures this.position == position
      ensures swipeDirection == old(swipeDirection)
      ensures IsOpen() == old(IsOpen())
    {
      this.position := position;
    }

    predicate WasSwipedRight()
      reads this
    {
      swipeDirection == Right
    }

    predicate WasSwipedLeft()
      reads this
    {
      swipeDirection == Left
    }

    method SwipeRight()
      modifies this
      ensures WasSwipedRight() && IsOpen() && !WasSwipedLeft()
      ensures position == old(position)
    {
      this.swipeDirection := Right;
    }

    method SwipeLeft()
      modifies this
      ensures WasSwipedLeft() && IsOpen() && !WasSwipedRight()
      ensures position == old(position)
    {
      this.swipeDirection := Left;
    }

    /** Closing is idempotent: closing a closed record changes nothing. */
    method Close()
      modifies this
      ensures !IsOpen() && !WasSwipedRight() && !WasSwipedLeft()
      ensures position == old(position)
      ensures !old(IsOpen()) ==> unchanged(this)
    {
      this.swipeDirection := Closed;
    }

    /** A row is open exactly when it was swiped one way or the other, and never both. */
    function IsOpen(): (open: bool)
      reads this
      ensures open <==> WasSwipedRight() || WasSwipedLeft()
      ensures !(WasSwipedRight() && WasSwipedLeft())
    {
      swipeDirection != Closed
    }
  }
}
