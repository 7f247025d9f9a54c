/**
 * The hydration reminder: its optional periodic timer and the popup label
 * that it places just above the pet.
 */
module Hydration {
  import opened PetState

  /** Range of the "Reminder Interval" spin box, in seconds. */
  const MinIntervalSeconds: int := 5
  const MaxIntervalSeconds: int := 3600
  /** Vertical gap, in pixels, between the popup's bottom edge and the pet's top edge. */
  const PopupGap: int := 5

  predicate ValidInterval(seconds: int) {
    MinIntervalSeconds <= seconds <= MaxIntervalSeconds
  }

  /**
   * The reminder timer of a new pet window: none when the reminder is off,
   * otherwise a running timer whose period is the interval in milliseconds.
   */
  function ReminderTimer(enabled: bool, intervalSeconds: int): (r: Option<Timer>)
    requires enabled ==> ValidInterval(intervalSeconds)
    ensures r.Some? <==> enabled
    ensures r.Some? ==> r.value.running && r.value.intervalMs / 1000 == intervalSeconds
    ensures r.Some? ==> 5000 <= r.value.intervalMs <= 3600000 && r.value.intervalMs % 1000 == 0
  {
    if enabled then Some(Timer(intervalSeconds * 1000, true)) else None
  }

  /**
   * Top-left corner of a popup of size `popupWidth` x `popupHeight` shown
   * above a pet whose window is at (`x`, `y`) and `petWidth` wide: centred
   * over the pet (to within half a pixel, from the floor divisions) and
   * `PopupGap` pixels above it.
   */
  function PopupPlacement(x: int, y: int, petWidth: int, popupWidth: int, popupHeight: int): (r: Point)
    ensures r.y + popupHeight + PopupGap == y
    ensures Abs((2 * r.x + popupWidth) - (2 * x + petWidth)) <= 1
    ensures popupWidth % 2 == petWidth % 2 ==> 2 * r.x + popupWidth == 2 * x + petWidth
  {
    Point(x + petWidth / 2 - popupWidth / 2, y - popupHeight - PopupGap)
  }

  /** The reminder label: its fixed size, where it is, and whether it shows. */
  class HydrationPopup {
    const width: nat
    const height: nat
    var pos: Point
    var visible: bool

    constructor (width: nat, height: nat)
      ensures this.width == width && this.height == height
      ensures !visible
    {
      this.width := width;
      this.height := height;
      pos := Point(0, 0);
      visible := false;
    }

    /** Moves the popup above the pet and shows it. */
    method ShowAbove(x: int, y: int, petWidth: int)
      modifies this
      ensures pos == PopupPlacement(x, y, petWidth, width, height)
      ensures visible
    {
      pos := PopupPlacement(x, y, petWidth, width, height);
      visible := true;
    }

    /** The auto-hide that follows each showing. */
    method Hide()
      modifies this
      ensures !visible && pos == old(pos)
    {
      visible := false;
    }
  }
}
