/**
 * The pet window: an object whose timer callbacks and mouse handlers update
 * its fields in place.  Each method is specified by the matching transition
 * of `PetState`, so everything proved there holds of the object.
 */
module DeskPet {
  import opened PetState
  import opened Hydration

  /** Range of the "Pet Size" slider, in pixels. */
  const MinSpriteSize: int := 16
  const MaxSpriteSize: int := 256

  class DesktopPet {
    const spriteSize: int
    const maxTravel: int
    const hydrationTimer: Option<Timer>
    const popup: HydrationPopup

    var x: int
    var y: int
    var startX: int
    var direction: int
    var isMoving: bool
    var isDragging: bool
    var currentSprite: Sprite
    var dragOffset: Option<Point>
    var moveTimer: Timer
    var decisionTimer: Timer

    /** The fields the behaviour reads and writes, as one value. */
    function State(): Pet
      reads this
    {
      Pet(x, y, startX, direction, isMoving, isDragging, currentSprite,
          dragOffset, moveTimer, decisionTimer)
    }

    ghost predicate Valid()
      reads this
    {
      Inv(State(), maxTravel) && MinSpriteSize <= spriteSize <= MaxSpriteSize
    }

    /**
     * Creates the window: idle at (500, 500) facing right, anchored where it
     * stands, with the behaviour timers running and the reminder timer set
     * up only when the reminder is enabled.  The popup's size is that of its
     * rendered text, which is given.
     */
    constructor (spriteSize: int, maxTravel: int, hydrationEnabled: bool, hydrationInterval: int,
                 popupWidth: nat, popupHeight: nat)
      requires MinSpriteSize <= spriteSize <= MaxSpriteSize
      requires ValidTravel(maxTravel)
      requires hydrationEnabled ==> ValidInterval(hydrationInterval)
      ensures Valid() && State() == Initial()
      ensures this.spriteSize == spriteSize && this.maxTravel == maxTravel
      ensures hydrationTimer == ReminderTimer(hydrationEnabled, hydrationInterval)
      ensures fresh(popup) && !popup.visible
      ensures popup.width == popupWidth && popup.height == popupHeight
    {
      this.spriteSize := spriteSize;
      this.maxTravel := maxTravel;
      popup := new HydrationPopup(popupWidth, popupHeight);
      currentSprite := Idle;
      x := InitialX;
      y := InitialY;
      direction := 1;
      isMoving := false;
      isDragging := false;
      dragOffset := None;
      moveTimer := Timer(MoveIntervalMs, true);
      decisionTimer := Timer(DecisionIntervalMs, true);
      if hydrationEnabled {
        hydrationTimer := Some(Timer(hydrationInterval * 1000, true));
      } else {
        hydrationTimer := None;
      }
      startX := InitialX;
    }

    /** The reminder timer's callback: show the popup above the pet. */
    method HydrationCheck()
      requires Valid() && hydrationTimer.Some?
      modifies popup
      ensures popup.visible
      ensures popup.pos == PopupPlacement(x, y, spriteSize, popup.width, popup.height)
    {
      popup.ShowAbove(x, y, spriteSize);
    }

    /**
     * The position timer's callback.  A visible popup follows the pet when
     * the pet walks.
     */
    method UpdatePosition()
      requires Valid() && moveTimer.running
      modifies this, popup
      ensures Valid()
      ensures State() == PositionTick(old(State()), maxTravel)
      ensures popup.visible == old(popup.visible)
      ensures if old(isMoving && !isDragging && popup.visible)
              then popup.pos == PopupPlacement(x, y, spriteSize, popup.width, popup.height)
              else popup.pos == old(popup.pos)
    {
      if isMoving && !isDragging {
        x := x + StepPixels * direction;
        currentSprite := if direction > 0 then WalkRight else WalkLeft;
        if Abs(x - startX) > HalfTravel(maxTravel) {
          if x > startX {
            x := startX + HalfTravel(maxTravel);
            direction := -1;
          } else {
            x := startX - HalfTravel(maxTravel);
            direction := 1;
          }
        }
        if popup.visible {
          popup.ShowAbove(x, y, spriteSize);
        }
      }
    }

    /**
     * The decision timer's callback, with the two random choices given as
     * `moving` and `rightward`.
     */
    method MakeDecision(moving: bool, rightward: bool)
      requires Valid() && decisionTimer.running
      modifies this
      ensures Valid()
      ensures State() == Decide(old(State()), moving, rightward)
    {
      isMoving := moving;
      if !isMoving {
        currentSprite := Idle;
      } else {
        direction := if rightward then 1 else -1;
      }
    }

    /** `offset` is the pointer's position inside the window. */
    method MousePressEvent(button: Button, offset: Point)
      requires Valid()
      modifies this
      ensures Valid()
      ensures State() == Press(old(State()), button, offset)
    {
      if button == LeftButton {
        isDragging := true;
        dragOffset := Some(offset);
        moveTimer := StopTimer(moveTimer);
        decisionTimer := StopTimer(decisionTimer);
      }
    }

    /** `global` is the pointer's position on the screen. */
    method MouseMoveEvent(global: Point)
      requires Valid()
      modifies this
      ensures Valid()
      ensures State() == DragMove(old(State()), global)
    {
      if isDragging {
        x := global.x - dragOffset.value.x;
        y := global.y - dragOffset.value.y;
        startX := x;
      }
    }

    method MouseReleaseEvent(button: Button)
      requires Valid()
      modifies this
      ensures Valid()
      ensures State() == Release(old(State()), button)
    {
      if button == LeftButton {
        isDragging := false;
        moveTimer := StartTimer(moveTimer);
        decisionTimer := StartTimer(decisionTimer);
      }
    }

    method MouseDoubleClickEvent()
      requires Valid()
      modifies this
      ensures Valid()
      ensures State() == DoubleClick(old(State()))
    {
      currentSprite := Idle;
    }
  }
}
