/**
 * The wandering-and-drag state machine of the desktop pet, as values.
 *
 * A `Pet` holds every field of the pet window that its timer callbacks and
 * mouse handlers read or write.  Each handler is a function from the old
 * state to the new one; `Deliver` dispatches one event the way the event
 * loop does (a stopped timer delivers nothing) and `Run` replays a sequence
 * of events.  The class `DeskPet.DesktopPet` is specified by these functions.
 */
module PetState {

  datatype Option<T> = None | Some(value: T)

  /** The three entries of the pet's sprite table. */
  datatype Sprite = Idle | WalkRight | WalkLeft

  datatype Button = LeftButton | RightButton | OtherButton

  datatype Point = Point(x: int, y: int)

  /** A periodic timer: its period and whether it is currently running. */
  datatype Timer = Timer(intervalMs: nat, running: bool)

  /** Pixels moved per position tick. */
  const StepPixels: int := 2
  /** Period of the position timer. */
  const MoveIntervalMs: nat := 50
  /** Period of the move-or-idle decision timer. */
  const DecisionIntervalMs: nat := 3000
  const InitialX: int := 500
  const InitialY: int := 500
  /** Range of the "Max Travel Width" spin box. */
  const MinTravel: int := 100
  const MaxTravel: int := 9999

  predicate ValidTravel(maxTravel: int) {
    MinTravel <= maxTravel <= MaxTravel
  }

  predicate IsDirection(d: int) {
    d == -1 || d == 1
  }

  function Abs(n: int): nat {
    if n < 0 then -n else n
  }

  /** `Clamp(v, lo, hi)` is the point of [lo, hi] closest to `v`. */
  function Clamp(v: int, lo: int, hi: int): (r: int)
    requires lo <= hi
    ensures lo <= r <= hi
    ensures lo <= v <= hi ==> r == v
    ensures v < lo ==> r == lo
    ensures v > hi ==> r == hi
  {
    if v < lo then lo else if v > hi then hi else v
  }

  /** Half the travel width, computed with floor division as the source does. */
  function HalfTravel(maxTravel: int): (h: int)
    requires ValidTravel(maxTravel)
    ensures StepPixels < 50 <= h
    ensures 2 * h <= maxTravel <= 2 * h + 1
  {
    maxTravel / 2
  }

  function StartTimer(t: Timer): Timer {
    Timer(t.intervalMs, true)
  }

  function StopTimer(t: Timer): Timer {
    Timer(t.intervalMs, false)
  }

  /** The sprite shown while walking in direction `d`. */
  function WalkingSprite(d: int): Sprite {
    if d > 0 then WalkRight else WalkLeft
  }

  datatype Pet = Pet(
    x: int,
    y: int,
    startX: int,                // centre of the travel range
    direction: int,
    isMoving: bool,
    isDragging: bool,
    sprite: Sprite,
    dragOffset: Option<Point>,  // pointer position inside the window when the drag began
    moveTimer: Timer,
    decisionTimer: Timer)

  /** A drag in progress always knows where the pointer grabbed the window. */
  predicate OffsetKnown(p: Pet) {
    p.isDragging ==> p.dragOffset.Some?
  }

  /**
   * The invariant every reachable state keeps: the pet is within half the
   * travel width of its anchor, faces left or right, and both behaviour
   * timers run exactly when no drag is in progress.
   */
  predicate Inv(p: Pet, maxTravel: int) {
    && ValidTravel(maxTravel)
    && IsDirection(p.direction)
    && Abs(p.x - p.startX) <= HalfTravel(maxTravel)
    && p.moveTimer.intervalMs == MoveIntervalMs
    && p.decisionTimer.intervalMs == DecisionIntervalMs
    && p.moveTimer.running == !p.isDragging
    && p.decisionTimer.running == !p.isDragging
    && OffsetKnown(p)
  }

  /** The state set up when the pet window is created. */
  function Initial(): (p: Pet)
    ensures forall t :: ValidTravel(t) ==> Inv(p, t)
    ensures p.x == p.startX && p.sprite == Idle && !p.isMoving
    ensures p.moveTimer.running && p.decisionTimer.running
  {
    Pet(InitialX, InitialY, InitialX, 1, false, false, Idle, None,
        Timer(MoveIntervalMs, true), Timer(DecisionIntervalMs, true))
  }

  /**
   * The position-timer callback: while walking and not dragged, step two
   * pixels in the current direction, show the walking sprite of that
   * direction, and reflect off the edges of the travel range.
   */
  function PositionTick(p: Pet, maxTravel: int): (q: Pet)
    requires ValidTravel(maxTravel)
    // standing still or being dragged: nothing changes
    ensures !p.isMoving || p.isDragging ==> q == p
    // walking: the step, clamped into the travel range around the anchor
    ensures p.isMoving && !p.isDragging ==>
      q.x == Clamp(p.x + StepPixels * p.direction, p.startX - HalfTravel(maxTravel), p.startX + HalfTravel(maxTravel))
    ensures p.isMoving && !p.isDragging ==> Abs(q.x - q.startX) <= HalfTravel(maxTravel)
    // the sprite follows the direction held before any reflection
    ensures p.isMoving && !p.isDragging ==> q.sprite == WalkingSprite(p.direction)
    // the direction survives an unclamped step; a clamp turns the pet back into the range
    ensures p.isMoving && !p.isDragging ==>
      q.direction == (if q.x == p.x + StepPixels * p.direction then p.direction
                      else if q.x > p.startX then -1 else 1)
    ensures q.y == p.y && q.startX == p.startX
    ensures q.isMoving == p.isMoving && q.isDragging == p.isDragging
    ensures q.dragOffset == p.dragOffset
    ensures q.moveTimer == p.moveTimer && q.decisionTimer == p.decisionTimer
    ensures Inv(p, maxTravel) ==> Inv(q, maxTravel)
  {
    if p.isMoving && !p.isDragging then
      var x := p.x + StepPixels * p.direction;
      var sprite := WalkingSprite(p.direction);
      if Abs(x - p.startX) > HalfTravel(maxTravel) then
        if x > p.startX then
          p.(x := p.startX + HalfTravel(maxTravel), direction := -1, sprite := sprite)
        else
          p.(x := p.startX - HalfTravel(maxTravel), direction := 1, sprite := sprite)
      else
        p.(x := x, sprite := sprite)
    else
      p
  }

  /**
   * The decision-timer callback.  The two random choices of the source are
   * the parameters: `moving` picks walking or standing, `rightward` the new
   * direction (consulted only when walking).
   */
  function Decide(p: Pet, moving: bool, rightward: bool): (q: Pet)
    ensures q.isMoving == moving
    // standing: the idle sprite, the direction kept for later
    ensures !moving ==> q.sprite == Idle && q.direction == p.direction
    // walking: a fresh direction, the sprite left to the next position tick
    ensures moving ==> q.sprite == p.sprite && IsDirection(q.direction)
    ensures moving ==> (q.direction > 0 <==> rightward)
    ensures q.x == p.x && q.y == p.y && q.startX == p.startX
    ensures q.isDragging == p.isDragging && q.dragOffset == p.dragOffset
    ensures q.moveTimer == p.moveTimer && q.decisionTimer == p.decisionTimer
  {
    if !moving then
      p.(isMoving := false, sprite := Idle)
    else
      p.(isMoving := true, direction := if rightward then 1 else -1)
  }

  /**
   * A mouse press.  The left button starts a drag: it records where in the
   * window the pointer grabbed it and suspends both behaviour timers.  Any
   * other button leaves the state alone (the right button's menu is not
   * part of this model).
   */
  function Press(p: Pet, button: Button, offset: Point): (q: Pet)
    ensures button != LeftButton ==> q == p
    ensures button == LeftButton ==>
      && q.isDragging && q.dragOffset == Some(offset)
      && !q.moveTimer.running && !q.decisionTimer.running
      && q.moveTimer.intervalMs == p.moveTimer.intervalMs
      && q.decisionTimer.intervalMs == p.decisionTimer.intervalMs
    ensures q.x == p.x && q.y == p.y && q.startX == p.startX
    ensures q.direction == p.direction && q.isMoving == p.isMoving && q.sprite == p.sprite
  {
    if button == LeftButton then
      p.(isDragging := true, dragOffset := Some(offset),
         moveTimer := StopTimer(p.moveTimer), decisionTimer := StopTimer(p.decisionTimer))
    else
      p
  }

  /**
   * A mouse move.  During a drag the window's top-left corner follows the
   * pointer (its global position minus the grab offset) and the anchor is
   * re-centred on the new position; otherwise the event is ignored.
   */
  function DragMove(p: Pet, global: Point): (q: Pet)
    requires OffsetKnown(p)
    ensures !p.isDragging ==> q == p
    ensures p.isDragging ==>
      && q.x + p.dragOffset.value.x == global.x
      && q.y + p.dragOffset.value.y == global.y
      && q.startX == q.x
    ensures q.direction == p.direction && q.isMoving == p.isMoving && q.sprite == p.sprite
    ensures q.isDragging == p.isDragging && q.dragOffset == p.dragOffset
    ensures q.moveTimer == p.moveTimer && q.decisionTimer == p.decisionTimer
  {
    if p.isDragging then
      var x := global.x - p.dragOffset.value.x;
      p.(x := x, y := global.y - p.dragOffset.value.y, startX := x)
    else
      p
  }

  /**
   * A mouse release.  The left button ends the drag and restarts both
   * behaviour timers with their old periods; nothing else changes, so no
   * decision is forced.
   */
  function Release(p: Pet, button: Button): (q: Pet)
    ensures button != LeftButton ==> q == p
    ensures button == LeftButton ==>
      && !q.isDragging && q.moveTimer.running && q.decisionTimer.running
      && q.moveTimer.intervalMs == p.moveTimer.intervalMs
      && q.decisionTimer.intervalMs == p.decisionTimer.intervalMs
    ensures q.x == p.x && q.y == p.y && q.startX == p.startX
    ensures q.direction == p.direction && q.isMoving == p.isMoving && q.sprite == p.sprite
    ensures q.dragOffset == p.dragOffset
  {
    if button == LeftButton then
      p.(isDragging := false,
         moveTimer := StartTimer(p.moveTimer), decisionTimer := StartTimer(p.decisionTimer))
    else
      p
  }

  /** A double click shows the idle sprite and changes nothing else. */
  function DoubleClick(p: Pet): (q: Pet)
    ensures q.sprite == Idle
    ensures q.(sprite := p.sprite) == p
  {
    p.(sprite := Idle)
  }

  /** What the event loop can hand to the pet window. */
  datatype Event =
    | MoveTimeout
    | DecisionTimeout(moving: bool, rightward: bool)
    | MousePress(button: Button, offset: Point)
    | MouseMove(global: Point)
    | MouseRelease(button: Button)
    | MouseDoubleClick

  predicate IsTimeout(e: Event) {
    e.MoveTimeout? || e.DecisionTimeout?
  }

  /** Dispatches one event; a stopped timer has no timeout to deliver. */
  function Deliver(p: Pet, e: Event, maxTravel: int): (q: Pet)
    requires ValidTravel(maxTravel) && OffsetKnown(p)
    // a stopped timer has nothing to deliver
    ensures e.MoveTimeout? && !p.moveTimer.running ==> q == p
    ensures e.DecisionTimeout? && !p.decisionTimer.running ==> q == p
    ensures OffsetKnown(q)
    ensures Inv(p, maxTravel) ==> Inv(q, maxTravel)
  {
    match e
    case MoveTimeout =>
      if p.moveTimer.running then PositionTick(p, maxTravel) else p
    case DecisionTimeout(moving, rightward) =>
      if p.decisionTimer.running then Decide(p, moving, rightward) else p
    case MousePress(button, offset) => Press(p, button, offset)
    case MouseMove(global) => DragMove(p, global)
    case MouseRelease(button) => Release(p, button)
    case MouseDoubleClick => DoubleClick(p)
  }

  /** Delivers the events in order. */
  function Run(p: Pet, events: seq<Event>, maxTravel: int): Pet
    requires ValidTravel(maxTravel) && OffsetKnown(p)
    decreases |events|
  {
    if events == [] then p
    else Run(Deliver(p, events[0], maxTravel), events[1..], maxTravel)
  }

  /** `n` consecutive position ticks. */
  function Ticks(p: Pet, n: nat, maxTravel: int): Pet
    requires ValidTravel(maxTravel)
  {
    if n == 0 then p else PositionTick(Ticks(p, n - 1, maxTravel), maxTravel)
  }

  /** The invariant holds after any sequence of events from a state that has it. */
  lemma {:induction false} RunPreservesInv(p: Pet, events: seq<Event>, maxTravel: int)
    requires Inv(p, maxTravel)
    ensures Inv(Run(p, events, maxTravel), maxTravel)
    decreases |events|
  {
    if events != [] {
      RunPreservesInv(Deliver(p, events[0], maxTravel), events[1..], maxTravel);
    }
  }

  /** Every reachable state keeps the travel bound and the timer/drag coupling. */
  lemma ReachableStatesKeepBound(events: seq<Event>, maxTravel: int)
    requires ValidTravel(maxTravel)
    ensures Abs(Run(Initial(), events, maxTravel).x - Run(Initial(), events, maxTravel).startX) <= HalfTravel(maxTravel)
    ensures Run(Initial(), events, maxTravel).isDragging <==>
            !Run(Initial(), events, maxTravel).moveTimer.running && !Run(Initial(), events, maxTravel).decisionTimer.running
  {
    RunPreservesInv(Initial(), events, maxTravel);
  }

  /**
   * While a drag is in progress the timers are stopped, so no amount of
   * elapsed time changes the state.
   */
  lemma {:induction false} TimeoutsSuspendedWhileDragging(p: Pet, events: seq<Event>, maxTravel: int)
    requires Inv(p, maxTravel) && p.isDragging
    requires forall i :: 0 <= i < |events| ==> IsTimeout(events[i])
    ensures Run(p, events, maxTravel) == p
    decreases |events|
  {
    if events != [] {
      assert Deliver(p, events[0], maxTravel) == p;
      TimeoutsSuspendedWhileDragging(p, events[1..], maxTravel);
    }
  }

  /**
   * Until the left button is released, a drag keeps the pet dragged, with
   * its timers stopped, its walking flag and its direction frozen, and its
   * anchor on its position once it has moved.
   */
  lemma {:induction false} DragFreezesWandering(p: Pet, events: seq<Event>, maxTravel: int)
    requires Inv(p, maxTravel) && p.isDragging
    requires forall i :: 0 <= i < |events| ==> events[i] != MouseRelease(LeftButton)
    ensures Run(p, events, maxTravel).isDragging
    ensures Run(p, events, maxTravel).direction == p.direction
    ensures Run(p, events, maxTravel).isMoving == p.isMoving
    ensures !Run(p, events, maxTravel).moveTimer.running && !Run(p, events, maxTravel).decisionTimer.running
    ensures (p.startX == p.x || exists i :: 0 <= i < |events| && events[i].MouseMove?) ==>
            Run(p, events, maxTravel).startX == Run(p, events, maxTravel).x
    decreases |events|
  {
    if events != [] {
      var q := Deliver(p, events[0], maxTravel);
      assert q.isDragging && q.direction == p.direction && q.isMoving == p.isMoving by {
        match events[0]
        case MouseRelease(b) => assert b != LeftButton;
        case _ =>
      }
      assert events[0].MouseMove? || p.startX == p.x ==> q.startX == q.x by {
        match events[0]
        case MouseRelease(b) => assert b != LeftButton;
        case _ =>
      }
      if exists i :: 0 <= i < |events| && events[i].MouseMove? {
        var i :| 0 <= i < |events| && events[i].MouseMove?;
        if i > 0 {
          assert events[1..][i - 1].MouseMove?;
        }
      }
      DragFreezesWandering(q, events[1..], maxTravel);
    }
  }

  /**
   * Press, drag to `global` and release: the pet lands at the pointer minus
   * the grab offset, its anchor is the landing point, and it resumes with
   * the walking flag and direction it had before the drag, with both timers
   * running and no decision forced.
   */
  lemma DragRoundTrip(p: Pet, offset: Point, global: Point, maxTravel: int)
    requires Inv(p, maxTravel) && !p.isDragging
    ensures var q := Run(p, [MousePress(LeftButton, offset), MouseMove(global), MouseRelease(LeftButton)], maxTravel);
      && q.x == global.x - offset.x && q.y == global.y - offset.y
      && q.startX == q.x
      && q.direction == p.direction && q.isMoving == p.isMoving && q.sprite == p.sprite
      && !q.isDragging && q.moveTimer == p.moveTimer && q.decisionTimer == p.decisionTimer
  {
    var events := [MousePress(LeftButton, offset), MouseMove(global), MouseRelease(LeftButton)];
    var a := Press(p, LeftButton, offset);
    var b := DragMove(a, global);
    var c := Release(b, LeftButton);
    assert Run(p, events, maxTravel) == Run(a, events[1..], maxTravel);
    assert Run(a, events[1..], maxTravel) == Run(b, events[2..], maxTravel);
    assert Run(b, events[2..], maxTravel) == Run(c, [], maxTravel);
  }

  /**
   * When a walking pet reflects, it was stepping out of the range in its
   * own direction: it stops on that edge and turns back.
   */
  lemma ReflectionTurnsBack(p: Pet, maxTravel: int)
    requires Inv(p, maxTravel) && p.isMoving && !p.isDragging
    ensures var q := PositionTick(p, maxTravel);
      && (q.direction == p.direction <==> q.x == p.x + StepPixels * p.direction)
      && (q.direction != p.direction ==>
            q.direction == -p.direction && q.x == p.startX + p.direction * (HalfTravel(maxTravel)))
  {
  }

  /**
   * A double click only changes the sprite: for a walking pet the next
   * position tick behaves exactly as if there had been no double click,
   * restoring the walking sprite.
   */
  lemma DoubleClickOverriddenByNextTick(p: Pet, maxTravel: int)
    requires ValidTravel(maxTravel) && p.isMoving && !p.isDragging
    ensures PositionTick(DoubleClick(p), maxTravel) == PositionTick(p, maxTravel)
    ensures PositionTick(DoubleClick(p), maxTravel).sprite == WalkingSprite(p.direction)
  {
  }

  /**
   * Walking right from inside the range: as long as the far edge is not
   * passed, each tick advances two pixels and keeps the direction.
   */
  lemma {:induction false} WalkRightUnclamped(p: Pet, n: nat, maxTravel: int)
    requires Inv(p, maxTravel) && p.isMoving && !p.isDragging && p.direction == 1
    requires p.x + StepPixels * n <= p.startX + HalfTravel(maxTravel)
    ensures Ticks(p, n, maxTravel).x == p.x + StepPixels * n
    ensures Ticks(p, n, maxTravel).direction == 1
    ensures Ticks(p, n, maxTravel).startX == p.startX
    ensures Ticks(p, n, maxTravel).isMoving && !Ticks(p, n, maxTravel).isDragging
    ensures n > 0 ==> Ticks(p, n, maxTravel).sprite == WalkRight
    decreases n
  {
    if n > 0 {
      WalkRightUnclamped(p, n - 1, maxTravel);
    }
  }

  /**
   * Travel width 100 around an anchor at 500, walking right from the anchor:
   * after 25 ticks the pet stands on the edge at 550; the 26th tick would
   * reach 552, so it is clamped to 550 and the pet turns left, still showing
   * the right-walking sprite on that tick.
   */
  lemma ReflectAfterTwentySixTicks(p: Pet)
    requires p.x == 500 && p.startX == 500 && p.direction == 1
    requires p.isMoving && !p.isDragging && Inv(p, 100)
    ensures Ticks(p, 25, 100).x == 550 && Ticks(p, 25, 100).direction == 1
    ensures Ticks(p, 26, 100).x == 550 && Ticks(p, 26, 100).direction == -1
    ensures Ticks(p, 26, 100).sprite == WalkRight
  {
    WalkRightUnclamped(p, 25, 100);
  }
}
