# Desktop pet behaviour, in Dafny

This project models the behaviour engine of the `deskpet` desktop companion
(`deskpet.py`). It covers the window class `DesktopPet`, which has these parts:

- a position timer (50 ms). While the pet walks, each tick moves it two pixels
  left or right. The pet stays within half the configured travel width of its
  anchor `start_x` and turns back at the edges.
- a decision timer (3000 ms). Each tick randomly chooses between walking and
  standing, and picks a direction when walking.
- the left-button drag. A press suspends both timers. Moves carry the window
  and re-anchor the travel range. A release restarts both timers.
- the double click, which shows the idle sprite.
- the optional hydration reminder. Its timer runs every `interval * 1000` ms
  and shows a popup label just above the pet.

Files:

- `pet_state.dfy` (module `PetState`) holds the pet's fields as a `Pet`
  value, one transition function per callback or handler, the event loop
  (`Deliver`, `Run`) and the lemmas about them.
- `hydration.dfy` (module `Hydration`) holds the reminder timer, the popup
  placement and the `HydrationPopup` label.
- `desktop_pet.dfy` (module `DeskPet`) holds the class `DesktopPet`. Each of
  its methods updates the fields in place, and its `ensures` equates the new
  `State()` with the `PetState` transition applied to the old one. So the
  lemmas proved about the transitions hold of the object.

How the environment is modelled:

- A timer is a `Timer(intervalMs, running)` value. Restarting a timer keeps
  its period, as `QTimer.start()` without an argument does.
- A timer callback may only be invoked while its timer runs. In `Deliver`, a
  stopped timer delivers nothing.
- The two `random.choice` calls of `make_decision` become the parameters
  `moving` and `rightward`.
- The popup's size comes from its rendered text, so it is a constructor
  parameter.
- Python integers are unbounded, like Dafny's `int`. The only division is by
  2, where Python's floor division and Dafny's Euclidean division agree.

The invariant `PetState.Inv` holds in every reachable state. It says:

- the pet is within half the travel width of its anchor;
- the direction is -1 or +1;
- both behaviour timers run exactly when no drag is in progress;
- a drag in progress knows its grab offset.

### Behaviour worth noting

- The animation is one scaled image and its mirror image, chosen under three
  sprite names, so `Sprite` is a three-value enum.
- A double click sets only the sprite to `idle` and keeps `is_moving`, so a
  walking pet's next position tick shows the walking sprite again
  (`DoubleClickOverriddenByNextTick`).
- The anchor `start_x` is set on every drag move; a release leaves it alone.
- The clamping tick shows the sprite of the direction held before the flip,
  so at the right edge it still shows `walk_right`.

## Model

| member | source | states |
|---|---|---|
| PetState.HalfTravel | deskpet.py:83-84 | for a travel width in the spin box's range [100, 9999], half of it (floored) is at least 50, so it exceeds the 2-pixel step |
| PetState.Initial | deskpet.py:188-218 | the initial state keeps the invariant for every allowed travel width; the pet is idle, not moving, anchored at its own x, and both timers run |
| PetState.PositionTick | deskpet.py:224-236 | no change when idle or dragged; otherwise x becomes the 2-pixel step clamped into [start_x - max_travel//2, start_x + max_travel//2], so the bound holds whatever x was before; the direction is kept unless the step was clamped, and then it becomes -1 at the right edge and +1 at the left; the sprite follows the pre-tick direction; y, start_x, the flags and the timers are unchanged; the invariant is preserved |
| PetState.Decide | deskpet.py:245-252 | sets is_moving to the choice; standing shows idle and keeps the direction; walking sets the direction to ±1 as chosen and keeps the sprite; position, anchor, drag state and timers are unchanged |
| PetState.Press | deskpet.py:254-259 | the left button starts a drag, records the grab offset and stops both timers without changing their periods; other buttons change nothing; position, direction, moving flag and sprite are kept |
| PetState.DragMove | deskpet.py:263-268 | during a drag the window goes to the pointer minus the grab offset and the anchor moves to the new x; without a drag the event is ignored |
| PetState.Release | deskpet.py:271-275 | the left button ends the drag and restarts both timers with their periods; position, anchor, direction, moving flag and sprite are untouched; other buttons change nothing |
| PetState.DoubleClick | deskpet.py:277-279 | the sprite becomes idle and nothing else changes |
| PetState.Deliver | deskpet.py:200-206 | a timeout of a stopped timer changes nothing (a timer delivers its timeout only while it runs); every event keeps the invariant and the known grab offset |
| PetState.RunPreservesInv | deskpet.py:224-275 | any sequence of timer and mouse events from a state satisfying the invariant ends in one that satisfies it |
| PetState.ReachableStatesKeepBound | deskpet.py:188-275 | from the initial state, after any events, the distance from x to start_x is at most max_travel//2, and the pet is dragged exactly when both timers are stopped |
| PetState.TimeoutsSuspendedWhileDragging | deskpet.py:254-259 | while a drag is in progress, any number of timer timeouts leaves the state unchanged |
| PetState.DragFreezesWandering | deskpet.py:254-269 | until a left release, a drag stays in progress with stopped timers and the direction and moving flag frozen; once a drag move has happened, the anchor is on the pet's position |
| PetState.DragRoundTrip | deskpet.py:254-275 | press, move, release: the pet lands at the pointer minus the offset, anchored there, and resumes with its pre-drag direction, moving flag, sprite and timers |
| PetState.ReflectionTurnsBack | deskpet.py:230-236 | for a walking pet in the invariant, the direction changes exactly when the step is clamped; it then reverses and the pet stands on the edge in its old direction |
| PetState.DoubleClickOverriddenByNextTick | deskpet.py:277-279 | for a walking pet, a double click followed by a position tick gives the same state as the tick alone, which shows the walking sprite |
| PetState.WalkRightUnclamped | deskpet.py:225-228 | walking right, n ticks that stay inside the range advance x by 2n and keep the direction, the anchor and the walking-right sprite |
| PetState.ReflectAfterTwentySixTicks | deskpet.py:224-236 | with travel width 100 and the anchor at 500, 25 ticks reach 550 facing right; the 26th is clamped at 550, turns left and still shows walk_right |
| Hydration.ReminderTimer | deskpet.py:209-212 | the reminder timer exists exactly when enabled, runs, and has a period of interval * 1000 ms, between 5000 and 3600000 |
| Hydration.PopupPlacement | deskpet.py:24-25 | the popup's bottom edge is 5 pixels above the pet's top edge, and its horizontal centre is within half a pixel of the pet's (exactly on it when both widths have the same parity) |
| Hydration.HydrationPopup.constructor | deskpet.py:9-22 | a new popup has the given size and is hidden |
| Hydration.HydrationPopup.ShowAbove | deskpet.py:24-26 | moves the popup to its placement above the pet and shows it |
| Hydration.HydrationPopup.Hide | deskpet.py:28 | hides the popup and leaves its position |
| DeskPet.DesktopPet.constructor | deskpet.py:151-218 | the new window is in the initial state with the invariant, keeps its size and travel width, and has a reminder timer exactly when enabled |
| DeskPet.DesktopPet.HydrationCheck | deskpet.py:220-222 | shows the popup placed above the pet's current position |
| DeskPet.DesktopPet.UpdatePosition | deskpet.py:224-243 | the new state is PositionTick of the old one and keeps the invariant; a visible popup follows a walking pet |
| DeskPet.DesktopPet.MakeDecision | deskpet.py:245-252 | the new state is Decide of the old one with the given choices, and keeps the invariant |
| DeskPet.DesktopPet.MousePressEvent | deskpet.py:254-261 | the new state is Press of the old one, and keeps the invariant |
| DeskPet.DesktopPet.MouseMoveEvent | deskpet.py:263-269 | the new state is DragMove of the old one, and keeps the invariant |
| DeskPet.DesktopPet.MouseReleaseEvent | deskpet.py:271-275 | the new state is Release of the old one, and keeps the invariant |
| DeskPet.DesktopPet.MouseDoubleClickEvent | deskpet.py:277-279 | the new state is DoubleClick of the old one, and keeps the invariant |

## Left out

- The configuration dialog `SpriteSelector` (deskpet.py:30-148) is left out because it is UI. Only its value ranges carry over, as preconditions: sprite size 16-256, travel width 100-9999 and reminder interval 5-3600 s.
- Image loading, scaling and mirroring with `QPixmap`/`QTransform` (deskpet.py:173-186) are foreign library calls. Sprites are the enum `Sprite`.
- Window flags, translucency, style sheets, and the `move`/`setGeometry`/`setPixmap`/`show` calls are left out. They are rendering side effects with no state the behaviour reads.
- Real time is left out. Timers are on/off flags with their periods, and their callbacks are methods the environment invokes. The 3-second `QTimer.singleShot` auto-hide of the popup is the `Hide` method, without its delay.
- The random number generator is left out. Its choices are parameters.
- The right-button context menu and `QApplication.quit` (deskpet.py:260-261, 281-288) are left out because they are process plumbing. A right press changes no modelled state.
- The `main` bootstrap (deskpet.py:290-309) is left out.
- Qt's delivery order of press, release and double-click events is a platform detail. `Run` accepts events in any order.
