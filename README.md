# terminus, modelled in Dafny

terminus is a small Go game engine for the terminal, built on tcell. This
project models its library and the game logic of its example programs.

The library parts:

- **Entities.** An entity has a grid position and a sprite rune. Rune 0
  means "draw nothing".
- **Entity groups.** A group draws its children offset by its own position.
  It skips any child outside its inclusive `[0, width] x [0, height]` box.
- **Texts.** A text is a group with one child per rune, at the rune's byte
  offset.
- **Scenes.** A scene holds an insertion-ordered entity list. A `redraw`
  flag gates its drawing.
- **State manager.** It holds a default, a previous and a current state. It
  runs the exit hook before the entry hook, and it enters the default state
  lazily on the first `Update`.
- **Game.** The game clamps its scene index, keeps config defaults (exit key
  Esc; fps 60 only when unset), and runs the per-frame loop:
  - exit key;
  - the scene's `Update`;
  - each entity's `Update`, in order;
  - `Draw`;
  - `Show`/`Clear`.

The examples modelled:

- **Snake.** In-place rotation of the segments, the no-reversal steering
  rule, growth, score and speed, the bounds check, and the game-over state.
- **States.** A run/pause toggle on `p`, and a player that wraps around the
  screen and is blocked by a 5x5 box of collidables.
- **Moveable entity.** Screen wrap followed by an arrow step.
- **Text.** "Dancing" letters whose rows alternate, and a cyclic colour
  index.
- **Entity groups.** A group that drifts and wraps, and pins its first
  child.
- **Scenes.** A centred title, and scene navigation with `z`/`x`.

## How the model is built

The tcell screen is replaced by the game's append-only `trace` of screen
operations:

- `ScreenInit`, `ScreenFini`, `SetStyle`, `SetContent`, `Show` and `Clear`;
- markers for the no-op hooks the loop dispatches: `InitEntity`,
  `UpdateScene` and `UpdateEntity`.

Drawing works on value snapshots (`Drawing.Glyph`) and returns the cell
writes as a list. Each class's fields are Dafny class fields, and its
methods carry `modifies` clauses.

The state manager is generic over a type of state names. Its operations
return the hooks they fire, in order, and the owning scene runs them. This
is how `Snake.SnakeScene` and `StatesExample.PauseScene` dispatch their
states' `OnEnter`/`OnExit`/`Tick`.

The inputs the source reads from outside are parameters:

- the frame's key event;
- the screen size;
- the time since the last frame, as whole milliseconds;
- the random food positions;
- the `Overlaps` and `CheckDir` tests.

`Text.SetText` stores the new string and does not rebuild the children
(text.go:47-49). The model keeps this: a text's cells stay those of the
string it was built from. In the snake example the stored score text is
kept equal to the score during one game (`Snake.TickedKeepsLabel`), while
the cells drawn stay "Score: 0". A restart breaks this, because the entry
keeps the old score (see Findings).

Where the descriptive documentation and the code disagree, the model
follows the code:

- `Scene.Init` and `Scene.Add` leave `redraw` alone (scene.go:64-75,
  scene.go:111-116). The documentation says both set it.
- `Remove` is modelled without any redraw change. Its source is not among
  the library files.

`Scene.Remove`, `SetPosition` and `Scene.Setup` are used by the examples
but not defined in the library files. The model takes them as:

- `Remove`: splice out the first occurrence, keeping the order of the rest;
- `SetPosition`: set both coordinates;
- `Setup`: add nothing.

## Model

| member | source | states |
|---|---|---|
| `GoOps.Quo` | examples/scenes/customscene.go:44 | Go's `/` on ints: the remainder has the sign of the dividend and is smaller than the divisor in magnitude (truncation toward zero) |
| `Terminus.Entity.constructor` | entity.go:25-34 | NewEntity: stores x and y, sprite is 0 (no glyph), scene and game unset |
| `Terminus.Entity.WithSprite` | entity.go:38-48 | NewSpriteEntity: stores x, y and exactly the given sprite, detached |
| `Drawing.SpriteCells` | entity.go:60-69 | Entity.Draw writes one cell at (x, y) in the scene's style when the sprite is non-zero, and nothing when it is 0 |
| `Terminus.Entity.AddEntityToScene` | entity.go:72-77 | binds scene := s and game := s.game, overwriting any earlier binding; only those two fields change |
| `Terminus.Entity.SetX` | entity.go:90-92 | only x changes, to the given value (GetX is the field read) |
| `Terminus.Entity.SetY` | entity.go:100-102 | only y changes, to the given value |
| `Terminus.Entity.SetSprite` | entity.go:110-112 | only the sprite changes, to the given rune |
| `Terminus.Entity.SetPosition` | examples/moveable_entity/moveable.go:31-35 | the position setter the examples call: both coordinates set, nothing else changes |
| `Terminus.EntityGroup.constructor` | entity_group.go:14-21 | NewEntityGroup: base entity at (x, y) with sprite 0, the given width, height and children, and the base is none of the children |
| `Drawing.ClipCells` | entity_group.go:35-61 | group Draw: at most one write per child, and every write is a child inside the inclusive clip box, placed at group position + child position |
| `Drawing.ClipCellsComplete` | entity_group.go:41-59 | conversely, every child inside the clip box is written |
| `Drawing.ClipCellsAppend` | entity_group.go:41-59 | children are processed in list order: drawing a + b writes a's cells, then b's |
| `Drawing.ClipCellsAllVisible` | entity_group.go:41-59 | with no child clipped, the output is exactly each child placed at its offset, in order |
| `Drawing.ClipEdges` | entity_group.go:47-53 | both upper bounds are inclusive: a child at (width, height) is drawn; one at width + 1 or height + 1 is not |
| `Drawing.BlankChildIsWritten` | entity_group.go:47-57 | unlike a lone entity, a group writes a visible child even when its sprite is 0 |
| `Terminus.EntityGroup.SetWidth` | entity_group.go:75-77 | only the width changes (GetDimensions then returns it) |
| `Terminus.EntityGroup.SetHeight` | entity_group.go:80-82 | only the height changes |
| `Drawing.Utf8Width` | text.go:37 | a rune takes 1 to 4 bytes, and exactly 1 iff it is ASCII |
| `Drawing.ByteLen` | text.go:23 | Go's len of a string: at least its rune count, and 0 iff it is empty |
| `Drawing.ByteLenAppend` | text.go:23 | the byte length of a concatenation is the sum of the byte lengths |
| `Drawing.LayoutFrom` | text.go:37-41 | one child per rune, in order, at (starting offset + byte offset of the rune, 0) showing that rune |
| `Drawing.LayoutRunes` | text.go:37-41 | ToEntities' layout: child i is on row 0 at the byte offset of rune i and shows rune i |
| `Drawing.LayoutAscii` | text.go:37 | for ASCII text a child's x is its index |
| `Drawing.AsciiByteLen` | text.go:23 | the byte length of ASCII text is its length |
| `Drawing.LayoutIncreasing` | text.go:37 | byte offsets strictly increase, by at least the number of runes passed |
| `Drawing.LayoutFits` | text.go:20-23 | every rune's bytes end within len(text), so every child of a new Text lies in its [0, len] x [0, 1] clip box |
| `Terminus.Spawn` | text.go:37-41 | the construction loop: one fresh, detached, distinct entity per glyph with exactly that glyph's snapshot, in order |
| `Terminus.ToEntities` | text.go:33-44 | fresh distinct children whose snapshots are the layout of the text |
| `Terminus.Text.constructor` | text.go:18-29 | NewText: a group at (x, y), width len(text) in bytes, height 1, children laid out from the text, text stored |
| `Terminus.Text.SetText` | text.go:47-49 | only the stored string changes; the children are not rebuilt (GetText is the field read) |
| `Terminus.Scene.constructor` | scene.go:31-44 | NewScene: White on Black, no entities, default style, redraw set |
| `Terminus.Scene.Custom` | scene.go:48-61 | NewSceneCustom: as NewScene with the given colours |
| `Terminus.Scene.Init` | scene.go:64-75 | the style becomes fg/bg and is pushed to the screen (one SetStyle); entities and redraw untouched |
| `Terminus.Scene.Draw` | scene.go:84-106 | with redraw clear, no screen operation; otherwise every entity's writes in order, then Show, then Clear; redraw is clear afterwards, so a second Draw does nothing; drawing keeps the entities drawable and their cells as they were |
| `Terminus.Scene.Add` | scene.go:111-116 | appends the entity at the end, keeps the others, binds its back-references; redraw untouched |
| `Terminus.RemoveFirst` | examples/snake/endstate.go:36-40 | Remove as the examples use it: exactly one occurrence of the entry taken away, and no change when it is absent |
| `Terminus.IndexOf` | examples/snake/endstate.go:38 | the index Remove splices at: the first occurrence of the entry |
| `Terminus.RemoveFirstSplices` | examples/snake/endstate.go:38 | Remove preserves order: the result is the list before the first occurrence followed by the list after it |
| `Terminus.Scene.Remove` | examples/snake/endstate.go:38 | the scene's list becomes RemoveFirst of the old list |
| `Terminus.Scene.SetRedraw` | scene.go:133-139 | as written (value receiver): the scene's own redraw flag is unchanged |
| `Terminus.Scene.SetRedrawIntended` | scene.go:133-139 | as its comment describes it: the scene's redraw flag becomes the argument, and the entities' cells are untouched |
| `Terminus.RedrawAfterDraw` | scene.go:87-104 | with SetRedraw as written, Draw, then SetRedraw(true), then Draw: the second Draw writes nothing at all |
| `Terminus.RedrawAfterDrawIntended` | scene.go:133-139 | with the intended SetRedraw the second Draw writes exactly every entity's cells, then Show, then Clear, and equals the first Draw when one was pending |
| `Terminus.AddEach` | examples/states/customscene.go:47-51 | Add once per entity in order: the list grows by exactly those entities, in order, and their snapshots are unchanged |
| `Terminus.RemoveEachMultiset` | examples/snake/runstate.go:72-78 | removing each entry of a list takes away exactly the occurrences of that list, where present |
| `Terminus.RemoveEachCount` | examples/snake/runstate.go:72-78 | an entry not among those removed keeps its count; one among them loses as many occurrences as it has there |
| `Terminus.RemoveEachOf` | examples/snake/runstate.go:74-76 | Remove once per entity in order: the list becomes RemoveEach of the old list |
| `Terminus.NextIndex` | game.go:188-196 | NextScene's index: one up, except at the last scene; always a valid index |
| `Terminus.PrevIndex` | game.go:200-208 | PrevScene's index: one down, except at index 0; always a valid index |
| `Terminus.InitCalls` | game.go:79-85 | the Init hooks of a scene's entities: one per entity, in order |
| `Terminus.UpdateCalls` | game.go:163-169 | the Update hooks of a scene's entities: one per entity, in order |
| `Terminus.InitEach` | game.go:79-85 | the Init loop issues exactly InitCalls |
| `Terminus.FrameKeepsOpen` | game.go:155-179 | a frame that does not see the exit key does not close the screen |
| `Terminus.Game.constructor` | game.go:31-37 | NewGame: every field at its zero value (no scenes, index 0, fps 0, no input, nothing on screen) |
| `Terminus.Game.Init` | game.go:41-91 | exit key Esc; fps 60 only if it was 0, else kept; index 0; the screen opened, then the first scene's Init, then each of its entities' Init in order; needs a non-empty scene list; the 0 <= index < len invariant holds |
| `Terminus.Game.InitScene` | game.go:76-85 | the current scene's Init (one SetStyle), then its entities' Init in order |
| `Terminus.Game.Frame` | game.go:122-179 | the input becomes exactly the pending key or none (no carry-over); the exit key issues only Fini and ends the loop; otherwise scene Update, each entity's Update in order, the scene's Draw, then Show and Clear |
| `Terminus.Game.UpdateAndDraw` | game.go:160-177 | the non-exit part of a frame, in that order, leaving redraw clear and the screen open |
| `Terminus.Game.Start` | game.go:133-184 | the screen size is read once; frames run until the first exit key, none after it; the screen is closed exactly once iff the exit key came |
| `Terminus.Game.NextScene` | game.go:188-196 | the index moves up and the new scene's Init runs, only below the last scene; at the last scene nothing happens, Init included; the index stays valid |
| `Terminus.Game.PrevScene` | game.go:200-208 | the index moves down and the new scene's Init runs, only above 0; at 0 nothing happens; the index stays valid |
| `Terminus.Game.SetExitKey` | game.go:216-218 | only the exit key changes, to the given key (ExitKey reads it back) |
| `Terminus.Game.SetFPS` | game.go:226-228 | only fps changes, to the given value (GetFPS reads it back) |
| `States.StateManager.constructor` | state_manager.go:22-31 | NewStateManager: nothing current, previous = default = the argument |
| `States.StateManager.ChangeState` | state_manager.go:35-47 | the new state is Change of the old: with a current state c, previous := c, c's exit then the new state's entry; with none, only the entry and previous kept |
| `States.StateManager.BackToDefault` | state_manager.go:51-55 | exactly ChangeState(default) |
| `States.StateManager.BackToPrevious` | state_manager.go:59-63 | exactly ChangeState(previous) |
| `States.StateManager.Update` | state_manager.go:68-79 | with nothing current, ChangeState(default) first, then the Tick of the current state |
| `States.ChangeOrder` | state_manager.go:37-45 | the exit of the state left comes strictly before the entry of the new one, and is the only exit; previous and current as above; default untouched |
| `States.RunKeepsDefault` | state_manager.go:35-79 | no sequence of operations changes the default state |
| `States.CurrentStaysSet` | state_manager.go:44-77 | once a state is current, no sequence of operations leaves the manager without one |
| `States.FirstOpEnters` | state_manager.go:68-77 | after any first operation a fresh manager has a current state |
| `States.BackToPreviousTwice` | state_manager.go:59-63 | BackToPrevious swaps current and previous, so two in a row restore the manager exactly |
| `States.BackToPreviousFresh` | state_manager.go:24-27 | on a fresh manager BackToPrevious is BackToDefault and fires only the default's entry |
| `States.UpdatesOnlyTick` | state_manager.go:68-79 | on an entered manager, n Updates only tick the current state n times |
| `States.UpdatesFromFresh` | state_manager.go:68-79 | n >= 1 Updates on a fresh manager enter the default exactly once, before its first tick, then only tick it |
| `States.ApplyHooks` | state_manager.go:35-79 | every operation fires at most one entry and one exit; an entry is of the new current state, an exit of the old one |
| `MoveableEntity.Wrap` | examples/moveable_entity/moveable.go:31-41 | the wrap of one axis: on a screen of size >= 1 the result is on the screen, and an on-screen value is kept |
| `MoveableEntity.ArrowDelta` | examples/moveable_entity/moveable.go:44-62 | the step is non-zero iff the input is an arrow key, and is then a unit step along one axis |
| `MoveableEntity.ArrowDirections` | examples/moveable_entity/moveable.go:46-62 | Left is x - 1, Right x + 1, Up y - 1, Down y + 1 |
| `MoveableEntity.MovedNearScreen` | examples/moveable_entity/moveable.go:31-62 | because the step follows the wrap, Update ends at most one cell outside the screen; with no input it ends on the screen |
| `MoveableEntity.MovedOnScreen` | examples/moveable_entity/moveable.go:44-62 | from an on-screen position, Update moves exactly by the arrow's step |
| `MoveableEntity.Moveable.constructor` | examples/moveable_entity/moveable.go:11-18 | NewMoveable: a detached sprite entity at (x, y) |
| `MoveableEntity.Moveable.Update` | examples/moveable_entity/moveable.go:20-66 | the new position is Moved: the wrap on each axis with the game's screen size, then the step of the game's input |
| `StatesExample.BoxGlyphs` | examples/states/customscene.go:39-45 | the 25 collidables in row order, entity k being BoxGlyph(k) |
| `StatesExample.BoxLayout` | examples/states/customscene.go:39-45 | the box covers each cell of x 25..29, y 5..9 exactly once, '#' on the border and '*' exactly on the 3x3 inside |
| `StatesExample.NextCases` | examples/states/moveable.go:44-87 | with no input only the wrap applies; with no collidables the player moves like the plain moveable entity |
| `StatesExample.Mover.constructor` | examples/states/moveable.go:12-19 | NewMoveable: a detached sprite entity at (x, y) with no collidables |
| `StatesExample.Mover.SetCollidables` | examples/states/moveable.go:91-95 | only the collidable list changes, to the given one |
| `StatesExample.Mover.WrapOnScreen` | examples/states/moveable.go:30-42 | x and y each wrapped with the screen size, sprite kept |
| `StatesExample.Mover.FirstBlock` | examples/states/moveable.go:67-79 | the scan reports a collision iff some collidable blocks the move, and stops at the first one that does |
| `StatesExample.Mover.Update` | examples/states/moveable.go:21-89 | the new position is Next: the wrap, then the arrow step unless some collidable blocks it (then the wrapped position) |
| `StatesExample.NextMachine` | examples/states/customscene.go:65-69 | one scene Update on the manager always leaves a current state and keeps the default |
| `StatesExample.PressToggles` | examples/states/runstate.go:32-41 | 'p' switches running and paused, the state left becoming previous; any other input changes nothing, so at most one change per frame |
| `StatesExample.FirstFrame` | examples/states/customscene.go:26-28 | the first frame enters running; a 'p' on it pauses |
| `StatesExample.PressTwice` | examples/states/pausestate.go:48-57 | two 'p' frames restore the phase |
| `StatesExample.PauseScene.constructor` | examples/states/customscene.go:18-32 | NewCustomScene: a scene in the given colours, a fresh manager whose default and previous are the running state |
| `StatesExample.PauseScene.Setup` | examples/states/customscene.go:34-63 | the entity order afterwards: the 25 box entities, the player '@' at (2, 2), then the help text at (0, 0); the player's collidables are exactly the box |
| `StatesExample.PauseScene.AddBox` | examples/states/customscene.go:39-51 | the box's 25 fresh entities, added in order |
| `StatesExample.PauseScene.AddPlayer` | examples/states/customscene.go:54-60 | the player '@' at (2, 2), given the box as collidables, added to the scene |
| `StatesExample.PauseScene.AddHelp` | examples/states/customscene.go:61 | one text at (0, 0) appended |
| `StatesExample.PauseScene.PauseEnter` | examples/states/pausestate.go:22-31 | one new "PAUSED" text at (sx/2, sy/2) appended, in the scene exactly once |
| `StatesExample.PauseScene.PauseExit` | examples/states/pausestate.go:33-37 | removes that text (one occurrence) |
| `StatesExample.PauseScene.FireTransition` | examples/states/runstate.go:21-22 | the running state's entry and exit change nothing; the paused state's entry appends a fresh text's group, and its exit removes the text's first occurrence |
| `StatesExample.PauseScene.ChangeTo` | state_manager.go:35-47 | ChangeState with its hooks fired: the manager becomes Change of the old one; changing to paused appends a fresh "PAUSED" group, after removing the old one when already paused; changing to running removes it when paused and otherwise leaves the list; the text is in the scene exactly once while paused |
| `StatesExample.PauseScene.RunTick` | examples/states/runstate.go:23-43 | 'p' changes to paused and the entity list gains a fresh "PAUSED" group at its end; anything else changes no state and no entity list |
| `StatesExample.PauseScene.PauseTick` | examples/states/pausestate.go:39-59 | 'p' changes to running and the list loses the first occurrence of the "PAUSED" group; anything else changes neither the manager nor the entity list |
| `StatesExample.PauseScene.Update` | examples/states/customscene.go:65-69 | the manager becomes NextMachine of the old one; with 'p' the list gains a fresh "PAUSED" group when the current state was running, and loses that group when paused; without 'p' the list is unchanged; the text is in the scene exactly while paused |
| `StatesExample.PauseScene.Frame` | game.go:160-169 | a game-loop pass over this scene as written: the scene Update, then the player's Update, which moves the player by Next in either phase |
| `StatesExample.PauseScene.FrameIntended` | examples/states/pausestate.go:41-43 | the pass as the pause state's comment intends: running, the player moves by Next; paused, it stands still |
| `StatesExample.PausedPlayerMoves` | examples/states/pausestate.go:41-43 | as written, on a right arrow the paused machine stays paused, while a player at (2, 2) on an 80x24 screen with nothing in the way is moved to (3, 2) |
| `Snake.SteerRule` | examples/snake/runstate.go:93-105 | one input never reverses the snake; non-arrows and no input keep the direction; an arrow that is not the opposite is taken |
| `Snake.TwoPressesReverse` | examples/snake/runstate.go:93-115 | the guard compares with the direction, not the last move: up then left between two moves reverses a snake heading right |
| `Snake.BoundsEdges` | examples/snake/runstate.go:132-137 | x = gw and y = gh still count as inside; gw + 1, gh + 1 and -1 are out |
| `Snake.RotateRightFacts` | examples/snake/runstate.go:140-151 | the shift keeps the length and the multiset of segments, puts the old tail first and moves every other segment up one index |
| `Snake.RotateKeeps` | examples/snake/runstate.go:143-151 | the shift keeps the segments distinct and keeps the same set of segments |
| `Snake.Decimal` | examples/snake/runstate.go:163 | strconv.Itoa of a natural: at least one character, all decimal digits |
| `Snake.DecimalValue` | examples/snake/runstate.go:163 | the digits read back give the number, with no leading zero |
| `Snake.ItoaRoundTrip` | examples/snake/runstate.go:163 | reading Itoa(n) back gives n, for every integer |
| `Snake.InitialBody` | examples/snake/runstate.go:63-68 | OnEnter's snake: five segments, segment k at (5 - k, 5), so the head is at (5, 5) |
| `Snake.TickedMoves` | examples/snake/runstate.go:87-151 | the direction rule always applies; below the speed nothing moves and the time adds up; otherwise the timer restarts, the head advances one cell along the direction, each other segment takes the place of the one before it, and the end state is triggered iff the new head is out of bounds |
| `Snake.TickedGrows` | examples/snake/runstate.go:153-167 | the snake grows by at most one segment, exactly when the score rises by 5; the new last segment sits on the cell of the tail before it; when the new score is a multiple of 25 the speed falls by 50 while above 50 |
| `Snake.TickedKeepsLabel` | examples/snake/runstate.go:162-163 | once the stored score text matches the score, a tick keeps it so |
| `Snake.TickedSpeed` | examples/snake/runstate.go:165-167 | from 200 ms the speed only takes the values 200, 150, 100, 50, and never increases |
| `Snake.RestartShowsStaleScore` | examples/snake/runstate.go:46-70 | after a game ending at 15 points the new game shows "Score: 0" while the score is still 15 |
| `Snake.EnteredFreshShowsScore` | examples/snake/runstate.go:60 | with the score reset, the text shown on entry matches the score |
| `Snake.RunState.constructor` | examples/snake/runstate.go:33-44 | NewRunState: bound to its scene, score 0, no snake, food or text yet |
| `Snake.RunState.OnEnter` | examples/snake/runstate.go:46-70 | the fields become Entered: 5 fresh distinct segments with the head at (5, 5), heading right, speed 200 ms, the food, "Score: 0" at (gw - 15, 0); score and timer kept; the scene gains the food, the text, then the segments in order |
| `Snake.RunState.AddFood` | examples/snake/runstate.go:57-58 | a fresh 'o' entity at the given spot, appended to the scene |
| `Snake.RunState.AddScore` | examples/snake/runstate.go:60-61 | a fresh "Score: 0" text at (x, 0), appended to the scene |
| `Snake.RunState.AddSnake` | examples/snake/runstate.go:63-68 | the five segments of InitialBody, fresh and distinct, appended in order |
| `Snake.RunState.OnEnterIntended` | examples/snake/runstate.go:46-70 | OnEnter with the score reset: the same new game and the same entity list as OnEnter, at score 0, so the stored text equals the score |
| `Snake.RunState.OnExit` | examples/snake/runstate.go:72-78 | removes exactly the snakeLength segments; the food and the score text keep their counts in the scene |
| `Snake.RunState.Turn` | examples/snake/runstate.go:93-105 | the direction becomes Steer of the old one and the input |
| `Snake.RunState.Wait` | examples/snake/runstate.go:86-114 | the move is due iff the elapsed time reaches the speed, and the timer then restarts; the direction rule is applied; nothing else changes |
| `Snake.RunState.NextHead` | examples/snake/runstate.go:117-127 | the old head plus the unit step of the direction, Up being y - 1 |
| `Snake.RunState.Rotate` | examples/snake/runstate.go:143-151 | the in-place loop leaves exactly RotateRight of the old segment list |
| `Snake.RunState.Slide` | examples/snake/runstate.go:140-151 | the old tail moved to the next position becomes the head, the others shift; the segments are still the same distinct objects |
| `Snake.RunState.Grow` | examples/snake/runstate.go:155-159 | one fresh 'o' segment at the tail's position appended, snakeLength = len(snake) kept, and the segment added to the scene |
| `Snake.RunState.Score` | examples/snake/runstate.go:161-167 | the food moved, score + 5, the text "Score: n", the speed rule |
| `Snake.RunState.Eat` | examples/snake/runstate.go:155-167 | the fields become Fed of the old ones, and the scene gains exactly the new segment |
| `Snake.RunState.Meal` | examples/snake/runstate.go:153-169 | Eat happens exactly when the head overlaps the food; the scene gains the new tail segment exactly when the snake grew; every segment afterwards is one the snake had or a new one |
| `Snake.RunState.Move` | examples/snake/runstate.go:139-169 | the shift to the next position, then the meal test; the scene gains only a meal's new segment; every segment afterwards is one the snake had or a new one |
| `Snake.EndState.constructor` | examples/snake/endstate.go:13-20 | NewEndState: bound to its scene, no text yet |
| `Snake.EndState.OnEnter` | examples/snake/endstate.go:22-34 | one new "GAME OVER" text appended at (sx/2 - 9/2, sy/2) with Go's truncating division |
| `Snake.EndState.OnExit` | examples/snake/endstate.go:36-40 | removes that same text object |
| `Snake.GameOverWidth` | examples/snake/endstate.go:31 | the text's width, len("GAME OVER"), is 9 |
| `Snake.SnakeScene.constructor` | examples/snake/customscene.go:16-33 | the scene in the given colours, both states bound to it, a fresh manager whose default and previous are the run state |
| `Snake.SnakeScene.Setup` | examples/snake/customscene.go:35-41 | one text at (0, 0) appended after the base setup |
| `Snake.SnakeScene.ChangeToEnd` | examples/snake/runstate.go:135 | ChangeState(endState) from the run state: the manager becomes Change of the old one, with End current and Run previous; the scene loses each segment (the run state's exit) and gains a fresh "GAME OVER" group (the end state's entry) |
| `Snake.SnakeScene.ChangeToRun` | examples/snake/endstate.go:56 | ChangeState(runState) from the end state: the manager becomes Change of the old one; the run state's fields are a newly entered game that keeps the old score, as written (see Findings); the scene loses the "GAME OVER" group and gains the food, the score text and the five segments; the segments, food and score text afterwards are the old objects or new ones, so the scene can be updated again on the next frame |
| `Snake.SnakeScene.RunTick` | examples/snake/runstate.go:80-171 | the run state's fields become Ticked of the old ones; the manager moves to the end state iff the move left the screen, and the move still happens; the entity list becomes the end state's list when the head left, then gains a meal's new segment; every segment afterwards is an old or a new one |
| `Snake.SnakeScene.CheckBounds` | examples/snake/runstate.go:130-137 | the end state is entered iff the next head is out of bounds, with each segment removed and a fresh "GAME OVER" group appended; otherwise the list is unchanged; the run state's fields are untouched |
| `Snake.SnakeScene.Advance` | examples/snake/runstate.go:116-169 | a due move: the fields become Advanced; the end state is entered iff the head left the screen, with the segments removed and the "GAME OVER" group appended; a meal's new segment is appended after that; every segment afterwards is an old or a new one |
| `Snake.SnakeScene.EndTick` | examples/snake/endstate.go:42-62 | Enter changes to the run state and starts a new game that keeps the old score, with the "GAME OVER" group removed and the food, score text and segments appended; no input or any other key leaves the manager, the entity list and the snake as they were; the segments, food and score text afterwards are the old objects or new ones, so the scene can be updated again on the next frame |
| `Snake.SnakeScene.Update` | examples/snake/customscene.go:43-48 | the manager's Update: the first frame enters the run state (food, score text and five fresh segments appended) and then ticks it; later frames tick the current state: in the run state the fields become Ticked of the old ones and the list follows RunTick's, in the end state Enter restarts as in EndTick; the segments, food and score text afterwards are the old objects or new ones, so the scene can be updated again on the next frame |
| `Snake.SnakeScene.EnterAndTick` | state_manager.go:70-77 | the first frame's hooks: the run state's entry, then its Tick from the entered board, with the entered food, score text and segments appended before RunTick's change of the list; the segments, food and score text afterwards are the old objects or new ones, so the scene can be updated again on the next frame |
| `Snake.SnakeScene.TickCurrent` | state_manager.go:77 | the Tick of whichever state is current, with its manager, board and entity list as RunTick or EndTick state them; the segments, food and score text afterwards are the old objects or new ones, so the scene can be updated again on the next frame |
| `TextExample.Toggle` | examples/text/dancingtext.go:77-81 | the parity flip always gives 0 or 1 |
| `TextExample.MovesKeepColumns` | examples/text/dancingtext.go:43-69 | neither Init's move nor an Update's changes a letter's column or rune |
| `TextExample.DanceTwice` | examples/text/dancingtext.go:59-81 | two firing Updates put every letter back where it was |
| `TextExample.LiftStartsDance` | examples/text/dancingtext.go:38-47 | Init on a flat row puts the odd letters on row 0 and the even ones on row 1 |
| `TextExample.TextStartsDance` | examples/text/dancingtext.go:35-49 | for a text built by NewText, Init starts the dance and keeps the layout's columns |
| `TextExample.DanceKeepsPose` | examples/text/dancingtext.go:57-81 | each firing Update swaps the rows and flips the parity, so the letters stay on rows 0 and 1 |
| `TextExample.DancingAllDrawn` | examples/text/dancingtext.go:35-73 | while dancing, every letter lies in the doubled clip box, so the group draws all of them, in order |
| `TextExample.DancingText.constructor` | examples/text/dancingtext.go:15-31 | the Text of the string, timer and parity 0, and a colour recorded only when exactly two colours are given |
| `TextExample.DancingText.Init` | examples/text/dancingtext.go:33-51 | the height doubled, the even letters one row down, parity 1 |
| `TextExample.DancingText.Update` | examples/text/dancingtext.go:53-85 | past half a second the letters of the current parity move down, the others up, the timer restarts and the parity flips; otherwise only the time adds up |
| `TextExample.DancingText.Dance` | examples/text/dancingtext.go:59-73 | the loop leaves exactly Danced of the old snapshots |
| `TextExample.NextColorIndexCycles` | examples/text/customtext.go:33-37 | on a valid index the step is (i + 1) mod len(colors), and stays valid |
| `TextExample.IndexAfterCycles` | examples/text/customtext.go:27-46 | after k colour changes from the start the index is k mod len(colors) |
| `TextExample.CustomText.constructor` | examples/text/customtext.go:16-25 | colour pair 0 from the start, index 0; the list must not be empty |
| `TextExample.CustomText.Update` | examples/text/customtext.go:27-48 | past half a second the next index, cyclically, and the timer restarts; otherwise index and colour kept; the index stays valid and the colour is always the indexed pair |
| `EntityGroupsExample.DriftOnScreen` | examples/entity_groups/customentitygroup.go:26-47 | on a screen of positive width the group never ends an Update at or past the right edge |
| `EntityGroupsExample.DriftCycles` | examples/entity_groups/customentitygroup.go:26-47 | from an on-screen column a firing Update is the cyclic successor, and a waiting one keeps the column |
| `EntityGroupsExample.PinnedChildDrawn` | examples/entity_groups/customentitygroup.go:32-35 | the pinned child at (5, 5) sits on the inclusive corner of a 5 x 5 group and is its first cell drawn |
| `EntityGroupsExample.Drifter.constructor` | examples/entity_groups/customentitygroup.go:12-19 | wraps the given group with the timer at 0 |
| `EntityGroupsExample.Drifter.Update` | examples/entity_groups/customentitygroup.go:21-49 | once a second x + 1, y kept, the first child at (5, 5) and the timer restarts; then a group at or past the screen width goes back to column 0; nothing else moves |
| `ScenesExample.CentredBalanced` | examples/scenes/customscene.go:41-44 | the centred title fits the screen and its two margins differ by at most one cell on each axis |
| `ScenesExample.Navigated` | examples/scenes/customscene.go:54-66 | the navigation always yields a valid scene index |
| `ScenesExample.NavigatedAtEnds` | examples/scenes/customscene.go:54-66 | 'x' on the last scene and 'z' on the first change nothing; other input never moves |
| `ScenesExample.NavigatedRoundTrip` | examples/scenes/customscene.go:54-66 | 'x' then 'z' returns to the start unless it was the last scene, and 'z' then 'x' likewise unless it was the first |
| `ScenesExample.TitleScene.constructor` | examples/scenes/customscene.go:14-25 | a scene in the given colours and a title text at (0, 0), not yet added |
| `ScenesExample.TitleScene.Setup` | examples/scenes/customscene.go:27-33 | the title appended after the base setup, and bound to the scene |
| `ScenesExample.TitleScene.Init` | examples/scenes/customscene.go:35-46 | the base Init's style (one SetStyle), then the title at Centred of the screen and title sizes, (sw/2 - tw/2, sh/2 - th/2), so a repeated Init puts it in the same place |
| `ScenesExample.TitleScene.Update` | examples/scenes/customscene.go:48-68 | 'z' PrevScene, 'x' NextScene, anything else nothing: the index becomes Navigated and the game stays valid; a new index means the new scene's style is its own colour pair and the trace gains exactly that SetStyle; an unchanged index means no screen operation |

## Left out

- **The input goroutine and its channel** (game.go:88, game.go:93-120). This
  is concurrency. Each frame's key event is a parameter of `Terminus.Game.Frame`,
  and a resize's new screen size is a parameter of `Terminus.Game.Start`.
- **Time.** `time.Now`, `delta` and the fps ticker (game.go:87,
  game.go:149-151, game.go:174-179) are left out. The examples' float
  timers are whole milliseconds. The ticker's wait before `Show`/`Clear` is
  not modelled; the two operations are.
- `Snake.RunState.Score`: models the speed in whole milliseconds (200, minus 50). In
  the source's float64 arithmetic, 0.2 - 3 * 0.05 is slightly above 0.05,
  so the source takes a fourth step down to about zero. That float rounding
  is not modelled.
- `Terminus.Game.Start`: runs over a finite list of inputs. The source
  loops until the exit key arrives.
- **The tcell screen.** It is replaced by the trace of screen operations.
  `Sync`, `Size` and screen creation failure are left out.
- **Logging and the log file** (game.go:44-60), `GetLogger` and
  `SetLogFileName`. This is file I/O.
- **Getters.** `GetX`, `GetY`, `GetSprite`, `GetScene`, `GetGame`,
  `GetEntity`, `GetEntities`, `GetDimensions`, `GetText`, `Entities`,
  `Game`, `ExitKey`, `GetFPS`, `Input`, `ScreenSize`. Each is a plain field
  read, and the model reads the field.
- **Randomness** (examples/snake/runstate.go:35, 57, 161). The food
  positions are parameters. The panic of `rand.Intn` on a screen of width 0
  is not modelled.
- **Functions defined in no library file.** `Overlaps` and `CheckDir` are
  uninterpreted: they are parameters.
- **Colours.** `SetColor` and the five-argument `NewText` are not modelled.
  The dancing and custom texts record the colour pair they would pass. The
  colours of the other texts are not kept.
- `TextExample.CustomText.constructor`: takes each colour entry as a pair.
  The source's inner slices could be shorter than two and panic there.
- `Terminus.Game.Init`: requires a non-empty scene list. The source indexes the first scene and would panic on an empty one.
- **Interface dispatch.** The game loop dispatches entity `Init`/`Update`.
  It appears as trace markers, and the library hooks do nothing.
  - An example entity's own `Update` is called by that example's model:
    `StatesExample.PauseScene.Frame` calls the player's.
  - `Terminus.Game.NextScene` and `Terminus.Game.PrevScene` run the library
    `Scene.Init`. A custom scene's `Init` override is not dispatched through
    them: `ScenesExample.TitleScene.Init` is modelled on its own.
- **The library `State`.** Its hooks take no `delta`, unlike `IState.Tick`
  (state.go:8, state.go:37). The manager here is generic over state names,
  rather than over `*State` values.
- `States.StateManager`: holds a state name, so `ChangeState(nil)` (state_manager.go:35-47)
  and `NewStateManager(nil)` (state_manager.go:22-31) cannot be written. In the source a nil `*State` runs the empty `OnEnter`
  (state.go:29) and leaves nothing current. The next `Update` then enters the
  default state again. `BackToPrevious` before any change never yields nil:
  the previous state starts as the default.
- **Root files.** terminus.go (colour and key tables, reduced to small enums)
  and every `main.go` (wiring only) are not part of this model.

## Findings

| source | as written | input that shows it | evidently intended | confidence | as-written member | corrected member |
|---|---|---|---|---|---|---|
| scene.go:133-139 | `SetRedraw` has a value receiver, so it sets the flag of a copy | draw a scene, call `SetRedraw(true)`, draw again: the second `Draw` writes nothing | the scene's own flag is set, so the next `Draw` redraws | high, not executed | `Terminus.RedrawAfterDraw` | `Terminus.RedrawAfterDrawIntended` |
| examples/states/pausestate.go:41-43 | pausing skips only the scene's empty `Update`; the game loop still updates every entity (game.go:163-169) | paused, no 'p', right arrow: the player moves from (2, 2) to (3, 2) | the player stands still while paused | high, not executed | `StatesExample.PausedPlayerMoves` | `StatesExample.PauseScene.FrameIntended` |
| examples/snake/runstate.go:46-70 | `OnEnter` shows "Score: 0" but does not reset `score` | a game ends at 15 points; after Enter the new text reads "Score: 0" while the score is 15, and the next meal stores "Score: 20" | the score restarts at 0 with the text; the snake scene models dispatch the entry as written | medium, not executed | `Snake.RestartShowsStaleScore` | `Snake.RunState.OnEnterIntended` |
