/**
 * The states example: a scene whose state manager switches between a
 * running and a paused state on the 'p' key, a player that wraps around the
 * screen and whose arrow moves are blocked by a 5x5 box of collidables, and
 * a "PAUSED" text shown while paused.  The hooks of the two states are the
 * scene's methods RunEnter ... PauseTick; the scene dispatches the hooks its
 * manager returns.
 */
module StatesExample {

  import opened Optional
  import opened Display
  import opened GoOps
  import opened Drawing
  import opened Terminus
  import opened States
  import MoveableEntity

  datatype Phase = Running | Paused

  /** A key event whose character is `c` (Input().Rune() == c). */
  predicate Pressed(input: Option<KeyEvent>, c: char)
  {
    input.Some? && input.value.ch == c as int
  }

  // ---------------------------------------------------------------------
  // The collidable box of Setup
  // ---------------------------------------------------------------------

  /** The box's k-th entity, row by row: '#' on the border, '*' inside. */
  function BoxGlyph(k: int): Glyph
  {
    var x := 25 + k % 5;
    var y := 5 + k / 5;
    Glyph(x, y, if x == 25 || x == 29 || y == 5 || y == 9 then '#' as int else '*' as int)
  }

  function BoxGlyphs(): (gs: seq<Glyph>)
    ensures |gs| == 25
    ensures forall k :: 0 <= k < 25 ==> gs[k] == BoxGlyph(k)
  {
    seq(25, k requires 0 <= k < 25 => BoxGlyph(k))
  }

  /**
   * The box covers every cell of x 25..29, y 5..9 exactly once, with '#' on
   * its border and '*' on the 3x3 inside.
   */
  lemma BoxLayout(x: int, y: int)
    ensures (exists k :: 0 <= k < 25 && BoxGlyphs()[k].x == x && BoxGlyphs()[k].y == y) <==> 25 <= x <= 29 && 5 <= y <= 9
    ensures forall k, j :: 0 <= k < j < 25 ==> (BoxGlyphs()[k].x, BoxGlyphs()[k].y) != (BoxGlyphs()[j].x, BoxGlyphs()[j].y)
    ensures forall k :: 0 <= k < 25 ==>
              (BoxGlyphs()[k].sprite == '*' as int <==> 26 <= BoxGlyphs()[k].x <= 28 && 6 <= BoxGlyphs()[k].y <= 8)
    ensures forall k :: 0 <= k < 25 ==> BoxGlyphs()[k].sprite == '#' as int || BoxGlyphs()[k].sprite == '*' as int
  {
    if 25 <= x <= 29 && 5 <= y <= 9 {
      var k := (y - 5) * 5 + (x - 25);
      assert BoxGlyphs()[k].x == x && BoxGlyphs()[k].y == y;
    }
    forall k, j | 0 <= k < j < 25
      ensures (BoxGlyphs()[k].x, BoxGlyphs()[k].y) != (BoxGlyphs()[j].x, BoxGlyphs()[j].y)
    {
      if k / 5 == j / 5 {
        assert k % 5 != j % 5;
      }
    }
  }

  // ---------------------------------------------------------------------
  // The player (examples/states/moveable.go)
  // ---------------------------------------------------------------------

  /**
   * Entity.CheckDir is not part of this model: the blocking test is a
   * parameter, asked with the mover's own position, an axis, the move along
   * it and the other entity's coordinate on it.
   */
  type CheckDir = (Glyph, char, int, int) -> bool

  /** A collidable blocks the move when CheckDir holds on both axes. */
  predicate Blocks(me: Glyph, d: (int, int), c: Glyph, checkDir: CheckDir)
  {
    checkDir(me, 'x', d.0, c.x) && checkDir(me, 'y', d.1, c.y)
  }

  ghost predicate Blocked(me: Glyph, d: (int, int), cs: seq<Glyph>, checkDir: CheckDir)
  {
    exists i :: 0 <= i < |cs| && Blocks(me, d, cs[i], checkDir)
  }

  /** Where Update leaves the player: the wrap, then the step unless a collidable blocks it. */
  ghost function Next(g: Glyph, input: Option<KeyEvent>, gw: int, gh: int, cs: seq<Glyph>, checkDir: CheckDir): (int, int)
  {
    var w := Glyph(MoveableEntity.Wrap(g.x, gw), MoveableEntity.Wrap(g.y, gh), g.sprite);
    var d := MoveableEntity.ArrowDelta(input);
    if input.Some? && !Blocked(w, d, cs, checkDir) then (w.x + d.0, w.y + d.1) else (w.x, w.y)
  }

  /** With no input only the wrap applies; a blocked move leaves the wrapped position. */
  lemma NextCases(g: Glyph, input: Option<KeyEvent>, gw: int, gh: int, cs: seq<Glyph>, checkDir: CheckDir)
    ensures input.None? ==> Next(g, input, gw, gh, cs, checkDir) == (MoveableEntity.Wrap(g.x, gw), MoveableEntity.Wrap(g.y, gh))
    ensures cs == [] ==> Next(g, input, gw, gh, cs, checkDir) == MoveableEntity.Moved(g.x, g.y, input, gw, gh)
  {
  }

  class Mover {
    const entity: Entity
    var collidables: seq<Entity>

    /** NewMoveable: a sprite entity with no collidables. */
    constructor (x: int, y: int, sprite: Rune)
      ensures fresh(entity) && entity.View() == Glyph(x, y, sprite)
      ensures entity.scene == null && entity.game == null && collidables == []
    {
      entity := new Entity.WithSprite(x, y, sprite);
      collidables := [];
    }

    method SetCollidables(collidables: seq<Entity>)
      modifies this`collidables
      ensures this.collidables == collidables
    {
      this.collidables := collidables;
    }

    /** The screen wrap of Update, one axis after the other. */
    method WrapOnScreen(gw: int, gh: int)
      modifies entity`x, entity`y
      ensures entity.View() == old(entity.View()).(x := MoveableEntity.Wrap(old(entity.x), gw), y := MoveableEntity.Wrap(old(entity.y), gh))
    {
      if entity.x >= gw {
        entity.SetPosition(0, entity.y);
      } else if entity.x < 0 {
        entity.SetPosition(gw - 1, entity.y);
      }
      if entity.y >= gh {
        entity.SetPosition(entity.x, 0);
      } else if entity.y < 0 {
        entity.SetPosition(entity.x, gh - 1);
      }
    }

    /** The collision scan: stops at the first collidable that blocks the move. */
    method FirstBlock(me: Glyph, d: (int, int), checkDir: CheckDir) returns (collided: bool, at: int)
      ensures collided <==> Blocked(me, d, Views(collidables), checkDir)
      ensures collided ==> 0 <= at < |collidables| && Blocks(me, d, collidables[at].View(), checkDir)
                           && forall i :: 0 <= i < at ==> !Blocks(me, d, collidables[i].View(), checkDir)
    {
      collided, at := false, 0;
      while at < |collidables|
        invariant 0 <= at <= |collidables|
        invariant forall i :: 0 <= i < at ==> !Blocks(me, d, collidables[i].View(), checkDir)
      {
        if Blocks(me, d, collidables[at].View(), checkDir) {
          collided := true;
          return;
        }
        at := at + 1;
      }
    }

    /** Update: wrap on each axis, then take the arrow step unless a collidable blocks it. */
    method Update(checkDir: CheckDir)
      requires entity.game != null
      requires entity !in collidables
      modifies entity`x, entity`y
      ensures (entity.x, entity.y)
           == Next(old(entity.View()), entity.game.input, entity.game.width, entity.game.height, old(Views(collidables)), checkDir)
    {
      var game := entity.game;
      var input := game.input;
      var gw, gh := game.width, game.height;
      ghost var others := Views(collidables);
      WrapOnScreen(gw, gh);
      assert Views(collidables) == others;
      if input.Some? {
        var d := MoveableEntity.ArrowDelta(input);
        var collided, _ := FirstBlock(entity.View(), d, checkDir);
        if !collided {
          entity.SetPosition(entity.x + d.0, entity.y + d.1);
        }
      }
    }
  }

  // ---------------------------------------------------------------------
  // The scene and its two states
  // ---------------------------------------------------------------------

  /** What one Update does to the manager: a lazy entry and tick, then a toggle on 'p'. */
  function Toggled(p: Phase): Phase
  {
    if p == Running then Paused else Running
  }

  function NextMachine(m: Machine<Phase>, input: Option<KeyEvent>): (m': Machine<Phase>)
    ensures m'.current.Some? && m'.default == m.default
  {
    var m1 := Step(m).0;
    if Pressed(input, 'p') then Change(m1, Toggled(m1.current.value)).0 else m1
  }

  /**
   * 'p' toggles between running and paused, anything else changes nothing;
   * the first Update enters the default (running) state before its tick, so
   * a 'p' on the very first frame pauses.
   */
  lemma {:induction false} PressToggles(m: Machine<Phase>, input: Option<KeyEvent>)
    requires m.current.Some?
    ensures Pressed(input, 'p') ==> NextMachine(m, input).current == Some(Toggled(m.current.value))
    ensures Pressed(input, 'p') ==> NextMachine(m, input).previous == m.current.value
    ensures !Pressed(input, 'p') ==> NextMachine(m, input) == m
  {
  }

  lemma FirstFrame(input: Option<KeyEvent>)
    ensures NextMachine(Fresh(Running), input).current == Some(if Pressed(input, 'p') then Paused else Running)
  {
  }

  /** Two presses of 'p' restore the phase. */
  lemma {:induction false} PressTwice(m: Machine<Phase>, input: Option<KeyEvent>)
    requires m.current.Some? && Pressed(input, 'p')
    ensures NextMachine(NextMachine(m, input), input).current == m.current
  {
    PressToggles(m, input);
    PressToggles(NextMachine(m, input), input);
  }

  class PauseScene {
    const scene: Scene
    const manager: StateManager<Phase>
    var collidables: seq<Entity>
    var player: Mover?
    var pauseText: Text?

    /** NewCustomScene: the manager's default (and first previous) state is the running state. */
    constructor (game: Game?, fg: Color, bg: Color)
      ensures fresh(scene) && scene.game == game && scene.entities == [] && scene.foreground == fg && scene.background == bg
      ensures fresh(manager) && manager.View() == Fresh(Running)
      ensures collidables == [] && player == null && pauseText == null
      ensures Shown()
    {
      scene := new Scene.Custom(game, fg, bg);
      manager := new StateManager(Running);
      collidables := [];
      player := null;
      pauseText := null;
    }

    /** The "PAUSED" text is in the scene exactly once while paused, and not at all otherwise. */
    ghost predicate Shown()
      reads this, manager, scene
    {
      if pauseText == null then manager.currentState != Some(Paused)
      else Count(scene.entities, Group(pauseText.group)) == if manager.currentState == Some(Paused) then 1 else 0
    }

    /**
     * Setup: the 25 box entities, then the player '@' at (2, 2), whose
     * collidables are exactly those entities, then the help text at (0, 0).
     */
    method Setup() returns (help: Text)
      requires Shown()
      modifies this`collidables, this`player, scene`entities
      ensures fresh(help) && help.text == "Press ESC to quit" && help.group.base.View() == Glyph(0, 0, NoGlyph)
      ensures |collidables| == 25 && Views(collidables) == BoxGlyphs()
      ensures forall i :: 0 <= i < 25 ==> fresh(collidables[i])
      ensures player != null && fresh(player) && player.entity.View() == Glyph(2, 2, '@' as int)
      ensures player.collidables == collidables && player.entity !in collidables && player.entity.game == scene.game
      ensures scene.entities == old(scene.entities) + Singles(collidables) + [Single(player.entity), Group(help.group)]
      ensures Shown()
    {
      scene.Setup();
      var box := AddBox();
      ghost var boxed := scene.entities;
      AddPlayer(box);
      help := AddHelp();
      assert scene.entities == boxed + [Single(player.entity), Group(help.group)];
    }

    /** The player '@' at (2, 2), colliding with `box`, added to the scene. */
    method AddPlayer(box: seq<Entity>)
      requires Shown()
      modifies this`player, scene`entities
      ensures player != null && fresh(player) && fresh(player.entity) && player.entity.View() == Glyph(2, 2, '@' as int)
      ensures player.collidables == box && player.entity !in box && player.entity.game == scene.game
      ensures scene.entities == old(scene.entities) + [Single(player.entity)]
      ensures Views(box) == old(Views(box))
      ensures Shown()
    {
      var p := new Mover(2, 2, '@' as int);
      p.SetCollidables(box);
      player := p;
      scene.Add(Single(p.entity));
      if pauseText != null {
        CountOthers(old(scene.entities), [Single(p.entity)], Group(pauseText.group));
      }
    }

    /** The help text at (0, 0), added to the scene. */
    method AddHelp() returns (help: Text)
      requires Shown()
      modifies scene`entities
      ensures fresh(help) && help.text == "Press ESC to quit" && help.group.base.View() == Glyph(0, 0, NoGlyph)
      ensures scene.entities == old(scene.entities) + [Group(help.group)]
      ensures Views(collidables) == old(Views(collidables))
      ensures player != null ==> player.entity.View() == old(player.entity.View()) && player.entity.game == old(player.entity.game)
      ensures Shown()
    {
      help := NewLabel(0, 0, "Press ESC to quit");
      scene.Add(Group(help.group));
      if pauseText != null {
        CountOthers(old(scene.entities), [Group(help.group)], Group(pauseText.group));
      }
    }

    /** The collidables of Setup: the box's 25 entities, each added to the scene in order. */
    method AddBox() returns (box: seq<Entity>)
      requires Shown()
      modifies this`collidables, scene`entities
      ensures box == collidables && |box| == 25 && Views(box) == BoxGlyphs()
      ensures forall i :: 0 <= i < 25 ==> fresh(box[i])
      ensures scene.entities == old(scene.entities) + Singles(box)
      ensures Shown()
    {
      box := Spawn(BoxGlyphs());
      collidables := box;
      AddEach(scene, box);
      if pauseText != null {
        assert Group(pauseText.group) !in Singles(box);
        CountOthers(old(scene.entities), Singles(box), Group(pauseText.group));
      }
    }

    /** RunState.OnEnter and RunState.OnExit: nothing. */
    method RunEnter()
    {
    }

    method RunExit()
    {
    }

    /** PauseState.OnEnter: a new "PAUSED" text at half the screen size, added to the scene. */
    method PauseEnter()
      requires scene.game != null
      requires pauseText == null || Count(scene.entities, Group(pauseText.group)) == 0
      modifies this`pauseText, scene`entities
      ensures pauseText != null && fresh(pauseText) && pauseText.text == "PAUSED"
      ensures pauseText.group.base.View() == Glyph(Quo(scene.game.width, 2), Quo(scene.game.height, 2), NoGlyph)
      ensures scene.entities == old(scene.entities) + [Group(pauseText.group)]
      ensures Count(scene.entities, Group(pauseText.group)) == 1
    {
      var sx, sy := scene.game.width, scene.game.height;
      var t := NewLabel(Quo(sx, 2), Quo(sy, 2), "PAUSED");
      pauseText := t;
      assert Group(t.group) !in scene.entities;
      scene.Add(Group(t.group));
    }

    /** PauseState.OnExit: removes that text from the scene. */
    method PauseExit()
      requires pauseText != null
      modifies scene`entities
      ensures scene.entities == RemoveFirst(old(scene.entities), Group(pauseText.group))
      ensures Count(scene.entities, Group(pauseText.group)) == Count(old(scene.entities), Group(pauseText.group)) - 1
              || Count(old(scene.entities), Group(pauseText.group)) == 0
    {
      scene.Remove(Group(pauseText.group));
    }

    /** Runs the entry or exit hook of a transition. */
    method FireTransition(h: Hook<Phase>)
      requires !h.Tick? && scene.game != null
      requires h == Enter(Paused) ==> pauseText == null || Count(scene.entities, Group(pauseText.group)) == 0
      requires h == Exit(Paused) ==> pauseText != null
      modifies this`pauseText, scene`entities
      ensures h != Enter(Paused) ==> pauseText == old(pauseText)
      ensures h == Enter(Paused) ==> pauseText != null && fresh(pauseText) && Count(scene.entities, Group(pauseText.group)) == 1
      ensures h == Enter(Paused) ==> scene.entities == old(scene.entities) + [Group(pauseText.group)]
      ensures h == Exit(Paused) ==> scene.entities == RemoveFirst(old(scene.entities), Group(pauseText.group))
      ensures !h.state.Paused? ==> scene.entities == old(scene.entities)
    {
      match h
      case Enter(Running) => RunEnter();
      case Exit(Running) => RunExit();
      case Enter(Paused) => PauseEnter();
      case Exit(Paused) => PauseExit();
    }

    /** ChangeState on the manager, then the hooks it fires, in order. */
    method ChangeTo(p: Phase)
      requires scene.game != null && Shown()
      modifies manager, this`pauseText, scene`entities
      ensures manager.View() == Change(old(manager.View()), p).0
      ensures p == Paused ==> pauseText != null && fresh(pauseText)
      ensures p == Paused ==>
                scene.entities
                == (if old(manager.currentState) == Some(Paused) then RemoveFirst(old(scene.entities), Group(old(pauseText).group))
                    else old(scene.entities)) + [Group(pauseText.group)]
      ensures p == Running ==> pauseText == old(pauseText)
      ensures p == Running ==>
                scene.entities
                == if old(manager.currentState) == Some(Paused) then RemoveFirst(old(scene.entities), Group(pauseText.group))
                   else old(scene.entities)
      ensures Shown()
    {
      var hooks := manager.ChangeState(p);
      if hooks[0].Exit? {
        FireTransition(hooks[0]);
      }
      FireTransition(hooks[|hooks| - 1]);
    }

    /** RunState.Tick: the scene's own Update (the library's, which does nothing), then 'p' pauses. */
    method RunTick()
      requires scene.game != null && Shown() && manager.currentState == Some(Running)
      modifies manager, this`pauseText, scene`entities
      ensures manager.View() == if Pressed(scene.game.input, 'p') then Change(old(manager.View()), Paused).0 else old(manager.View())
      ensures !Pressed(scene.game.input, 'p') ==> scene.entities == old(scene.entities) && pauseText == old(pauseText)
      ensures Pressed(scene.game.input, 'p') ==>
                pauseText != null && fresh(pauseText) && scene.entities == old(scene.entities) + [Group(pauseText.group)]
      ensures Shown()
    {
      scene.Update();
      var input := scene.game.input;
      if input.Some? && input.value.ch == 'p' as int {
        ChangeTo(Paused);
      }
    }

    /** PauseState.Tick: no scene Update; 'p' resumes. */
    method PauseTick()
      requires scene.game != null && Shown() && manager.currentState == Some(Paused)
      modifies manager, this`pauseText, scene`entities
      ensures manager.View() == if Pressed(scene.game.input, 'p') then Change(old(manager.View()), Running).0 else old(manager.View())
      ensures !Pressed(scene.game.input, 'p') ==> scene.entities == old(scene.entities) && pauseText == old(pauseText)
      ensures Pressed(scene.game.input, 'p') ==>
                pauseText == old(pauseText) && pauseText != null && scene.entities == RemoveFirst(old(scene.entities), Group(pauseText.group))
      ensures Shown()
    {
      var input := scene.game.input;
      if input.Some? && input.value.ch == 'p' as int {
        ChangeTo(Running);
      }
    }

    /**
     * Update: the manager's Update, then the hooks it fires in order: the
     * lazy entry of the running state, then the current state's Tick.
     */
    method Update()
      requires scene.game != null && Shown() && manager.defaultState == Running
      modifies manager, this`pauseText, scene`entities
      ensures manager.View() == NextMachine(old(manager.View()), scene.game.input)
      ensures !Pressed(scene.game.input, 'p') ==> scene.entities == old(scene.entities) && pauseText == old(pauseText)
      ensures Pressed(scene.game.input, 'p') && Step(old(manager.View())).0.current == Some(Running) ==>
                pauseText != null && fresh(pauseText) && scene.entities == old(scene.entities) + [Group(pauseText.group)]
      ensures Pressed(scene.game.input, 'p') && Step(old(manager.View())).0.current == Some(Paused) ==>
                pauseText == old(pauseText) && pauseText != null && scene.entities == RemoveFirst(old(scene.entities), Group(pauseText.group))
      ensures manager.defaultState == Running && Shown()
    {
      var hooks := manager.Update();
      if |hooks| == 2 {
        FireTransition(hooks[0]);
      }
      match hooks[|hooks| - 1].state
      case Running => RunTick();
      case Paused => PauseTick();
    }

    /**
     * One pass of the game loop over this scene: the scene's Update, then
     * the Update of each of its entities, of which only the player's does
     * anything (the box and the texts keep the library's empty Update).  The
     * player moves in either phase.
     */
    method Frame(checkDir: CheckDir)
      requires Shown() && manager.defaultState == Running
      requires player != null && scene.game != null && player.entity.game == scene.game
      requires player.entity !in player.collidables
      modifies manager, this`pauseText, scene`entities, player.entity`x, player.entity`y
      ensures manager.View() == NextMachine(old(manager.View()), scene.game.input)
      ensures (player.entity.x, player.entity.y)
           == Next(old(player.entity.View()), scene.game.input, scene.game.width, scene.game.height, old(Views(player.collidables)), checkDir)
      ensures Shown()
    {
      Update();
      player.Update(checkDir);
    }

    /**
     * The frame as the pause state's comment intends it: the entities are
     * updated by the running state's Tick only, so the player stands still
     * while paused.
     */
    method FrameIntended(checkDir: CheckDir)
      requires Shown() && manager.defaultState == Running
      requires player != null && scene.game != null && player.entity.game == scene.game
      requires player.entity !in player.collidables
      modifies manager, this`pauseText, scene`entities, player.entity`x, player.entity`y
      ensures manager.View() == NextMachine(old(manager.View()), scene.game.input)
      ensures Step(old(manager.View())).0.current == Some(Running) ==>
                (player.entity.x, player.entity.y)
                == Next(old(player.entity.View()), scene.game.input, scene.game.width, scene.game.height, old(Views(player.collidables)), checkDir)
      ensures Step(old(manager.View())).0.current == Some(Paused) ==> player.entity.x == old(player.entity.x) && player.entity.y == old(player.entity.y)
      ensures Shown()
    {
      var hooks := manager.Update();
      if |hooks| == 2 {
        FireTransition(hooks[0]);
      }
      match hooks[|hooks| - 1].state
      case Running =>
        player.Update(checkDir);
        RunTick();
      case Paused =>
        PauseTick();
    }
  }

  /**
   * The frame as written lets a paused player walk: with the manager paused
   * and no 'p', the phase stays paused while a right arrow moves the player
   * from (2, 2) to (3, 2) on an 80x24 screen with nothing in the way.
   */
  lemma PausedPlayerMoves(checkDir: CheckDir)
    ensures NextMachine(Machine(Running, Running, Some(Paused)), Some(KeyEvent(KeyRight, 0))).current == Some(Paused)
    ensures Next(Glyph(2, 2, '@' as int), Some(KeyEvent(KeyRight, 0)), 80, 24, [], checkDir) == (3, 2)
  {
  }

}
