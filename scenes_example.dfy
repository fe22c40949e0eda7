/**
 * The scenes example: scenes that each show a title centred on the screen
 * and move to the previous scene on 'z' and to the next one on 'x'.
 */
module ScenesExample {

  import opened Optional
  import opened Display
  import opened GoOps
  import opened Drawing
  import opened Terminus

  /** A key event whose character is `c` (Input().Rune() == c). */
  predicate Pressed(input: Option<KeyEvent>, c: char)
  {
    input.Some? && input.value.ch == c as int
  }

  /** Init's placement of a tw x th title on an sw x sh screen: half the screen less half the title, truncating. */
  function Centred(sw: int, sh: int, tw: int, th: int): (int, int)
  {
    (Quo(sw, 2) - Quo(tw, 2), Quo(sh, 2) - Quo(th, 2))
  }

  /**
   * On a screen at least as large as the title, the margins on the left and
   * on the right differ by at most one cell, and so do those above and below.
   */
  lemma CentredBalanced(sw: int, sh: int, tw: int, th: int)
    requires 0 <= tw <= sw && 0 <= th <= sh
    ensures var (x, y) := Centred(sw, sh, tw, th);
            0 <= x && x + tw <= sw && -1 <= (sw - (x + tw)) - x <= 1
            && 0 <= y && y + th <= sh && -1 <= (sh - (y + th)) - y <= 1
  {
  }

  /** The navigation of Update: 'z' one scene back, 'x' one forward, both clamped at the ends. */
  function Navigated(i: int, n: int, input: Option<KeyEvent>): (j: int)
    requires 0 <= i < n
    ensures 0 <= j < n
  {
    if Pressed(input, 'z') then PrevIndex(i, n)
    else if Pressed(input, 'x') then NextIndex(i, n)
    else i
  }

  /** 'x' on the last scene and 'z' on the first change nothing; any other key or none never moves. */
  lemma NavigatedAtEnds(n: int, input: Option<KeyEvent>)
    requires n >= 1
    ensures Pressed(input, 'x') ==> Navigated(n - 1, n, input) == n - 1
    ensures Pressed(input, 'z') ==> Navigated(0, n, input) == 0
    ensures forall i :: 0 <= i < n && !Pressed(input, 'x') && !Pressed(input, 'z') ==> Navigated(i, n, input) == i
  {
  }

  /** 'x' then 'z' returns to the scene started from, unless that was the last one; 'z' then 'x' likewise from any but the first. */
  lemma NavigatedRoundTrip(i: int, n: int, x: Option<KeyEvent>, z: Option<KeyEvent>)
    requires 0 <= i < n && Pressed(x, 'x') && Pressed(z, 'z')
    ensures i < n - 1 ==> Navigated(Navigated(i, n, x), n, z) == i
    ensures i > 0 ==> Navigated(Navigated(i, n, z), n, x) == i
  {
  }

  /** The example's CustomScene: a scene and its title text. */
  class TitleScene {
    const scene: Scene
    const title: Text

    /** NewCustomScene: a scene in the given colours and a title at (0, 0), not yet added. */
    constructor (game: Game?, fg: Color, bg: Color, titleText: string)
      ensures fresh(scene) && scene.game == game && scene.foreground == fg && scene.background == bg
      ensures scene.entities == [] && scene.redraw
      ensures fresh(title) && fresh(title.group) && fresh(title.group.base) && title.text == titleText
      ensures title.group.base.View() == Glyph(0, 0, NoGlyph)
      ensures title.group.width == ByteLen(titleText) && title.group.height == 1
    {
      scene := new Scene.Custom(game, fg, bg);
      title := new Text(0, 0, titleText);
    }

    /** Setup: the base setup, then the title appended to the scene. */
    method Setup()
      modifies scene`entities, title.group.base`scene, title.group.base`game
      ensures scene.entities == old(scene.entities) + [Group(title.group)]
      ensures title.group.base.scene == scene && title.group.base.game == scene.game
    {
      scene.Setup();
      scene.Add(Group(title.group));
    }

    /** Init: the base Init (the style), then the title centred on the screen. */
    method Init()
      requires scene.game != null && scene.game.screenReady
      modifies scene`style, scene.game`trace, title.group.base`x, title.group.base`y
      ensures scene.style == Styled(scene.foreground, scene.background)
      ensures scene.game.trace == old(scene.game.trace) + [SetStyle(scene.style)]
      ensures (title.group.base.x, title.group.base.y)
              == Centred(scene.game.width, scene.game.height, title.group.width, title.group.height)
    {
      scene.Init();
      var game := scene.game;
      var screenWidth, screenHeight := game.width, game.height;
      var (textWidth, textHeight) := title.group.GetDimensions();
      title.group.base.SetPosition(Quo(screenWidth, 2) - Quo(textWidth, 2), Quo(screenHeight, 2) - Quo(textHeight, 2));
    }

    /** Update: 'z' calls PrevScene, 'x' calls NextScene, anything else nothing. */
    method Update()
      requires scene.game != null && scene.game.Valid()
      modifies scene.game`sceneIndex, scene.game`trace
      modifies (scene.game.scenes[PrevIndex(scene.game.sceneIndex, |scene.game.scenes|)] as Scene)`style
      modifies (scene.game.scenes[NextIndex(scene.game.sceneIndex, |scene.game.scenes|)] as Scene)`style
      ensures scene.game.Valid()
      ensures scene.game.sceneIndex == Navigated(old(scene.game.sceneIndex), |scene.game.scenes|, scene.game.input)
      ensures scene.game.sceneIndex != old(scene.game.sceneIndex) ==>
                var next := scene.game.scenes[scene.game.sceneIndex];
                next.style == Styled(next.foreground, next.background)
                && scene.game.trace == old(scene.game.trace) + [SetStyle(next.style)]
      ensures scene.game.sceneIndex == old(scene.game.sceneIndex) ==> scene.game.trace == old(scene.game.trace)
    {
      var game := scene.game;
      var input := game.input;
      if input.Some? {
        if 'z' as int == input.value.ch {
          game.PrevScene();
        } else if 'x' as int == input.value.ch {
          game.NextScene();
        }
      }
    }
  }
}
