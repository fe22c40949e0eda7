/**
 * The moveable_entity example: an entity that wraps around the screen edges
 * and steps one cell per arrow key.  The screen size and the frame's input
 * are read from the game the entity belongs to.
 */
module MoveableEntity {

  import opened Optional
  import opened Display
  import opened GoOps
  import opened Drawing
  import opened Terminus

  /** One axis of the screen wrap: past the far edge to 0, before the near edge to size - 1. */
  function Wrap(v: int, size: int): (w: int)
    ensures size >= 1 ==> 0 <= w < size
    ensures 0 <= v < size ==> w == v
  {
    if v >= size then 0 else if v < 0 then size - 1 else v
  }

  /** The step an input asks for: one unit along the arrow's axis, none for anything else. */
  function ArrowDelta(input: Option<KeyEvent>): (d: (int, int))
    ensures (input.Some? && IsArrow(input.value.key)) <==> d != (0, 0)
    ensures d != (0, 0) ==> Abs(d.0) + Abs(d.1) == 1
  {
    if input.None? then (0, 0)
    else
      match input.value.key
      case KeyLeft => (-1, 0)
      case KeyRight => (1, 0)
      case KeyUp => (0, -1)
      case KeyDown => (0, 1)
      case _ => (0, 0)
  }

  /** Up is towards row 0. */
  lemma ArrowDirections(ch: Rune)
    ensures ArrowDelta(Some(KeyEvent(KeyLeft, ch))) == (-1, 0)
    ensures ArrowDelta(Some(KeyEvent(KeyRight, ch))) == (1, 0)
    ensures ArrowDelta(Some(KeyEvent(KeyUp, ch))) == (0, -1)
    ensures ArrowDelta(Some(KeyEvent(KeyDown, ch))) == (0, 1)
  {
  }

  /** Where Update leaves the entity: the wrap first, then the step. */
  function Moved(x: int, y: int, input: Option<KeyEvent>, gw: int, gh: int): (int, int)
  {
    var d := ArrowDelta(input);
    (Wrap(x, gw) + d.0, Wrap(y, gh) + d.1)
  }

  /**
   * Because the step follows the wrap, Update can leave the entity one cell
   * outside the screen, never more; the next Update wraps it back.
   */
  lemma MovedNearScreen(x: int, y: int, input: Option<KeyEvent>, gw: int, gh: int)
    requires gw >= 1 && gh >= 1
    ensures -1 <= Moved(x, y, input, gw, gh).0 <= gw
    ensures -1 <= Moved(x, y, input, gw, gh).1 <= gh
    ensures input.None? ==> 0 <= Moved(x, y, input, gw, gh).0 < gw && 0 <= Moved(x, y, input, gw, gh).1 < gh
  {
    var d := ArrowDelta(input);
    assert -1 <= d.0 <= 1 && -1 <= d.1 <= 1;
  }

  /** An entity already on screen moves by exactly the arrow's step. */
  lemma MovedOnScreen(x: int, y: int, input: Option<KeyEvent>, gw: int, gh: int)
    requires 0 <= x < gw && 0 <= y < gh
    ensures Moved(x, y, input, gw, gh) == (x + ArrowDelta(input).0, y + ArrowDelta(input).1)
  {
  }

  class Moveable {
    const entity: Entity

    /** NewMoveable: a sprite entity at (x, y). */
    constructor (x: int, y: int, sprite: Rune)
      ensures fresh(entity) && entity.View() == Glyph(x, y, sprite)
      ensures entity.scene == null && entity.game == null
    {
      entity := new Entity.WithSprite(x, y, sprite);
    }

    /** Update: wrap on each axis, then move one cell for an arrow key. */
    method Update()
      requires entity.game != null
      modifies entity`x, entity`y
      ensures (entity.x, entity.y) == Moved(old(entity.x), old(entity.y), entity.game.input, entity.game.width, entity.game.height)
    {
      var game := entity.game;
      var input := game.input;
      var gw, gh := game.width, game.height;
      if entity.x >= gw {
        entity.SetPosition(0, entity.y);
      } else if entity.x < 0 {
        entity.SetPosition(gw - 1, entity.y);
      }
      if entity.y >= gh {
        entity.SetPosition(entity.x, 0);
      } else if entity.y < 0 {
        entity.SetPosition(entity.x, gh - 1);
      }
      if input.Some? {
        if input.value.key == KeyLeft {
          entity.SetPosition(entity.x - 1, entity.y);
        } else if input.value.key == KeyRight {
          entity.SetPosition(entity.x + 1, entity.y);
        } else if input.value.key == KeyUp {
          entity.SetPosition(entity.x, entity.y - 1);
        } else if input.value.key == KeyDown {
          entity.SetPosition(entity.x, entity.y + 1);
        }
      }
    }
  }
}
