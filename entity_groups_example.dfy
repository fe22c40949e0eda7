/**
 * The entity_groups example: a group that drifts one column to the right
 * every second, wrapping to column 0 at the screen's right edge, and pins
 * its first child to the local cell (5, 5).  Time is counted in whole
 * milliseconds.
 */
module EntityGroupsExample {

  import opened Display
  import opened Drawing
  import opened Terminus

  /** The group acts once the elapsed time reaches one second. */
  const Second: int := 1000

  /** The group's column after Update: one step right when the timer fires, then back to 0 at or past the screen width. */
  function Drift(x: int, fired: bool, sx: int): int
  {
    var x1 := if fired then x + 1 else x;
    if x1 >= sx then 0 else x1
  }

  /** On a screen of positive width the group never ends an Update at or past the right edge. */
  lemma DriftOnScreen(x: int, fired: bool, sx: int)
    requires sx > 0
    ensures Drift(x, fired, sx) < sx
    ensures x >= 0 ==> Drift(x, fired, sx) >= 0
  {
  }

  /** From a column on the screen, a firing Update is the cyclic successor, and a waiting one stays. */
  lemma DriftCycles(x: int, sx: int)
    requires 0 <= x < sx
    ensures Drift(x, true, sx) == (x + 1) % sx
    ensures Drift(x, false, sx) == x
  {
    if x + 1 == sx {
      assert (x + 1) % sx == 0;
    } else {
      assert (x + 1) % sx == x + 1;
    }
  }

  /** The child list after a firing Update: the first child at (5, 5), the others untouched. */
  function Pinned(gs: seq<Glyph>): seq<Glyph>
    requires |gs| >= 1
  {
    gs[0 := gs[0].(x := 5, y := 5)]
  }

  /**
   * In the example's 5 x 5 group the pinned child sits on the inclusive
   * corner of the clip box, so it is still drawn, and it is the first cell
   * the group writes.
   */
  lemma PinnedChildDrawn(gs: seq<Glyph>, ox: int, oy: int, style: Style)
    requires |gs| >= 1
    ensures InClip(Pinned(gs)[0], 5, 5)
    ensures ClipCells(Pinned(gs), ox, oy, 5, 5, style)[0] == Cell(ox + 5, oy + 5, gs[0].sprite, style)
  {
  }

  /** The custom group: an entity group and the time since its last step. */
  class Drifter {
    const group: EntityGroup
    var elapsed: int

    /** NewCustomEntityGroup: wraps a group built by NewEntityGroup, whose own entity is none of its children. */
    constructor (eg: EntityGroup)
      requires eg.base !in eg.entities
      ensures group == eg && elapsed == 0
    {
      group := eg;
      elapsed := 0;
    }

    /**
     * Update: once a second the group moves one column right and its first
     * child is pinned to (5, 5), and the timer restarts; then, firing or
     * not, a group at or past the screen's width goes back to column 0.
     * The game must be known (its screen size is read), and a firing Update
     * indexes the first child.
     */
    method Update(delta: int)
      requires group.base !in group.entities && group.base.game != null
      requires elapsed + delta >= Second ==> |group.entities| >= 1
      modifies this`elapsed, group.base`x, group.base`y, group.entities
      ensures var fired := old(elapsed) + delta >= Second;
              group.base.x == Drift(old(group.base.x), fired, group.base.game.width)
              && group.base.y == old(group.base.y)
              && elapsed == (if fired then 0 else old(elapsed) + delta)
      ensures var fired := old(elapsed) + delta >= Second;
              forall j :: 0 <= j < |group.entities| ==>
                group.entities[j].View()
                == if fired && group.entities[j] == group.entities[0] then old(group.entities[j].View()).(x := 5, y := 5)
                   else old(group.entities[j].View())
      ensures old(elapsed) + delta >= Second && Distinct(group.entities) ==>
                Views(group.entities) == Pinned(old(Views(group.entities)))
      ensures old(elapsed) + delta < Second ==> Views(group.entities) == old(Views(group.entities))
    {
      var g := group.base.game;
      elapsed := elapsed + delta;
      if elapsed >= Second {
        group.base.SetPosition(group.base.x + 1, group.base.y);
        var e := group.entities[0];
        e.SetPosition(5, 5);
        elapsed := 0;
      }
      var sx := g.width;
      if group.base.x >= sx {
        group.base.SetPosition(0, group.base.y);
      }
    }
  }
}
