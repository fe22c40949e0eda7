/**
 * The value-level part of drawing: a snapshot of an entity (its position and
 * sprite), what a single entity and what a clipping group write to the
 * screen, and how text is laid out one child per rune.  The classes in
 * module Terminus take snapshots of their fields and call these functions.
 */
module Drawing {

  import opened Display

  /** An entity as drawing sees it: a grid position and a sprite rune. */
  datatype Glyph = Glyph(x: int, y: int, sprite: Rune)

  // ---------------------------------------------------------------------
  // A single entity (entity.go)
  // ---------------------------------------------------------------------

  /** Entity.Draw: one write at the entity's own cell, or none for NoGlyph. */
  function SpriteCells(g: Glyph, style: Style): (cells: seq<Cell>)
    ensures |cells| == (if g.sprite == NoGlyph then 0 else 1)
    ensures forall c :: c in cells ==> c == Cell(g.x, g.y, g.sprite, style)
  {
    if g.sprite != NoGlyph then [Cell(g.x, g.y, g.sprite, style)] else []
  }

  // ---------------------------------------------------------------------
  // A group of entities (entity_group.go)
  // ---------------------------------------------------------------------

  /** The group's clip box: both bounds inclusive, [0, width] x [0, height]. */
  predicate InClip(g: Glyph, width: int, height: int)
  {
    0 <= g.x <= width && 0 <= g.y <= height
  }

  /** A child written at its local position offset by the group's position. */
  function Place(g: Glyph, ox: int, oy: int, style: Style): Cell
  {
    Cell(ox + g.x, oy + g.y, g.sprite, style)
  }

  /**
   * EntityGroup.Draw: walk the children in order, skip those outside the
   * clip box, write the others offset by (ox, oy).  Every write comes from a
   * visible child; the converse is ClipCellsComplete.
   */
  function ClipCells(children: seq<Glyph>, ox: int, oy: int, width: int, height: int, style: Style): (cells: seq<Cell>)
    ensures |cells| <= |children|
    ensures forall c :: c in cells ==>
              exists i :: 0 <= i < |children| && InClip(children[i], width, height) && c == Place(children[i], ox, oy, style)
    decreases |children|
  {
    if children == [] then []
    else
      var rest := ClipCells(children[1..], ox, oy, width, height, style);
      assert forall c :: c in rest ==>
          exists i :: 1 <= i < |children| && InClip(children[i], width, height) && c == Place(children[i], ox, oy, style) by {
        forall c | c in rest
          ensures exists i :: 1 <= i < |children| && InClip(children[i], width, height) && c == Place(children[i], ox, oy, style)
        {
          var j :| 0 <= j < |children[1..]| && InClip(children[1..][j], width, height) && c == Place(children[1..][j], ox, oy, style);
          assert children[1..][j] == children[j + 1];
        }
      }
      if InClip(children[0], width, height) then [Place(children[0], ox, oy, style)] + rest else rest
  }

  /** Every child inside the clip box is written. */
  lemma {:induction false} ClipCellsComplete(children: seq<Glyph>, ox: int, oy: int, width: int, height: int, style: Style, i: int)
    requires 0 <= i < |children| && InClip(children[i], width, height)
    ensures Place(children[i], ox, oy, style) in ClipCells(children, ox, oy, width, height, style)
  {
    if i > 0 {
      assert children[1..][i - 1] == children[i];
      ClipCellsComplete(children[1..], ox, oy, width, height, style, i - 1);
    }
  }

  /**
   * Order preservation: drawing a concatenated child list writes the cells
   * of the first part, then those of the second.
   */
  lemma {:induction false} ClipCellsAppend(a: seq<Glyph>, b: seq<Glyph>, ox: int, oy: int, width: int, height: int, style: Style)
    ensures ClipCells(a + b, ox, oy, width, height, style)
         == ClipCells(a, ox, oy, width, height, style) + ClipCells(b, ox, oy, width, height, style)
  {
    if a == [] {
      assert a + b == b;
    } else {
      assert (a + b)[0] == a[0];
      assert (a + b)[1..] == a[1..] + b;
      ClipCellsAppend(a[1..], b, ox, oy, width, height, style);
    }
  }

  /** When no child is clipped, the group writes every child, in order, each at its offset cell. */
  lemma {:induction false} ClipCellsAllVisible(children: seq<Glyph>, ox: int, oy: int, width: int, height: int, style: Style)
    requires forall i :: 0 <= i < |children| ==> InClip(children[i], width, height)
    ensures ClipCells(children, ox, oy, width, height, style)
         == seq(|children|, i requires 0 <= i < |children| => Place(children[i], ox, oy, style))
  {
    if children != [] {
      ClipCellsAllVisible(children[1..], ox, oy, width, height, style);
    }
  }

  /**
   * The clip box is inclusive at its far edges: a child at local x == width
   * (or y == height) is written, one at width + 1 (or height + 1) is not.
   */
  lemma ClipEdges(width: nat, height: nat, s: Rune, ox: int, oy: int, style: Style)
    ensures ClipCells([Glyph(width, height, s)], ox, oy, width, height, style) == [Cell(ox + width, oy + height, s, style)]
    ensures ClipCells([Glyph(width + 1, 0, s)], ox, oy, width, height, style) == []
    ensures ClipCells([Glyph(0, height + 1, s)], ox, oy, width, height, style) == []
  {
  }

  /**
   * Unlike a lone entity, a group writes a visible child even when its
   * sprite is NoGlyph.
   */
  lemma BlankChildIsWritten(g: Glyph, ox: int, oy: int, width: int, height: int, style: Style)
    requires InClip(g, width, height) && g.sprite == NoGlyph
    ensures ClipCells([g], ox, oy, width, height, style) == [Place(g, ox, oy, style)]
    ensures SpriteCells(g, style) == []
  {
  }

  // ---------------------------------------------------------------------
  // Text laid out as entities (text.go)
  // ---------------------------------------------------------------------

  /** The number of bytes UTF-8 uses for a code point. */
  function Utf8Width(c: char): (n: nat)
    ensures 1 <= n <= 4
    ensures c as int < 0x80 <==> n == 1
  {
    var v := c as int;
    if v < 0x80 then 1 else if v < 0x800 then 2 else if v < 0x10000 then 3 else 4
  }

  /** Go's len(s) on a string: its length in UTF-8 bytes. */
  function ByteLen(s: string): (n: nat)
    ensures n >= |s|
    ensures n == 0 <==> s == []
  {
    if s == [] then 0 else Utf8Width(s[0]) + ByteLen(s[1..])
  }

  lemma {:induction false} ByteLenAppend(a: string, b: string)
    ensures ByteLen(a + b) == ByteLen(a) + ByteLen(b)
  {
    if a == [] {
      assert a + b == b;
    } else {
      assert (a + b)[0] == a[0];
      assert (a + b)[1..] == a[1..] + b;
      ByteLenAppend(a[1..], b);
    }
  }

  /**
   * ToEntities as a pure function: `for index, char := range text` visits
   * each rune with the byte offset at which it starts; each becomes a child
   * at (offset, 0) whose sprite is that rune.
   */
  function LayoutFrom(s: string, offset: int): (gs: seq<Glyph>)
    ensures |gs| == |s|
    ensures forall i :: 0 <= i < |s| ==> gs[i] == Glyph(offset + ByteLen(s[..i]), 0, s[i] as int)
  {
    if s == [] then []
    else
      var rest := LayoutFrom(s[1..], offset + Utf8Width(s[0]));
      assert forall i :: 1 <= i < |s| ==> ByteLen(s[..i]) == Utf8Width(s[0]) + ByteLen(s[1..][..i - 1]) by {
        forall i | 1 <= i < |s|
          ensures ByteLen(s[..i]) == Utf8Width(s[0]) + ByteLen(s[1..][..i - 1])
        {
          assert s[..i][1..] == s[1..][..i - 1];
        }
      }
      [Glyph(offset, 0, s[0] as int)] + rest
  }

  function Layout(s: string): seq<Glyph>
  {
    LayoutFrom(s, 0)
  }

  /** One child per rune, in order, on row 0, showing that rune. */
  lemma LayoutRunes(s: string, i: int)
    requires 0 <= i < |s|
    ensures |Layout(s)| == |s|
    ensures Layout(s)[i].y == 0 && Layout(s)[i].sprite == s[i] as int
    ensures Layout(s)[i].x == ByteLen(s[..i])
  {
  }

  /** For ASCII text the byte offset of a rune is its index. */
  lemma {:induction false} LayoutAscii(s: string, i: int)
    requires forall k :: 0 <= k < |s| ==> s[k] as int < 0x80
    requires 0 <= i < |s|
    ensures Layout(s)[i].x == i
  {
    AsciiByteLen(s[..i]);
  }

  lemma {:induction false} AsciiByteLen(s: string)
    requires forall k :: 0 <= k < |s| ==> s[k] as int < 0x80
    ensures ByteLen(s) == |s|
  {
    if s != [] {
      AsciiByteLen(s[1..]);
    }
  }

  /** Byte offsets strictly increase along the text, by at least the number of runes passed. */
  lemma LayoutIncreasing(s: string, i: int, j: int)
    requires 0 <= i < j < |s|
    ensures Layout(s)[i].x + (j - i) <= Layout(s)[j].x
  {
    assert s[..j] == s[..i] + s[i..j];
    ByteLenAppend(s[..i], s[i..j]);
  }

  /**
   * Every rune's bytes end within the text: its offset plus its width is at
   * most len(text).  So every child lies in the clip box [0, len(text)] x [0, 1].
   */
  lemma LayoutFits(s: string, i: int)
    requires 0 <= i < |s|
    ensures Layout(s)[i].x + Utf8Width(s[i]) <= ByteLen(s)
    ensures InClip(Layout(s)[i], ByteLen(s), 1)
  {
    ByteLenSplit(s, i);
    LayoutRunes(s, i);
  }

  /** The bytes of a text: those before a rune, the rune's, and those after it. */
  lemma {:induction false} ByteLenSplit(s: string, i: int)
    requires 0 <= i < |s|
    ensures ByteLen(s) == ByteLen(s[..i]) + Utf8Width(s[i]) + ByteLen(s[i + 1..])
  {
    if i > 0 {
      ByteLenSplit(s[1..], i - 1);
      assert s[..i][1..] == s[1..][..i - 1];
      assert s[1..][i..] == s[i + 1..];
    }
  }
}
