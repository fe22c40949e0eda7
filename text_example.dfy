/**
 * The text example: a "dancing" text whose letters bob up and down, one
 * half of them at a time, and a text whose colour pair cycles through a
 * list.  Both act once the time since their last change passes half a
 * second; the time is counted in whole milliseconds.
 */
module TextExample {

  import opened Optional
  import opened Display
  import opened Drawing
  import opened Terminus

  /** Both Updates act once the elapsed time exceeds half a second. */
  const HalfSecond: int := 500

  // ---------------------------------------------------------------------
  // The dancing text on values (dancingtext.go)
  // ---------------------------------------------------------------------

  /** Init's lift: the letters at even indices one row down, the others where they are. */
  function Lifted(gs: seq<Glyph>): seq<Glyph>
  {
    seq(|gs|, i requires 0 <= i < |gs| => if i % 2 == 0 then gs[i].(y := gs[i].y + 1) else gs[i])
  }

  /** A firing Update: the letters whose index parity is `mod` one row down, all others one row up. */
  function Danced(gs: seq<Glyph>, mod: int): seq<Glyph>
  {
    seq(|gs|, i requires 0 <= i < |gs| => gs[i].(y := if i % 2 == mod then gs[i].y + 1 else gs[i].y - 1))
  }

  /** The parity flip of a firing Update. */
  function Toggle(mod: int): (m: int)
    ensures m == 0 || m == 1
  {
    if mod == 0 then 1 else 0
  }

  /** The pose of the dance: the letters of parity `mod` on row 0, the others on row 1. */
  ghost predicate Dancing(gs: seq<Glyph>, mod: int)
  {
    forall i :: 0 <= i < |gs| ==> gs[i].y == (if i % 2 == mod then 0 else 1)
  }

  /** Neither move touches a letter's column or rune. */
  lemma MovesKeepColumns(gs: seq<Glyph>, mod: int)
    ensures |Lifted(gs)| == |gs| && |Danced(gs, mod)| == |gs|
    ensures forall i :: 0 <= i < |gs| ==>
              Lifted(gs)[i].x == gs[i].x && Lifted(gs)[i].sprite == gs[i].sprite
              && Danced(gs, mod)[i].x == gs[i].x && Danced(gs, mod)[i].sprite == gs[i].sprite
  {
  }

  /** Two firing Updates in a row put every letter back where it was. */
  lemma DanceTwice(gs: seq<Glyph>, mod: int)
    requires mod == 0 || mod == 1
    ensures Danced(Danced(gs, mod), Toggle(mod)) == gs
  {
    var twice := Danced(Danced(gs, mod), Toggle(mod));
    forall i | 0 <= i < |gs|
      ensures twice[i] == gs[i]
    {
      assert (i % 2 == mod) != (i % 2 == Toggle(mod));
    }
  }

  /** Init on a flat row of letters (as Text lays them out) starts the dance with parity 1 on row 0. */
  lemma LiftStartsDance(gs: seq<Glyph>)
    requires forall i :: 0 <= i < |gs| ==> gs[i].y == 0
    ensures Dancing(Lifted(gs), 1)
  {
  }

  /** A freshly built Text lies flat, so its Init starts the dance; the columns are the layout's. */
  lemma TextStartsDance(s: string)
    ensures |Lifted(Layout(s))| == |s| && Dancing(Lifted(Layout(s)), 1)
    ensures forall i :: 0 <= i < |s| ==> Lifted(Layout(s))[i].x == Layout(s)[i].x
  {
    forall i | 0 <= i < |Layout(s)|
      ensures Layout(s)[i].y == 0
    {
      LayoutRunes(s, i);
    }
    LiftStartsDance(Layout(s));
  }

  /** A firing Update keeps the dance: the letters swap rows and the parity flips. */
  lemma DanceKeepsPose(gs: seq<Glyph>, mod: int)
    requires (mod == 0 || mod == 1) && Dancing(gs, mod)
    ensures Dancing(Danced(gs, mod), Toggle(mod))
  {
    forall i | 0 <= i < |gs|
      ensures Danced(gs, mod)[i].y == (if i % 2 == Toggle(mod) then 0 else 1)
    {
      assert (i % 2 == mod) != (i % 2 == Toggle(mod));
    }
  }

  /**
   * While dancing, a text's letters keep inside the clip box of height 2
   * that Init sets up, so the group writes every one of them, in order.
   */
  lemma DancingAllDrawn(s: string, gs: seq<Glyph>, mod: int, ox: int, oy: int, style: Style)
    requires |gs| == |s| && Dancing(gs, mod)
    requires forall i :: 0 <= i < |gs| ==> gs[i].x == Layout(s)[i].x
    ensures ClipCells(gs, ox, oy, ByteLen(s), 2, style)
         == seq(|gs|, i requires 0 <= i < |gs| => Place(gs[i], ox, oy, style))
  {
    forall i | 0 <= i < |gs|
      ensures InClip(gs[i], ByteLen(s), 2)
    {
      LayoutFits(s, i);
    }
    ClipCellsAllVisible(gs, ox, oy, ByteLen(s), 2, style);
  }

  /** A DancingText: a Text, the time since its last move, and the parity that moves down next. */
  class DancingText {
    const text: Text
    var elapsed: int
    var mod: int
    /** The colour pair passed to SetColor, if it was called. */
    var color: Option<(Color, Color)>

    /** NewDancingText: the Text, and its colours only when exactly two are given. */
    constructor (x: int, y: int, s: string, colors: seq<Color>)
      ensures fresh(text) && fresh(text.group) && text.text == s
      ensures Views(text.group.entities) == Layout(s) && Distinct(text.group.entities)
      ensures text.group.width == ByteLen(s) && text.group.height == 1
      ensures elapsed == 0 && mod == 0
      ensures color == if |colors| == 2 then Some((colors[0], colors[1])) else None
    {
      text := new Text(x, y, s);
      elapsed := 0;
      mod := 0;
      if |colors| == 2 {
        color := Some((colors[0], colors[1]));
      } else {
        color := None;
      }
    }

    /** The parity is 0 or 1, and the letters are distinct entities. */
    ghost predicate Valid()
      reads this
    {
      (mod == 0 || mod == 1) && Distinct(text.group.entities)
    }

    /** Init: the group twice as high, the even letters one row down, parity 1. */
    method Init()
      requires Distinct(text.group.entities)
      modifies text.group`height, text.group.entities, this`mod
      ensures Valid() && mod == 1
      ensures text.group.height == 2 * old(text.group.height)
      ensures Views(text.group.entities) == Lifted(old(Views(text.group.entities)))
    {
      var (_, h) := text.group.GetDimensions();
      text.group.SetHeight(h * 2);
      var es := text.group.entities;
      ghost var before := Views(es);
      ghost var after := Lifted(before);
      for i := 0 to |es|
        invariant text.group.height == h * 2
        invariant forall j :: 0 <= j < i ==> es[j].View() == after[j]
        invariant forall j :: i <= j < |es| ==> es[j].View() == before[j]
      {
        if i % 2 == 0 {
          var te := es[i];
          te.SetPosition(te.x, te.y + 1);
        }
      }
      assert Views(es) == after;
      mod := 1;
    }

    /**
     * Update: past half a second the letters of parity `mod` move down and
     * the others up, the timer restarts and the parity flips; otherwise
     * only the time accumulates.
     */
    method Update(delta: int)
      requires Valid()
      modifies this`elapsed, this`mod, text.group.entities
      ensures Valid()
      ensures old(elapsed) + delta > HalfSecond ==>
                Views(text.group.entities) == Danced(old(Views(text.group.entities)), old(mod))
                && elapsed == 0 && mod == Toggle(old(mod))
      ensures old(elapsed) + delta <= HalfSecond ==>
                Views(text.group.entities) == old(Views(text.group.entities))
                && elapsed == old(elapsed) + delta && mod == old(mod)
    {
      elapsed := elapsed + delta;
      if elapsed > HalfSecond {
        Dance();
        elapsed := 0;
        if 0 == mod {
          mod := 1;
        } else {
          mod := 0;
        }
      }
    }

    /** The loop of a firing Update. */
    method Dance()
      requires Distinct(text.group.entities)
      modifies text.group.entities
      ensures Views(text.group.entities) == Danced(old(Views(text.group.entities)), mod)
    {
      var es := text.group.entities;
      ghost var before := Views(es);
      ghost var after := Danced(before, mod);
      for i := 0 to |es|
        invariant forall j :: 0 <= j < i ==> es[j].View() == after[j]
        invariant forall j :: i <= j < |es| ==> es[j].View() == before[j]
      {
        var te := es[i];
        if i % 2 == mod {
          te.SetPosition(te.x, te.y + 1);
        } else {
          te.SetPosition(te.x, te.y - 1);
        }
      }
    }
  }

  // ---------------------------------------------------------------------
  // The colour-cycling text (customtext.go)
  // ---------------------------------------------------------------------

  /** The colour index after a firing Update: the next one, back to 0 after the last. */
  function NextColorIndex(i: int, n: int): int
  {
    if i < n - 1 then i + 1 else 0
  }

  /** On a valid index the step is the cyclic successor. */
  lemma NextColorIndexCycles(i: int, n: int)
    requires 0 <= i < n
    ensures NextColorIndex(i, n) == (i + 1) % n
    ensures 0 <= NextColorIndex(i, n) < n
  {
    if i == n - 1 {
      assert (i + 1) % n == 0;
    } else {
      assert (i + 1) % n == i + 1;
    }
  }

  /** The colour index after k firing Updates from the start. */
  function IndexAfter(k: nat, n: int): int
  {
    if k == 0 then 0 else NextColorIndex(IndexAfter(k - 1, n), n)
  }

  /** After k firing Updates the text shows colour pair k mod n. */
  lemma {:induction false} IndexAfterCycles(k: nat, n: int)
    requires n >= 1
    ensures IndexAfter(k, n) == k % n
  {
    if k > 0 {
      IndexAfterCycles(k - 1, n);
      var r := (k - 1) % n;
      assert 0 <= r < n;
      NextColorIndexCycles(r, n);
      ModSuccessor(k - 1, n);
    }
  }

  /** (a mod n + 1) mod n is (a + 1) mod n. */
  lemma ModSuccessor(a: nat, n: int)
    requires n >= 1
    ensures ((a % n) + 1) % n == (a + 1) % n
  {
    var q, r := a / n, a % n;
    if r + 1 < n {
      ModUnique(a + 1, n, q, r + 1);
      ModUnique(r + 1, n, 0, r + 1);
    } else {
      ModUnique(a + 1, n, q + 1, 0);
      ModUnique(r + 1, n, 1, 0);
    }
  }

  /** The remainder is the only r in [0, n) with a == q * n + r. */
  lemma ModUnique(a: int, n: int, q: int, r: int)
    requires n >= 1 && 0 <= r < n && a == q * n + r
    ensures a % n == r
  {
    var d := q - a / n;
    assert d * n == a % n - r;
    if d >= 1 {
      MulAtLeast(d, n);
    } else if d <= -1 {
      MulAtLeast(-d, n);
    }
  }

  lemma MulAtLeast(d: int, n: int)
    requires d >= 1 && n >= 1
    ensures d * n >= n
  {
  }

  /** A CustomText: a Text, the time since its last change, the colour pairs and the index of the shown one. */
  class CustomText {
    const text: Text
    var elapsed: int
    const colors: seq<(Color, Color)>
    var colorIndex: int
    /** The colour pair last passed to SetColor (NewText's colours first). */
    var color: (Color, Color)

    /** NewCustomText: colour pair 0 from the start; the list must not be empty. */
    constructor (x: int, y: int, s: string, colors: seq<(Color, Color)>)
      requires |colors| >= 1
      ensures fresh(text) && text.text == s && Views(text.group.entities) == Layout(s)
      ensures this.colors == colors && colorIndex == 0 && color == colors[0] && elapsed == 0
      ensures Valid()
    {
      text := new Text(x, y, s);
      elapsed := 0;
      this.colors := colors;
      colorIndex := 0;
      color := colors[0];
    }

    /** The index stays inside the list, and the shown pair is the indexed one. */
    ghost predicate Valid()
      reads this
    {
      0 <= colorIndex < |colors| && color == colors[colorIndex]
    }

    /** Update: past half a second the next colour pair, cyclically, and the timer restarts. */
    method Update(delta: int)
      requires Valid()
      modifies this`elapsed, this`colorIndex, this`color
      ensures Valid()
      ensures old(elapsed) + delta > HalfSecond ==>
                colorIndex == NextColorIndex(old(colorIndex), |colors|) && elapsed == 0
      ensures old(elapsed) + delta <= HalfSecond ==>
                colorIndex == old(colorIndex) && color == old(color) && elapsed == old(elapsed) + delta
    {
      elapsed := elapsed + delta;
      if elapsed > HalfSecond {
        if colorIndex < |colors| - 1 {
          colorIndex := colorIndex + 1;
        } else {
          colorIndex := 0;
        }
        color := colors[colorIndex];
        elapsed := 0;
      }
    }
  }
}
