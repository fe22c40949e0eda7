/**
 * The terminus engine: entities, entity groups, text, scenes and the game
 * loop.  The tcell screen is modelled by the game's `trace`, an append-only
 * record of the screen operations issued, interleaved with markers for the
 * overridable hooks the loop dispatches (whose library versions do nothing).
 */
module Terminus {

  import opened Optional
  import opened Display
  import opened Drawing

  /** One step of the trace: a screen operation, or a dispatched hook. */
  datatype Event =
    | ScreenInit
    | ScreenFini
    | SetStyle(style: Style)
    | SetContent(cell: Cell)
    | Show
    | Clear
    | InitEntity(scene: nat, entity: nat)
    | UpdateScene(scene: nat)
    | UpdateEntity(scene: nat, entity: nat)

  /** The SetContent calls that write a list of cells, in order. */
  function Writes(cells: seq<Cell>): (events: seq<Event>)
    ensures |events| == |cells|
    ensures forall i :: 0 <= i < |cells| ==> events[i] == SetContent(cells[i])
  {
    seq(|cells|, i requires 0 <= i < |cells| => SetContent(cells[i]))
  }

  lemma WritesAppend(a: seq<Cell>, b: seq<Cell>)
    ensures Writes(a + b) == Writes(a) + Writes(b)
  {
    assert forall i :: 0 <= i < |a + b| ==> Writes(a + b)[i] == (Writes(a) + Writes(b))[i];
  }

  // ---------------------------------------------------------------------
  // entity.go
  // ---------------------------------------------------------------------

  class Entity {
    var scene: Scene?
    var game: Game?
    var x: int
    var y: int
    var sprite: Rune

    /** NewEntity: a detached entity at (x, y) with no glyph. */
    constructor (x: int, y: int)
      ensures this.x == x && this.y == y && sprite == NoGlyph
      ensures scene == null && game == null
    {
      this.x := x;
      this.y := y;
      sprite := NoGlyph;
      scene := null;
      game := null;
    }

    /** NewSpriteEntity: a detached entity at (x, y) showing `sprite`. */
    constructor WithSprite(x: int, y: int, sprite: Rune)
      ensures this.x == x && this.y == y && this.sprite == sprite
      ensures scene == null && game == null
    {
      this.x := x;
      this.y := y;
      this.sprite := sprite;
      scene := null;
      game := null;
    }

    function View(): Glyph
      reads this
    {
      Glyph(x, y, sprite)
    }

    /** Draw dereferences both back-references, so it needs them set. */
    predicate Attached()
      reads this
    {
      scene != null && game != null
    }

    /** The library Init hook: does nothing. */
    method Init()
    {
    }

    /** The library Update hook: does nothing. */
    method Update()
    {
    }

    /** Draw: the cell writes, in the style of the scene the entity was last added to. */
    function Draw(): seq<Cell>
      reads this, scene`style
      requires Attached()
    {
      SpriteCells(View(), scene.style)
    }

    /** AddEntityToScene: binds both back-references, overwriting earlier ones. */
    method AddEntityToScene(s: Scene)
      modifies this`scene, this`game
      ensures scene == s && game == s.game
    {
      game := s.game;
      scene := s;
    }

    method SetX(x: int)
      modifies this`x
      ensures this.x == x
    {
      this.x := x;
    }

    method SetY(y: int)
      modifies this`y
      ensures this.y == y
    {
      this.y := y;
    }

    method SetSprite(sprite: Rune)
      modifies this`sprite
      ensures this.sprite == sprite
    {
      this.sprite := sprite;
    }

    /** SetPosition, which the examples use: sets both coordinates. */
    method SetPosition(x: int, y: int)
      modifies this`x, this`y
      ensures this.x == x && this.y == y
    {
      this.x := x;
      this.y := y;
    }
  }

  /** No element occurs twice. */
  predicate Distinct<T(==)>(s: seq<T>)
  {
    forall i, j :: 0 <= i < j < |s| ==> s[i] != s[j]
  }

  /** Snapshots of a list of entities, in order. */
  function Views(es: seq<Entity>): (gs: seq<Glyph>)
    reads es
    ensures |gs| == |es|
    ensures forall i :: 0 <= i < |es| ==> gs[i] == es[i].View()
  {
    seq(|es|, i requires 0 <= i < |es| reads es => es[i].View())
  }

  /**
   * Allocates one fresh, detached entity per glyph, in order: the entity
   * construction loop of ToEntities.
   */
  method Spawn(gs: seq<Glyph>) returns (es: seq<Entity>)
    ensures Views(es) == gs
    ensures forall i :: 0 <= i < |es| ==> fresh(es[i]) && es[i].scene == null && es[i].game == null
    ensures Distinct(es)
  {
    es := [];
    for k := 0 to |gs|
      invariant |es| == k
      invariant forall i :: 0 <= i < k ==> es[i].View() == gs[i]
      invariant forall i :: 0 <= i < k ==> fresh(es[i]) && es[i].scene == null && es[i].game == null
      invariant forall i, j :: 0 <= i < j < k ==> es[i] != es[j]
    {
      var e := new Entity.WithSprite(gs[k].x, gs[k].y, gs[k].sprite);
      es := es + [e];
    }
  }

  // ---------------------------------------------------------------------
  // entity_group.go
  // ---------------------------------------------------------------------

  /**
   * An EntityGroup.  `base` is the embedded Entity (position, back-references);
   * `entities` holds each child's own Entity, which is all the group's Draw
   * looks at (GetEntity()).  The child list is never reassigned.
   */
  class EntityGroup {
    const base: Entity
    var width: int
    var height: int
    const entities: seq<Entity>

    /** NewEntityGroup */
    constructor (x: int, y: int, width: int, height: int, entities: seq<Entity>)
      ensures fresh(base) && base.View() == Glyph(x, y, NoGlyph)
      ensures base.scene == null && base.game == null
      ensures this.width == width && this.height == height && this.entities == entities
      ensures base !in entities
    {
      base := new Entity(x, y);
      this.width := width;
      this.height := height;
      this.entities := entities;
    }

    /** The group's Init only calls the base hook, so children are not initialised. */
    method Init()
    {
      base.Init();
    }

    /** The group's Update only calls the base hook, so children are not updated. */
    method Update()
    {
      base.Update();
    }

    /** Draw: the clipped, offset children; the group's own sprite is never drawn. */
    function Draw(): seq<Cell>
      reads this, base, base.scene`style, entities
      requires base.Attached()
    {
      ClipCells(Views(entities), base.x, base.y, width, height, base.scene.style)
    }

    method SetWidth(width: int)
      modifies this`width
      ensures this.width == width
    {
      this.width := width;
    }

    method SetHeight(height: int)
      modifies this`height
      ensures this.height == height
    {
      this.height := height;
    }

    function GetDimensions(): (int, int)
      reads this
    {
      (width, height)
    }
  }

  // ---------------------------------------------------------------------
  // text.go
  // ---------------------------------------------------------------------

  /** ToEntities: one fresh child per rune of the text, laid out by Layout. */
  method ToEntities(text: string) returns (es: seq<Entity>)
    ensures Views(es) == Layout(text)
    ensures forall i :: 0 <= i < |es| ==> fresh(es[i]) && es[i].scene == null && es[i].game == null
    ensures Distinct(es)
  {
    es := Spawn(Layout(text));
  }

  /** A Text: an entity group (`group`) built from a string, and that string. */
  class Text {
    const group: EntityGroup
    var text: string

    /** NewText: a group at (x, y) of width len(text) in bytes and height 1. */
    constructor (x: int, y: int, text: string)
      ensures fresh(group) && fresh(group.base)
      ensures group.base.View() == Glyph(x, y, NoGlyph) && group.base.scene == null && group.base.game == null
      ensures group.width == ByteLen(text) && group.height == 1
      ensures Views(group.entities) == Layout(text)
      ensures forall i :: 0 <= i < |group.entities| ==> fresh(group.entities[i]) && group.entities[i].scene == null
      ensures Distinct(group.entities)
      ensures this.text == text
    {
      var es := ToEntities(text);
      group := new EntityGroup(x, y, ByteLen(text), 1, es);
      this.text := text;
    }

    /** SetText replaces the stored string only; the children are not rebuilt. */
    method SetText(newText: string)
      modifies this`text
      ensures text == newText
    {
      text := newText;
    }
  }

  // ---------------------------------------------------------------------
  // What a scene holds: an entity, or an entity group (a Text draws as its group)
  // ---------------------------------------------------------------------

  datatype EntityRef = Single(entity: Entity) | Group(group: EntityGroup)
  {
    /** The Entity that AddEntityToScene binds: the entity, or the group's embedded one. */
    function Base(): Entity
    {
      match this
      case Single(e) => e
      case Group(g) => g.base
    }

    predicate Attached()
      reads Base()
    {
      Base().Attached()
    }

    /** For a group, the group object and its children. */
    function Members(): set<object>
    {
      match this
      case Single(_) => {}
      case Group(g) => {g as object} + set e | e in g.entities :: e as object
    }

    /** The objects Draw reads whole; of the scene it reads only the style. */
    ghost function Footprint(): set<object>
    {
      {Base() as object} + Members()
    }

    function Draw(): seq<Cell>
      reads Base(), Footprint(), Base().scene`style
      requires Attached()
    {
      match this
      case Single(e) => e.Draw()
      case Group(g) =>
        assert g in Members() && forall e :: e in g.entities ==> e in Members();
        g.Draw()
    }
  }

  function Bases(rs: seq<EntityRef>): set<object>
  {
    set r | r in rs :: r.Base() as object
  }

  ghost function Footprints(rs: seq<EntityRef>): set<object>
  {
    set r, o | r in rs && o in r.Footprint() :: o
  }

  predicate AllAttached(rs: seq<EntityRef>)
    reads Bases(rs)
  {
    forall r :: r in rs ==> r.Attached()
  }

  /** The scenes the entities were last added to, whose style drawing reads. */
  function Scenes(rs: seq<EntityRef>): set<Scene>
    reads Bases(rs)
  {
    set r | r in rs && r.Base().scene != null :: r.Base().scene
  }

  /** What drawing a list of entities in order writes. */
  function Cells(rs: seq<EntityRef>): seq<Cell>
    reads Bases(rs), Footprints(rs), Scenes(rs)`style
    requires AllAttached(rs)
  {
    if rs == [] then [] else Cells(rs[..|rs| - 1]) + rs[|rs| - 1].Draw()
  }

  /** The first occurrence of `r` spliced out; the rest keep their order. */
  function RemoveFirst(rs: seq<EntityRef>, r: EntityRef): (out: seq<EntityRef>)
    ensures multiset(out) == multiset(rs) - multiset{r}
    ensures r !in rs ==> out == rs
  {
    if rs == [] then []
    else
      assert rs == [rs[0]] + rs[1..];
      if rs[0] == r then rs[1..] else [rs[0]] + RemoveFirst(rs[1..], r)
  }

  /** The position of the first occurrence of `r`. */
  function IndexOf(rs: seq<EntityRef>, r: EntityRef): (i: nat)
    requires r in rs
    ensures i < |rs| && rs[i] == r && r !in rs[..i]
  {
    if rs[0] == r then 0
    else
      var j := IndexOf(rs[1..], r);
      assert rs[..j + 1] == [rs[0]] + rs[1..][..j];
      j + 1
  }

  /**
   * Remove keeps the order of the others: the result is the list with the
   * first occurrence of `r` cut out, those before and after it in place.
   */
  lemma {:induction false} RemoveFirstSplices(rs: seq<EntityRef>, r: EntityRef)
    requires r in rs
    ensures RemoveFirst(rs, r) == rs[..IndexOf(rs, r)] + rs[IndexOf(rs, r) + 1..]
  {
    if rs[0] != r {
      RemoveFirstSplices(rs[1..], r);
      SpliceCons(rs, IndexOf(rs[1..], r), RemoveFirst(rs[1..], r));
    }
  }

  /** One element in front of a splice at j is the splice at j + 1. */
  lemma SpliceCons<T>(rs: seq<T>, j: nat, rest: seq<T>)
    requires j + 1 < |rs| && rest == rs[1..][..j] + rs[1..][j + 1..]
    ensures [rs[0]] + rest == rs[..j + 1] + rs[j + 2..]
  {
    assert rs[..j + 1] == [rs[0]] + rs[1..][..j];
    assert rs[j + 2..] == rs[1..][j + 1..];
  }

  // ---------------------------------------------------------------------
  // scene.go
  // ---------------------------------------------------------------------

  class Scene {
    const game: Game?
    const foreground: Color
    const background: Color
    var entities: seq<EntityRef>
    var style: Style
    var redraw: bool

    /** NewScene: white on black, no entities, marked for redraw. */
    constructor (game: Game?)
      ensures this.game == game && foreground == White && background == Black
      ensures entities == [] && style == DefaultStyle && redraw
    {
      this.game := game;
      foreground := White;
      background := Black;
      entities := [];
      style := DefaultStyle;
      redraw := true;
    }

    /** NewSceneCustom: as NewScene with the given colours. */
    constructor Custom(game: Game?, fg: Color, bg: Color)
      ensures this.game == game && foreground == fg && background == bg
      ensures entities == [] && style == DefaultStyle && redraw
    {
      this.game := game;
      foreground := fg;
      background := bg;
      entities := [];
      style := DefaultStyle;
      redraw := true;
    }

    /** Everything Draw needs: a game with a screen, and attached entities. */
    predicate Drawable()
      reads this, game, Bases(entities)
    {
      game != null && game.screenReady && AllAttached(entities)
    }

    /** What the next Draw writes to the screen. */
    ghost function PendingDraw(): seq<Event>
      reads this, Bases(entities), Footprints(entities), Scenes(entities)`style
      requires AllAttached(entities)
    {
      if redraw then Writes(Cells(entities)) + [Show, Clear] else []
    }

    /** Init: computes the style from the colours and pushes it to the screen. */
    method Init()
      requires game != null && game.screenReady
      modifies this`style, game`trace
      ensures style == Styled(foreground, background)
      ensures game.trace == old(game.trace) + [SetStyle(style)]
    {
      var screenStyle := Styled(foreground, background);
      game.trace := game.trace + [SetStyle(screenStyle)];
      style := screenStyle;
    }

    /** The library Update hook: does nothing. */
    method Update()
    {
    }

    /**
     * Draw: when redraw is set, the writes of every entity in order, then
     * Show and Clear, and redraw is cleared; otherwise no screen operation at
     * all.  The operations are returned for the game to append to its screen
     * trace.
     */
    method Draw() returns (screen: seq<Event>)
      requires Drawable()
      modifies this`redraw
      ensures screen == old(PendingDraw())
      ensures ScreenFini !in screen
      ensures !redraw && Drawable() && Cells(entities) == old(Cells(entities))
    {
      SceneNotInFootprints(this, entities);
      if !redraw {
        return [];
      }
      var drawn: seq<Cell> := [];
      var k := 0;
      while k < |entities|
        invariant 0 <= k <= |entities|
        invariant drawn == Cells(entities[..k])
      {
        assert entities[..k + 1][..k] == entities[..k];
        drawn := drawn + entities[k].Draw();
        k := k + 1;
      }
      assert entities[..k] == entities;
      screen := Writes(drawn) + [Show, Clear];
      redraw := false;
    }

    /** Add: binds the entity's back-references and appends it; redraw is untouched. */
    method Add(r: EntityRef)
      modifies this`entities, r.Base()`scene, r.Base()`game
      ensures entities == old(entities) + [r]
      ensures r.Base().scene == this && r.Base().game == game
    {
      r.Base().AddEntityToScene(this);
      entities := entities + [r];
    }

    /** Remove (used by the examples): splices out the first occurrence of `r`. */
    method Remove(r: EntityRef)
      modifies this`entities
      ensures entities == RemoveFirst(old(entities), r)
    {
      entities := RemoveFirst(entities, r);
    }

    /**
     * SetRedraw as written: a value receiver, so the assignment lands on a
     * copy of the scene and this scene's flag is unchanged.
     */
    method SetRedraw(redraw: bool)
      ensures this.redraw == old(this.redraw)
    {
    }

    /** SetRedraw as its comment describes it: the flag of this scene is set. */
    method SetRedrawIntended(redraw: bool)
      modifies this`redraw
      ensures this.redraw == redraw
      ensures old(Drawable()) ==> Drawable() && Cells(entities) == old(Cells(entities))
    {
      SceneNotInFootprints(this, entities);
      this.redraw := redraw;
    }

    /** The base Setup the example scenes call first: adds nothing. */
    method Setup()
    {
    }
  }

  /**
   * With SetRedraw as written, a request to redraw a scene that has just
   * been drawn is lost: the next Draw writes nothing, not even Show and Clear.
   */
  method RedrawAfterDraw(s: Scene) returns (first: seq<Event>, second: seq<Event>)
    requires s.Drawable()
    modifies s`redraw
    ensures first == old(s.PendingDraw())
    ensures second == [] && !s.redraw
  {
    first := s.Draw();
    s.SetRedraw(true);
    second := s.Draw();
  }

  /** With SetRedraw as its comment intends, a scene drawn and asked to redraw is drawn and shown again. */
  method RedrawAfterDrawIntended(s: Scene) returns (first: seq<Event>, second: seq<Event>)
    requires s.Drawable()
    modifies s`redraw
    ensures first == old(s.PendingDraw())
    ensures second == Writes(Cells(s.entities)) + [Show, Clear] && !s.redraw
    ensures old(s.redraw) ==> second == first
  {
    ghost var cells := Cells(s.entities);
    first := s.Draw();
    assert first == if old(s.redraw) then Writes(cells) + [Show, Clear] else [];
    s.SetRedrawIntended(true);
    second := s.Draw();
    assert second == Writes(cells) + [Show, Clear];
  }

  // ---------------------------------------------------------------------
  // What the examples do with a scene's entity list
  // ---------------------------------------------------------------------

  /** The entities of a list, each as a scene entry of its own. */
  function Singles(es: seq<Entity>): (rs: seq<EntityRef>)
    ensures |rs| == |es| && forall i :: 0 <= i < |es| ==> rs[i] == Single(es[i])
  {
    seq(|es|, i requires 0 <= i < |es| => Single(es[i]))
  }

  /** How often an entry occurs in a scene's entity list. */
  function Count(rs: seq<EntityRef>, r: EntityRef): nat
  {
    multiset(rs)[r]
  }

  /** Appending other entries does not change how often an entry occurs. */
  lemma CountOthers(rs: seq<EntityRef>, more: seq<EntityRef>, r: EntityRef)
    requires r !in more
    ensures Count(rs + more, r) == Count(rs, r)
  {
  }

  /** Remove called once per entry of `xs`, in order. */
  function RemoveEach(rs: seq<EntityRef>, xs: seq<EntityRef>): seq<EntityRef>
    decreases |xs|
  {
    if xs == [] then rs else RemoveEach(RemoveFirst(rs, xs[0]), xs[1..])
  }

  /** Removing each entry of `xs` takes away exactly the occurrences of `xs`, where present. */
  lemma {:induction false} RemoveEachMultiset(rs: seq<EntityRef>, xs: seq<EntityRef>)
    ensures multiset(RemoveEach(rs, xs)) == multiset(rs) - multiset(xs)
    decreases |xs|
  {
    if xs != [] {
      var x, ys := xs[0], xs[1..];
      calc {
        multiset(RemoveEach(rs, xs));
        multiset(RemoveEach(RemoveFirst(rs, x), ys));
        { RemoveEachMultiset(RemoveFirst(rs, x), ys); }
        multiset(RemoveFirst(rs, x)) - multiset(ys);
        (multiset(rs) - multiset{x}) - multiset(ys);
        { MultisetMinusMinus(multiset(rs), multiset{x}, multiset(ys)); }
        multiset(rs) - (multiset{x} + multiset(ys));
        { assert xs == [x] + ys; }
        multiset(rs) - multiset(xs);
      }
    }
  }

  lemma MultisetMinusMinus<T>(a: multiset<T>, b: multiset<T>, c: multiset<T>)
    ensures (a - b) - c == a - (b + c)
  {
    forall r | r in a
      ensures ((a - b) - c)[r] == (a - (b + c))[r]
    {
    }
  }

  /** An entry not in `xs` keeps its count; one in `xs` loses as many occurrences as `xs` has, down to none. */
  lemma RemoveEachCount(rs: seq<EntityRef>, xs: seq<EntityRef>, r: EntityRef)
    ensures r !in xs ==> Count(RemoveEach(rs, xs), r) == Count(rs, r)
    ensures Count(RemoveEach(rs, xs), r) == if Count(rs, r) >= Count(xs, r) then Count(rs, r) - Count(xs, r) else 0
  {
    RemoveEachMultiset(rs, xs);
  }

  lemma {:induction false} RemoveEachAppend(rs: seq<EntityRef>, xs: seq<EntityRef>, x: EntityRef)
    ensures RemoveEach(rs, xs + [x]) == RemoveFirst(RemoveEach(rs, xs), x)
    decreases |xs|
  {
    if xs == [] {
      assert [x][1..] == [];
    } else {
      assert (xs + [x])[0] == xs[0] && (xs + [x])[1..] == xs[1..] + [x];
      RemoveEachAppend(RemoveFirst(rs, xs[0]), xs[1..], x);
    }
  }

  /** A new, detached text; callers that use only its position and string see this much of NewText. */
  method NewLabel(x: int, y: int, text: string) returns (t: Text)
    ensures fresh(t) && fresh(t.group) && fresh(t.group.base) && t.text == text
    ensures t.group.base.View() == Glyph(x, y, NoGlyph) && t.group.base.scene == null && t.group.base.game == null
  {
    t := new Text(x, y, text);
  }

  /** NewLabel for callers that also read the text's width (GetDimensions). */
  method NewMeasuredLabel(x: int, y: int, text: string) returns (t: Text)
    ensures fresh(t) && fresh(t.group) && fresh(t.group.base) && t.text == text && t.group.width == ByteLen(text)
    ensures t.group.base.View() == Glyph(x, y, NoGlyph) && t.group.base.scene == null && t.group.base.game == null
  {
    t := new Text(x, y, text);
  }

  /** Add called once per entity, in order, as the examples' setup loops do. */
  method AddEach(scene: Scene, es: seq<Entity>)
    modifies scene`entities, es
    ensures scene.entities == old(scene.entities) + Singles(es)
    ensures Views(es) == old(Views(es))
  {
    ghost var views := Views(es);
    for k := 0 to |es|
      invariant scene.entities == old(scene.entities) + Singles(es[..k])
      invariant Views(es) == views
    {
      assert es[..k + 1] == es[..k] + [es[k]];
      scene.Add(Single(es[k]));
    }
    assert es[..|es|] == es;
  }

  /** Remove called once per entity, in order, as the examples' exit hooks do. */
  method RemoveEachOf(scene: Scene, es: seq<Entity>)
    modifies scene`entities
    ensures scene.entities == RemoveEach(old(scene.entities), Singles(es))
  {
    ghost var rs := Singles(es);
    for k := 0 to |es|
      invariant scene.entities == RemoveEach(old(scene.entities), rs[..k])
    {
      assert rs[..k + 1] == rs[..k] + [Single(es[k])];
      RemoveEachAppend(old(scene.entities), rs[..k], Single(es[k]));
      scene.Remove(Single(es[k]));
    }
    assert rs[..|es|] == rs;
  }

  // ---------------------------------------------------------------------
  // game.go
  // ---------------------------------------------------------------------

  /** The index NextScene moves to: one up, unless already at the last scene. */
  function NextIndex(i: int, n: int): (j: int)
    requires 0 <= i < n
    ensures 0 <= j < n
    ensures j == i + 1 || (j == i && i == n - 1)
  {
    if i < n - 1 then i + 1 else i
  }

  /** The index PrevScene moves to: one down, unless already at the first scene. */
  function PrevIndex(i: int, n: int): (j: int)
    requires 0 <= i < n
    ensures 0 <= j < n
    ensures j == i - 1 || (j == i && i == 0)
  {
    if i > 0 then i - 1 else i
  }

  /** A frame's input ends the loop when it is a key event for the exit key. */
  predicate IsExit(input: Option<KeyEvent>, exitKey: Key)
  {
    input.Some? && input.value.key == exitKey
  }

  /** The Init hooks of the first n entities of a scene, in order. */
  function InitCalls(scene: nat, n: nat): (calls: seq<Event>)
    ensures |calls| == n
    ensures forall k :: 0 <= k < n ==> calls[k] == InitEntity(scene, k)
  {
    seq(n, k requires 0 <= k < n => InitEntity(scene, k))
  }

  /** The Update hooks of the first n entities of a scene, in order. */
  function UpdateCalls(scene: nat, n: nat): (calls: seq<Event>)
    ensures |calls| == n
    ensures forall k :: 0 <= k < n ==> calls[k] == UpdateEntity(scene, k)
  {
    seq(n, k requires 0 <= k < n => UpdateEntity(scene, k))
  }

  /** The loop that calls Init on each of a scene's n entities, in order. */
  method InitEach(scene: nat, n: nat) returns (calls: seq<Event>)
    ensures calls == InitCalls(scene, n)
  {
    calls := [];
    for k := 0 to n
      invariant calls == InitCalls(scene, k)
    {
      calls := calls + [InitEntity(scene, k)];
    }
  }

  /** How often an event occurs in a trace. */
  function Occurrences(t: seq<Event>, e: Event): nat
  {
    if t == [] then 0 else Occurrences(t[..|t| - 1], e) + (if t[|t| - 1] == e then 1 else 0)
  }

  lemma {:induction false} OccurrencesAppend(a: seq<Event>, b: seq<Event>, e: Event)
    ensures Occurrences(a + b, e) == Occurrences(a, e) + Occurrences(b, e)
  {
    if b == [] {
      assert a + b == a;
    } else {
      assert (a + b)[..|a + b| - 1] == a + b[..|b| - 1];
      OccurrencesAppend(a, b[..|b| - 1], e);
    }
  }

  /** A trace in which `e` does not occur. */
  lemma {:induction false} OccurrencesNone(t: seq<Event>, e: Event)
    requires forall i :: 0 <= i < |t| ==> t[i] != e
    ensures Occurrences(t, e) == 0
  {
    if t != [] {
      OccurrencesNone(t[..|t| - 1], e);
    }
  }

  /** A scene is never among the objects an entity's Draw reads whole. */
  lemma SceneNotInFootprints(s: Scene, rs: seq<EntityRef>)
    ensures s as object !in Bases(rs) && s as object !in Footprints(rs)
  {
  }

  /** A game is never among the objects an entity's Draw reads. */
  lemma NotInFootprints(g: Game, rs: seq<EntityRef>)
    ensures g as object !in Bases(rs) && g as object !in Footprints(rs)
  {
  }

  lemma OccurrencesLast(t: seq<Event>, e: Event)
    ensures Occurrences(t + [e], e) == Occurrences(t, e) + 1
  {
    assert (t + [e])[..|t|] == t;
  }

  /** The screen operations of one frame that does not exit, after the screen's `screen`. */
  function FrameEvents(scene: nat, n: nat, screen: seq<Event>): seq<Event>
  {
    [UpdateScene(scene)] + UpdateCalls(scene, n) + screen + [Show, Clear]
  }

  /** A frame that does not exit leaves the screen open. */
  lemma FrameKeepsOpen(t: seq<Event>, scene: nat, n: nat, screen: seq<Event>)
    requires ScreenFini !in screen
    ensures Occurrences(t + FrameEvents(scene, n, screen), ScreenFini) == Occurrences(t, ScreenFini)
  {
    var added := FrameEvents(scene, n, screen);
    assert forall i :: 0 <= i < |added| ==> added[i] != ScreenFini;
    OccurrencesNone(added, ScreenFini);
    OccurrencesAppend(t, added, ScreenFini);
  }

  class Game {
    var screenReady: bool
    var width: int
    var height: int
    var scenes: seq<Scene>
    var sceneIndex: int
    var exitKey: Key
    var input: Option<KeyEvent>
    var fps: real
    var trace: seq<Event>

    /** NewGame: every field at its zero value. */
    constructor ()
      ensures !screenReady && scenes == [] && sceneIndex == 0 && fps == 0.0 && input == None
      ensures trace == []
    {
      screenReady := false;
      width, height := 0, 0;
      scenes := [];
      sceneIndex := 0;
      exitKey := KeyOther(0);
      input := None;
      fps := 0.0;
      trace := [];
    }

    /** The state Init establishes and every later operation keeps. */
    ghost predicate Valid()
      reads this, scenes
    {
      screenReady && 0 <= sceneIndex < |scenes| && forall s :: s in scenes ==> s.game == this
    }

    /**
     * Init: exit key Esc, fps 60 only if unset, index 0, screen opened, then
     * the first scene's Init and each of its entities' Init, in order.
     */
    method Init(scenes: seq<Scene>)
      requires |scenes| > 0
      requires forall s :: s in scenes ==> s.game == this
      modifies this, (scenes[0] as Scene)`style
      ensures Valid() && this.scenes == scenes && sceneIndex == 0
      ensures exitKey == KeyEsc
      ensures fps == if old(fps) == 0.0 then 60.0 else old(fps)
      ensures scenes[0].style == Styled(scenes[0].foreground, scenes[0].background)
      ensures trace == old(trace) + [ScreenInit, SetStyle(scenes[0].style)] + InitCalls(0, |scenes[0].entities|)
      ensures input == old(input) && width == old(width) && height == old(height)
    {
      exitKey := KeyEsc;
      screenReady := true;
      sceneIndex := 0;
      this.scenes := scenes;
      if fps == 0.0 {
        fps := 60.0;
      }
      trace := trace + [ScreenInit];
      InitScene();
    }

    /** The end of Init: the current scene's Init, then each of its entities' Init, in order. */
    method InitScene()
      requires screenReady && 0 <= sceneIndex < |scenes| && scenes[sceneIndex].game == this
      modifies this`trace, (scenes[sceneIndex] as Scene)`style
      ensures scenes[sceneIndex].style == Styled(scenes[sceneIndex].foreground, scenes[sceneIndex].background)
      ensures trace == old(trace) + [SetStyle(scenes[sceneIndex].style)] + InitCalls(sceneIndex, |scenes[sceneIndex].entities|)
    {
      var scene := scenes[sceneIndex];
      scene.Init();
      var calls := InitEach(sceneIndex, |scene.entities|);
      trace := trace + calls;
    }

    /**
     * One pass of the game loop.  The exit key closes the screen and ends the
     * loop before anything else; otherwise the current scene is updated and
     * drawn.
     */
    method Frame(pending: Option<KeyEvent>) returns (exit: bool)
      requires Valid() && scenes[sceneIndex].Drawable()
      modifies this`input, this`trace, (scenes[sceneIndex] as Scene)`redraw
      ensures Valid() && scenes[sceneIndex].Drawable()
      ensures input == pending
      ensures exit <==> IsExit(pending, exitKey)
      ensures exit ==> trace == old(trace) + [ScreenFini] && scenes[sceneIndex].redraw == old(scenes[sceneIndex].redraw)
      ensures !exit ==> !scenes[sceneIndex].redraw
      ensures !exit ==>
                trace == old(trace) + FrameEvents(sceneIndex, |scenes[sceneIndex].entities|, old(scenes[sceneIndex].PendingDraw()))
      ensures Occurrences(trace, ScreenFini) == Occurrences(old(trace), ScreenFini) + (if exit then 1 else 0)
    {
      var scene := scenes[sceneIndex];
      NotInFootprints(this, scene.entities);
      ghost var pd := scene.PendingDraw();
      // handleInput: the pending key event if there is one, otherwise none
      input := pending;
      assert scene.PendingDraw() == pd;
      if IsExit(input, exitKey) {
        OccurrencesLast(trace, ScreenFini);
        trace := trace + [ScreenFini];
        return true;
      }
      UpdateAndDraw();
      return false;
    }

    /**
     * The rest of a frame: the scene's Update, then each entity's Update in
     * order, then the scene's Draw, then the ticker's Show and Clear.
     */
    method UpdateAndDraw()
      requires Valid() && scenes[sceneIndex].Drawable()
      modifies this`trace, (scenes[sceneIndex] as Scene)`redraw
      ensures Valid() && scenes[sceneIndex].Drawable()
      ensures !scenes[sceneIndex].redraw
      ensures trace == old(trace) + FrameEvents(sceneIndex, |scenes[sceneIndex].entities|, old(scenes[sceneIndex].PendingDraw()))
      ensures Occurrences(trace, ScreenFini) == Occurrences(old(trace), ScreenFini)
    {
      var scene := scenes[sceneIndex];
      var entities := scene.entities;
      var calls: seq<Event> := [];
      for k := 0 to |entities|
        invariant calls == UpdateCalls(sceneIndex, k)
      {
        calls := calls + [UpdateEntity(sceneIndex, k)];
      }
      var screen := scene.Draw();
      FrameKeepsOpen(trace, sceneIndex, |entities|, screen);
      trace := trace + ([UpdateScene(sceneIndex)] + calls + screen + [Show, Clear]);
    }

    /**
     * Start: sets the screen size, then runs frames on the given inputs until
     * one carries the exit key.  Returns the number of frames run and whether
     * the loop ended on the exit key; the screen is closed exactly once if so.
     */
    method Start(size: (int, int), inputs: seq<Option<KeyEvent>>) returns (frames: nat, exited: bool)
      requires Valid() && scenes[sceneIndex].Drawable()
      modifies this`width, this`height, this`input, this`trace, (scenes[sceneIndex] as Scene)`redraw
      ensures Valid()
      ensures (width, height) == size
      ensures frames <= |inputs|
      ensures exited <==> exists k :: 0 <= k < |inputs| && IsExit(inputs[k], exitKey)
      ensures exited ==> 0 < frames && IsExit(inputs[frames - 1], exitKey)
      ensures forall k :: 0 <= k < frames - 1 || (!exited && 0 <= k < frames) ==> !IsExit(inputs[k], exitKey)
      ensures !exited ==> frames == |inputs|
      ensures Occurrences(trace, ScreenFini) == Occurrences(old(trace), ScreenFini) + (if exited then 1 else 0)
    {
      width, height := size.0, size.1;
      frames, exited := 0, false;
      while frames < |inputs| && !exited
        invariant Valid() && scenes[sceneIndex].Drawable()
        invariant sceneIndex == old(sceneIndex) && scenes == old(scenes) && exitKey == old(exitKey)
        invariant (width, height) == size
        invariant frames <= |inputs|
        invariant exited ==> 0 < frames && IsExit(inputs[frames - 1], exitKey)
        invariant forall k :: 0 <= k < frames - 1 || (!exited && 0 <= k < frames) ==> !IsExit(inputs[k], exitKey)
        invariant Occurrences(trace, ScreenFini) == Occurrences(old(trace), ScreenFini) + (if exited then 1 else 0)
      {
        exited := Frame(inputs[frames]);
        frames := frames + 1;
      }
    }

    /** NextScene: one scene forward and that scene's Init, unless at the last scene. */
    method NextScene()
      requires Valid()
      modifies this`sceneIndex, this`trace, (scenes[NextIndex(sceneIndex, |scenes|)] as Scene)`style
      ensures Valid()
      ensures sceneIndex == NextIndex(old(sceneIndex), |scenes|)
      ensures sceneIndex != old(sceneIndex) ==>
                scenes[sceneIndex].style == Styled(scenes[sceneIndex].foreground, scenes[sceneIndex].background)
                && trace == old(trace) + [SetStyle(scenes[sceneIndex].style)]
      ensures sceneIndex == old(sceneIndex) ==> trace == old(trace)
    {
      if sceneIndex < |scenes| - 1 {
        sceneIndex := sceneIndex + 1;
        scenes[sceneIndex].Init();
      }
    }

    /** PrevScene: one scene back and that scene's Init, unless at the first scene. */
    method PrevScene()
      requires Valid()
      modifies this`sceneIndex, this`trace, (scenes[PrevIndex(sceneIndex, |scenes|)] as Scene)`style
      ensures Valid()
      ensures sceneIndex == PrevIndex(old(sceneIndex), |scenes|)
      ensures sceneIndex != old(sceneIndex) ==>
                scenes[sceneIndex].style == Styled(scenes[sceneIndex].foreground, scenes[sceneIndex].background)
                && trace == old(trace) + [SetStyle(scenes[sceneIndex].style)]
      ensures sceneIndex == old(sceneIndex) ==> trace == old(trace)
    {
      if sceneIndex > 0 {
        sceneIndex := sceneIndex - 1;
        scenes[sceneIndex].Init();
      }
    }

    method SetExitKey(exitKey: Key)
      modifies this`exitKey
      ensures this.exitKey == exitKey
    {
      this.exitKey := exitKey;
    }

    method SetFPS(fps: real)
      modifies this`fps
      ensures this.fps == fps
    {
      this.fps := fps;
    }
  }
}
