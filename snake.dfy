/**
 * The snake example: a scene whose state manager runs a snake game (the run
 * state) until the head leaves the screen, then shows "GAME OVER" (the end
 * state) until Enter starts a new game.  The fields of both states live in
 * the scene, which dispatches the hooks its manager returns.  Time is in
 * whole milliseconds (the source's 0.2 s speed is 200, its 0.05 s step 50),
 * and the random food positions and the Overlaps test are parameters.
 */
module Snake {

  import opened Optional
  import opened Display
  import opened GoOps
  import opened Drawing
  import opened Terminus
  import opened States

  datatype Phase = Run | End

  /** The four headings, in the order of the source's constants (Up is the zero value). */
  datatype Direction = Up | Down | Left | Right

  function Opposite(d: Direction): Direction
  {
    match d
    case Up => Down
    case Down => Up
    case Left => Right
    case Right => Left
  }

  /** The heading an arrow key asks for. */
  function ArrowDirection(k: Key): Option<Direction>
  {
    match k
    case KeyUp => Some(Up)
    case KeyDown => Some(Down)
    case KeyLeft => Some(Left)
    case KeyRight => Some(Right)
    case _ => None
  }

  /** The direction rule: an arrow turns the snake unless it points straight back. */
  function Steer(dir: Direction, input: Option<KeyEvent>): Direction
  {
    if input.None? then dir
    else
      match ArrowDirection(input.value.key)
      case Some(a) => if a == Opposite(dir) then dir else a
      case None => dir
  }

  /** One input never reverses the snake, and only an arrow can turn it. */
  lemma SteerRule(dir: Direction, input: Option<KeyEvent>)
    ensures Steer(dir, input) != Opposite(dir)
    ensures (input.None? || ArrowDirection(input.value.key).None?) ==> Steer(dir, input) == dir
    ensures input.Some? && ArrowDirection(input.value.key).Some? && ArrowDirection(input.value.key).value != Opposite(dir)
            ==> Steer(dir, input) == ArrowDirection(input.value.key).value
  {
  }

  /**
   * The rule compares with the current direction, not with the last move:
   * two presses before the next move (up, then left) reverse a snake heading
   * right.
   */
  lemma TwoPressesReverse(ch: Rune)
    ensures Steer(Steer(Right, Some(KeyEvent(KeyUp, ch))), Some(KeyEvent(KeyLeft, ch))) == Opposite(Right)
  {
  }

  /** The unit step of a heading; Up is towards row 0. */
  function Heading(d: Direction): (int, int)
  {
    match d
    case Up => (0, -1)
    case Down => (0, 1)
    case Left => (-1, 0)
    case Right => (1, 0)
  }

  /** The bounds check of Tick: strictly beyond the screen size, or negative. */
  predicate OutOfBounds(x: int, y: int, gw: int, gh: int)
  {
    x > gw || x < 0 || y > gh || y < 0
  }

  /** The far edges themselves (x == gw, y == gh) still count as inside; -1 does not. */
  lemma BoundsEdges(gw: int, gh: int)
    requires gw >= 0 && gh >= 0
    ensures !OutOfBounds(gw, gh, gw, gh) && !OutOfBounds(0, 0, gw, gh)
    ensures OutOfBounds(gw + 1, 0, gw, gh) && OutOfBounds(-1, 0, gw, gh)
    ensures OutOfBounds(0, gh + 1, gw, gh) && OutOfBounds(0, -1, gw, gh)
  {
  }

  /** The segment list after the in-place shift: the last element becomes the first. */
  function RotateRight<T>(s: seq<T>): seq<T>
    requires |s| >= 1
  {
    [s[|s| - 1]] + s[..|s| - 1]
  }

  /** The rotation keeps the length and the elements; every other element moves up one index. */
  lemma RotateRightFacts<T>(s: seq<T>)
    requires |s| >= 1
    ensures |RotateRight(s)| == |s| && multiset(RotateRight(s)) == multiset(s)
    ensures RotateRight(s)[0] == s[|s| - 1]
    ensures forall i :: 1 <= i < |s| ==> RotateRight(s)[i] == s[i - 1]
  {
    assert s == s[..|s| - 1] + [s[|s| - 1]];
  }

  /** The rotation keeps the elements distinct and keeps which values are elements. */
  lemma RotateKeeps<T>(s: seq<T>)
    requires |s| >= 1
    ensures Distinct(s) ==> Distinct(RotateRight(s))
    ensures forall e :: e in RotateRight(s) <==> e in s
  {
    RotateRightFacts(s);
    var r := RotateRight(s);
    if Distinct(s) {
      forall i, j | 0 <= i < j < |r|
        ensures r[i] != r[j]
      {
        if i == 0 {
          assert r[i] == s[|s| - 1] && r[j] == s[j - 1];
        } else {
          assert r[i] == s[i - 1] && r[j] == s[j - 1];
        }
      }
    }
    forall e
      ensures e in r <==> e in s
    {
      assert e in r <==> multiset(r)[e] > 0;
      assert e in s <==> multiset(s)[e] > 0;
    }
  }

  // ---------------------------------------------------------------------
  // Decimal text of the score (strconv.Itoa)
  // ---------------------------------------------------------------------

  function DigitChar(d: int): char
    requires 0 <= d < 10
  {
    ('0' as int + d) as char
  }

  /** The decimal digits of n, most significant first, without leading zeros. */
  function Decimal(n: nat): (s: string)
    ensures |s| >= 1 && forall i :: 0 <= i < |s| ==> '0' <= s[i] <= '9'
    decreases n
  {
    if n < 10 then [DigitChar(n)] else Decimal(n / 10) + [DigitChar(n % 10)]
  }

  function Itoa(n: int): string
  {
    if n < 0 then "-" + Decimal(-n) else Decimal(n)
  }

  /** The value of a string of decimal digits, read left to right. */
  function DigitsValue(s: string): int
    decreases |s|
  {
    if s == [] then 0 else DigitsValue(s[..|s| - 1]) * 10 + (s[|s| - 1] as int - '0' as int)
  }

  function Atoi(s: string): int
  {
    if |s| > 0 && s[0] == '-' then -DigitsValue(s[1..]) else DigitsValue(s)
  }

  lemma {:induction false} DecimalValue(n: nat)
    ensures DigitsValue(Decimal(n)) == n
    ensures Decimal(n)[0] != '0' || n == 0
    decreases n
  {
    if n >= 10 {
      DecimalValue(n / 10);
      var s := Decimal(n);
      assert s[..|s| - 1] == Decimal(n / 10);
      assert s[0] == Decimal(n / 10)[0];
    }
  }

  /** Itoa and its inverse: reading the text back gives the number. */
  lemma ItoaRoundTrip(n: int)
    ensures Atoi(Itoa(n)) == n
    ensures n >= 0 ==> |Itoa(n)| >= 1 && forall i :: 0 <= i < |Itoa(n)| ==> '0' <= Itoa(n)[i] <= '9'
  {
    if n < 0 {
      DecimalValue(-n);
      assert ("-" + Decimal(-n))[1..] == Decimal(-n);
    } else {
      DecimalValue(n);
    }
  }

  function ScoreLabel(score: int): string
  {
    "Score: " + Itoa(score)
  }

  // ---------------------------------------------------------------------
  // The run state on values
  // ---------------------------------------------------------------------

  /** The run state's fields as values: the segments' snapshots, head first, and the score text's string. */
  datatype Board = Board(body: seq<Glyph>, dir: Direction, elapsed: int, speed: int, score: int, food: Glyph, caption: string)

  /** OnEnter's snake: five segments with segment k at (5 - k, 5), the head at (5, 5). */
  function InitialBody(): (b: seq<Glyph>)
    ensures |b| == 5 && forall k :: 0 <= k < 5 ==> b[k] == Glyph(5 - k, 5, 'o' as int)
  {
    seq(5, k requires 0 <= k < 5 => Glyph(5 - k, 5, 'o' as int))
  }

  /**
   * RunState.OnEnter on values: the new snake heading right at speed 200,
   * fresh food and the text "Score: 0"; the score and the timer keep their
   * values.
   */
  function Entered(score: int, elapsed: int, food: (int, int)): Board
  {
    Board(InitialBody(), Right, elapsed, 200, score, Glyph(food.0, food.1, 'o' as int), "Score: 0")
  }

  /** The body after one move to `next`: the old tail, placed at `next`, becomes the head. */
  function Slither(body: seq<Glyph>, next: (int, int)): seq<Glyph>
    requires |body| >= 1
  {
    [Glyph(next.0, next.1, body[|body| - 1].sprite)] + body[..|body| - 1]
  }

  /** The speed rule after a meal: 50 ms faster at every multiple of 25 points, while above 50. */
  function Sped(speed: int, score: int): int
  {
    if speed > 50 && score % 25 == 0 then speed - 50 else speed
  }

  /** Eating: a segment at the tail's place, the food moved, five points, the new score text and speed. */
  function Fed(b: Board, food: (int, int)): Board
    requires |b.body| >= 1
  {
    var tail := b.body[|b.body| - 1];
    var score := b.score + 5;
    b.(body := b.body + [Glyph(tail.x, tail.y, 'o' as int)], score := score, speed := Sped(b.speed, score),
       food := b.food.(x := food.0, y := food.1), caption := ScoreLabel(score))
  }

  /** The Overlaps test of two entities is not part of this model: it is a parameter. */
  type Overlap = (Glyph, Glyph) -> bool

  /** The meal test of Tick on values: the snake eats when its head overlaps the food. */
  function FedIfOverlapping(b: Board, overlaps: Overlap, food: (int, int)): Board
    requires |b.body| >= 1
  {
    if overlaps(b.body[0], b.food) then Fed(b, food) else b
  }

  /**
   * The move of RunState.Tick on values, once the timer has run out: the
   * head advances along the direction, then the meal test.  The flag says
   * whether the new head left the screen.
   */
  function Advanced(b: Board, gw: int, gh: int, overlaps: Overlap, food: (int, int)): (Board, bool)
    requires |b.body| >= 1
  {
    var next := (b.body[0].x + Heading(b.dir).0, b.body[0].y + Heading(b.dir).1);
    (FedIfOverlapping(b.(body := Slither(b.body, next)), overlaps, food), OutOfBounds(next.0, next.1, gw, gh))
  }

  /**
   * RunState.Tick on values: the new board, and whether the move left the
   * screen (which changes to the end state; the move is made all the same).
   */
  function Ticked(b: Board, input: Option<KeyEvent>, delta: int, gw: int, gh: int, overlaps: Overlap, food: (int, int)): (Board, bool)
    requires |b.body| >= 1
  {
    var dir := Steer(b.dir, input);
    var elapsed := b.elapsed + delta;
    if elapsed < b.speed then (b.(dir := dir, elapsed := elapsed), false)
    else Advanced(b.(dir := dir, elapsed := 0), gw, gh, overlaps, food)
  }

  /**
   * The timer: below the speed nothing moves and the time accumulates;
   * otherwise the head advances one cell along the (possibly new) direction,
   * every other segment takes the place of the one before it, and the timer
   * restarts.
   */
  lemma TickedMoves(b: Board, input: Option<KeyEvent>, delta: int, gw: int, gh: int, overlaps: Overlap, food: (int, int))
    requires |b.body| >= 1
    ensures var (b', out) := Ticked(b, input, delta, gw, gh, overlaps, food);
            b'.dir == Steer(b.dir, input) && |b'.body| >= |b.body|
            && (b.elapsed + delta < b.speed ==> b'.body == b.body && b'.elapsed == b.elapsed + delta && !out && b'.score == b.score)
            && (b.elapsed + delta >= b.speed ==>
                  b'.elapsed == 0
                  && b'.body[0].x == b.body[0].x + Heading(b'.dir).0 && b'.body[0].y == b.body[0].y + Heading(b'.dir).1
                  && (forall i :: 1 <= i < |b.body| ==> b'.body[i] == b.body[i - 1])
                  && (out <==> OutOfBounds(b'.body[0].x, b'.body[0].y, gw, gh)))
  {
    var dir := Steer(b.dir, input);
    if b.elapsed + delta >= b.speed {
      var b0 := b.(dir := dir, elapsed := 0);
      var next := (b.body[0].x + Heading(dir).0, b.body[0].y + Heading(dir).1);
      var moved := b0.(body := Slither(b.body, next));
      var b' := FedIfOverlapping(moved, overlaps, food);
      assert Ticked(b, input, delta, gw, gh, overlaps, food) == (b', OutOfBounds(next.0, next.1, gw, gh));
      assert b'.body[..|moved.body|] == moved.body;
    }
  }

  /** The snake grows by exactly one segment, at the old tail's place, exactly when it eats, and then scores five. */
  lemma TickedGrows(b: Board, input: Option<KeyEvent>, delta: int, gw: int, gh: int, overlaps: Overlap, food: (int, int))
    requires |b.body| >= 1
    ensures var b' := Ticked(b, input, delta, gw, gh, overlaps, food).0;
            (|b'.body| == |b.body| + 1 <==> b'.score == b.score + 5)
            && (|b'.body| == |b.body| || |b'.body| == |b.body| + 1)
            && (b'.score == b.score || b'.score == b.score + 5)
            && (|b'.body| == |b.body| + 1 ==>
                  b'.body[|b.body|] == Glyph(b'.body[|b.body| - 1].x, b'.body[|b.body| - 1].y, 'o' as int)
                  && (b'.score % 25 == 0 ==> b'.speed == if b.speed > 50 then b.speed - 50 else b.speed))
  {
  }

  /** The score text shows the score once it does, and a tick keeps it so. */
  lemma TickedKeepsLabel(b: Board, input: Option<KeyEvent>, delta: int, gw: int, gh: int, overlaps: Overlap, food: (int, int))
    requires |b.body| >= 1 && b.caption == ScoreLabel(b.score)
    ensures Ticked(b, input, delta, gw, gh, overlaps, food).0.caption == ScoreLabel(Ticked(b, input, delta, gw, gh, overlaps, food).0.score)
  {
  }

  /** From 200, the speed only takes the values 200, 150, 100 and 50. */
  lemma TickedSpeed(b: Board, input: Option<KeyEvent>, delta: int, gw: int, gh: int, overlaps: Overlap, food: (int, int))
    requires |b.body| >= 1 && b.speed in {50, 100, 150, 200}
    ensures Ticked(b, input, delta, gw, gh, overlaps, food).0.speed in {50, 100, 150, 200}
    ensures Ticked(b, input, delta, gw, gh, overlaps, food).0.speed <= b.speed
  {
  }

  /**
   * OnEnter does not reset the score: after a game that ended at 15 points
   * the new game's text reads "Score: 0" while the score is still 15.
   */
  lemma RestartShowsStaleScore(elapsed: int, food: (int, int))
    ensures Entered(15, elapsed, food).caption == "Score: 0"
    ensures ScoreLabel(Entered(15, elapsed, food).score) == "Score: 15"
  {
    assert Decimal(15) == Decimal(1) + [DigitChar(5)];
  }

  /** With the score reset on entry the text shows the score from the start. */
  lemma EnteredFreshShowsScore(elapsed: int, food: (int, int))
    ensures Entered(0, elapsed, food).caption == ScoreLabel(Entered(0, elapsed, food).score)
  {
  }

  // ---------------------------------------------------------------------
  // The run state, the end state and the scene that owns them
  // ---------------------------------------------------------------------

  /** The scene's entities once the run state has exited and the end state entered: each segment removed, then the text appended. */
  function Ended(es: seq<EntityRef>, segs: seq<Entity>, endText: Text): seq<EntityRef>
  {
    RemoveEach(es, Singles(segs)) + [Group(endText.group)]
  }

  /** The scene's entities once the end state has exited and the run state entered: the text removed, then food, score and segments appended. */
  function Restarted(es: seq<EntityRef>, endText: Text, food: Entity, scoreText: Text, segs: seq<Entity>): seq<EntityRef>
  {
    RemoveFirst(es, Group(endText.group)) + [Single(food), Group(scoreText.group)] + Singles(segs)
  }

  /** What a meal adds to the scene: the last segment, when the snake grew past n segments. */
  function Grown(segs: seq<Entity>, n: int): seq<EntityRef>
  {
    if |segs| > n && |segs| >= 1 then [Single(segs[|segs| - 1])] else []
  }

  /** RunState: the snake's segments (head first), the food, the timer, the speed, the score and its text. */
  class RunState {
    const scene: Scene
    var snake: seq<Entity>
    var snakeLength: int
    var food: Entity?
    var speed: int
    var dir: Direction
    var elapsed: int
    var score: int
    var scoreText: Text?

    /** NewRunState: every field at its zero value. */
    constructor (scene: Scene)
      ensures this.scene == scene && snake == [] && snakeLength == 0 && food == null && scoreText == null
      ensures score == 0 && elapsed == 0 && speed == 0 && dir == Up
    {
      this.scene := scene;
      snake := [];
      snakeLength := 0;
      food := null;
      speed := 0;
      dir := Up;
      elapsed := 0;
      score := 0;
      scoreText := null;
    }

    /** The fields OnEnter sets: at least one segment, all distinct, food and score text present. */
    ghost predicate Running()
      reads this`snake, this`snakeLength, this`food, this`scoreText
    {
      |snake| >= 1 && snakeLength == |snake| && Distinct(snake) && food != null && scoreText != null && food !in snake
    }

    /** The fields as a Board. */
    ghost function Snapshot(): Board
      requires food != null && scoreText != null
      reads this, snake, food, scoreText
    {
      Board(Views(snake), dir, elapsed, speed, score, food.View(), scoreText.text)
    }

    /** OnEnter: food, the score text at (gw - 15, 0) and the five segments, added in that order. */
    method OnEnter(food1: (int, int))
      requires scene.game != null
      modifies this, scene`entities
      ensures Running() && |snake| == 5 && Snapshot() == Entered(old(score), old(elapsed), food1)
      ensures fresh(food) && fresh(scoreText) && forall i :: 0 <= i < |snake| ==> fresh(snake[i])
      ensures scoreText.group.base.View() == Glyph(scene.game.width - 15, 0, NoGlyph)
      ensures scene.entities == old(scene.entities) + [Single(food), Group(scoreText.group)] + Singles(snake)
    {
      snakeLength := 5;
      speed := 200;
      dir := Right;
      var gw := scene.game.width;
      AddFood(food1);
      AddScore(gw - 15);
      ghost var placed := scene.entities;
      AddSnake();
      assert scene.entities == placed + Singles(snake);
    }

    /** The food of OnEnter, an 'o', added to the scene. */
    method AddFood(food1: (int, int))
      modifies this`food, scene`entities
      ensures food != null && fresh(food) && food.View() == Glyph(food1.0, food1.1, 'o' as int)
      ensures scene.entities == old(scene.entities) + [Single(food)]
    {
      var f := new Entity.WithSprite(food1.0, food1.1, 'o' as int);
      food := f;
      scene.Add(Single(f));
    }

    /** The score text of OnEnter, "Score: 0" at (x, 0), added to the scene. */
    method AddScore(x: int)
      modifies this`scoreText, scene`entities
      ensures scoreText != null && fresh(scoreText) && scoreText.text == "Score: 0"
      ensures scoreText.group.base.View() == Glyph(x, 0, NoGlyph)
      ensures scene.entities == old(scene.entities) + [Group(scoreText.group)]
    {
      var st := NewLabel(x, 0, "Score: 0");
      scoreText := st;
      scene.Add(Group(st.group));
    }

    /** The five segments of OnEnter, spawned and added to the scene. */
    method AddSnake()
      modifies this`snake, scene`entities
      ensures Views(snake) == InitialBody() && forall i :: 0 <= i < |snake| ==> fresh(snake[i])
      ensures Distinct(snake)
      ensures scene.entities == old(scene.entities) + Singles(snake)
    {
      var segs := Spawn(InitialBody());
      snake := segs;
      AddEach(scene, segs);
    }

    /** OnEnter as the score text it shows evidently intends: the score starts again from 0. */
    method OnEnterIntended(food1: (int, int))
      requires scene.game != null
      modifies this, scene`entities
      ensures Running() && |snake| == 5 && Snapshot() == Entered(0, old(elapsed), food1)
      ensures Snapshot().caption == ScoreLabel(Snapshot().score)
      ensures fresh(food) && fresh(scoreText) && forall i :: 0 <= i < |snake| ==> fresh(snake[i])
      ensures scene.entities == old(scene.entities) + [Single(food), Group(scoreText.group)] + Singles(snake)
    {
      OnEnter(food1);
      score := 0;
    }

    /** OnExit: Remove for each of the snakeLength segments; the food and the score text stay. */
    method OnExit()
      requires snakeLength == |snake|
      modifies scene`entities
      ensures scene.entities == RemoveEach(old(scene.entities), Singles(snake))
      ensures food != null && food !in snake ==> Count(scene.entities, Single(food)) == Count(old(scene.entities), Single(food))
      ensures scoreText != null ==> Count(scene.entities, Group(scoreText.group)) == Count(old(scene.entities), Group(scoreText.group))
    {
      RemoveEachOf(scene, snake);
      if food != null && food !in snake {
        RemoveEachCount(old(scene.entities), Singles(snake), Single(food));
      }
      if scoreText != null {
        RemoveEachCount(old(scene.entities), Singles(snake), Group(scoreText.group));
      }
    }

    /** The direction rule of Tick, as its chain of conditions. */
    method Turn(input: Option<KeyEvent>)
      modifies this`dir
      ensures dir == Steer(old(dir), input)
    {
      if input.Some? {
        var k := input.value.key;
        if k == KeyRight && dir != Left {
          dir := Right;
        } else if k == KeyLeft && dir != Right {
          dir := Left;
        } else if k == KeyUp && dir != Down {
          dir := Up;
        } else if k == KeyDown && dir != Up {
          dir := Down;
        }
      }
    }

    /** The timer and the direction rule of Tick: the move is due once the elapsed time reaches the speed, and the timer restarts. */
    method Wait(input: Option<KeyEvent>, delta: int) returns (due: bool)
      requires Running()
      modifies this`elapsed, this`dir
      ensures Running() && due == (old(elapsed) + delta >= speed)
      ensures Snapshot() == old(Snapshot()).(dir := Steer(old(dir), input), elapsed := if due then 0 else old(elapsed) + delta)
    {
      elapsed := elapsed + delta;
      Turn(input);
      due := elapsed >= speed;
      if due {
        elapsed := 0;
      }
    }

    /** The head's next position: one cell along the direction. */
    method NextHead() returns (next: (int, int))
      requires |snake| >= 1
      ensures next == (snake[0].x + Heading(dir).0, snake[0].y + Heading(dir).1)
    {
      var nextX, nextY := snake[0].x, snake[0].y;
      if dir == Right {
        nextX := nextX + 1;
      } else if dir == Left {
        nextX := nextX - 1;
      } else if dir == Up {
        nextY := nextY - 1;
      } else if dir == Down {
        nextY := nextY + 1;
      }
      next := (nextX, nextY);
    }

    /** The in-place shift of the segment slice: each segment moves up one index and the last becomes the first. */
    method Rotate()
      requires 1 <= snakeLength == |snake|
      modifies this`snake
      ensures snake == RotateRight(old(snake))
    {
      var tmp := snake[snakeLength - 1];
      var i := snakeLength - 1;
      while i > 0
        invariant 0 <= i < snakeLength == |snake|
        invariant forall j :: 0 <= j <= i ==> snake[j] == old(snake)[j]
        invariant forall j :: i < j < snakeLength ==> snake[j] == old(snake)[j - 1]
      {
        snake := snake[i := snake[i - 1]];
        i := i - 1;
      }
      snake := snake[0 := tmp];
    }

    /** The move: the tail segment takes the next position, then the slice rotates it to the front. */
    method Slide(next: (int, int))
      requires Running()
      modifies this`snake, snake
      ensures Running() && snake == RotateRight(old(snake))
      ensures Views(snake) == Slither(old(Views(snake)), next)
      ensures Snapshot() == old(Snapshot()).(body := Slither(old(Snapshot()).body, next))
    {
      ghost var before := Views(snake);
      var tail := snake[snakeLength - 1];
      tail.SetPosition(next.0, next.1);
      assert forall i :: 0 <= i < |snake| - 1 ==> snake[i].View() == before[i];
      Rotate();
      RotateRightFacts(old(snake));
      RotateKeeps(old(snake));
    }

    /** A meal: the new tail segment, the food moved, five points, the new score text and speed. */
    method Eat(food2: (int, int))
      requires Running()
      modifies this`snake, this`snakeLength, this`score, this`speed, scene`entities, food`x, food`y, scoreText`text
      ensures Running() && Snapshot() == Fed(old(Snapshot()), food2)
      ensures snake[..|snake| - 1] == old(snake) && fresh(snake[|snake| - 1])
      ensures scene.entities == old(scene.entities) + [Single(snake[|snake| - 1])]
    {
      ghost var b := Snapshot();
      Grow();
      assert Snapshot() == b.(body := b.body + [Glyph(b.body[|b.body| - 1].x, b.body[|b.body| - 1].y, 'o' as int)]);
      Score(food2);
    }

    /** The meal test of Tick: the snake eats when its head overlaps the food. */
    method Meal(overlaps: Overlap, food2: (int, int))
      requires Running()
      modifies this`snake, this`snakeLength, this`score, this`speed, scene`entities, food`x, food`y, scoreText`text
      ensures forall i :: 0 <= i < |snake| ==> snake[i] in old(snake) || fresh(snake[i])
      ensures Running() && Snapshot() == FedIfOverlapping(old(Snapshot()), overlaps, food2)
      ensures scene.entities == old(scene.entities) + Grown(snake, old(|snake|))
    {
      if overlaps(snake[0].View(), food.View()) {
        Eat(food2);
      }
    }

    /** The shift of the segments to `next`, then the meal test. */
    method Move(next: (int, int), overlaps: Overlap, food2: (int, int))
      requires Running()
      modifies this`snake, this`snakeLength, this`score, this`speed, scene`entities, snake, food`x, food`y, scoreText`text
      ensures forall i :: 0 <= i < |snake| ==> snake[i] in old(snake) || fresh(snake[i])
      ensures Running() && Snapshot() == FedIfOverlapping(old(Snapshot()).(body := Slither(old(Snapshot()).body, next)), overlaps, food2)
      ensures scene.entities == old(scene.entities) + Grown(snake, old(|snake|))
    {
      Slide(next);
      Meal(overlaps, food2);
    }

    /** The growth step of a meal: a new 'o' segment at the tail's position, appended and added to the scene. */
    method Grow()
      requires Running()
      modifies this`snake, this`snakeLength, scene`entities
      ensures snakeLength == |snake| == old(|snake|) + 1 && snake[..|snake| - 1] == old(snake) && fresh(snake[|snake| - 1])
      ensures Running()
      ensures Views(snake) == old(Views(snake)) + [Glyph(old(snake[|snake| - 1].x), old(snake[|snake| - 1].y), 'o' as int)]
      ensures scene.entities == old(scene.entities) + [Single(snake[|snake| - 1])]
    {
      var tail := snake[snakeLength - 1];
      var seg := new Entity.WithSprite(tail.x, tail.y, 'o' as int);
      snake := snake + [seg];
      snakeLength := snakeLength + 1;
      scene.Add(Single(snake[snakeLength - 1]));
      assert snake[..|snake| - 1] == old(snake);
    }

    /** The scoring step of a meal: the food moved, five points, the new score text and speed. */
    method Score(food2: (int, int))
      requires Running()
      modifies food`x, food`y, this`score, this`speed, scoreText`text
      ensures Running() && food.View() == old(food.View()).(x := food2.0, y := food2.1)
      ensures score == old(score) + 5 && speed == Sped(old(speed), score) && scoreText.text == ScoreLabel(score)
      ensures Snapshot() == old(Snapshot()).(score := score, speed := speed, food := food.View(), caption := scoreText.text)
    {
      food.SetPosition(food2.0, food2.1);
      score := score + 5;
      scoreText.SetText(ScoreLabel(score));
      if speed > 50 && score % 25 == 0 {
        speed := speed - 50;
      }
    }
  }

  /** EndState: the "GAME OVER" text. */
  class EndState {
    const scene: Scene
    var endText: Text?

    /** NewEndState: no text yet. */
    constructor (scene: Scene)
      ensures this.scene == scene && endText == null
    {
      this.scene := scene;
      endText := null;
    }

    /** OnEnter: "GAME OVER" at the screen's centre, shifted left by half its width. */
    method OnEnter()
      requires scene.game != null
      modifies this, scene`entities
      ensures endText != null && fresh(endText) && endText.text == "GAME OVER"
      ensures endText.group.base.View() == Glyph(Quo(scene.game.width, 2) - 4, Quo(scene.game.height, 2), NoGlyph)
      ensures scene.entities == old(scene.entities) + [Group(endText.group)]
    {
      var sx, sy := scene.game.width, scene.game.height;
      var t := NewMeasuredLabel(Quo(sx, 2), Quo(sy, 2), "GAME OVER");
      endText := t;
      scene.Add(Group(t.group));
      var tw := t.group.width;
      GameOverWidth();
      t.group.base.SetPosition(t.group.base.x - Quo(tw, 2), t.group.base.y);
    }

    /** OnExit: removes that text. */
    method OnExit()
      requires endText != null
      modifies scene`entities
      ensures scene.entities == RemoveFirst(old(scene.entities), Group(endText.group))
    {
      scene.Remove(Group(endText.group));
    }
  }

  /** The example's CustomScene: a scene, its state manager and the two states, with the run state as the default. */
  class SnakeScene {
    const scene: Scene
    const manager: StateManager<Phase>
    const run: RunState
    const end: EndState

    /** NewCustomScene: NewSceneCustom, NewRunState, NewEndState, then NewStateManager(runState). */
    constructor (game: Game?, fg: Color, bg: Color)
      ensures fresh(scene) && scene.game == game && scene.entities == [] && scene.foreground == fg && scene.background == bg
      ensures fresh(manager) && manager.View() == Fresh(Run)
      ensures fresh(run) && run.scene == scene && run.snake == [] && run.food == null && run.scoreText == null
      ensures run.score == 0 && run.elapsed == 0 && run.speed == 0 && run.dir == Up && run.snakeLength == 0
      ensures fresh(end) && end.scene == scene && end.endText == null
    {
      var sc := new Scene.Custom(game, fg, bg);
      scene := sc;
      run := new RunState(sc);
      end := new EndState(sc);
      manager := new StateManager(Run);
    }

    /**
     * What the states rely on: the game is known, both states share the
     * scene, the run state is the default, and in the run state the run
     * state's fields are set.
     */
    ghost predicate Valid()
      reads manager, end, run`snake, run`snakeLength, run`food, run`scoreText
    {
      Wired() && (manager.currentState == Some(Run) ==> run.Running())
    }

    /** The part of Valid that the run state's own steps cannot disturb; in the end state its text is set. */
    ghost predicate Wired()
      reads manager, end
    {
      scene.game != null && run.scene == scene && end.scene == scene && manager.defaultState == Run
      && (manager.currentState == Some(End) ==> end.endText != null)
    }

    /** The run state's objects after a step: the segments, food and score text it held before, or new ones. */
    twostate predicate Renewed()
      reads run
    {
      (forall i :: 0 <= i < |run.snake| ==> run.snake[i] in old(run.snake) || fresh(run.snake[i]))
      && (run.food == old(run.food) || fresh(run.food))
      && (run.scoreText == old(run.scoreText) || fresh(run.scoreText))
    }

    /** Setup: the base setup, then the help text at (0, 0). */
    method Setup() returns (help: Text)
      modifies scene`entities
      ensures fresh(help) && help.text == "Press ESC to quit" && help.group.base.View() == Glyph(0, 0, NoGlyph)
      ensures scene.entities == old(scene.entities) + [Group(help.group)]
    {
      scene.Setup();
      help := NewLabel(0, 0, "Press ESC to quit");
      scene.Add(Group(help.group));
    }

    /** ChangeState(endState) from the run state: the run state's exit, then the end state's entry. */
    method ChangeToEnd()
      requires Valid() && manager.currentState == Some(Run)
      modifies manager, end, scene`entities
      ensures Valid() && manager.View() == Change(old(manager.View()), End).0
      ensures end.endText != null && fresh(end.endText)
      ensures scene.entities == Ended(old(scene.entities), run.snake, end.endText)
    {
      var hooks := manager.ChangeState(End);
      assert hooks == [Exit(Run), Enter(End)];
      run.OnExit();
      end.OnEnter();
    }

    /** ChangeState(runState) from the end state: the end state's exit, then the run state's entry. */
    method ChangeToRun(food1: (int, int))
      requires Valid() && manager.currentState == Some(End)
      modifies manager, run, scene`entities
      ensures Renewed()
      ensures Valid() && manager.View() == Change(old(manager.View()), Run).0
      ensures run.Snapshot() == Entered(old(run.score), old(run.elapsed), food1)
      ensures scene.entities == Restarted(old(scene.entities), end.endText, run.food, run.scoreText, run.snake)
    {
      var hooks := manager.ChangeState(Run);
      assert hooks == [Exit(End), Enter(Run)];
      end.OnExit();
      run.OnEnter(food1);
    }

    /**
     * RunState.Tick: the scene's own (empty) Update, the timer, the
     * direction rule, and once the timer reaches the speed the move, the
     * bounds check and the meal.
     */
    method RunTick(overlaps: Overlap, delta: int, food2: (int, int))
      requires Valid() && manager.currentState == Some(Run)
      modifies manager, run`snake, run`snakeLength, run`score, run`speed, run`elapsed, run`dir, end, scene`entities
      modifies run.snake, run.food`x, run.food`y, run.scoreText`text
      ensures forall i :: 0 <= i < |run.snake| ==> run.snake[i] in old(run.snake) || fresh(run.snake[i])
      ensures Valid() && run.Running()
      ensures run.Snapshot() == Ticked(old(run.Snapshot()), scene.game.input, delta, scene.game.width, scene.game.height, overlaps, food2).0
      ensures manager.View()
              == if Ticked(old(run.Snapshot()), scene.game.input, delta, scene.game.width, scene.game.height, overlaps, food2).1
                 then Change(old(manager.View()), End).0 else old(manager.View())
      ensures Ticked(old(run.Snapshot()), scene.game.input, delta, scene.game.width, scene.game.height, overlaps, food2).1
              ==> end.endText != null && fresh(end.endText)
      ensures scene.entities
              == (if Ticked(old(run.Snapshot()), scene.game.input, delta, scene.game.width, scene.game.height, overlaps, food2).1
                  then Ended(old(scene.entities), old(run.snake), end.endText) else old(scene.entities))
                 + Grown(run.snake, old(|run.snake|))
    {
      scene.Update();
      var due := run.Wait(scene.game.input, delta);
      if !due {
        return;
      }
      Advance(overlaps, food2);
    }

    /** The bounds check of Tick: a head off the screen changes to the end state. */
    method CheckBounds(next: (int, int))
      requires Valid() && manager.currentState == Some(Run)
      modifies manager, end, scene`entities
      ensures Wired()
      ensures manager.View() == if OutOfBounds(next.0, next.1, scene.game.width, scene.game.height)
                                then Change(old(manager.View()), End).0 else old(manager.View())
      ensures run.Running() && run.Snapshot() == old(run.Snapshot())
      ensures OutOfBounds(next.0, next.1, scene.game.width, scene.game.height) ==> end.endText != null && fresh(end.endText)
      ensures scene.entities == if OutOfBounds(next.0, next.1, scene.game.width, scene.game.height)
                                then Ended(old(scene.entities), run.snake, end.endText) else old(scene.entities)
    {
      var gw, gh := scene.game.width, scene.game.height;
      if next.0 > gw || next.0 < 0 || next.1 > gh || next.1 < 0 {
        ChangeToEnd();
      }
    }

    /** The move of Tick: the next head position, the bounds check, the shift and the meal. */
    method Advance(overlaps: Overlap, food2: (int, int))
      requires Valid() && manager.currentState == Some(Run)
      modifies manager, run`snake, run`snakeLength, run`score, run`speed, end, scene`entities
      modifies run.snake, run.food`x, run.food`y, run.scoreText`text
      ensures forall i :: 0 <= i < |run.snake| ==> run.snake[i] in old(run.snake) || fresh(run.snake[i])
      ensures Wired() && run.Running()
      ensures run.Snapshot() == Advanced(old(run.Snapshot()), scene.game.width, scene.game.height, overlaps, food2).0
      ensures manager.View()
              == if Advanced(old(run.Snapshot()), scene.game.width, scene.game.height, overlaps, food2).1
                 then Change(old(manager.View()), End).0 else old(manager.View())
      ensures Advanced(old(run.Snapshot()), scene.game.width, scene.game.height, overlaps, food2).1
              ==> end.endText != null && fresh(end.endText)
      ensures scene.entities
              == (if Advanced(old(run.Snapshot()), scene.game.width, scene.game.height, overlaps, food2).1
                  then Ended(old(scene.entities), old(run.snake), end.endText) else old(scene.entities))
                 + Grown(run.snake, old(|run.snake|))
    {
      ghost var b := run.Snapshot();
      var next := run.NextHead();
      assert next == (b.body[0].x + Heading(b.dir).0, b.body[0].y + Heading(b.dir).1);
      assert Advanced(b, scene.game.width, scene.game.height, overlaps, food2)
             == (FedIfOverlapping(b.(body := Slither(b.body, next)), overlaps, food2), OutOfBounds(next.0, next.1, scene.game.width, scene.game.height));
      CheckBounds(next);
      run.Move(next, overlaps, food2);
    }

    /** EndState.Tick: the scene is not updated; Enter starts a new game. */
    method EndTick(food1: (int, int))
      requires Valid() && manager.currentState == Some(End)
      modifies manager, run, scene`entities
      ensures Renewed()
      ensures Valid()
      ensures manager.View() == if Pressed(scene.game.input) then Change(old(manager.View()), Run).0 else old(manager.View())
      ensures Pressed(scene.game.input) ==> run.Running() && run.Snapshot() == Entered(old(run.score), old(run.elapsed), food1)
      ensures Pressed(scene.game.input) ==> scene.entities == Restarted(old(scene.entities), end.endText, run.food, run.scoreText, run.snake)
      ensures !Pressed(scene.game.input) ==> scene.entities == old(scene.entities) && run.snake == old(run.snake)
    {
      var input := scene.game.input;
      if input.Some? && input.value.key == KeyEnter {
        ChangeToRun(food1);
      }
    }

    /**
     * Update: the manager's Update, then the hooks it fires in order: the
     * lazy entry of the run state, then the current state's Tick.
     */
    method Update(overlaps: Overlap, delta: int, food1: (int, int), food2: (int, int)) returns (ghost entered: seq<Entity>)
      requires Valid()
      modifies manager, run, end, scene`entities, run.snake, run.food, run.scoreText
      ensures Renewed()
      ensures Valid() && manager.currentState.Some?
      ensures old(manager.currentState) == Some(End) ==>
                end.endText == old(end.endText) &&
                manager.View() == if Pressed(scene.game.input) then Change(old(manager.View()), Run).0 else old(manager.View())
      ensures old(manager.currentState) == Some(End) && Pressed(scene.game.input) ==>
                run.Running() && run.Snapshot() == Entered(old(run.score), old(run.elapsed), food1) &&
                scene.entities == Restarted(old(scene.entities), end.endText, run.food, run.scoreText, run.snake)
      ensures old(manager.currentState) == Some(End) && !Pressed(scene.game.input) ==> scene.entities == old(scene.entities)
      ensures old(manager.currentState) == Some(Run) ==>
                run.Running() && |old(run.snake)| >= 1 && run.food == old(run.food) && run.scoreText == old(run.scoreText) &&
                run.Snapshot() == Ticked(old(run.Snapshot()), scene.game.input, delta, scene.game.width, scene.game.height, overlaps, food2).0
      ensures old(manager.currentState) == Some(Run) && Ticked(old(run.Snapshot()), scene.game.input, delta, scene.game.width, scene.game.height, overlaps, food2).1
              ==> end.endText != null && fresh(end.endText)
      ensures old(manager.currentState) == Some(Run) ==>
                scene.entities
                == (if Ticked(old(run.Snapshot()), scene.game.input, delta, scene.game.width, scene.game.height, overlaps, food2).1
                    then Ended(old(scene.entities), old(run.snake), end.endText) else old(scene.entities))
                   + Grown(run.snake, old(|run.snake|))
      ensures old(manager.currentState) == None ==>
                run.Running() && run.Snapshot() == Ticked(Entered(old(run.score), old(run.elapsed), food1), scene.game.input, delta, scene.game.width, scene.game.height, overlaps, food2).0 &&
                |entered| == 5 && (forall i :: 0 <= i < |entered| ==> fresh(entered[i]))
      ensures old(manager.currentState) == None && Ticked(Entered(old(run.score), old(run.elapsed), food1), scene.game.input, delta, scene.game.width, scene.game.height, overlaps, food2).1
              ==> end.endText != null && fresh(end.endText)
      ensures old(manager.currentState) == None ==>
                scene.entities
                == (if Ticked(Entered(old(run.score), old(run.elapsed), food1), scene.game.input, delta, scene.game.width, scene.game.height, overlaps, food2).1
                    then Ended(old(scene.entities) + [Single(run.food), Group(run.scoreText.group)] + Singles(entered), entered, end.endText)
                    else old(scene.entities) + [Single(run.food), Group(run.scoreText.group)] + Singles(entered))
                   + Grown(run.snake, 5)
    {
      var hooks := manager.Update();
      if |hooks| == 2 {
        entered := EnterAndTick(overlaps, delta, food1, food2);
      } else {
        assert old(manager.currentState) == Some(Run) ==> run.Running() && run.Snapshot() == old(run.Snapshot());
        entered := run.snake;
        TickCurrent(overlaps, delta, food1, food2);
      }
    }

    /** The hooks Update fires when nothing was entered yet: the run state's entry, then its Tick. */
    method EnterAndTick(overlaps: Overlap, delta: int, food1: (int, int), food2: (int, int)) returns (ghost entered: seq<Entity>)
      requires Wired() && manager.currentState == Some(Run)
      modifies manager, run, end, scene`entities
      ensures Renewed()
      ensures Valid() && manager.currentState.Some?
      ensures run.Running() && run.Snapshot() == Ticked(Entered(old(run.score), old(run.elapsed), food1), scene.game.input, delta, scene.game.width, scene.game.height, overlaps, food2).0
      ensures |entered| == 5 && forall i :: 0 <= i < |entered| ==> fresh(entered[i])
      ensures Ticked(Entered(old(run.score), old(run.elapsed), food1), scene.game.input, delta, scene.game.width, scene.game.height, overlaps, food2).1 ==> end.endText != null && fresh(end.endText)
      ensures scene.entities
              == (if Ticked(Entered(old(run.score), old(run.elapsed), food1), scene.game.input, delta, scene.game.width, scene.game.height, overlaps, food2).1
                  then Ended(old(scene.entities) + [Single(run.food), Group(run.scoreText.group)] + Singles(entered), entered, end.endText)
                  else old(scene.entities) + [Single(run.food), Group(run.scoreText.group)] + Singles(entered))
                 + Grown(run.snake, 5)
    {
      run.OnEnter(food1);
      entered := run.snake;
      RunTick(overlaps, delta, food2);
    }

    /** The Tick hook of the current state. */
    method TickCurrent(overlaps: Overlap, delta: int, food1: (int, int), food2: (int, int))
      requires Valid() && manager.currentState.Some?
      modifies manager, run, end, scene`entities, run.snake, run.food, run.scoreText
      ensures Renewed()
      ensures Valid() && manager.currentState.Some?
      ensures old(manager.currentState) == Some(End) ==>
                end.endText == old(end.endText) &&
                manager.View() == if Pressed(scene.game.input) then Change(old(manager.View()), Run).0 else old(manager.View())
      ensures old(manager.currentState) == Some(End) && Pressed(scene.game.input) ==>
                run.Running() && run.Snapshot() == Entered(old(run.score), old(run.elapsed), food1) &&
                scene.entities == Restarted(old(scene.entities), end.endText, run.food, run.scoreText, run.snake)
      ensures old(manager.currentState) == Some(End) && !Pressed(scene.game.input) ==> scene.entities == old(scene.entities)
      ensures old(manager.currentState) == Some(Run) ==>
                run.Running() && |old(run.snake)| >= 1 && run.food == old(run.food) && run.scoreText == old(run.scoreText) &&
                run.Snapshot() == Ticked(old(run.Snapshot()), scene.game.input, delta, scene.game.width, scene.game.height, overlaps, food2).0
      ensures old(manager.currentState) == Some(Run) && Ticked(old(run.Snapshot()), scene.game.input, delta, scene.game.width, scene.game.height, overlaps, food2).1
              ==> end.endText != null && fresh(end.endText)
      ensures old(manager.currentState) == Some(Run) ==>
                scene.entities
                == (if Ticked(old(run.Snapshot()), scene.game.input, delta, scene.game.width, scene.game.height, overlaps, food2).1
                    then Ended(old(scene.entities), old(run.snake), end.endText) else old(scene.entities))
                   + Grown(run.snake, old(|run.snake|))
    {
      match manager.currentState.value
      case Run => RunTick(overlaps, delta, food2);
      case End => EndTick(food1);
    }
  }

  /** "GAME OVER" is nine bytes wide. */
  lemma GameOverWidth()
    ensures ByteLen("GAME OVER") == 9
  {
  }

  /** The key that ends the end state. */
  predicate Pressed(input: Option<KeyEvent>)
  {
    input.Some? && input.value.key == KeyEnter
  }
}
