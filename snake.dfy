/**
 * The Snake engine of the portfolio: a 20x20 grid, a head-first snake, one
 * food cell, a direction field, a score and a persisted high score.
 *
 * The engine is modelled twice, on purpose: `State` and the functions over it
 * (`Reset`, `OnKey`, `Tick`) are the specification, and the class `SnakeGame`
 * holds the same fields and updates them step by step as the component does;
 * each of its methods is proved to compute the specification function.
 * Random food placement takes the sequence of random cells as an argument.
 */
module Snake {
  import opened Wrappers

  const GRID_SIZE: int := 20
  /** Points for one piece of food. */
  const FOOD_POINTS: nat := 10
  /** Where the snake starts after a reset. */
  const ORIGIN: Position := Position(10, 10)
  /** The food cell before the first reset. */
  const FIRST_FOOD: Position := Position(15, 15)

  datatype Position = Position(x: int, y: int)

  datatype Direction = Up | Down | Left | Right

  function Opposite(d: Direction): (r: Direction)
    ensures r != d
  {
    match d
    case Up => Down
    case Down => Up
    case Left => Right
    case Right => Left
  }

  /** The head cell after one step in direction `d` (y grows downwards). */
  function Advance(p: Position, d: Direction): (r: Position)
    ensures r != p
  {
    match d
    case Up => p.(y := p.y - 1)
    case Down => p.(y := p.y + 1)
    case Left => p.(x := p.x - 1)
    case Right => p.(x := p.x + 1)
  }

  /** Opposite directions pair up, and a step back undoes a step. */
  lemma AdvanceUndone(p: Position, d: Direction)
    ensures Opposite(Opposite(d)) == d
    ensures Advance(Advance(p, d), Opposite(d)) == p
  {
  }

  predicate InGrid(p: Position) {
    0 <= p.x < GRID_SIZE && 0 <= p.y < GRID_SIZE
  }

  predicate AllInGrid(cells: seq<Position>) {
    forall i :: 0 <= i < |cells| ==> InGrid(cells[i])
  }

  predicate Distinct(cells: seq<Position>) {
    forall i, j :: 0 <= i < j < |cells| ==> cells[i] != cells[j]
  }

  // ---------------------------------------------------------------------
  // Food placement: rejection sampling over a stream of random cells
  // ---------------------------------------------------------------------

  /** Some random cell of the stream is free, so the rejection loop stops. */
  predicate HasFree(snake: seq<Position>, draws: seq<Position>) {
    exists k :: 0 <= k < |draws| && draws[k] !in snake
  }

  /** The first cell of the random stream that the snake does not occupy. */
  function FirstFree(snake: seq<Position>, draws: seq<Position>): (r: Position)
    requires AllInGrid(draws) && HasFree(snake, draws)
    ensures InGrid(r) && r !in snake && r in draws
    decreases |draws|
  {
    if draws[0] !in snake then draws[0]
    else
      assert HasFree(snake, draws[1..]) by {
        var k :| 0 <= k < |draws| && draws[k] !in snake;
        assert draws[1..][k - 1] == draws[k];
      }
      FirstFree(snake, draws[1..])
  }

  /** `FirstFree` is exactly "reject every occupied draw, accept the first free one". */
  lemma {:induction false} FirstFreeIsFirstAccepted(snake: seq<Position>, draws: seq<Position>, k: nat)
    requires AllInGrid(draws) && k < |draws|
    requires forall i :: 0 <= i < k ==> draws[i] in snake
    requires draws[k] !in snake
    ensures HasFree(snake, draws) && FirstFree(snake, draws) == draws[k]
    decreases k
  {
    if k > 0 {
      assert draws[1..][k - 1] == draws[k];
      FirstFreeIsFirstAccepted(snake, draws[1..], k - 1);
    }
  }

  /** The do-while loop of the component: draw, and draw again while the cell is on the snake. */
  method GenerateFood(snake: seq<Position>, draws: seq<Position>) returns (food: Position)
    requires AllInGrid(draws) && HasFree(snake, draws)
    ensures InGrid(food) && food !in snake
    ensures food == FirstFree(snake, draws)
  {
    ghost var free :| 0 <= free < |draws| && draws[free] !in snake;
    var i := 0;
    food := draws[i];
    i := i + 1;
    while food in snake
      invariant 0 < i <= free + 1 <= |draws|
      invariant food == draws[i - 1]
      invariant forall k :: 0 <= k < i - 1 ==> draws[k] in snake
      decreases |draws| - i
    {
      food := draws[i];
      i := i + 1;
    }
    FirstFreeIsFirstAccepted(snake, draws, i - 1);
  }

  // ---------------------------------------------------------------------
  // The state and its invariant
  // ---------------------------------------------------------------------

  /** `stored` is the value under the `snakeHighScore` key of local storage. */
  datatype State = State(
    snake: seq<Position>,
    food: Position,
    direction: Direction,
    score: nat,
    highScore: nat,
    gameOver: bool,
    isPaused: bool,
    gameStarted: bool,
    stored: Option<nat>)

  /** The component when it mounts: the high score comes from storage (0 when absent). */
  function Initial(saved: Option<nat>): (r: State)
    ensures Inv(r)
    ensures r.highScore == saved.GetOr(0) && !r.gameStarted && r.score == 0
  {
    State([ORIGIN], FIRST_FOOD, Right, 0, saved.GetOr(0), false, false, false, saved)
  }

  /**
   * What holds in every reachable state: the snake is non-empty, inside the
   * grid and never overlaps itself, the food is a free cell, the score is a
   * multiple of 10 not above the high score, and the stored value is the high score.
   */
  ghost predicate Inv(s: State) {
    && |s.snake| > 0
    && AllInGrid(s.snake)
    && Distinct(s.snake)
    && InGrid(s.food)
    && s.food !in s.snake
    && s.score % FOOD_POINTS == 0
    && s.score <= s.highScore
    && s.highScore == s.stored.GetOr(0)
  }

  // ---------------------------------------------------------------------
  // Reset
  // ---------------------------------------------------------------------

  function Reset(s: State, draws: seq<Position>): (r: State)
    requires AllInGrid(draws) && HasFree([ORIGIN], draws)
    ensures r.snake == [ORIGIN] && InGrid(r.food) && r.food != ORIGIN
    ensures r.direction == Right && r.score == 0
    ensures !r.gameOver && !r.isPaused && r.gameStarted
    ensures r.highScore == s.highScore && r.stored == s.stored
  {
    s.(snake := [ORIGIN], food := FirstFree([ORIGIN], draws), direction := Right,
       gameOver := false, score := 0, isPaused := false, gameStarted := true)
  }

  /** A reset discards the abandoned round: only the high score survives it. */
  lemma ResetForgetsRound(s: State, t: State, draws: seq<Position>)
    requires AllInGrid(draws) && HasFree([ORIGIN], draws)
    requires s.highScore == t.highScore && s.stored == t.stored
    ensures Reset(s, draws) == Reset(t, draws)
  {
  }

  lemma ResetKeepsInv(s: State, draws: seq<Position>)
    requires Inv(s) && AllInGrid(draws) && HasFree([ORIGIN], draws)
    ensures Inv(Reset(s, draws))
  {
  }

  // ---------------------------------------------------------------------
  // Keyboard
  // ---------------------------------------------------------------------

  datatype Key = Escape | Space | Enter | Turn(d: Direction) | Ignored

  /** Arrow keys and WASD in either case turn the snake. */
  function KeyOf(key: string): Key {
    if key == "Escape" then Escape
    else if key == " " then Space
    else if key == "Enter" then Enter
    else if key == "ArrowUp" || key == "w" || key == "W" then Turn(Up)
    else if key == "ArrowDown" || key == "s" || key == "S" then Turn(Down)
    else if key == "ArrowLeft" || key == "a" || key == "A" then Turn(Left)
    else if key == "ArrowRight" || key == "d" || key == "D" then Turn(Right)
    else Ignored
  }

  predicate IsStartKey(key: string) {
    KeyOf(key) == Space || KeyOf(key) == Enter
  }

  /** Whether a key press resets the round. */
  predicate Resets(s: State, key: string) {
    IsStartKey(key) && (!s.gameStarted || s.gameOver)
  }

  /**
   * The key handler, its rules tried in order. Escape closes the game (the
   * caller's concern) and changes nothing here.
   */
  function OnKey(s: State, key: string, draws: seq<Position>): (r: State)
    requires Resets(s, key) ==> AllInGrid(draws) && HasFree([ORIGIN], draws)
  {
    var k := KeyOf(key);
    if k == Escape then s
    else if Resets(s, key) then Reset(s, draws)
    else if k == Space && s.gameStarted && !s.gameOver then s.(isPaused := !s.isPaused)
    else if s.isPaused || !s.gameStarted then s
    else match k
      case Turn(d) => if s.direction != Opposite(d) then s.(direction := d) else s
      case _ => s
  }

  /** What each rule of the key handler does, in the order the handler tries them. */
  lemma OnKeyRules(s: State, key: string, draws: seq<Position>)
    requires Resets(s, key) ==> AllInGrid(draws) && HasFree([ORIGIN], draws)
    ensures KeyOf(key) == Escape ==> OnKey(s, key, draws) == s
    ensures Resets(s, key) ==> OnKey(s, key, draws) == Reset(s, draws)
    ensures KeyOf(key) == Space && s.gameStarted && !s.gameOver ==>
              OnKey(s, key, draws) == s.(isPaused := !s.isPaused)
    ensures KeyOf(key).Turn? && (s.isPaused || !s.gameStarted) ==> OnKey(s, key, draws) == s
    ensures KeyOf(key).Turn? && KeyOf(key).d == Opposite(s.direction) ==> OnKey(s, key, draws) == s
    ensures KeyOf(key).Turn? && s.gameStarted && !s.isPaused && KeyOf(key).d != Opposite(s.direction) ==>
              OnKey(s, key, draws) == s.(direction := KeyOf(key).d)
    ensures KeyOf(key) == Ignored ==> OnKey(s, key, draws) == s
  {
  }

  /** Apart from a reset, no key turns the snake straight back on itself. */
  lemma OnKeyNeverReverses(s: State, key: string, draws: seq<Position>)
    requires !IsStartKey(key)
    ensures OnKey(s, key, draws).direction != Opposite(s.direction)
  {
  }

  lemma OnKeyKeepsInv(s: State, key: string, draws: seq<Position>)
    requires Inv(s)
    requires Resets(s, key) ==> AllInGrid(draws) && HasFree([ORIGIN], draws)
    ensures Inv(OnKey(s, key, draws))
  {
  }

  // ---------------------------------------------------------------------
  // The tick
  // ---------------------------------------------------------------------

  predicate Running(s: State) {
    s.gameStarted && !s.gameOver && !s.isPaused
  }

  function NextHead(s: State): Position
    requires |s.snake| > 0
  {
    Advance(s.snake[0], s.direction)
  }

  /** The head hits a wall or any pre-tick segment, the tail included. */
  predicate Collides(s: State)
    requires |s.snake| > 0
  {
    !InGrid(NextHead(s)) || NextHead(s) in s.snake
  }

  /** The tick that eats: running, no collision, and the head lands on the food. */
  predicate Eats(s: State)
    requires |s.snake| > 0
  {
    Running(s) && !Collides(s) && NextHead(s) == s.food
  }

  /** The random stream a tick needs: only an eating tick draws, and it must find a free cell. */
  predicate DrawsFor(s: State, draws: seq<Position>)
    requires |s.snake| > 0
  {
    AllInGrid(draws) && (Eats(s) ==> HasFree([NextHead(s)] + s.snake, draws))
  }

  /** One step of the game loop. */
  function Tick(s: State, draws: seq<Position>): (r: State)
    requires |s.snake| > 0 && DrawsFor(s, draws)
    ensures |r.snake| > 0
    ensures r.highScore >= s.highScore
  {
    if !Running(s) then s
    else if Collides(s) then s.(gameOver := true)
    else
      var head := NextHead(s);
      var grown := [head] + s.snake;
      if head == s.food then
        var newScore := s.score + FOOD_POINTS;
        var beaten := newScore > s.highScore;
        s.(snake := grown, score := newScore, food := FirstFree(grown, draws),
           highScore := if beaten then newScore else s.highScore,
           stored := if beaten then Some(newScore) else s.stored)
      else
        s.(snake := grown[..|s.snake|])
  }

  /** A tick is a no-op unless the game is started, not over and not paused. */
  lemma TickIdle(s: State, draws: seq<Position>)
    requires |s.snake| > 0 && DrawsFor(s, draws) && !Running(s)
    ensures Tick(s, draws) == s
  {
  }

  /** A head off the grid, or on any pre-tick segment, ends the game and leaves the snake as it was. */
  lemma TickCollision(s: State, draws: seq<Position>)
    requires |s.snake| > 0 && DrawsFor(s, draws) && Running(s) && Collides(s)
    ensures Tick(s, draws) == s.(gameOver := true)
  {
  }

  /**
   * Eating: the snake grows by the new head, the score by 10, fresh food
   * lands off the new snake, and the high score is raised (and stored) only
   * when it is beaten.
   */
  lemma TickEats(s: State, draws: seq<Position>)
    requires |s.snake| > 0 && DrawsFor(s, draws) && Eats(s)
    ensures var r := Tick(s, draws);
      && r.snake == [NextHead(s)] + s.snake
      && |r.snake| == |s.snake| + 1
      && r.score == s.score + 10
      && InGrid(r.food) && r.food !in r.snake
      && r.highScore == (if s.score + 10 > s.highScore then s.score + 10 else s.highScore)
      && (r.stored != s.stored ==> s.score + 10 > s.highScore && r.stored == Some(s.score + 10))
      && !r.gameOver
  {
  }

  /** Moving without eating: the new head is prepended and the last cell dropped. */
  lemma {:induction false} TickMoves(s: State, draws: seq<Position>)
    requires |s.snake| > 0 && DrawsFor(s, draws) && Running(s) && !Collides(s) && !Eats(s)
    ensures var r := Tick(s, draws);
      && |r.snake| == |s.snake|
      && r.snake[0] == NextHead(s)
      && (forall i :: 0 < i < |s.snake| ==> r.snake[i] == s.snake[i - 1])
      && r.score == s.score && r.food == s.food && r.highScore == s.highScore
  {
    var r := Tick(s, draws);
    assert r.snake == ([NextHead(s)] + s.snake)[..|s.snake|];
  }

  /** The snake's length changes by 0 or 1, and grows exactly on an eating tick. */
  lemma TickLength(s: State, draws: seq<Position>)
    requires |s.snake| > 0 && DrawsFor(s, draws)
    ensures var n := |Tick(s, draws).snake|;
      (n == |s.snake| + 1 <==> Eats(s)) && (n == |s.snake| || n == |s.snake| + 1)
  {
  }

  /** Every tick keeps the snake in the grid and self-avoiding, and the food off it. */
  lemma {:induction false} TickKeepsInv(s: State, draws: seq<Position>)
    requires Inv(s) && DrawsFor(s, draws)
    ensures Inv(Tick(s, draws))
  {
    if Running(s) && !Collides(s) {
      var head := NextHead(s);
      var grown := [head] + s.snake;
      assert Distinct(grown) by {
        forall i, j | 0 <= i < j < |grown| ensures grown[i] != grown[j] {
          if i == 0 {
            assert grown[j] == s.snake[j - 1];
          } else {
            assert grown[i] == s.snake[i - 1] && grown[j] == s.snake[j - 1];
          }
        }
      }
      assert AllInGrid(grown) by {
        forall i | 0 <= i < |grown| ensures InGrid(grown[i]) {
          if i > 0 { assert grown[i] == s.snake[i - 1]; }
        }
      }
      if head != s.food {
        var moved := grown[..|s.snake|];
        assert s.food !in moved by {
          forall i | 0 <= i < |moved| ensures moved[i] != s.food {
            if i > 0 { assert moved[i] == s.snake[i - 1]; }
          }
        }
      }
    }
  }

  // ---------------------------------------------------------------------
  // Scenarios
  // ---------------------------------------------------------------------

  function Running1(snake: seq<Position>, food: Position, d: Direction): State {
    State(snake, food, d, 0, 0, false, false, true, None)
  }

  /** The head at the right edge moving right hits the wall; the snake does not move. */
  lemma WallScenario()
    ensures var s := Running1([Position(19, 10)], Position(0, 0), Right);
      Tick(s, []) == s.(gameOver := true)
  {
  }

  /** A head moving onto the tail cell is a collision, although the tail would have moved away. */
  lemma TailScenario()
    ensures var s := Running1([Position(5, 5), Position(5, 6), Position(6, 6), Position(6, 5)], Position(0, 0), Right);
      Tick(s, []).gameOver && Tick(s, []).snake == s.snake
  {
  }

  /**
   * The reversal guard compares with the latest direction, not the one the
   * last tick used: moving right, "up" then "left" before the next tick
   * turns the head back onto the neck and ends the game.
   */
  lemma QuickTurnScenario()
    ensures var s := Running1([Position(5, 5), Position(4, 5)], Position(0, 0), Right);
      var t := OnKey(OnKey(s, "ArrowUp", []), "ArrowLeft", []);
      t.direction == Left && Tick(t, []).gameOver
  {
  }

  // ---------------------------------------------------------------------
  // The component
  // ---------------------------------------------------------------------

  class SnakeGame {
    var snake: seq<Position>
    var food: Position
    var direction: Direction
    var score: nat
    var highScore: nat
    var gameOver: bool
    var isPaused: bool
    var gameStarted: bool
    /** The `snakeHighScore` entry of local storage. */
    var stored: Option<nat>

    function Snapshot(): State
      reads this
    {
      State(snake, food, direction, score, highScore, gameOver, isPaused, gameStarted, stored)
    }

    ghost predicate Valid()
      reads this
    {
      Inv(Snapshot())
    }

    /** Mounting: the high score is read from storage, 0 when nothing is saved. */
    constructor (saved: Option<nat>)
      ensures Valid() && Snapshot() == Initial(saved)
    {
      snake := [ORIGIN];
      food := FIRST_FOOD;
      direction := Right;
      gameOver := false;
      score := 0;
      highScore := if saved.Some? then saved.value else 0;
      isPaused := false;
      gameStarted := false;
      stored := saved;
    }

    method ResetGame(draws: seq<Position>)
      requires Valid() && AllInGrid(draws) && HasFree([ORIGIN], draws)
      modifies this
      ensures Valid() && Snapshot() == Reset(old(Snapshot()), draws)
    {
      var initialSnake := [ORIGIN];
      snake := initialSnake;
      food := GenerateFood(initialSnake, draws);
      direction := Right;
      gameOver := false;
      score := 0;
      isPaused := false;
      gameStarted := true;
    }

    /** The keydown handler; `close` tells whether it asked the host to close the game. */
    method HandleKeyPress(key: string, draws: seq<Position>) returns (close: bool)
      requires Valid()
      requires Resets(Snapshot(), key) ==> AllInGrid(draws) && HasFree([ORIGIN], draws)
      modifies this
      ensures Valid() && Snapshot() == OnKey(old(Snapshot()), key, draws)
      ensures close <==> key == "Escape"
    {
      ghost var before := Snapshot();
      OnKeyRules(before, key, draws);
      OnKeyKeepsInv(before, key, draws);
      close := false;
      if key == "Escape" {
        close := true;
        return;
      }
      if !gameStarted && (key == " " || key == "Enter") {
        ResetGame(draws);
        return;
      }
      if gameOver && (key == " " || key == "Enter") {
        ResetGame(draws);
        return;
      }
      if key == " " && gameStarted && !gameOver {
        isPaused := !isPaused;
        return;
      }
      if isPaused || !gameStarted {
        return;
      }
      if key == "ArrowUp" || key == "w" || key == "W" {
        if direction != Down { direction := Up; }
      } else if key == "ArrowDown" || key == "s" || key == "S" {
        if direction != Up { direction := Down; }
      } else if key == "ArrowLeft" || key == "a" || key == "A" {
        if direction != Right { direction := Left; }
      } else if key == "ArrowRight" || key == "d" || key == "D" {
        if direction != Left { direction := Right; }
      }
    }

    /** One firing of the game-loop interval. */
    method MoveSnake(draws: seq<Position>)
      requires Valid() && DrawsFor(Snapshot(), draws)
      modifies this
      ensures Valid() && Snapshot() == Tick(old(Snapshot()), draws)
    {
      ghost var before := Snapshot();
      if !gameStarted || gameOver || isPaused {
        TickIdle(before, draws);
        return;
      }
      var head := snake[0];
      match direction {
        case Up => head := head.(y := head.y - 1);
        case Down => head := head.(y := head.y + 1);
        case Left => head := head.(x := head.x - 1);
        case Right => head := head.(x := head.x + 1);
      }
      assert head == NextHead(before);
      if head.x < 0 || head.x >= GRID_SIZE || head.y < 0 || head.y >= GRID_SIZE {
        TickCollision(before, draws);
        TickKeepsInv(before, draws);
        gameOver := true;
        return;
      }
      if head in snake {
        TickCollision(before, draws);
        TickKeepsInv(before, draws);
        gameOver := true;
        return;
      }
      assert !Collides(before);
      MoveHead(head, draws);
    }

    /** The rest of a tick once the new head is known to be free: eat, or move on. */
    method MoveHead(head: Position, draws: seq<Position>)
      requires Valid() && DrawsFor(Snapshot(), draws)
      requires Running(Snapshot()) && !Collides(Snapshot()) && head == NextHead(Snapshot())
      modifies this
      ensures Valid() && Snapshot() == Tick(old(Snapshot()), draws)
    {
      ghost var before := Snapshot();
      var newSnake := [head] + snake;
      var newScore, newHigh, newStored, newFood := score, highScore, stored, food;
      if head == food {
        newScore := score + FOOD_POINTS;
        if newScore > highScore {
          newHigh, newStored := newScore, Some(newScore);
        }
        newFood := GenerateFood(newSnake, draws);
      } else {
        newSnake := newSnake[..|newSnake| - 1];
      }
      ghost var next := before.(snake := newSnake, food := newFood, score := newScore,
                                highScore := newHigh, stored := newStored);
      assert next == Tick(before, draws);
      TickKeepsInv(before, draws);
      snake, food, score, highScore, stored := newSnake, newFood, newScore, newHigh, newStored;
    }
  }
}
