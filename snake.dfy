/** The snake game of `ui/games/SnakeGame.kt`: a value-typed state on a
    20 x 20 board whose edges wrap around, advanced one cell per tick by the
    pure `update`, and the screen state (`gameState`, `isGameActive`) that the
    buttons and the tick loop reassign. */
module Snake {
  import opened Common

  const BoardSize: int := 20

  datatype Position = Position(x: int, y: int)

  datatype Direction = Up | Down | Left | Right

  datatype SnakeGameState = SnakeGameState(
    snake: seq<Position>,
    direction: Direction,
    food: Position,
    isGameOver: bool,
    score: int)

  /** `SnakeGameState()` with its default arguments: a one-cell snake on
      the board, food on a free cell, a running game and a score matching
      the length. */
  function Default(): (s: SnakeGameState)
    ensures WellFormed(s) && !s.isGameOver
  {
    SnakeGameState([Position(5, 5)], Right, Position(10, 10), false, 0)
  }

  predicate OnBoard(p: Position) {
    0 <= p.x < BoardSize && 0 <= p.y < BoardSize
  }

  /** Two cells are neighbours on the torus: one coordinate equal, the other
      one step apart modulo the board size. */
  predicate Neighbours(p: Position, q: Position) {
    (p.y == q.y && ((p.x - q.x) % BoardSize == 1 || (q.x - p.x) % BoardSize == 1)) ||
    (p.x == q.x && ((p.y - q.y) % BoardSize == 1 || (q.y - p.y) % BoardSize == 1))
  }

  function Opposite(d: Direction): (o: Direction)
    ensures o != d
  {
    match d
    case Up => Down
    case Down => Up
    case Left => Right
    case Right => Left
  }

  /** The new head computed at the start of `update`, with Kotlin's `%`. */
  function NextHead(head: Position, d: Direction): (h: Position)
    ensures OnBoard(head) ==> OnBoard(h) && Neighbours(head, h)
  {
    match d
    case Up => Position(head.x, Rem(head.y - 1 + BoardSize, BoardSize))
    case Down => Position(head.x, Rem(head.y + 1, BoardSize))
    case Left => Position(Rem(head.x - 1 + BoardSize, BoardSize), head.y)
    case Right => Position(Rem(head.x + 1, BoardSize), head.y)
  }

  /** Moving back in the opposite direction returns to the start cell. */
  lemma NextHeadReversible(head: Position, d: Direction)
    requires OnBoard(head)
    ensures NextHead(NextHead(head, d), Opposite(d)) == head
  {
  }

  predicate Distinct(s: seq<Position>) {
    forall i, j :: 0 <= i < j < |s| ==> s[i] != s[j]
  }

  /** What every state of a game started from `Default()` satisfies. */
  predicate WellFormed(s: SnakeGameState) {
    && |s.snake| > 0
    && (forall p :: p in s.snake ==> OnBoard(p))
    && Distinct(s.snake)
    && OnBoard(s.food)
    && s.food !in s.snake
    && s.score == |s.snake| - 1
  }

  // ---------------------------------------------------------------------
  // Food placement.  `generateFood` draws `Position(nextInt(20), nextInt(20))`
  // until a draw misses the snake; `draws` are those random positions.
  // ---------------------------------------------------------------------

  predicate OnBoardDraws(draws: seq<Position>) {
    forall p :: p in draws ==> OnBoard(p)
  }

  /** Draw `k` is the first one that misses the snake. */
  predicate FirstFreeAt(snake: seq<Position>, draws: seq<Position>, k: int) {
    0 <= k < |draws| && draws[k] !in snake &&
    forall j :: 0 <= j < k ==> draws[j] in snake
  }

  /** The first draw that is not on the snake, if the draws contain one. */
  function FirstFree(snake: seq<Position>, draws: seq<Position>): (r: Option<Position>)
    ensures r.Some? ==> exists k :: FirstFreeAt(snake, draws, k) && draws[k] == r.value
    ensures r.None? <==> forall p :: p in draws ==> p in snake
  {
    if draws == [] then None
    else if draws[0] !in snake then (assert FirstFreeAt(snake, draws, 0); Some(draws[0]))
    else
      var r := FirstFree(snake, draws[1..]);
      assert forall p :: p in draws ==> p == draws[0] || p in draws[1..];
      if r.Some? then
        var k :| FirstFreeAt(snake, draws[1..], k) && draws[1..][k] == r.value;
        assert FirstFreeAt(snake, draws, k + 1);
        r
      else r
  }

  /** The do-while loop of `generateFood`, over the draws it makes. */
  method GenerateFood(snake: seq<Position>, draws: seq<Position>) returns (food: Option<Position>)
    ensures food == FirstFree(snake, draws)
  {
    var k := 0;
    while k < |draws|
      invariant 0 <= k <= |draws|
      invariant FirstFree(snake, draws) == FirstFree(snake, draws[k..])
    {
      var newFood := draws[k];
      assert draws[k..][1..] == draws[k + 1..];
      if newFood !in snake {
        return Some(newFood);
      }
      k := k + 1;
    }
    return None;
  }

  /** The draws let `generateFood` finish whenever `update` calls it: it is
      called only when the new head lands on the food. */
  predicate DrawsSuffice(s: SnakeGameState, draws: seq<Position>) {
    s.isGameOver || |s.snake| == 0 ||
    var h := NextHead(s.snake[0], s.direction);
    h in s.snake || h != s.food || FirstFree([h] + s.snake, draws).Some?
  }

  /** `SnakeGameState.update()`.  `snake.first()` throws on an empty snake,
      hence the first requirement. */
  function Update(s: SnakeGameState, draws: seq<Position>): (r: SnakeGameState)
    requires s.isGameOver || |s.snake| > 0
    requires DrawsSuffice(s, draws)
    ensures r.direction == s.direction
  {
    if s.isGameOver then s
    else
      var newHead := NextHead(s.snake[0], s.direction);
      if newHead in s.snake then s.(isGameOver := true)
      else
        var ate := newHead == s.food;
        var newSnake := if ate then [newHead] + s.snake else [newHead] + s.snake[..|s.snake| - 1];
        var newFood := if ate then FirstFree(newSnake, draws).value else s.food;
        s.(snake := newSnake, food := newFood, score := if ate then s.score + 1 else s.score)
  }

  /** Game over is absorbing. */
  lemma UpdateGameOverAbsorbing(s: SnakeGameState, draws: seq<Position>)
    requires s.isGameOver
    ensures Update(s, draws) == s
  {
  }

  /** Running into any segment, the tail cell included, ends the game and
      changes nothing else. */
  lemma UpdateCollision(s: SnakeGameState, draws: seq<Position>)
    requires !s.isGameOver && |s.snake| > 0
    requires NextHead(s.snake[0], s.direction) in s.snake
    ensures Update(s, draws) == s.(isGameOver := true)
  {
  }

  /** Eating: the snake grows by the new head, the score rises by one and the
      new food is off the grown snake. */
  lemma UpdateEats(s: SnakeGameState, draws: seq<Position>)
    requires !s.isGameOver && |s.snake| > 0 && DrawsSuffice(s, draws)
    requires NextHead(s.snake[0], s.direction) !in s.snake
    requires NextHead(s.snake[0], s.direction) == s.food
    ensures var r := Update(s, draws);
      && !r.isGameOver
      && r.snake == [s.food] + s.snake
      && |r.snake| == |s.snake| + 1
      && r.score == s.score + 1
      && r.food !in r.snake && r.food in draws
  {
    var r := Update(s, draws);
    var k :| FirstFreeAt(r.snake, draws, k) && draws[k] == r.food;
  }

  /** Moving without eating: the head advances, the last segment is dropped,
      and food and score stay. */
  lemma UpdateMoves(s: SnakeGameState, draws: seq<Position>)
    requires !s.isGameOver && |s.snake| > 0
    requires NextHead(s.snake[0], s.direction) !in s.snake
    requires NextHead(s.snake[0], s.direction) != s.food
    ensures var r := Update(s, draws);
      && !r.isGameOver
      && r.snake == [NextHead(s.snake[0], s.direction)] + s.snake[..|s.snake| - 1]
      && |r.snake| == |s.snake|
      && r.food == s.food && r.score == s.score
  {
  }

  /** `update` keeps the snake on the board, its segments distinct, the food
      off the snake, and the score equal to the length minus one. */
  lemma {:induction false} UpdatePreservesWellFormed(s: SnakeGameState, draws: seq<Position>)
    requires WellFormed(s) && DrawsSuffice(s, draws) && OnBoardDraws(draws)
    ensures WellFormed(Update(s, draws))
  {
    if !s.isGameOver {
      var h := NextHead(s.snake[0], s.direction);
      if h !in s.snake {
        var r := Update(s, draws);
        if h == s.food {
          var free := FirstFree(r.snake, draws);
          assert free.value in draws;
          assert r.snake == [h] + s.snake;
          forall i, j | 0 <= i < j < |r.snake| ensures r.snake[i] != r.snake[j] {
            if i > 0 { assert r.snake[i] == s.snake[i - 1] && r.snake[j] == s.snake[j - 1]; }
            else { assert r.snake[j] in s.snake; }
          }
        } else {
          var body := s.snake[..|s.snake| - 1];
          assert r.snake == [h] + body;
          assert forall p :: p in body ==> p in s.snake;
          forall i, j | 0 <= i < j < |r.snake| ensures r.snake[i] != r.snake[j] {
            if i > 0 { assert r.snake[i] == s.snake[i - 1] && r.snake[j] == s.snake[j - 1]; }
            else { assert r.snake[j] in body; }
          }
        }
      }
    }
  }

  /** Two steps return the head to where it started only when the second
      step reverses the first. */
  lemma StepBackOnlyWhenReversed(current: Direction, d: Direction, neck: Position)
    requires OnBoard(neck)
    ensures NextHead(NextHead(neck, current), d) == neck <==> d == Opposite(current)
  {
    if d == Opposite(current) {
      NextHeadReversible(neck, current);
    }
  }

  /** Where the head ends up after a step by `current` and then one by `d`. */
  ghost function TwoSteps(neck: Position, current: Direction, d: Direction): Position {
    NextHead(NextHead(neck, current), d)
  }

  /** Moving by `current` and then by `d` never brings the head back to
      the cell it started from. */
  ghost predicate NeverStepsBack(current: Direction, d: Direction) {
    forall neck {:trigger TwoSteps(neck, current, d)} :: OnBoard(neck) ==> TwoSteps(neck, current, d) != neck
  }

  lemma ReversalsStepBack(current: Direction, d: Direction)
    ensures NeverStepsBack(current, d) <==> current != Opposite(d)
  {
    assert current == Opposite(d) <==> d == Opposite(current);
    if d == Opposite(current) {
      StepBackOnlyWhenReversed(current, d, Position(0, 0));
      assert TwoSteps(Position(0, 0), current, d) == Position(0, 0);
    } else {
      forall neck | OnBoard(neck)
        ensures TwoSteps(neck, current, d) != neck
      {
        StepBackOnlyWhenReversed(current, d, neck);
      }
    }
  }

  /** The `enabled` flag of the direction buttons: a direction is offered
      while the game runs and only if a step in the current direction
      followed by one in `d` never returns the head to its starting cell.
      The guard looks at the current direction, not at the direction of
      the last move, so two clicks between ticks can still turn the snake
      back onto itself (see `QuickTurnsCollide`). */
  function DirectionEnabled(isGameActive: bool, current: Direction, d: Direction): (b: bool)
    ensures b <==> isGameActive && NeverStepsBack(current, d)
  {
    ReversalsStepBack(current, d);
    isGameActive && current != Opposite(d)
  }

  /** Two enabled clicks inside one tick, Up and then Left on a snake
      moving Right, make the next update run the head into its neck. */
  lemma QuickTurnsCollide()
    ensures var s := SnakeGameState([Position(6, 5), Position(5, 5)], Right, Position(10, 10), false, 1);
      && WellFormed(s)
      && DirectionEnabled(true, s.direction, Up)
      && DirectionEnabled(true, Up, Left)
      && Update(s.(direction := Left), []).isGameOver
  {
  }

  lemma ReverseDisabled(isGameActive: bool, d: Direction)
    ensures !DirectionEnabled(isGameActive, d, Opposite(d))
  {
  }

  /** The state the `SnakeGame` screen keeps: the game and whether the tick
      loop runs. */
  class SnakeGame {
    var gameState: SnakeGameState
    var isGameActive: bool

    ghost predicate Valid()
      reads this
    {
      WellFormed(gameState) && (isGameActive ==> !gameState.isGameOver)
    }

    constructor ()
      ensures Valid() && gameState == Default() && !isGameActive
    {
      gameState := Default();
      isGameActive := false;
    }

    /** The start button: enabled only while the loop is stopped. */
    method Start()
      requires Valid()
      modifies this
      ensures Valid()
      ensures old(isGameActive) ==> gameState == old(gameState) && isGameActive
      ensures !old(isGameActive) ==> gameState == Default() && isGameActive
    {
      if !isGameActive {
        gameState := Default();
        isGameActive := true;
      }
    }

    /** The reset button. */
    method Reset()
      requires Valid()
      modifies this
      ensures Valid() && gameState == Default() && !isGameActive
    {
      gameState := Default();
      isGameActive := false;
    }

    /** A direction button; a disabled button ignores the click. */
    method Press(d: Direction)
      requires Valid()
      modifies this
      ensures Valid() && isGameActive == old(isGameActive)
      ensures DirectionEnabled(old(isGameActive), old(gameState.direction), d) ==>
        gameState == old(gameState).(direction := d)
      ensures !DirectionEnabled(old(isGameActive), old(gameState.direction), d) ==>
        gameState == old(gameState)
    {
      if DirectionEnabled(isGameActive, gameState.direction, d) {
        gameState := gameState.(direction := d);
      }
    }

    /** One iteration of the tick loop (the 200 ms delay is not modelled). */
    method Tick(draws: seq<Position>)
      requires Valid() && isGameActive
      requires DrawsSuffice(gameState, draws) && OnBoardDraws(draws)
      modifies this
      ensures Valid()
      ensures gameState == Update(old(gameState), draws)
      ensures isGameActive == !gameState.isGameOver
    {
      UpdatePreservesWellFormed(gameState, draws);
      gameState := Update(gameState, draws);
      if gameState.isGameOver {
        isGameActive := false;
      }
    }
  }
}
