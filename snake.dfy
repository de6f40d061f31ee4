/** The Snake game (pages/games/Snake.jsx): a snake of grid cells moves one cell per
    tick on a 20 x 20 board, grows when it eats the food, and the game ends when the
    head leaves the board or runs into the snake.

    `Tick`, `Steer`, `Finish` and `Reset` are the state transitions on a snapshot of
    the component's state; `SnakeGame` holds that state in fields and its methods are
    proved to perform exactly those transitions. The random food cell is a parameter. */
module Snake {
  import opened Common

  const GridSize := 20
  const Reward := 10
  const SpeedStep := 5
  const MinSpeed := 50
  const InitialSpeed := 200

  /** A grid cell, or a direction vector. */
  datatype Cell = Cell(x: int, y: int)

  const InitialBody: seq<Cell> := [Cell(10, 10), Cell(9, 10), Cell(8, 10)]
  const InitialFood := Cell(5, 5)
  const InitialDirection := Cell(1, 0)

  const Up := Cell(0, -1)
  const Down := Cell(0, 1)
  const Left := Cell(-1, 0)
  const Right := Cell(1, 0)

  datatype Key = ArrowUp | ArrowDown | ArrowLeft | ArrowRight | OtherKey

  datatype Game = Game(
    snake: seq<Cell>,
    food: Cell,
    direction: Cell,
    running: bool,
    score: int,
    highScore: int,
    speed: int,
    gameOver: bool)

  predicate InGrid(c: Cell)
  {
    0 <= c.x < GridSize && 0 <= c.y < GridSize
  }

  predicate IsUnit(d: Cell)
  {
    d == Up || d == Down || d == Left || d == Right
  }

  function Shift(c: Cell, d: Cell): Cell
  {
    Cell(c.x + d.x, c.y + d.y)
  }

  function Opposite(d: Cell): Cell
  {
    Cell(-d.x, -d.y)
  }

  predicate Adjacent(a: Cell, b: Cell)
  {
    (a.x == b.x && (a.y - b.y == 1 || b.y - a.y == 1)) ||
    (a.y == b.y && (a.x - b.x == 1 || b.x - a.x == 1))
  }

  predicate Distinct(s: seq<Cell>)
  {
    forall i, j :: 0 <= i < j < |s| ==> s[i] != s[j]
  }

  predicate AllInGrid(s: seq<Cell>)
  {
    forall i :: 0 <= i < |s| ==> InGrid(s[i])
  }

  predicate Contiguous(s: seq<Cell>)
  {
    forall i :: 0 <= i < |s| - 1 ==> Adjacent(s[i], s[i + 1])
  }

  /** The shape every reachable snake has: non-empty, no cell twice, on the board,
      each cell next to the one before it. */
  predicate WellFormed(s: seq<Cell>)
  {
    s != [] && Distinct(s) && AllInGrid(s) && Contiguous(s)
  }

  /** The cell the head moves into on the next tick. */
  function NextHead(g: Game): Cell
    requires g.snake != []
  {
    Shift(g.snake[0], g.direction)
  }

  /** The collision test of `moveSnake`: off the board, or onto any current cell
      of the snake (its tail included). */
  predicate Collides(g: Game)
    requires g.snake != []
  {
    !InGrid(NextHead(g)) || NextHead(g) in g.snake
  }

  /** `Math.max(50, sp - 5)`: the tick interval after eating. */
  function Faster(speed: int): (r: int)
    ensures r >= MinSpeed
    ensures speed >= MinSpeed ==> r <= speed
    ensures r < speed <==> speed > MinSpeed
    ensures speed - r <= SpeedStep
  {
    if speed - SpeedStep > MinSpeed then speed - SpeedStep else MinSpeed
  }

  /** `endGame` as a transition: stop, flag game over, and keep the best score. */
  function Finish(g: Game): (r: Game)
    ensures !r.running && r.gameOver
    ensures r.highScore >= g.highScore && r.highScore >= g.score
    ensures r.highScore == g.highScore || r.highScore == g.score
    ensures r.snake == g.snake && r.score == g.score && r.speed == g.speed
  {
    g.(running := false, gameOver := true,
       highScore := if g.score > g.highScore then g.score else g.highScore)
  }

  /** One tick of `moveSnake`; `newFood` is the randomly drawn food cell. */
  function Tick(g: Game, newFood: Cell): (r: Game)
    requires g.snake != []
    ensures r.gameOver <==> g.gameOver || Collides(g)
    ensures r.score == g.score || r.score == g.score + Reward
    ensures |g.snake| <= |r.snake| <= |g.snake| + 1
    ensures r.highScore >= g.highScore
  {
    var head := NextHead(g);
    if Collides(g) then Finish(g)
    else if head == g.food then
      g.(snake := [head] + g.snake, score := g.score + Reward,
         speed := Faster(g.speed), food := newFood)
    else
      g.(snake := [head] + g.snake[..|g.snake| - 1])
  }

  /** The arrow-key handler: a key is ignored when the current direction points the
      other way along the same axis. */
  function Steer(d: Cell, k: Key): (r: Cell)
    ensures k == OtherKey ==> r == d
    ensures k != OtherKey ==> r == d || r == KeyVector(k)
  {
    match k
    case ArrowUp => if d.y == 1 then d else Up
    case ArrowDown => if d.y == -1 then d else Down
    case ArrowLeft => if d.x == 1 then d else Left
    case ArrowRight => if d.x == -1 then d else Right
    case OtherKey => d
  }

  function KeyVector(k: Key): Cell
    requires k != OtherKey
  {
    match k
    case ArrowUp => Up
    case ArrowDown => Down
    case ArrowLeft => Left
    case ArrowRight => Right
  }

  /** `resetGame`: the fixed initial round; `running` and `highScore` are untouched. */
  function Reset(g: Game): (r: Game)
    ensures WellFormed(r.snake) && IsUnit(r.direction)
    ensures r.score == 0 && !r.gameOver && r.speed == InitialSpeed
    ensures r.running == g.running && r.highScore == g.highScore
  {
    InitialIsWellFormed();
    g.(snake := InitialBody, direction := InitialDirection, food := InitialFood,
       score := 0, speed := InitialSpeed, gameOver := false)
  }

  // ---------------------------------------------------------------- properties

  /** A collision ends the game and leaves the snake, score, speed, food and
      direction as they were; the high score becomes the larger of the two scores. */
  lemma TickCollision(g: Game, newFood: Cell)
    requires g.snake != [] && Collides(g)
    ensures var r := Tick(g, newFood);
      r.gameOver && !r.running &&
      r.snake == g.snake && r.score == g.score && r.speed == g.speed &&
      r.food == g.food && r.direction == g.direction &&
      r.highScore >= g.highScore && r.highScore >= g.score &&
      (r.highScore == g.highScore || r.highScore == g.score)
  {
  }

  /** On a successful step the new head is the old head moved by the direction,
      and the old body follows it. */
  lemma TickMoves(g: Game, newFood: Cell)
    requires g.snake != [] && !Collides(g)
    ensures var r := Tick(g, newFood);
      |r.snake| >= |g.snake| &&
      r.snake[0] == Shift(g.snake[0], g.direction) &&
      r.snake[1..|g.snake|] == g.snake[..|g.snake| - 1] &&
      r.direction == g.direction && r.running == g.running &&
      r.gameOver == g.gameOver && r.highScore == g.highScore
  {
    var r := Tick(g, newFood);
    var n := |g.snake|;
    if NextHead(g) == g.food {
      assert r.snake == [NextHead(g)] + g.snake;
      assert r.snake[1..n] == g.snake[..n - 1];
    } else {
      assert r.snake == [NextHead(g)] + g.snake[..n - 1];
      assert r.snake[1..n] == g.snake[..n - 1];
    }
  }

  /** A step that does not reach the food keeps the length, drops the last cell,
      and changes neither score, speed nor food. */
  lemma TickWithoutFood(g: Game, newFood: Cell)
    requires g.snake != [] && !Collides(g) && NextHead(g) != g.food
    ensures var r := Tick(g, newFood);
      |r.snake| == |g.snake| && r.snake == [NextHead(g)] + g.snake[..|g.snake| - 1] &&
      r.score == g.score && r.speed == g.speed && r.food == g.food
  {
  }

  /** A step onto the food grows the snake by exactly one cell, adds exactly
      `Reward` points, speeds up towards the floor and places the new food. */
  lemma TickEats(g: Game, newFood: Cell)
    requires g.snake != [] && !Collides(g) && NextHead(g) == g.food
    ensures var r := Tick(g, newFood);
      |r.snake| == |g.snake| + 1 && r.snake[1..] == g.snake &&
      r.score == g.score + Reward && r.food == newFood &&
      MinSpeed <= r.speed && (g.speed >= MinSpeed ==> r.speed <= g.speed)
  {
  }

  /** A well-formed snake moving in a unit direction stays well formed: the new
      head is on the board, not on the old body, and next to the old head. */
  lemma TickPreservesWellFormed(g: Game, newFood: Cell)
    requires WellFormed(g.snake) && IsUnit(g.direction)
    ensures WellFormed(Tick(g, newFood).snake)
  {
    if !Collides(g) {
      var head := NextHead(g);
      var n := if head == g.food then |g.snake| else |g.snake| - 1;
      assert Tick(g, newFood).snake == [head] + g.snake[..n];
      PrependKeepsWellFormed(head, g.snake, n);
    }
  }

  /** A cell on the board, off the snake and next to its head can be put in front
      of any prefix of the snake. */
  lemma PrependKeepsWellFormed(head: Cell, s: seq<Cell>, n: nat)
    requires WellFormed(s) && n <= |s|
    requires InGrid(head) && head !in s && Adjacent(head, s[0])
    ensures WellFormed([head] + s[..n])
  {
    var t := [head] + s[..n];
    assert forall i :: 1 <= i < |t| ==> t[i] == s[i - 1];
    forall i, j | 0 <= i < j < |t|
      ensures t[i] != t[j]
    {
      if i == 0 {
        assert t[j] in s;
      }
    }
    forall i | 0 <= i < |t| - 1
      ensures Adjacent(t[i], t[i + 1])
    {
    }
  }

  /** Food eaten keeps the interval within [MinSpeed, its old value]. */
  lemma SpeedStaysInRange(g: Game, newFood: Cell)
    requires g.snake != [] && MinSpeed <= g.speed <= InitialSpeed
    ensures MinSpeed <= Tick(g, newFood).speed <= g.speed
  {
  }

  /** An arrow key pointing against the current direction is ignored; any other
      arrow key sets its unit vector; the direction stays a unit vector. */
  lemma SteerRejectsReversal(d: Cell, k: Key)
    requires IsUnit(d)
    ensures IsUnit(Steer(d, k))
    ensures k != OtherKey ==>
      Steer(d, k) == (if KeyVector(k) == Opposite(d) then d else KeyVector(k))
    ensures k == OtherKey ==> Steer(d, k) == d
  {
  }

  /** The guard compares a key only with the current direction, so two keys pressed
      before the next tick can turn the snake right round: heading right, Up then
      Left leaves it heading left, straight into its own neck. */
  lemma TwoKeysCanReverse()
    ensures Steer(Steer(Right, ArrowUp), ArrowLeft) == Opposite(Right)
  {
  }

  /** `resetGame` twice is `resetGame` once. */
  lemma ResetIdempotent(g: Game)
    ensures Reset(Reset(g)) == Reset(g)
  {
  }

  /** The initial round is a well-formed snake heading in a unit direction. */
  lemma InitialIsWellFormed()
    ensures WellFormed(InitialBody) && IsUnit(InitialDirection)
  {
  }

  // ---------------------------------------------------------------- component

  /** The state of the Snake component. */
  class SnakeGame {
    var snake: seq<Cell>
    var food: Cell
    var direction: Cell
    var running: bool
    var score: int
    var highScore: int
    var speed: int
    var gameOver: bool

    function State(): Game
      reads this
    {
      Game(snake, food, direction, running, score, highScore, speed, gameOver)
    }

    /** The component invariant: every reachable state has a well-formed snake, a
        unit direction and an interval between the floor and the initial value. */
    ghost predicate Valid()
      reads this
    {
      WellFormed(snake) && IsUnit(direction) && MinSpeed <= speed <= InitialSpeed
    }

    /** Mounting the component; the stored high score (`Number(...) || 0`) is read
        from storage by the caller. */
    constructor (storedHighScore: Option<int>)
      ensures Valid()
      ensures State() == Game(InitialBody, InitialFood, InitialDirection, false, 0,
                              if storedHighScore.Some? then storedHighScore.value else 0,
                              InitialSpeed, false)
    {
      snake := InitialBody;
      food := InitialFood;
      direction := InitialDirection;
      running := false;
      score := 0;
      highScore := if storedHighScore.Some? then storedHighScore.value else 0;
      speed := InitialSpeed;
      gameOver := false;
      InitialIsWellFormed();
    }

    /** `snake.some((s) => s.x === head.x && s.y === head.y)`. */
    method HitsBody(head: Cell) returns (hit: bool)
      ensures hit <==> head in snake
    {
      hit := false;
      var i := 0;
      while i < |snake| && !hit
        invariant 0 <= i <= |snake|
        invariant hit <==> head in snake[..i]
      {
        hit := snake[i] == head;
        i := i + 1;
        assert snake[..i] == snake[..i - 1] + [snake[i - 1]];
      }
      assert !hit ==> snake[..i] == snake;
    }

    /** `moveSnake`, run by the interval timer. */
    method MoveSnake(newFood: Cell)
      requires Valid()
      modifies this
      ensures Valid()
      ensures State() == Tick(old(State()), newFood)
    {
      ghost var next := Tick(State(), newFood);
      TickPreservesWellFormed(State(), newFood);
      var head := Shift(snake[0], direction);
      var hit := HitsBody(head);
      if head.x < 0 || head.y < 0 || head.x >= GridSize || head.y >= GridSize || hit {
        assert Collides(State());
        EndGame();
        return;
      }
      assert !Collides(State()) && head == NextHead(State());
      var newSnake := [head] + snake;
      if head == food {
        score := score + Reward;
        speed := if speed - SpeedStep > MinSpeed then speed - SpeedStep else MinSpeed;
        food := newFood;
      } else {
        newSnake := newSnake[..|newSnake| - 1];
        assert newSnake == [head] + snake[..|snake| - 1];
      }
      assert newSnake == next.snake;
      snake := newSnake;
      assert State() == next;
    }

    /** `endGame`; the write of the new high score to storage is left to the caller. */
    method EndGame()
      modifies this
      ensures State() == Finish(old(State()))
    {
      running := false;
      gameOver := true;
      if score > highScore {
        highScore := score;
      }
    }

    /** `resetGame`. */
    method ResetGame()
      requires Valid()
      modifies this
      ensures Valid()
      ensures State() == Reset(old(State()))
    {
      snake := InitialBody;
      direction := InitialDirection;
      food := InitialFood;
      score := 0;
      speed := InitialSpeed;
      gameOver := false;
      InitialIsWellFormed();
    }

    /** The `keydown` handler. */
    method HandleKey(k: Key)
      requires Valid()
      modifies this
      ensures Valid()
      ensures State() == old(State()).(direction := Steer(old(direction), k))
    {
      SteerRejectsReversal(direction, k);
      match k
      case ArrowUp =>
        if direction.y == 1 { return; }
        direction := Up;
      case ArrowDown =>
        if direction.y == -1 { return; }
        direction := Down;
      case ArrowLeft =>
        if direction.x == 1 { return; }
        direction := Left;
      case ArrowRight =>
        if direction.x == -1 { return; }
        direction := Right;
      case OtherKey =>
    }
  }
}
