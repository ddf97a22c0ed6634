/** Snake (src/components/games/SnakeGame.tsx): a 20 by 20 toroidal grid, a snake whose
    first segment is the head, a food cell, a direction that may only turn by a right
    angle, self-collision, and grow-or-shift on each tick. */
module Snake {
  import opened Common

  /** GAME_SIZE / GRID_SIZE = 400 / 20 cells per side. */
  const Cells: int := 20

  datatype Pos = Pos(x: int, y: int)

  const Start: Pos := Pos(10, 10)
  const Still: Pos := Pos(0, 0)

  predicate InGrid(p: Pos)
  {
    0 <= p.x < Cells && 0 <= p.y < Cells
  }

  /** The five directions the game ever holds: standing still or one cell along an axis. */
  predicate IsDirection(d: Pos)
  {
    d in {Still, Pos(0, -1), Pos(0, 1), Pos(-1, 0), Pos(1, 0)}
  }

  /** No segment occurs twice. */
  predicate NoOverlap(s: seq<Pos>)
  {
    forall i, j :: 0 <= i < j < |s| ==> s[i] != s[j]
  }

  // ---------------------------------------------------------------- direction keys

  /** The direction after a key: a vertical arrow only when not moving vertically, a
      horizontal arrow only when not moving horizontally; any other key changes nothing. */
  function Turn(d: Pos, key: string): (r: Pos)
    ensures key == ArrowUp ==> r == (if d.y == 0 then Pos(0, -1) else d)
    ensures key == ArrowDown ==> r == (if d.y == 0 then Pos(0, 1) else d)
    ensures key == ArrowLeft ==> r == (if d.x == 0 then Pos(-1, 0) else d)
    ensures key == ArrowRight ==> r == (if d.x == 0 then Pos(1, 0) else d)
    ensures key !in {ArrowUp, ArrowDown, ArrowLeft, ArrowRight} ==> r == d
  {
    if key == ArrowUp && d.y == 0 then Pos(0, -1)
    else if key == ArrowDown && d.y == 0 then Pos(0, 1)
    else if key == ArrowLeft && d.x == 0 then Pos(-1, 0)
    else if key == ArrowRight && d.x == 0 then Pos(1, 0)
    else d
  }

  /** A turn keeps the direction one of the five, and a moving snake is never sent back
      the way it came: the new direction is the old one or at a right angle to it. */
  lemma TurnNeverReverses(d: Pos, key: string)
    requires IsDirection(d)
    ensures IsDirection(Turn(d, key))
    ensures d != Still ==> Turn(d, key) != Pos(-d.x, -d.y)
    ensures d != Still ==> Turn(d, key) == d || Turn(d, key).x * d.x + Turn(d, key).y * d.y == 0
  {
  }

  // ---------------------------------------------------------------- the head step

  /** The wrap applied to each coordinate: one step past an edge comes back at the other. */
  function Wrap(v: int): (r: int)
    ensures 0 <= v < Cells ==> r == v
    ensures v < 0 ==> r == Cells - 1
    ensures v >= Cells ==> r == 0
  {
    if v < 0 then Cells - 1 else if v >= Cells then 0 else v
  }

  function NextHead(head: Pos, d: Pos): (h: Pos)
    ensures InGrid(h)
    ensures InGrid(head) && IsDirection(d) ==> (h.x - head.x) % Cells == d.x % Cells && (h.y - head.y) % Cells == d.y % Cells
  {
    Pos(Wrap(head.x + d.x), Wrap(head.y + d.y))
  }

  // ---------------------------------------------------------------- food

  /** The do-while of generateFood over the sequence of random draws: the first draw off
      `avoid`, or None when every draw supplied is taken. */
  function FoodAvoiding(avoid: seq<Pos>, draws: seq<Pos>): (f: Option<Pos>)
    ensures f.Some? ==> f.value in draws && f.value !in avoid
    ensures f.None? <==> forall k :: 0 <= k < |draws| ==> draws[k] in avoid
    ensures f.Some? ==> exists k :: 0 <= k < |draws| && draws[k] == f.value && forall k' :: 0 <= k' < k ==> draws[k'] in avoid
    decreases |draws|
  {
    if |draws| == 0 then None
    else if draws[0] !in avoid then Some(draws[0])
    else
      var rest := FoodAvoiding(avoid, draws[1..]);
      if rest.Some? then
        var k :| 0 <= k < |draws[1..]| && draws[1..][k] == rest.value && forall k' :: 0 <= k' < k ==> draws[1..][k'] in avoid;
        assert draws[k + 1] == rest.value;
        rest
      else rest
  }

  /** generateFood: keep drawing until a draw misses every segment of `avoid`. */
  /** The tick's head computation: one step along the direction, then the four
      wrap-around tests. */
  method HeadAfter(head: Pos, direction: Pos) returns (h: Pos)
    ensures h == NextHead(head, direction)
  {
    var hx := head.x + direction.x;
    var hy := head.y + direction.y;
    if hx < 0 { hx := Cells - 1; }
    if hx >= Cells { hx := 0; }
    if hy < 0 { hy := Cells - 1; }
    if hy >= Cells { hy := 0; }
    h := Pos(hx, hy);
  }

  method GenerateFood(avoid: seq<Pos>, draws: seq<Pos>) returns (f: Option<Pos>)
    ensures f == FoodAvoiding(avoid, draws)
  {
    var i := 0;
    while i < |draws| && draws[i] in avoid
      invariant 0 <= i <= |draws|
      invariant FoodAvoiding(avoid, draws) == FoodAvoiding(avoid, draws[i..])
    {
      assert draws[i..][1..] == draws[i + 1..];
      i := i + 1;
    }
    if i < |draws| {
      f := Some(draws[i]);
    } else {
      f := None;
    }
  }

  /** As written, generateFood tests the snake captured by the closure, which is the snake
      before the move (or, in resetGame, the snake that just died). */
  function RespawnAsWritten(before: seq<Pos>, after: seq<Pos>, draws: seq<Pos>): (f: Option<Pos>)
    ensures f.Some? ==> f.value !in before
  {
    FoodAvoiding(before, draws)
  }

  /** The food is then placed under the head that just ate it: a one-cell snake at (10, 10)
      moving right eats at (11, 10) and the first draw, (11, 10), is accepted. Likewise
      resetGame can put the food on the fresh snake at (10, 10). */
  lemma StaleSnakeFood()
    ensures var before := [Start];
            var after := [Pos(11, 10), Start];
            NextHead(Start, Pos(1, 0)) == Pos(11, 10) &&
            RespawnAsWritten(before, after, [Pos(11, 10)]) == Some(Pos(11, 10)) && Pos(11, 10) in after
    ensures RespawnAsWritten([Pos(3, 4)], [Start], [Start]) == Some(Start)
  {
    assert Pos(11, 10) !in [Start];
    assert Start !in [Pos(3, 4)];
  }

  /** The food placement the game means: the new food is never on the snake it is placed
      beside, and it is a cell in the grid when the draws are. */
  function Respawn(after: seq<Pos>, draws: seq<Pos>): (f: Option<Pos>)
    ensures f.Some? ==> f.value !in after
    ensures f.Some? && (forall k :: 0 <= k < |draws| ==> InGrid(draws[k])) ==> InGrid(f.value)
    ensures f.None? <==> forall k :: 0 <= k < |draws| ==> draws[k] in after
  {
    FoodAvoiding(after, draws)
  }

  // ---------------------------------------------------------------- the component

  class Game {
    var snake: seq<Pos>
    var food: Pos
    var direction: Pos
    var score: int
    var gameOver: bool

    /** The snake is never empty, lies in the grid without overlapping itself, and moves in
        one of the five directions. */
    predicate Valid()
      reads this
    {
      |snake| > 0 && (forall k :: 0 <= k < |snake| ==> InGrid(snake[k])) && NoOverlap(snake) &&
      IsDirection(direction)
    }

    constructor ()
      ensures Valid()
      ensures snake == [Start] && food == Pos(15, 15) && direction == Still && score == 0 && !gameOver
    {
      snake := [Start];
      food := Pos(15, 15);
      direction := Still;
      score := 0;
      gameOver := false;
    }

    /** resetGame, with the corrected food placement. When no draw is free the food stays
        where it was. */
    method Reset(draws: seq<Pos>)
      modifies this
      ensures Valid()
      ensures snake == [Start] && direction == Still && score == 0 && !gameOver
      ensures food == (var f := Respawn([Start], draws); if f.Some? then f.value else old(food))
    {
      var f := GenerateFood([Start], draws);
      snake := [Start];
      if f.Some? {
        food := f.value;
      }
      direction := Still;
      score := 0;
      gameOver := false;
    }

    /** handleKeyPress: ignored unless playing and not over. */
    method Key(key: string, playing: bool)
      requires Valid()
      modifies this
      ensures Valid()
      ensures snake == old(snake) && food == old(food) && score == old(score) && gameOver == old(gameOver)
      ensures direction == if !playing || old(gameOver) then old(direction) else Turn(old(direction), key)
    {
      if !playing || gameOver {
        return;
      }
      TurnNeverReverses(direction, key);
      if key == ArrowUp {
        if direction.y == 0 { direction := Pos(0, -1); }
      } else if key == ArrowDown {
        if direction.y == 0 { direction := Pos(0, 1); }
      } else if key == ArrowLeft {
        if direction.x == 0 { direction := Pos(-1, 0); }
      } else if key == ArrowRight {
        if direction.x == 0 { direction := Pos(1, 0); }
      }
    }

    /** One firing of the 150 ms loop. Standing still does nothing. A head that lands on any
        current segment, the tail included, ends the game and leaves the snake as it was.
        Otherwise the head is pushed on; on the food the snake keeps its tail, a new food
        is drawn (`draws`) and 10 is added to the score, else the tail is dropped. */
    method Tick(playing: bool, draws: seq<Pos>)
      requires Valid()
      modifies this
      ensures Valid()
      ensures direction == old(direction)
      ensures !playing || old(gameOver) || old(direction) == Still ==>
                snake == old(snake) && food == old(food) && score == old(score) && gameOver == old(gameOver)
      ensures playing && !old(gameOver) && old(direction) != Still ==>
                var h := NextHead(old(snake)[0], old(direction));
                (h in old(snake) ==>
                   gameOver && snake == old(snake) && food == old(food) && score == old(score)) &&
                (h !in old(snake) && h == old(food) ==>
                   !gameOver && snake == [h] + old(snake) && score == old(score) + 10 &&
                   food == (var f := Respawn(snake, draws); if f.Some? then f.value else old(food))) &&
                (h !in old(snake) && h != old(food) ==>
                   !gameOver && snake == [h] + old(snake)[..|old(snake)| - 1] &&
                   food == old(food) && score == old(score))
    {
      if playing && !gameOver && direction != Still {
        Step(draws);
      }
    }

    /** The tick of a running game with a direction. */
    method Step(draws: seq<Pos>)
      requires Valid() && !gameOver && direction != Still
      modifies this
      ensures Valid()
      ensures direction == old(direction)
      ensures var h := NextHead(old(snake)[0], old(direction));
              (h in old(snake) ==>
                 gameOver && snake == old(snake) && food == old(food) && score == old(score)) &&
              (h !in old(snake) && h == old(food) ==>
                 !gameOver && snake == [h] + old(snake) && score == old(score) + 10 &&
                 food == (var f := Respawn(snake, draws); if f.Some? then f.value else old(food))) &&
              (h !in old(snake) && h != old(food) ==>
                 !gameOver && snake == [h] + old(snake)[..|old(snake)| - 1] &&
                 food == old(food) && score == old(score))
    {
      var h := HeadAfter(snake[0], direction);
      if h in snake {
        gameOver := true;
        return;
      }
      var newSnake := [h] + snake;
      if h == food {
        var f := GenerateFood(newSnake, draws);
        if f.Some? {
          food := f.value;
        }
        score := score + 10;
      } else {
        newSnake := newSnake[..|newSnake| - 1];
        assert newSnake == [h] + snake[..|snake| - 1];
      }
      snake := newSnake;
    }
  }
}
