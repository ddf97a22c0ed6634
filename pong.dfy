/** Pong (src/components/games/PongGame.tsx): a ball on a 400 by 300 court between two
    60-high paddles; the right paddle is on the arrow keys, the left one on W and S and an
    AI; walls and paddles turn the ball back, a paddle hit speeds it up by a tenth, a ball
    past an edge scores for the other side and is served again; first to 5 wins. */
module Pong {
  import opened Common

  const GameWidth: int := 400
  const GameHeight: int := 300
  const PaddleHeight: int := 60
  const PaddleWidth: int := 10
  const BallSize: int := 10
  const WinningScore: int := 5

  /** The lowest top a paddle can have. */
  const PaddleLimit: int := GameHeight - PaddleHeight

  datatype Side = LeftSide | RightSide
  datatype Ball = Ball(x: real, y: real, dx: real, dy: real)

  /** The serve after a point: to the right after the right side scores, to the left
      after the left side does. */
  function Serve(toRight: bool): (b: Ball)
    ensures b.x == 200.0 && b.y == 150.0 && AbsR(b.dx) == 3.0 && b.dy == 3.0
    ensures b.dx > 0.0 <==> toRight
  {
    Ball((GameWidth / 2) as real, (GameHeight / 2) as real, if toRight then 3.0 else -3.0, 3.0)
  }

  const StartPaddle: int := GameHeight / 2 - PaddleHeight / 2

  /** A paddle moved by `delta` and kept on the court. */
  function Moved(p: int, delta: int): (r: int)
    ensures 0 <= p <= PaddleLimit ==> 0 <= r <= PaddleLimit
    ensures delta >= 0 ==> r == Min(PaddleLimit, p + delta)
    ensures delta < 0 ==> r == Max(0, p + delta)
  {
    if delta >= 0 then Min(PaddleLimit, p + delta) else Max(0, p + delta)
  }

  // ---------------------------------------------------------------- the ball

  /** The ball between the paddles at the left edge (x at most 10). */
  predicate AtLeftPaddle(b: Ball, left: int)
  {
    b.x <= PaddleWidth as real && left as real <= b.y <= (left + PaddleHeight) as real
  }

  predicate AtRightPaddle(b: Ball, right: int)
  {
    b.x >= (GameWidth - PaddleWidth - BallSize) as real && right as real <= b.y <= (right + PaddleHeight) as real
  }

  /** A paddle hit: the ball turns back and both speeds grow by a tenth. */
  function Bounced(b: Ball): (r: Ball)
    ensures r.x == b.x && r.y == b.y
    ensures AbsR(r.dx) == 1.1 * AbsR(b.dx) && AbsR(r.dy) == 1.1 * AbsR(b.dy)
    ensures b.dx < 0.0 ==> r.dx > 0.0
    ensures b.dx > 0.0 ==> r.dx < 0.0
  {
    b.(dx := -b.dx * 1.1, dy := b.dy * 1.1)
  }

  /** The ball's flight before scoring: it moves, turns back at the top or bottom wall,
      then off either paddle. */
  function Flight(b: Ball, left: int, right: int): (r: Ball)
    ensures r.x == b.x + b.dx && r.y == b.y + b.dy
    ensures AbsR(r.dx) == AbsR(b.dx) || AbsR(r.dx) == 1.1 * AbsR(b.dx)
    ensures AbsR(r.dy) == AbsR(b.dy) || AbsR(r.dy) == 1.1 * AbsR(b.dy)
    ensures 0.0 < b.y + b.dy < (GameHeight - BallSize) as real && !AtLeftPaddle(r, left) && !AtRightPaddle(r, right) ==>
              r == Ball(b.x + b.dx, b.y + b.dy, b.dx, b.dy)
  {
    var moved := b.(x := b.x + b.dx, y := b.y + b.dy);
    var walled := if moved.y <= 0.0 || moved.y >= (GameHeight - BallSize) as real then moved.(dy := -moved.dy) else moved;
    var leftHit := if AtLeftPaddle(walled, left) then Bounced(walled) else walled;
    if AtRightPaddle(leftHit, right) then Bounced(leftHit) else leftHit
  }

  /** A ball past the left edge scores for the right side, one past the right edge for
      the left side; the ball is then served again. */
  datatype Outcome = Outcome(ball: Ball, point: Option<Side>)

  function BallStep(b: Ball, left: int, right: int): (o: Outcome)
    ensures var f := Flight(b, left, right);
            (f.x < 0.0 ==> o == Outcome(Serve(true), Some(RightSide))) &&
            (f.x > GameWidth as real ==> o == Outcome(Serve(false), Some(LeftSide))) &&
            (0.0 <= f.x <= GameWidth as real ==> o == Outcome(f, None))
  {
    var f := Flight(b, left, right);
    if f.x < 0.0 then Outcome(Serve(true), Some(RightSide))
    else if f.x > GameWidth as real then Outcome(Serve(false), Some(LeftSide))
    else Outcome(f, None)
  }

  /** A ball that is not in play any more comes back at the centre with speed 3 on both
      axes. */
  lemma ServedFromCentre(b: Ball, left: int, right: int)
    ensures var o := BallStep(b, left, right);
            o.point.Some? ==> o.ball.x == 200.0 && o.ball.y == 150.0 && AbsR(o.ball.dx) == 3.0 && o.ball.dy == 3.0
    ensures var o := BallStep(b, left, right);
            o.point == Some(LeftSide) ==> o.ball.dx < 0.0
    ensures var o := BallStep(b, left, right);
            o.point == Some(RightSide) ==> o.ball.dx > 0.0
  {
  }

  /** A ball moving left that hits the left paddle leaves moving right, a tenth faster
      (unless it is already past the edge). */
  lemma LeftReturn(b: Ball, left: int, right: int)
    requires b.dx < 0.0 && 0.0 < b.y + b.dy < (GameHeight - BallSize) as real
    requires AtLeftPaddle(b.(x := b.x + b.dx, y := b.y + b.dy), left)
    requires b.x + b.dx >= 0.0
    ensures BallStep(b, left, right) == Outcome(Ball(b.x + b.dx, b.y + b.dy, -b.dx * 1.1, b.dy * 1.1), None)
    ensures BallStep(b, left, right).ball.dx > -b.dx
  {
    var m := b.(x := b.x + b.dx, y := b.y + b.dy);
    assert !AtRightPaddle(Bounced(m), right);
  }

  // ---------------------------------------------------------------- the AI

  /** The AI's move for the left paddle, from the ball's height before the tick: it
      steps 3 towards the ball when their centres are more than 10 apart. */
  function Ai(paddle: int, ballY: real): (r: int)
    ensures 0 <= paddle <= PaddleLimit ==> 0 <= r <= PaddleLimit
    ensures AbsR((paddle + PaddleHeight / 2) as real - (ballY + (BallSize / 2) as real)) <= 10.0 ==> r == paddle
    ensures (paddle + PaddleHeight / 2) as real < ballY + (BallSize / 2) as real - 10.0 ==> r == Min(PaddleLimit, paddle + 3)
    ensures (paddle + PaddleHeight / 2) as real > ballY + (BallSize / 2) as real + 10.0 ==> r == Max(0, paddle - 3)
  {
    var paddleCenter := (paddle + PaddleHeight / 2) as real;
    var ballCenter := ballY + (BallSize / 2) as real;
    if paddleCenter < ballCenter - 10.0 then Moved(paddle, 3)
    else if paddleCenter > ballCenter + 10.0 then Moved(paddle, -3)
    else paddle
  }

  /** The AI moves the paddle by at most 3 and never away from the ball's centre. */
  lemma AiFollows(paddle: int, ballY: real)
    requires 0 <= paddle <= PaddleLimit
    ensures Abs(Ai(paddle, ballY) - paddle) <= 3
    ensures Ai(paddle, ballY) > paddle ==> (paddle + PaddleHeight / 2) as real < ballY + (BallSize / 2) as real
    ensures Ai(paddle, ballY) < paddle ==> (paddle + PaddleHeight / 2) as real > ballY + (BallSize / 2) as real
  {
  }

  // ---------------------------------------------------------------- the scores

  /** The score after a point, and whether it ends the game. */
  function Scored(left: int, right: int, point: Option<Side>): (r: (int, int))
    ensures point == None ==> r == (left, right)
    ensures point == Some(LeftSide) ==> r == (left + 1, right)
    ensures point == Some(RightSide) ==> r == (left, right + 1)
    ensures r.0 + r.1 == left + right + (if point.Some? then 1 else 0)
  {
    match point
    case None => (left, right)
    case Some(LeftSide) => (left + 1, right)
    case Some(RightSide) => (left, right + 1)
  }

  /** The score the rest of the site sees: both sides' points together. */
  function Reported(left: int, right: int): int { left + right }

  /** The scores of a game in progress, or of one that is over, together with its
      winner: the side that has reached 5, the other one having fewer. */
  predicate ScoresOk(left: int, right: int, winner: Option<Side>)
  {
    0 <= left <= WinningScore && 0 <= right <= WinningScore &&
    (winner == None ==> left < WinningScore && right < WinningScore) &&
    (winner == Some(LeftSide) ==> left == WinningScore && right < WinningScore) &&
    (winner == Some(RightSide) ==> right == WinningScore && left < WinningScore)
  }

  /** The winner after a point of a game in progress: the side whose score reaches 5. */
  function Winner(left: int, right: int, point: Option<Side>): (w: Option<Side>)
    requires ScoresOk(left, right, None)
    ensures var s := Scored(left, right, point);
            ScoresOk(s.0, s.1, w) && (w.Some? ==> point == w)
  {
    var s := Scored(left, right, point);
    if point == Some(LeftSide) && s.0 >= WinningScore then Some(LeftSide)
    else if point == Some(RightSide) && s.1 >= WinningScore then Some(RightSide)
    else None
  }

  /** A game ends after at most 9 points: each point adds 1 to one of two scores that
      stay under 5 while it lasts. */
  lemma GameLength(left: int, right: int)
    requires ScoresOk(left, right, None)
    ensures Reported(left, right) <= 2 * (WinningScore - 1)
  {
  }

  class Game {
    var leftPaddle: int
    var rightPaddle: int
    var ball: Ball
    var leftScore: int
    var rightScore: int
    var gameOver: bool
    var winner: Option<Side>

    predicate Valid()
      reads this
    {
      0 <= leftPaddle <= PaddleLimit && 0 <= rightPaddle <= PaddleLimit &&
      ScoresOk(leftScore, rightScore, winner) && (gameOver <==> winner.Some?)
    }

    constructor ()
      ensures Valid()
      ensures leftPaddle == StartPaddle && rightPaddle == StartPaddle && ball == Serve(true)
      ensures leftScore == 0 && rightScore == 0 && !gameOver && winner == None
    {
      leftPaddle, rightPaddle, ball := StartPaddle, StartPaddle, Serve(true);
      leftScore, rightScore, gameOver, winner := 0, 0, false, None;
    }

    /** handleKeyPress: nothing unless playing and the game is on; the arrows move the
        right paddle by 20, W and S (either case) the left one. */
    method Key(key: string, playing: bool)
      requires Valid()
      modifies this
      ensures Valid()
      ensures ball == old(ball) && leftScore == old(leftScore) && rightScore == old(rightScore)
      ensures gameOver == old(gameOver) && winner == old(winner)
      ensures !playing || gameOver ==> leftPaddle == old(leftPaddle) && rightPaddle == old(rightPaddle)
      ensures playing && !gameOver ==>
                rightPaddle == (if key == ArrowUp then Moved(old(rightPaddle), -20)
                                else if key == ArrowDown then Moved(old(rightPaddle), 20)
                                else old(rightPaddle)) &&
                leftPaddle == (if key == "w" || key == "W" then Moved(old(leftPaddle), -20)
                               else if key == "s" || key == "S" then Moved(old(leftPaddle), 20)
                               else old(leftPaddle))
    {
      if !playing || gameOver {
        return;
      }
      if key == ArrowUp {
        rightPaddle := Moved(rightPaddle, -20);
      } else if key == ArrowDown {
        rightPaddle := Moved(rightPaddle, 20);
      } else if key == "w" || key == "W" {
        leftPaddle := Moved(leftPaddle, -20);
      } else if key == "s" || key == "S" {
        leftPaddle := Moved(leftPaddle, 20);
      }
    }

    /** One firing of the 16 ms loop: nothing unless playing and the game is on. */
    method Tick(playing: bool)
      requires Valid()
      modifies this
      ensures Valid() && rightPaddle == old(rightPaddle)
      ensures !playing || old(gameOver) ==>
                leftPaddle == old(leftPaddle) && ball == old(ball) && leftScore == old(leftScore) &&
                rightScore == old(rightScore) && gameOver == old(gameOver) && winner == old(winner)
      ensures playing && !old(gameOver) ==>
                var o := BallStep(old(ball), old(leftPaddle), old(rightPaddle));
                ball == o.ball && (leftScore, rightScore) == Scored(old(leftScore), old(rightScore), o.point) &&
                winner == Winner(old(leftScore), old(rightScore), o.point) &&
                leftPaddle == Ai(old(leftPaddle), old(ball).y)
    {
      if playing && !gameOver {
        Step();
      }
    }

    /** A tick of play: the ball flies, a point is counted and may end the game, and the
        AI moves the left paddle after the ball's height before the tick. */
    method Step()
      requires Valid() && !gameOver
      modifies this
      ensures Valid() && rightPaddle == old(rightPaddle)
      ensures var o := BallStep(old(ball), old(leftPaddle), old(rightPaddle));
              ball == o.ball && (leftScore, rightScore) == Scored(old(leftScore), old(rightScore), o.point) &&
              winner == Winner(old(leftScore), old(rightScore), o.point)
      ensures leftPaddle == Ai(old(leftPaddle), old(ball).y)
    {
      var before := ball.y;
      var o := BallStep(ball, leftPaddle, rightPaddle);
      var s := Scored(leftScore, rightScore, o.point);
      var w := Winner(leftScore, rightScore, o.point);
      ball, leftScore, rightScore, winner, gameOver := o.ball, s.0, s.1, w, w.Some?;
      leftPaddle := Ai(leftPaddle, before);
    }
  }
}
