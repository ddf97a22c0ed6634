/** Pac-Man (src/components/games/PacManGame.tsx): a 380 by 420 field that wraps at its
    edges, a grid of 72 dots worth 10 each, four direction keys, and four ghosts that
    wander (their choices are the random oracle). */
module PacMan {
  import opened Common

  const GameWidth: int := 380
  const GameHeight: int := 420
  /** The largest coordinates Pac-Man and the ghosts take: the field less one 20-pixel
      sprite. */
  const MaxX: int := GameWidth - 20
  const MaxY: int := GameHeight - 20

  datatype Vec = Vec(x: int, y: int)
  datatype Dot = Dot(x: int, y: int, eaten: bool)
  datatype Ghost = Ghost(x: int, y: int, color: string, direction: Vec)

  // ---------------------------------------------------------------- the dot grid

  /** Columns x = 40, 80, .., 320 (while x < 340) and rows y = 40, .., 360 (while y < 380). */
  const Columns: int := 8
  const Rows: int := 9

  /** Where the i-th dot pushed by the nested loops lies. */
  function DotAt(i: int): Vec
  {
    Vec(40 + 40 * (i / Rows), 40 + 40 * (i % Rows))
  }

  /** The nested for-loops of the mount effect, column by column. */
  method InitialDots() returns (dots: seq<Dot>)
    ensures |dots| == Columns * Rows
    ensures forall i :: 0 <= i < |dots| ==> dots[i] == Dot(DotAt(i).x, DotAt(i).y, false)
  {
    dots := [];
    var x := 40;
    while x < GameWidth - 40
      invariant 40 <= x <= 360 && x % 40 == 0
      invariant |dots| == (x - 40) / 40 * Rows
      invariant forall i :: 0 <= i < |dots| ==> dots[i] == Dot(DotAt(i).x, DotAt(i).y, false)
    {
      var y := 40;
      while y < GameHeight - 40
        invariant 40 <= y <= 400 && y % 40 == 0
        invariant |dots| == (x - 40) / 40 * Rows + (y - 40) / 40
        invariant forall i :: 0 <= i < |dots| ==> dots[i] == Dot(DotAt(i).x, DotAt(i).y, false)
      {
        DotAtIndex((x - 40) / 40, (y - 40) / 40);
        dots := dots + [Dot(x, y, false)];
        y := y + 40;
      }
      x := x + 40;
    }
  }

  lemma DotAtIndex(c: int, r: int)
    requires 0 <= c < Columns && 0 <= r < Rows
    ensures DotAt(c * Rows + r) == Vec(40 + 40 * c, 40 + 40 * r)
  {
    assert (c * Rows + r) / Rows == c;
    assert (c * Rows + r) % Rows == r;
  }

  /** The grid is every x in {40, .., 320} against every y in {40, .., 360}, spaced 40
      apart. */
  lemma DotGrid(i: int)
    requires 0 <= i < Columns * Rows
    ensures var v := DotAt(i); 40 <= v.x <= 320 && 40 <= v.y <= 360 && v.x % 40 == 0 && v.y % 40 == 0
  {
  }

  lemma GridCovered(c: int, r: int)
    requires 0 <= c < Columns && 0 <= r < Rows
    ensures exists i :: 0 <= i < Columns * Rows && DotAt(i) == Vec(40 + 40 * c, 40 + 40 * r)
  {
    DotAtIndex(c, r);
  }

  // ---------------------------------------------------------------- keys and moves

  /** The arrows set one of four vectors of length 4; other keys leave the direction. */
  function KeyDirection(d: Vec, key: string): (r: Vec)
    ensures key == ArrowUp ==> r == Vec(0, -4)
    ensures key == ArrowDown ==> r == Vec(0, 4)
    ensures key == ArrowLeft ==> r == Vec(-4, 0)
    ensures key == ArrowRight ==> r == Vec(4, 0)
    ensures key !in {ArrowUp, ArrowDown, ArrowLeft, ArrowRight} ==> r == d
  {
    if key == ArrowUp then Vec(0, -4)
    else if key == ArrowDown then Vec(0, 4)
    else if key == ArrowLeft then Vec(-4, 0)
    else if key == ArrowRight then Vec(4, 0)
    else d
  }

  /** The directions Pac-Man ever holds: still, or one of the four. */
  predicate PacDirection(d: Vec)
  {
    d in {Vec(0, 0), Vec(0, -4), Vec(0, 4), Vec(-4, 0), Vec(4, 0)}
  }

  /** The boundary wrap on one axis: below 0 goes to the far edge, beyond it goes to 0. */
  function WrapAxis(v: int, max: int): (r: int)
    requires max >= 0
    ensures 0 <= r <= max
    ensures 0 <= v <= max ==> r == v
    ensures v < 0 ==> r == max
    ensures v > max ==> r == 0
  {
    if v < 0 then max else if v > max then 0 else v
  }

  /** One step along `d` with the wrap. */
  function Wrapped(p: Vec, d: Vec): (r: Vec)
    ensures 0 <= r.x <= MaxX && 0 <= r.y <= MaxY
  {
    Vec(WrapAxis(p.x + d.x, MaxX), WrapAxis(p.y + d.y, MaxY))
  }

  /** A step that stays inside the field moves by exactly `d`. */
  lemma WrappedInside(p: Vec, d: Vec)
    requires 0 <= p.x + d.x <= MaxX && 0 <= p.y + d.y <= MaxY
    ensures Wrapped(p, d) == Vec(p.x + d.x, p.y + d.y)
  {
  }

  // ---------------------------------------------------------------- dots

  /** An uneaten dot within 15 on both axes of Pac-Man. */
  predicate Eats(dot: Dot, p: Vec)
  {
    !dot.eaten && Abs(dot.x - p.x) < 15 && Abs(dot.y - p.y) < 15
  }

  /** The dots after `prevDots.map`. */
  function Collect(dots: seq<Dot>, p: Vec): (r: seq<Dot>)
    ensures |r| == |dots|
    ensures forall i :: 0 <= i < |dots| ==> r[i] == if Eats(dots[i], p) then dots[i].(eaten := true) else dots[i]
  {
    seq(|dots|, i requires 0 <= i < |dots| => if Eats(dots[i], p) then dots[i].(eaten := true) else dots[i])
  }

  /** Eaten dots stay eaten, and no dot moves. */
  lemma CollectMonotone(dots: seq<Dot>, p: Vec, i: int)
    requires 0 <= i < |dots|
    ensures var r := Collect(dots, p);
            r[i].x == dots[i].x && r[i].y == dots[i].y && (dots[i].eaten ==> r[i].eaten)
  {
  }

  function EatenCount(dots: seq<Dot>): nat
  {
    if |dots| == 0 then 0 else (if dots[0].eaten then 1 else 0) + EatenCount(dots[1..])
  }

  function EatsCount(dots: seq<Dot>, p: Vec): nat
  {
    if |dots| == 0 then 0 else (if Eats(dots[0], p) then 1 else 0) + EatsCount(dots[1..], p)
  }

  lemma {:induction false} CollectCount(dots: seq<Dot>, p: Vec)
    ensures EatenCount(Collect(dots, p)) == EatenCount(dots) + EatsCount(dots, p)
  {
    if |dots| > 0 {
      assert Collect(dots, p)[1..] == Collect(dots[1..], p);
      CollectCount(dots[1..], p);
    }
  }

  predicate AnyEaten(dots: seq<Dot>, p: Vec)
  {
    exists k :: 0 <= k < |dots| && Eats(dots[k], p)
  }

  lemma {:induction false} EatsCountUnique(dots: seq<Dot>, p: Vec)
    requires forall i, j :: 0 <= i < j < |dots| && Eats(dots[i], p) ==> !Eats(dots[j], p)
    ensures EatsCount(dots, p) == if AnyEaten(dots, p) then 1 else 0
  {
    if |dots| > 0 {
      var rest := dots[1..];
      assert forall i, j :: 0 <= i < j < |rest| && Eats(rest[i], p) ==> !Eats(rest[j], p) by {
        forall i, j | 0 <= i < j < |rest| && Eats(rest[i], p)
          ensures !Eats(rest[j], p)
        {
          assert rest[i] == dots[i + 1] && rest[j] == dots[j + 1];
        }
      }
      EatsCountUnique(rest, p);
      if Eats(dots[0], p) {
        assert !AnyEaten(rest, p) by {
          forall k | 0 <= k < |rest|
            ensures !Eats(rest[k], p)
          {
            assert rest[k] == dots[k + 1];
          }
        }
      } else if AnyEaten(dots, p) {
        var k :| 0 <= k < |dots| && Eats(dots[k], p);
        assert Eats(rest[k - 1], p);
      } else {
        assert !AnyEaten(rest, p) by {
          forall k | 0 <= k < |rest|
            ensures !Eats(rest[k], p)
          {
            assert rest[k] == dots[k + 1];
          }
        }
      }
    }
  }

  /** The dots lie on the grid, in loop order. */
  predicate OnGrid(dots: seq<Dot>)
  {
    |dots| == Columns * Rows && forall i :: 0 <= i < |dots| ==> dots[i].x == DotAt(i).x && dots[i].y == DotAt(i).y
  }

  /** Two grid dots are 40 apart on some axis, so Pac-Man is never within 15 of both. */
  lemma OneDotAtATime(dots: seq<Dot>, p: Vec, i: int, j: int)
    requires OnGrid(dots) && 0 <= i < j < |dots|
    ensures !(Eats(dots[i], p) && Eats(dots[j], p))
  {
    GridApart(i, j);
  }

  /** Two different grid dots differ by at least 40 on some axis. */
  lemma GridApart(i: int, j: int)
    requires 0 <= i < j
    ensures Abs(DotAt(i).x - DotAt(j).x) >= 40 || Abs(DotAt(i).y - DotAt(j).y) >= 40
  {
    if i / Rows == j / Rows {
      assert i % Rows != j % Rows by {
        assert i == Rows * (i / Rows) + i % Rows;
        assert j == Rows * (j / Rows) + j % Rows;
      }
    }
  }

  /** A tick eats at most one dot, and the eaten count rises by one exactly when it eats. */
  lemma CollectOne(dots: seq<Dot>, p: Vec)
    requires OnGrid(dots)
    ensures OnGrid(Collect(dots, p))
    ensures EatenCount(Collect(dots, p)) == EatenCount(dots) + if AnyEaten(dots, p) then 1 else 0
  {
    forall i, j | 0 <= i < j < |dots| && Eats(dots[i], p)
      ensures !Eats(dots[j], p)
    {
      OneDotAtATime(dots, p, i, j);
    }
    EatsCountUnique(dots, p);
    CollectCount(dots, p);
  }

  /** The score a tick reports: the snapshot plus 10 when a dot is eaten. */
  function DotScore(snapshot: int, ate: bool): (s: int)
    ensures s == if ate then snapshot + 10 else snapshot
  {
    if ate then snapshot + 10 else snapshot
  }

  // ---------------------------------------------------------------- ghosts

  function GhostDirections(): seq<Vec>
  {
    [Vec(2, 0), Vec(-2, 0), Vec(0, 2), Vec(0, -2)]
  }

  /** The ghost's next position along its direction leaves [20, 340] by [20, 380], or
      `turn` (`Math.random() < 0.1`) holds. */
  predicate Turns(g: Ghost, turn: bool)
  {
    var nx, ny := g.x + g.direction.x, g.y + g.direction.y;
    nx < 20 || nx > GameWidth - 40 || ny < 20 || ny > GameHeight - 40 || turn
  }

  /** One ghost step: a turning ghost takes the direction `choice` (the second draw) and
      steps from where it was; then the wrap. */
  function GhostStep(g: Ghost, turn: bool, choice: nat): (r: Ghost)
    requires choice < 4
    ensures 0 <= r.x <= MaxX && 0 <= r.y <= MaxY && r.color == g.color
    ensures g.direction in GhostDirections() ==> r.direction in GhostDirections()
    ensures Turns(g, turn) ==> r.direction == GhostDirections()[choice]
    ensures !Turns(g, turn) ==> r.direction == g.direction
    ensures r.x == WrapAxis(g.x + r.direction.x, MaxX) && r.y == WrapAxis(g.y + r.direction.y, MaxY)
  {
    var d := if Turns(g, turn) then GhostDirections()[choice] else g.direction;
    Ghost(WrapAxis(g.x + d.x, MaxX), WrapAxis(g.y + d.y, MaxY), g.color, d)
  }

  function MoveGhosts(gs: seq<Ghost>, turns: seq<bool>, choices: seq<nat>): (r: seq<Ghost>)
    requires |turns| == |gs| && |choices| == |gs| && forall k :: 0 <= k < |choices| ==> choices[k] < 4
    ensures |r| == |gs| && forall k :: 0 <= k < |gs| ==> r[k] == GhostStep(gs[k], turns[k], choices[k])
  {
    seq(|gs|, k requires 0 <= k < |gs| => GhostStep(gs[k], turns[k], choices[k]))
  }

  function InitialGhosts(): seq<Ghost>
  {
    [Ghost(180, 180, "red", Vec(2, 0)), Ghost(160, 180, "pink", Vec(-2, 0)),
     Ghost(200, 180, "cyan", Vec(0, 2)), Ghost(180, 160, "orange", Vec(0, -2))]
  }

  predicate GhostOk(g: Ghost)
  {
    0 <= g.x <= MaxX && 0 <= g.y <= MaxY && g.direction in GhostDirections()
  }

  // ---------------------------------------------------------------- the component

  class Game {
    var pacmanPos: Vec
    var direction: Vec
    var score: int
    var dots: seq<Dot>
    var ghosts: seq<Ghost>

    /** Pac-Man is in the field with one of his five directions, the dots stay on the grid,
        the ghosts in the field with one of their four directions, and the score is 10 for
        every eaten dot. */
    predicate Valid()
      reads this
    {
      0 <= pacmanPos.x <= MaxX && 0 <= pacmanPos.y <= MaxY && PacDirection(direction) &&
      OnGrid(dots) && score == 10 * EatenCount(dots) &&
      forall k :: 0 <= k < |ghosts| ==> GhostOk(ghosts[k])
    }

    /** The initial state once the mount effect has placed the dots and the ghosts. */
    constructor ()
      ensures Valid()
      ensures pacmanPos == Vec(180, 300) && direction == Vec(0, 0) && score == 0 && ghosts == InitialGhosts()
      ensures forall i :: 0 <= i < |dots| ==> !dots[i].eaten
    {
      var ds := InitialDots();
      NoneEaten(ds);
      pacmanPos, direction, score, dots, ghosts := Vec(180, 300), Vec(0, 0), 0, ds, InitialGhosts();
    }

    method Key(key: string, playing: bool)
      requires Valid()
      modifies this
      ensures Valid()
      ensures pacmanPos == old(pacmanPos) && score == old(score) && dots == old(dots) && ghosts == old(ghosts)
      ensures direction == if playing then KeyDirection(old(direction), key) else old(direction)
    {
      if !playing {
        return;
      }
      if key == ArrowUp {
        direction := Vec(0, -4);
      } else if key == ArrowDown {
        direction := Vec(0, 4);
      } else if key == ArrowLeft {
        direction := Vec(-4, 0);
      } else if key == ArrowRight {
        direction := Vec(4, 0);
      }
    }

    /** One firing of the 150 ms loop: Pac-Man steps and wraps, the dots are checked
        against the position before the step (the snapshot), and the ghosts wander. */
    method Tick(playing: bool, turns: seq<bool>, choices: seq<nat>)
      requires Valid()
      requires |turns| == |ghosts| && |choices| == |ghosts| && forall k :: 0 <= k < |choices| ==> choices[k] < 4
      modifies this
      ensures Valid()
      ensures direction == old(direction)
      ensures !playing ==> pacmanPos == old(pacmanPos) && score == old(score) && dots == old(dots) && ghosts == old(ghosts)
      ensures playing ==>
                pacmanPos == Wrapped(old(pacmanPos), old(direction)) &&
                dots == Collect(old(dots), old(pacmanPos)) &&
                score == DotScore(old(score), AnyEaten(old(dots), old(pacmanPos))) &&
                ghosts == MoveGhosts(old(ghosts), turns, choices)
    {
      if playing {
        Step(turns, choices);
      }
    }

    /** A tick of play. */
    method Step(turns: seq<bool>, choices: seq<nat>)
      requires Valid()
      requires |turns| == |ghosts| && |choices| == |ghosts| && forall k :: 0 <= k < |choices| ==> choices[k] < 4
      modifies this
      ensures Valid()
      ensures direction == old(direction)
      ensures pacmanPos == Wrapped(old(pacmanPos), old(direction))
      ensures dots == Collect(old(dots), old(pacmanPos))
      ensures score == DotScore(old(score), AnyEaten(old(dots), old(pacmanPos)))
      ensures ghosts == MoveGhosts(old(ghosts), turns, choices)
    {
      var p := WrapStep(pacmanPos, direction);
      CollectOne(dots, pacmanPos);
      var s := DotScore(score, AnyEaten(dots, pacmanPos));
      var d := Collect(dots, pacmanPos);
      var g := MoveGhosts(ghosts, turns, choices);
      pacmanPos, score, dots, ghosts := p, s, d, g;
    }
  }

  /** The tick's move: one step along the direction, then the four wrap-around tests. */
  method WrapStep(pos: Vec, direction: Vec) returns (p: Vec)
    ensures p == Wrapped(pos, direction)
  {
    var newX := pos.x + direction.x;
    var newY := pos.y + direction.y;
    if newX < 0 { newX := MaxX; }
    if newX > MaxX { newX := 0; }
    if newY < 0 { newY := MaxY; }
    if newY > MaxY { newY := 0; }
    p := Vec(newX, newY);
  }

  lemma {:induction false} NoneEaten(dots: seq<Dot>)
    requires forall i :: 0 <= i < |dots| ==> !dots[i].eaten
    ensures EatenCount(dots) == 0
  {
    if |dots| > 0 {
      NoneEaten(dots[1..]);
    }
  }
}
