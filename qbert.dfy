/** Q*bert (src/components/games/QBertGame.tsx): a pyramid of 7 rows, row r holding 7 - r
    cubes, four clamped diagonal moves, and a tick that flips the cube under Q*bert for 25
    points. */
module QBert {
  import opened Common

  const GridSize: int := 7

  datatype Pos = Pos(x: int, y: int)

  /** Row r of the pyramid holds 7 - r cubes. */
  predicate Shaped(cubes: seq<seq<bool>>)
  {
    |cubes| == GridSize && forall r :: 0 <= r < GridSize ==> |cubes[r]| == GridSize - r
  }

  /** The mount effect: every cube of every row unflipped. */
  function InitialCubes(): (c: seq<seq<bool>>)
    ensures Shaped(c)
    ensures forall r, x :: 0 <= r < GridSize && 0 <= x < |c[r]| ==> !c[r][x]
  {
    seq(GridSize, r requires 0 <= r < GridSize => seq(GridSize - r, _ => false))
  }

  /** Q*bert stands on an existing cube. */
  predicate OnCube(p: Pos)
  {
    0 <= p.y < GridSize && 0 <= p.x < GridSize - p.y
  }

  // ---------------------------------------------------------------- moves

  /** handleKeyPress: Up and Left step back with both coordinates floored at 0; Down and
      Right step forward with x capped at 7 - y - 2 for the row Q*bert is leaving and y
      capped at 6. Other keys do nothing. */
  function Move(p: Pos, key: string): (r: Pos)
    ensures key == ArrowUp || key == ArrowLeft ==> r.x >= 0 && r.x == Max(0, p.x - 1)
    ensures key == ArrowUp ==> r.y == Max(0, p.y - 1)
    ensures key == ArrowDown || key == ArrowRight ==> r.x <= GridSize - p.y - 2 && r.x == Min(GridSize - p.y - 2, p.x + 1)
    ensures key == ArrowDown ==> r.y == Min(GridSize - 1, p.y + 1)
    ensures key == ArrowLeft || key == ArrowRight ==> r.y == p.y
    ensures key !in {ArrowUp, ArrowDown, ArrowLeft, ArrowRight} ==> r == p
  {
    if key == ArrowUp then Pos(Max(0, p.x - 1), Max(0, p.y - 1))
    else if key == ArrowDown then Pos(Min(GridSize - p.y - 2, p.x + 1), Min(GridSize - 1, p.y + 1))
    else if key == ArrowLeft then Pos(Max(0, p.x - 1), p.y)
    else if key == ArrowRight then Pos(Min(GridSize - p.y - 2, p.x + 1), p.y)
    else p
  }

  /** Where Q*bert can be: on a cube other than the top-right corner of row 0, or one step
      left of the single cube of the bottom row. */
  predicate Reachable(p: Pos)
  {
    0 <= p.y < GridSize && -1 <= p.x <= GridSize - 1 - p.y &&
    (p.x == -1 ==> p.y == GridSize - 1) && p != Pos(GridSize - 1, 0)
  }

  /** Every key keeps Q*bert where he can be. */
  lemma MoveReachable(p: Pos, key: string)
    requires Reachable(p)
    ensures Reachable(Move(p, key))
  {
  }

  /** Of the places he can be, the only one off the pyramid is (-1, 6). */
  lemma ReachableOnCube(p: Pos)
    requires Reachable(p)
    ensures OnCube(p) <==> p != Pos(-1, GridSize - 1)
  {
  }

  /** The keys in order, from `p`. */
  function Moves(p: Pos, keys: seq<string>): Pos
    decreases |keys|
  {
    if |keys| == 0 then p else Moves(Move(p, keys[0]), keys[1..])
  }

  lemma {:induction false} MovesReachable(p: Pos, keys: seq<string>)
    requires Reachable(p)
    ensures Reachable(Moves(p, keys))
    decreases |keys|
  {
    if |keys| > 0 {
      MoveReachable(p, keys[0]);
      MovesReachable(Move(p, keys[0]), keys[1..]);
    }
  }

  /** From the start, no sequence of keys reaches the last cube of the top row. */
  lemma CornerUnreached(keys: seq<string>)
    ensures Moves(Pos(0, 0), keys) != Pos(GridSize - 1, 0)
  {
    MovesReachable(Pos(0, 0), keys);
  }

  /** Seven Downs from the start leave the pyramid at (-1, 6): the cap 7 - 6 - 2 of the
      bottom row is -1. */
  lemma SevenDowns()
    ensures Moves(Pos(0, 0), seq(7, _ => ArrowDown)) == Pos(-1, GridSize - 1)
  {
    var d := seq(7, _ => ArrowDown);
    assert d[1..] == seq(6, _ => ArrowDown);
    assert Moves(Pos(0, 0), d) == Moves(Pos(1, 1), seq(6, _ => ArrowDown));
    DownsTo(Pos(1, 1), 6);
  }

  /** n Downs from (k, k) with k + n = 7: the path runs down the middle to (3, 3), then
      back off towards the left edge and past it. */
  lemma {:induction false} DownsTo(p: Pos, n: nat)
    requires (p, n) in {(Pos(1, 1), 6), (Pos(2, 2), 5), (Pos(3, 3), 4), (Pos(2, 4), 3), (Pos(1, 5), 2), (Pos(0, 6), 1), (Pos(-1, 6), 0)}
    ensures Moves(p, seq(n, _ => ArrowDown)) == Pos(-1, GridSize - 1)
    decreases n
  {
    if n > 0 {
      var d := seq(n, _ => ArrowDown);
      assert d[0] == ArrowDown && d[1..] == seq(n - 1, _ => ArrowDown);
      DownsTo(Move(p, ArrowDown), n - 1);
    }
  }

  // ---------------------------------------------------------------- the flipped count

  function RowCount(row: seq<bool>): (n: nat)
    ensures n <= |row|
  {
    if |row| == 0 then 0 else (if row[0] then 1 else 0) + RowCount(row[1..])
  }

  /** The number of flipped cubes. */
  function Count(cubes: seq<seq<bool>>): nat
  {
    if |cubes| == 0 then 0 else RowCount(cubes[0]) + Count(cubes[1..])
  }

  lemma {:induction false} RowCountFlip(row: seq<bool>, x: nat)
    requires x < |row| && !row[x]
    ensures RowCount(row[x := true]) == RowCount(row) + 1
  {
    if x > 0 {
      assert row[x := true][1..] == row[1..][x - 1 := true];
      RowCountFlip(row[1..], x - 1);
    }
  }

  lemma {:induction false} CountReplace(cubes: seq<seq<bool>>, y: nat, row: seq<bool>)
    requires y < |cubes|
    ensures Count(cubes[y := row]) + RowCount(cubes[y]) == Count(cubes) + RowCount(row)
  {
    if y > 0 {
      assert cubes[y := row][1..] == cubes[1..][y - 1 := row];
      CountReplace(cubes[1..], y - 1, row);
    }
  }

  // ---------------------------------------------------------------- the tick

  /** What a tick leaves, as written: the rows, the out-of-range entries that JavaScript
      stores as extra properties of a row array (`row[-1] = true`), and the score. */
  datatype Written = Written(cubes: seq<seq<bool>>, extra: set<Pos>, score: int)

  /** `newCubes[y][x]` as JavaScript reads it: a cube, an extra property once written, or
      `undefined` (falsy). */
  predicate ReadsFlipped(cubes: seq<seq<bool>>, extra: set<Pos>, p: Pos)
    requires 0 <= p.y < |cubes|
  {
    if 0 <= p.x < |cubes[p.y]| then cubes[p.y][p.x] else p in extra
  }

  /** The extra properties stored on row y. */
  function RowExtra(extra: set<Pos>, y: int): (r: set<Pos>)
    ensures r <= extra && forall q :: q in extra ==> (q in r <==> q.y == y)
  {
    set q | q in extra && q.y == y
  }

  /** The tick as written: any existing row is truthy, so a position off the row still
      passes `!newCubes[y][x]` and scores 25. The row is rewritten as `[...row]`, a copy of
      its index properties only, so the extras that row held are dropped before the new
      one is stored. The extras stand for negative keys only: a write at x >= |row| would
      lengthen the JavaScript array and survive the copy, but no place Q*bert can reach lies
      right of its row (ReachableOnCube), so no such write happens. */
  function TickAsWritten(cubes: seq<seq<bool>>, extra: set<Pos>, p: Pos, score: int): (w: Written)
    ensures w.score == score || w.score == score + 25
    ensures w.score == score + 25 <==> 0 <= p.y < |cubes| && !ReadsFlipped(cubes, extra, p)
    ensures w.score == score ==> w == Written(cubes, extra, score)
    ensures forall q :: q in w.extra && q.y != p.y ==> q in extra
    ensures forall q :: q in extra && q.y != p.y ==> q in w.extra
  {
    if 0 <= p.y < |cubes| && !ReadsFlipped(cubes, extra, p) then
      var kept := extra - RowExtra(extra, p.y);
      if 0 <= p.x < |cubes[p.y]| then Written(cubes[p.y := cubes[p.y][p.x := true]], kept, score + 25)
      else Written(cubes, kept + {p}, score + 25)
    else Written(cubes, extra, score)
  }

  /** At (-1, 6), reached by seven Downs, the tick as written awards 25 for a cube that
      does not exist: the score is no longer 25 times the number of flipped cubes. */
  lemma PhantomCube()
    ensures var w := TickAsWritten(InitialCubes(), {}, Pos(-1, GridSize - 1), 0);
            w.score == 25 && w.cubes == InitialCubes() && Count(w.cubes) == 0
  {
    var c := InitialCubes();
    assert |c[GridSize - 1]| == 1;
    InitialZero();
  }

  /** The phantom cube pays again: after the tick at (-1, 6), Left reaches (0, 6) and its
      tick flips the real cube, which copies row 6 and drops the extra property; Down then
      leads back to (-1, 6) and that tick pays 25 a second time. Three ticks pay 75 for one
      flipped cube. */
  lemma PhantomAgain()
    ensures var a := Pos(-1, GridSize - 1);
            var b := Move(a, ArrowLeft);
            b == Pos(0, GridSize - 1) && Move(b, ArrowDown) == a &&
            var w1 := TickAsWritten(InitialCubes(), {}, a, 0);
            var w2 := TickAsWritten(w1.cubes, w1.extra, b, w1.score);
            var w3 := TickAsWritten(w2.cubes, w2.extra, a, w2.score);
            w1.extra == {a} && w2.extra == {} && w3.score == 75 && Count(w3.cubes) == 1
  {
    var c := InitialCubes();
    var a := Pos(-1, GridSize - 1);
    var b := Pos(0, GridSize - 1);
    var row := c[GridSize - 1];
    assert |row| == 1 && !row[0];
    var w1 := TickAsWritten(c, {}, a, 0);
    assert w1 == Written(c, {a}, 25);
    var c2 := c[GridSize - 1 := row[0 := true]];
    var w2 := TickAsWritten(c, {a}, b, 25);
    assert RowExtra({a}, GridSize - 1) == {a};
    assert w2 == Written(c2, {}, 50);
    assert |c2[GridSize - 1]| == 1 && c2[GridSize - 1][0];
    var w3 := TickAsWritten(c2, {}, a, 50);
    assert w3 == Written(c2, {a}, 75);
    PhantomCount(c, row);
  }

  /** Flipping the single cube of row 6 of a fresh pyramid makes the count one. */
  lemma PhantomCount(c: seq<seq<bool>>, row: seq<bool>)
    requires c == InitialCubes() && row == c[GridSize - 1]
    ensures Count(c[GridSize - 1 := row[0 := true]]) == 1
  {
    InitialZero();
    NoneFlipped(row);
    RowCountFlip(row, 0);
    CountReplace(c, GridSize - 1, row[0 := true]);
  }

  /** The fresh pyramid has its shape and no flipped cube, and the start is a place Q*bert
      can be. */
  lemma InitialZero()
    ensures Shaped(InitialCubes()) && Count(InitialCubes()) == 0 && Reachable(Pos(0, 0))
  {
    var c := InitialCubes();
    InitialCount(c, GridSize);
    assert c[0..] == c;
  }

  /** The mount effect's pyramid, built once. */
  method Pyramid() returns (c: seq<seq<bool>>)
    ensures c == InitialCubes() && Shaped(c) && Count(c) == 0
  {
    InitialZero();
    c := InitialCubes();
  }

  /** An unflipped pyramid has no flipped cube. */
  lemma {:induction false} InitialCount(c: seq<seq<bool>>, n: nat)
    requires n <= |c|
    requires forall r, x :: 0 <= r < |c| && 0 <= x < |c[r]| ==> !c[r][x]
    ensures Count(c[|c| - n..]) == 0
  {
    if n > 0 {
      var s := c[|c| - n..];
      assert s[1..] == c[|c| - (n - 1)..];
      InitialCount(c, n - 1);
      NoneFlipped(s[0]);
    }
  }

  lemma {:induction false} NoneFlipped(row: seq<bool>)
    requires forall x :: 0 <= x < |row| ==> !row[x]
    ensures RowCount(row) == 0
  {
    if |row| > 0 {
      NoneFlipped(row[1..]);
    }
  }

  /** The tick the guard means: the cube under Q*bert is flipped when it exists and is
      unflipped; otherwise nothing. */
  function Flip(cubes: seq<seq<bool>>, p: Pos): (r: Option<seq<seq<bool>>>)
    requires Shaped(cubes)
    ensures r.Some? <==> OnCube(p) && !cubes[p.y][p.x]
    ensures r.Some? ==> Shaped(r.value) && Count(r.value) == Count(cubes) + 1
    ensures r.Some? ==> r.value[p.y][p.x] &&
                        forall y, x :: 0 <= y < GridSize && 0 <= x < |cubes[y]| && (y, x) != (p.y, p.x) ==>
                          r.value[y][x] == cubes[y][x]
  {
    if OnCube(p) && !cubes[p.y][p.x] then
      var row := cubes[p.y][p.x := true];
      RowCountFlip(cubes[p.y], p.x);
      CountReplace(cubes, p.y, row);
      Some(cubes[p.y := row])
    else None
  }

  /** Flipped cubes never revert: a flipped cube stays flipped whatever the tick does. */
  lemma FlippedStays(cubes: seq<seq<bool>>, p: Pos, y: int, x: int)
    requires Shaped(cubes) && 0 <= y < GridSize && 0 <= x < |cubes[y]| && cubes[y][x]
    ensures var r := Flip(cubes, p); r.Some? ==> r.value[y][x]
  {
  }

  class Game {
    var pos: Pos
    var cubes: seq<seq<bool>>
    var score: int

    /** The pyramid keeps its shape, Q*bert is where he can be, and the score is 25 for
        every flipped cube. */
    predicate Valid()
      reads this
    {
      Shaped(cubes) && Reachable(pos) && score == 25 * Count(cubes)
    }

    /** The initial state once the mount effect has built the pyramid. */
    constructor ()
      ensures Valid()
      ensures pos == Pos(0, 0) && cubes == InitialCubes() && score == 0
    {
      var c := Pyramid();
      pos, cubes, score := Pos(0, 0), c, 0;
    }

    method Key(key: string, playing: bool)
      requires Valid()
      modifies this
      ensures Valid()
      ensures cubes == old(cubes) && score == old(score)
      ensures pos == if playing then Move(old(pos), key) else old(pos)
    {
      if playing {
        MoveReachable(pos, key);
        pos := Move(pos, key);
      }
    }

    /** One firing of the 100 ms loop, with the corrected guard. */
    method Tick(playing: bool)
      requires Valid()
      modifies this
      ensures Valid()
      ensures pos == old(pos)
      ensures var f := Flip(old(cubes), old(pos));
              if playing && f.Some? then cubes == f.value && score == old(score) + 25
              else cubes == old(cubes) && score == old(score)
    {
      if !playing {
        return;
      }
      ghost var f := Flip(cubes, pos);
      if OnCube(pos) && !cubes[pos.y][pos.x] {
        var newCubes := cubes;
        var row := newCubes[pos.y];
        newCubes := newCubes[pos.y := row[pos.x := true]];
        assert newCubes == f.value;
        cubes := newCubes;
        score := score + 25;
      }
    }
  }
}
