/** Tetris (src/components/games/TetrisGame.tsx): a 10-column, 20-row board of colour
    names ("" for an empty cell), a falling piece with a 0/1 shape, left/right/down moves
    that are taken only when the piece fits, an unchecked clockwise rotation, locking,
    line clearing and the level and score formula. */
module Tetris {
  import opened Common

  const Width: int := 10
  const Height: int := 20

  type Shape = seq<seq<int>>
  type Row = seq<string>
  type Board = seq<Row>

  datatype Tetromino = Tetromino(shape: Shape, color: string)
  datatype Piece = Piece(shape: Shape, color: string, x: int, y: int)

  /** The seven pieces, in the order `Object.keys` lists them: I, O, T, S, Z, J, L. */
  const Tetrominos: seq<Tetromino> := [
    Tetromino([[1, 1, 1, 1]], "cyan"),
    Tetromino([[1, 1], [1, 1]], "yellow"),
    Tetromino([[0, 1, 0], [1, 1, 1]], "purple"),
    Tetromino([[0, 1, 1], [1, 1, 0]], "green"),
    Tetromino([[1, 1, 0], [0, 1, 1]], "red"),
    Tetromino([[1, 0, 0], [1, 1, 1]], "blue"),
    Tetromino([[0, 0, 1], [1, 1, 1]], "orange")
  ]

  /** A non-empty shape whose rows all have the length of the first. */
  predicate Rect(s: Shape)
  {
    |s| > 0 && |s[0]| > 0 && forall i :: 0 <= i < |s| ==> |s[i]| == |s[0]|
  }

  predicate WellFormed(b: Board)
  {
    |b| == Height && forall r :: 0 <= r < |b| ==> |b[r]| == Width
  }

  function EmptyRow(): (row: Row)
    ensures |row| == Width && forall c :: 0 <= c < Width ==> row[c] == ""
  {
    seq(Width, _ => "")
  }

  function EmptyRows(n: nat): (rows: Board)
    ensures |rows| == n && forall r :: 0 <= r < n ==> rows[r] == EmptyRow()
  {
    seq(n, _ => EmptyRow())
  }

  function EmptyBoard(): (b: Board)
    ensures WellFormed(b) && forall r, c :: 0 <= r < Height && 0 <= c < Width ==> b[r][c] == ""
  {
    EmptyRows(Height)
  }

  // ---------------------------------------------------------------- collision test

  /** The test canMovePiece makes for one filled cell moved to (x, y): inside the side
      walls, above the floor, and on an empty cell when it is on the board at all. A cell
      above the top (y < 0) is only checked against the walls. */
  predicate Free(b: Board, x: int, y: int)
    requires WellFormed(b)
  {
    0 <= x < Width && y < Height && (y < 0 || b[y][x] == "")
  }

  /** The piece moved by (dx, dy) fits: every filled cell is free. */
  predicate Fits(b: Board, p: Piece, dx: int, dy: int)
    requires WellFormed(b)
    ensures Fits(b, p, dx, dy) ==> !BelowFloor(p.(y := p.y + dy))
  {
    forall i, j :: 0 <= i < |p.shape| && 0 <= j < |p.shape[i]| && p.shape[i][j] != 0 ==>
      Free(b, p.x + j + dx, p.y + i + dy)
  }

  /** canMovePiece: the nested loops over the shape, returning false at the first filled
      cell that leaves the board or lands on an occupied cell. */
  method CanMovePiece(b: Board, p: Piece, dx: int, dy: int) returns (ok: bool)
    requires WellFormed(b)
    ensures ok == Fits(b, p, dx, dy)
  {
    var i := 0;
    while i < |p.shape|
      invariant 0 <= i <= |p.shape|
      invariant forall i', j :: 0 <= i' < i && 0 <= j < |p.shape[i']| && p.shape[i'][j] != 0 ==>
                  Free(b, p.x + j + dx, p.y + i' + dy)
    {
      var j := 0;
      while j < |p.shape[i]|
        invariant 0 <= j <= |p.shape[i]|
        invariant forall i', j' :: 0 <= i' < i && 0 <= j' < |p.shape[i']| && p.shape[i'][j'] != 0 ==>
                    Free(b, p.x + j' + dx, p.y + i' + dy)
        invariant forall j' :: 0 <= j' < j && p.shape[i][j'] != 0 ==> Free(b, p.x + j' + dx, p.y + i + dy)
      {
        if p.shape[i][j] != 0 {
          var newX := p.x + j + dx;
          var newY := p.y + i + dy;
          if newX < 0 || newX >= Width || newY >= Height {
            return false;
          }
          if newY >= 0 && b[newY][newX] != "" {
            return false;
          }
        }
        j := j + 1;
      }
      i := i + 1;
    }
    return true;
  }

  // ---------------------------------------------------------------- moves and rotation

  /** Left, right and down: shift by (dx, dy) when the shifted piece fits, otherwise keep it. */
  function Moved(b: Board, p: Piece, dx: int, dy: int): (r: Piece)
    requires WellFormed(b)
    ensures Fits(b, p, dx, dy) ==> r == p.(x := p.x + dx, y := p.y + dy) && Fits(b, r, 0, 0)
    ensures !Fits(b, p, dx, dy) ==> r == p
  {
    if Fits(b, p, dx, dy) then p.(x := p.x + dx, y := p.y + dy) else p
  }

  /** The clockwise quarter turn both Space and ArrowUp apply: column i of the old shape,
      read from the bottom up, becomes row i. */
  function Rotate(s: Shape): (r: Shape)
    requires Rect(s)
    ensures Rect(r) && |r| == |s[0]| && |r[0]| == |s|
    ensures forall i, j :: 0 <= i < |r| && 0 <= j < |r[i]| ==> r[i][j] == s[|s| - 1 - j][i]
  {
    seq(|s[0]|, i requires 0 <= i < |s[0]| => seq(|s|, j requires 0 <= j < |s| => s[|s| - 1 - j][i]))
  }

  /** Two quarter turns are a half turn. */
  lemma RotateTwice(s: Shape)
    requires Rect(s)
    ensures var t := Rotate(Rotate(s));
            Rect(t) && |t| == |s| && |t[0]| == |s[0]| &&
            forall i, j :: 0 <= i < |t| && 0 <= j < |t[i]| ==> t[i][j] == s[|s| - 1 - i][|s[0]| - 1 - j]
  {
    var r := Rotate(s);
    var t := Rotate(r);
    forall i, j | 0 <= i < |t| && 0 <= j < |t[i]|
      ensures t[i][j] == s[|s| - 1 - i][|s[0]| - 1 - j]
    {
      assert t[i][j] == r[|r| - 1 - j][i];
    }
  }

  /** Four quarter turns give back the shape. */
  lemma RotateFour(s: Shape)
    requires Rect(s)
    ensures Rotate(Rotate(Rotate(Rotate(s)))) == s
  {
    var h := Rotate(Rotate(s));
    RotateTwice(s);
    RotateTwice(h);
    var t := Rotate(Rotate(h));
    forall i | 0 <= i < |s|
      ensures t[i] == s[i]
    {
      forall j | 0 <= j < |s[i]|
        ensures t[i][j] == s[i][j]
      {
        assert t[i][j] == h[|h| - 1 - i][|h[0]| - 1 - j];
      }
    }
  }

  /** The filled cells of a shape, as (row, column) pairs. */
  function FilledCells(s: Shape): set<(int, int)>
  {
    set i, j | 0 <= i < |s| && 0 <= j < |s[i]| && s[i][j] != 0 :: (i, j)
  }

  /** Rotation moves cell (a, b) of the old shape to (b, rows - 1 - a). */
  function Turned(S: set<(int, int)>, rows: int): set<(int, int)>
  {
    set p | p in S :: (p.1, rows - 1 - p.0)
  }

  lemma TurnedSize(S: set<(int, int)>, rows: int)
    ensures |Turned(S, rows)| == |S|
    decreases |S|
  {
    if S != {} {
      var p :| p in S;
      var S' := S - {p};
      TurnedSize(S', rows);
      assert Turned(S, rows) == Turned(S', rows) + {(p.1, rows - 1 - p.0)};
      assert (p.1, rows - 1 - p.0) !in Turned(S', rows);
    }
  }

  /** Rotation neither adds nor loses a filled cell. */
  lemma RotateKeepsFilled(s: Shape)
    requires Rect(s)
    ensures |FilledCells(Rotate(s))| == |FilledCells(s)|
  {
    var r := Rotate(s);
    assert FilledCells(r) == Turned(FilledCells(s), |s|) by {
      forall q | q in FilledCells(r)
        ensures q in Turned(FilledCells(s), |s|)
      {
        var i, j := q.0, q.1;
        assert r[i][j] == s[|s| - 1 - j][i];
        assert (|s| - 1 - j, i) in FilledCells(s);
      }
      forall q | q in Turned(FilledCells(s), |s|)
        ensures q in FilledCells(r)
      {
        var p :| p in FilledCells(s) && q == (p.1, |s| - 1 - p.0);
        assert r[p.1][|s| - 1 - p.0] == s[p.0][p.1];
      }
    }
    TurnedSize(FilledCells(s), |s|);
  }

  /** The rotation is taken without a collision test: a vertical I against the right
      wall turns into a horizontal I sticking out of the board. */
  lemma RotationUnchecked()
    ensures var p := Piece([[1], [1], [1], [1]], "cyan", 9, 0);
            Fits(EmptyBoard(), p, 0, 0) && !Fits(EmptyBoard(), p.(shape := Rotate(p.shape)), 0, 0)
  {
    var p := Piece([[1], [1], [1], [1]], "cyan", 9, 0);
    var q := p.(shape := Rotate(p.shape));
    assert q.shape[0][1] == 1;
    assert !Free(EmptyBoard(), q.x + 1, q.y + 0);
  }

  /** What the key handler does to the falling piece. */
  function KeyPiece(b: Board, p: Piece, key: string): (r: Piece)
    requires WellFormed(b) && Rect(p.shape)
    ensures key == ArrowLeft ==> r == Moved(b, p, -1, 0)
    ensures key == ArrowRight ==> r == Moved(b, p, 1, 0)
    ensures key == ArrowDown ==> r == Moved(b, p, 0, 1)
    ensures key == Space || key == ArrowUp ==> r == p.(shape := Rotate(p.shape))
    ensures key !in {ArrowLeft, ArrowRight, ArrowDown, Space, ArrowUp} ==> r == p
    ensures Rect(r.shape)
  {
    if key == ArrowLeft then Moved(b, p, -1, 0)
    else if key == ArrowRight then Moved(b, p, 1, 0)
    else if key == ArrowDown then Moved(b, p, 0, 1)
    else if key == Space || key == ArrowUp then p.(shape := Rotate(p.shape))
    else p
  }

  /** A piece that fits still fits after any key except the two rotation keys. */
  lemma MovesKeepFit(b: Board, p: Piece, key: string)
    requires WellFormed(b) && Rect(p.shape) && Fits(b, p, 0, 0) && key != Space && key != ArrowUp
    ensures Fits(b, KeyPiece(b, p, key), 0, 0)
  {
  }

  // ---------------------------------------------------------------- locking

  /** Board cell (r, c) lies under a filled cell of the piece. */
  predicate Covers(p: Piece, r: int, c: int)
  {
    0 <= r - p.y < |p.shape| && 0 <= c - p.x < |p.shape[r - p.y]| && p.shape[r - p.y][c - p.x] != 0
  }

  /** The board after the piece is written into it: the colour in exactly the covered
      cells, every other cell as it was. */
  function Locked(b: Board, p: Piece): (nb: Board)
    requires WellFormed(b)
    ensures WellFormed(nb)
    ensures forall r, c :: 0 <= r < Height && 0 <= c < Width ==>
              nb[r][c] == (if Covers(p, r, c) then p.color else b[r][c])
  {
    seq(Height, r requires 0 <= r < Height =>
      seq(Width, c requires 0 <= c < Width => if Covers(p, r, c) then p.color else b[r][c]))
  }

  /** Covered, and among the cells of shape rows before i, or of row i before column j. */
  predicate CoveredBefore(p: Piece, i: int, j: int, r: int, c: int)
  {
    Covers(p, r, c) && (r - p.y < i || (r - p.y == i && c - p.x < j))
  }

  /** Filled cell (i, j) of the shape lies on a row below the last board row. */
  predicate FilledBelow(p: Piece, i: int, j: int)
  {
    0 <= i < |p.shape| && 0 <= j < |p.shape[i]| && p.shape[i][j] != 0 && p.y + i >= Height
  }

  /** Some filled cell of the piece lies below the floor: writing it indexes a row the
      board does not have, which throws. */
  predicate BelowFloor(p: Piece)
  {
    exists i, j :: 0 <= i < |p.shape| && 0 <= j < |p.shape[i]| && FilledBelow(p, i, j)
  }

  /** The `forEach` over the shape that writes the colour into a copy of the board. A
      filled cell below the floor stops the write with `crashed` set; the copy is then
      never committed, so `nb` is the board as it was. */
  method Lock(b: Board, p: Piece) returns (nb: Board, crashed: bool)
    requires WellFormed(b)
    ensures crashed == BelowFloor(p)
    ensures crashed ==> nb == b
    ensures !crashed ==> nb == Locked(b, p)
  {
    nb := b;
    var i := 0;
    while i < |p.shape|
      invariant 0 <= i <= |p.shape|
      invariant WellFormed(nb)
      invariant forall r, c :: 0 <= r < Height && 0 <= c < Width ==>
                  nb[r][c] == (if CoveredBefore(p, i, 0, r, c) then p.color else b[r][c])
      invariant forall i', j' :: 0 <= i' < i ==> !FilledBelow(p, i', j')
    {
      var j := 0;
      while j < |p.shape[i]|
        invariant 0 <= j <= |p.shape[i]|
        invariant WellFormed(nb)
        invariant forall r, c :: 0 <= r < Height && 0 <= c < Width ==>
                    nb[r][c] == (if CoveredBefore(p, i, j, r, c) then p.color else b[r][c])
        invariant forall i', j' :: 0 <= i' < i ==> !FilledBelow(p, i', j')
        invariant forall j' :: 0 <= j' < j ==> !FilledBelow(p, i, j')
      {
        var row, col := p.y + i, p.x + j;
        if p.shape[i][j] != 0 && row >= Height {
          assert FilledBelow(p, i, j);
          return b, true;
        }
        if p.shape[i][j] != 0 && row >= 0 && 0 <= col < Width {
          nb := nb[row := nb[row][col := p.color]];
        }
        j := j + 1;
      }
      i := i + 1;
    }
    crashed := false;
    var L := Locked(b, p);
    forall r | 0 <= r < Height
      ensures nb[r] == L[r]
    {
      assert forall c :: 0 <= c < Width ==> nb[r][c] == L[r][c];
    }
  }

  // ---------------------------------------------------------------- line clearing

  /** `row.every(cell => cell !== '')` */
  predicate Full(row: Row)
  {
    forall c :: 0 <= c < |row| ==> row[c] != ""
  }

  /** The indices of the full rows among the first n, ascending (what linesToClear
      collects). */
  function FullRows(b: Board, n: nat): (ls: seq<nat>)
    requires n <= |b|
    ensures forall k: nat :: k in ls <==> k < n && Full(b[k])
  {
    if n == 0 then [] else FullRows(b, n - 1) + (if Full(b[n - 1]) then [n - 1] else [])
  }

  /** linesToClear is collected by the loop over y in ascending order. */
  lemma {:induction false} FullRowsAscending(b: Board, n: nat)
    requires n <= |b|
    ensures forall i, j :: 0 <= i < j < |FullRows(b, n)| ==> FullRows(b, n)[i] < FullRows(b, n)[j]
  {
    if n > 0 {
      FullRowsAscending(b, n - 1);
      var r := FullRows(b, n - 1);
      var ls := FullRows(b, n);
      assert ls == r + (if Full(b[n - 1]) then [n - 1] else []);
      forall i, j | 0 <= i < j < |ls|
        ensures ls[i] < ls[j]
      {
        assert ls[i] == r[i] && r[i] in r;
        if j < |r| {
          assert ls[j] == r[j];
        } else {
          assert ls[j] == n - 1;
        }
      }
    }
  }

  /** The rows that are not full, in order. */
  function Kept(b: Board): (r: Board)
    ensures |r| <= |b|
    ensures forall k :: 0 <= k < |r| ==> r[k] in b && !Full(r[k])
  {
    if |b| == 0 then [] else Kept(b[..|b| - 1]) + (if Full(b[|b| - 1]) then [] else [b[|b| - 1]])
  }

  /** `board.filter((_, index) => !linesToClear.includes(index))` */
  function KeepUnlisted(b: Board, listed: seq<nat>): Board
  {
    if |b| == 0 then [] else KeepUnlisted(b[..|b| - 1], listed) + (if |b| - 1 in listed then [] else [b[|b| - 1]])
  }

  lemma {:induction false} KeepUnlistedIsKept(b: Board, listed: seq<nat>, n: nat)
    requires n <= |b|
    requires forall k: nat :: k < |b| ==> (k in listed <==> Full(b[k]))
    ensures KeepUnlisted(b[..n], listed) == Kept(b[..n])
  {
    if n > 0 {
      assert b[..n][..n - 1] == b[..n - 1];
      KeepUnlistedIsKept(b, listed, n - 1);
    }
  }

  /** The board with its full rows taken out and as many empty rows put on top. */
  function Cleared(b: Board): (c: Board)
    ensures |c| == |b|
    ensures forall r :: 0 <= r < |c| ==> !Full(c[r])
  {
    assert !Full(EmptyRow()) by { assert EmptyRow()[0] == ""; }
    EmptyRows(|b| - |Kept(b)|) + Kept(b)
  }

  /** Clearing keeps the board 20 by 10, leaves no full row, keeps the other rows in
      order at the bottom, and does nothing when no row is full. */
  lemma ClearedShape(b: Board)
    requires WellFormed(b)
    ensures WellFormed(Cleared(b))
    ensures forall r :: 0 <= r < Height ==> !Full(Cleared(b)[r])
    ensures Cleared(b)[Height - |Kept(b)|..] == Kept(b)
    ensures |FullRows(b, |b|)| == 0 ==> Cleared(b) == b
  {
    var c := Cleared(b);
    forall r | 0 <= r < Height
      ensures |c[r]| == Width && !Full(c[r])
    {
      if r >= Height - |Kept(b)| {
        assert c[r] == Kept(b)[r - (Height - |Kept(b)|)];
      } else {
        assert c[r] == EmptyRow();
        assert c[r][0] == "";
      }
    }
    assert c[Height - |Kept(b)|..] == Kept(b);
    if |FullRows(b, |b|)| == 0 {
      KeptAll(b);
    }
  }

  /** With no full row the filter keeps every row. */
  lemma {:induction false} KeptAll(b: Board)
    requires forall k :: 0 <= k < |b| ==> !Full(b[k])
    ensures Kept(b) == b
  {
    if |b| > 0 {
      KeptAll(b[..|b| - 1]);
      assert b[..|b| - 1] + [b[|b| - 1]] == b;
    }
  }

  /** k rows cleared: k more lines, then the level is recomputed from the line count and
      the score gains the line score at the level the piece locked at. */
  function LinesAfter(lines: int, k: nat): int { lines + k }
  /** One level per ten cleared lines, starting at 1. */
  function LevelFor(lines: int): (l: int)
    ensures lines >= 0 ==> l >= 1 && (l - 1) * 10 <= lines < l * 10
  {
    lines / 10 + 1
  }

  /** The score for k rows cleared at once: 100 a row, times the level. */
  function LineScore(k: nat, level: int): (s: int)
    ensures k == 0 || level == 0 ==> s == 0
    ensures level >= 1 ==> s >= 100 * k
  {
    k * 100 * level
  }

  /** Each line is worth 100 per level, so clearing k lines at level l adds k * l * 100,
      and clearing never lowers the level. */
  lemma ClearingScores(lines: nat, k: nat, level: int)
    requires level == LevelFor(lines)
    ensures LineScore(k, level) == 100 * k * level >= 0
    ensures LevelFor(LinesAfter(lines, k)) >= level
    ensures k < 10 - lines % 10 ==> LevelFor(LinesAfter(lines, k)) == level
  {
  }

  /** The loop of clearLines that collects the indices of the full rows. */
  method FindFullRows(b: Board) returns (linesToClear: seq<nat>)
    requires WellFormed(b)
    ensures linesToClear == FullRows(b, |b|)
  {
    linesToClear := [];
    var y := 0;
    while y < Height
      invariant 0 <= y <= Height
      invariant linesToClear == FullRows(b, y)
    {
      if Full(b[y]) {
        linesToClear := linesToClear + [y];
      }
      y := y + 1;
    }
  }

  /** The loop of clearLines that puts empty rows on top until the board is 20 rows high. */
  method Refill(kept: Board) returns (nb: Board)
    requires |kept| <= Height
    ensures nb == EmptyRows(Height - |kept|) + kept
  {
    nb := kept;
    while |nb| < Height
      invariant |kept| <= |nb| <= Height
      invariant nb == EmptyRows(|nb| - |kept|) + kept
    {
      nb := [EmptyRow()] + nb;
    }
  }

  /** clearLines on a locked board: find the full rows, filter them out, refill from the
      top. Returns the board and the number of rows cleared. */
  method ClearLines(b: Board) returns (nb: Board, cleared: nat)
    requires WellFormed(b)
    ensures cleared == |FullRows(b, |b|)| && cleared == |b| - |Kept(b)|
    ensures nb == if cleared > 0 then Cleared(b) else b
    ensures WellFormed(nb)
  {
    var linesToClear := FindFullRows(b);
    cleared := |linesToClear|;
    assert cleared == |b| - |Kept(b)| by {
      KeptCount(b, |b|);
      assert b[..|b|] == b;
    }
    nb := b;
    if cleared > 0 {
      assert KeepUnlisted(b, linesToClear) == Kept(b) by {
        KeepUnlistedIsKept(b, linesToClear, |b|);
        assert b[..|b|] == b;
      }
      nb := Refill(KeepUnlisted(b, linesToClear));
      ClearedShape(b);
    }
  }

  /** The filter drops exactly as many rows as are full. */
  lemma {:induction false} KeptCount(b: Board, n: nat)
    requires n <= |b|
    ensures |Kept(b[..n])| + |FullRows(b, n)| == n
  {
    if n > 0 {
      assert b[..n][..n - 1] == b[..n - 1];
      KeptCount(b, n - 1);
    }
  }

  /** The number of rows the locked piece completes. */
  function LockClears(b: Board, p: Piece): nat
    requires WellFormed(b)
  {
    |FullRows(Locked(b, p), Height)|
  }

  /** The board once the piece is locked and its full rows are cleared. */
  function AfterLock(b: Board, p: Piece): (nb: Board)
    requires WellFormed(b)
    ensures WellFormed(nb)
  {
    var L := Locked(b, p);
    ClearedShape(L);
    if LockClears(b, p) > 0 then Cleared(L) else L
  }

  /** The lock-and-clear step of the game loop; `crashed` when the lock throws, and the
      board is then left as it was. */
  method LockAndClear(b: Board, p: Piece) returns (nb: Board, k: nat, crashed: bool)
    requires WellFormed(b)
    ensures crashed == BelowFloor(p)
    ensures crashed ==> nb == b && k == 0
    ensures !crashed ==> nb == AfterLock(b, p) && k == LockClears(b, p)
  {
    var locked;
    locked, crashed := Lock(b, p);
    if crashed {
      return b, 0, true;
    }
    nb, k := ClearLines(locked);
  }

  /** The rotation key is unchecked: a horizontal I piece resting on the bottom row turns
      into a vertical one reaching three rows below the floor, so the next lock throws. */
  lemma RotationBelowFloor()
    ensures var p := Piece(Tetrominos[0].shape, Tetrominos[0].color, 3, Height - 1);
            var r := KeyPiece(EmptyBoard(), p, ArrowUp);
            Fits(EmptyBoard(), p, 0, 0) && !Fits(EmptyBoard(), p, 0, 1) &&
            !BelowFloor(p) && BelowFloor(r) && !Fits(EmptyBoard(), r, 0, 1)
  {
    var p := Piece(Tetrominos[0].shape, Tetrominos[0].color, 3, Height - 1);
    var r := KeyPiece(EmptyBoard(), p, ArrowUp);
    assert FilledBelow(r, 1, 0);
    assert !Free(EmptyBoard(), p.x, p.y + 1);
  }

  // ---------------------------------------------------------------- spawning and timing

  /** `Math.floor(BOARD_WIDTH / 2) - Math.floor(width / 2)` */
  function SpawnX(w: nat): int
  {
    Width / 2 - w / 2
  }

  /** spawnNewPiece: the column comes from the freshly drawn piece even when the stored
      next piece is the one placed. */
  function Spawned(drawn: Tetromino, next: Option<Tetromino>): (p: Piece)
    requires Rect(drawn.shape)
    ensures p.y == 0 && p.x == SpawnX(|drawn.shape[0]|)
    ensures next.Some? ==> p.shape == next.value.shape && p.color == next.value.color
    ensures next.None? ==> p.shape == drawn.shape && p.color == drawn.color
  {
    var x := SpawnX(|drawn.shape[0]|);
    match next
    case Some(t) => Piece(t.shape, t.color, x, 0)
    case None => Piece(drawn.shape, drawn.color, x, 0)
  }

  lemma TetrominosShape(k: nat)
    requires k < |Tetrominos|
    ensures Rect(Tetrominos[k].shape)
    ensures 2 <= |Tetrominos[k].shape[0]| <= 4 && |Tetrominos[k].shape| <= 2
  {
  }

  /** A piece inside the walls and above the floor fits on an empty board. */
  lemma InsideFitsEmpty(p: Piece)
    requires Rect(p.shape) && 0 <= p.x && p.x + |p.shape[0]| <= Width && p.y + |p.shape| <= Height
    ensures Fits(EmptyBoard(), p, 0, 0)
  {
  }

  /** Whatever piece the draw picks and whatever piece is waiting, the spawned piece lies
      inside the side walls, so it fits on an empty board. */
  lemma SpawnFitsEmpty(a: nat, n: nat, useNext: bool)
    requires a < |Tetrominos| && n < |Tetrominos|
    ensures var p := Spawned(Tetrominos[a], if useNext then Some(Tetrominos[n]) else None);
            0 <= p.x && p.x + |p.shape[0]| <= Width && Fits(EmptyBoard(), p, 0, 0)
  {
    TetrominosShape(a);
    TetrominosShape(n);
    var p := Spawned(Tetrominos[a], if useNext then Some(Tetrominos[n]) else None);
    InsideFitsEmpty(p);
  }

  /** The interval of the game loop in milliseconds. */
  function DropInterval(level: int): (ms: int)
    requires level >= 1
    ensures 100 <= ms <= 1000
    ensures level == 1 ==> ms == 1000
    ensures level >= 10 ==> ms == 100
    ensures 1 <= level < 10 ==> ms == 1100 - 100 * level
  {
    Max(100, 1000 - (level - 1) * 100)
  }

  /** The key handler hands React a new piece object: a rotation always builds one, and a
      move does when it is taken. A refused move returns `prev`, so nothing re-renders. */
  predicate Renews(b: Board, p: Piece, key: string)
    requires WellFormed(b) && Rect(p.shape)
  {
    key == Space || key == ArrowUp || KeyPiece(b, p, key) != p
  }

  /** The board with one cell filled. */
  function WithCell(b: Board, r: int, c: int, color: string): (nb: Board)
    requires WellFormed(b) && 0 <= r < Height && 0 <= c < Width
    ensures WellFormed(nb) && nb[r][c] == color
    ensures forall i, j :: 0 <= i < Height && 0 <= j < Width && (i, j) != (r, c) ==> nb[i][j] == b[i][j]
  {
    b[r := b[r][c := color]]
  }

  /** After a lock at the top the piece stays, so the key handler keeps the board from
      before the lock. An O piece at (4, 0) above a filled cell (2, 4) cannot drop and
      locks in place; ArrowLeft still moves it against the board before the lock, while
      against the locked board it would be refused. */
  lemma TopOutKeyDiffers()
    ensures var b0 := WithCell(EmptyBoard(), 2, 4, "red");
            var p := Piece(Tetrominos[1].shape, Tetrominos[1].color, 4, 0);
            !Fits(b0, p, 0, 1) &&
            KeyPiece(b0, p, ArrowLeft) == p.(x := 3) &&
            KeyPiece(Locked(b0, p), p, ArrowLeft) == p
  {
    var b0 := WithCell(EmptyBoard(), 2, 4, "red");
    var p := Piece(Tetrominos[1].shape, Tetrominos[1].color, 4, 0);
    assert p.shape[1][0] != 0 && !Free(b0, p.x + 0, p.y + 1 + 1);
    assert Fits(b0, p, -1, 0);
    var L := Locked(b0, p);
    assert Covers(p, 0, 4);
    assert p.shape[0][1] != 0 && !Free(L, p.x + 1 - 1, p.y + 0);
  }

  /** Locking a coloured piece only fills cells, so a move the board refused stays refused.
      The game loop's own `canMovePiece` also keeps the board of its last restart, which
      after a lock at the top is the board before the lock: it refuses the drop there as
      the locked board does. */
  lemma {:induction false} LockKeepsBlocked(b: Board, q: Piece, p: Piece, dx: int, dy: int)
    requires WellFormed(b) && q.color != "" && !Fits(b, p, dx, dy)
    ensures !Fits(Locked(b, q), p, dx, dy)
  {
    var i, j :| 0 <= i < |p.shape| && 0 <= j < |p.shape[i]| && p.shape[i][j] != 0 &&
                !Free(b, p.x + j + dx, p.y + i + dy);
    var L := Locked(b, q);
    assert !Free(L, p.x + j + dx, p.y + i + dy);
  }

  // ---------------------------------------------------------------- the component

  class Game {
    var board: Board
    var current: Option<Piece>
    var score: int
    var level: int
    var lines: nat
    var next: Option<Tetromino>
    /** The board updater threw (a piece locked below the floor): the component is torn
        down and nothing of it runs again. */
    var crashed: bool
    /** The board the key handler's `canMovePiece` reads. The handler is rebuilt only when
        `currentPiece` (or the game state) changes, so it keeps the board of that render:
        after a lock at the top, where the piece stays and the board changes, this is the
        board from before the lock. */
    var keyBoard: Board

    predicate Valid()
      reads this
    {
      WellFormed(board) && WellFormed(keyBoard) &&
      (current.Some? ==> Rect(current.value.shape)) &&
      (next.Some? ==> next.value in Tetrominos) &&
      level == LevelFor(lines)
    }

    /** The mount effect: an empty board, a drawn piece (there is no next piece yet), then
        the next piece is drawn twice and the second draw is the one kept. */
    constructor (first: nat, second: nat, third: nat)
      requires first < |Tetrominos| && second < |Tetrominos| && third < |Tetrominos|
      ensures Valid()
      ensures board == EmptyBoard() && score == 0 && level == 1 && lines == 0
      ensures current == Some(Spawned(Tetrominos[first], None)) && next == Some(Tetrominos[third])
      ensures !crashed && keyBoard == board
    {
      TetrominosShape(first);
      board := EmptyBoard();
      current := Some(Spawned(Tetrominos[first], None));
      score := 0;
      level := 1;
      lines := 0;
      next := Some(Tetrominos[second]);
      next := Some(Tetrominos[third]);
      crashed := false;
      keyBoard := board;
    }

    /** handleKeyPress: only while playing and with a falling piece (and never once the
        component has crashed). Moves are tested against the handler's board; a new piece
        object re-renders and the handler then reads the current board. */
    method Key(key: string, playing: bool)
      requires Valid()
      modifies this
      ensures Valid()
      ensures board == old(board) && score == old(score) && level == old(level) && lines == old(lines) && next == old(next)
      ensures crashed == old(crashed)
      ensures old(crashed) || !playing || old(current).None? ==> current == old(current) && keyBoard == old(keyBoard)
      ensures !old(crashed) && playing && old(current).Some? ==>
                current == Some(KeyPiece(old(keyBoard), old(current).value, key)) &&
                keyBoard == (if Renews(old(keyBoard), old(current).value, key) then board else old(keyBoard))
    {
      if crashed || !playing || current.None? {
        return;
      }
      var p := current.value;
      if key == ArrowLeft {
        var ok := CanMovePiece(keyBoard, p, -1, 0);
        if ok { current := Some(p.(x := p.x - 1)); keyBoard := board; }
      } else if key == ArrowRight {
        var ok := CanMovePiece(keyBoard, p, 1, 0);
        if ok { current := Some(p.(x := p.x + 1)); keyBoard := board; }
      } else if key == ArrowDown {
        var ok := CanMovePiece(keyBoard, p, 0, 1);
        if ok { current := Some(p.(y := p.y + 1)); keyBoard := board; }
      } else if key == Space || key == ArrowUp {
        current := Some(p.(shape := Rotate(p.shape)));
        keyBoard := board;
      }
    }

    /** What settling the piece `p` leaves behind. A piece with a filled cell below the floor
        makes the lock throw: the component crashes and nothing else changes. Otherwise the
        piece is locked, full rows are cleared and scored, and a new piece is spawned unless
        the locked piece sat at the top (y <= 0); only a spawn re-renders the key handler. */
    twostate predicate Settled(p: Piece, drawA: nat, drawB: nat)
      requires WellFormed(old(board)) && drawA < |Tetrominos| && drawB < |Tetrominos|
      reads this
    {
      if BelowFloor(p) then
        crashed && board == old(board) && current == old(current) && score == old(score) &&
        level == old(level) && lines == old(lines) && next == old(next) && keyBoard == old(keyBoard)
      else
        var k := LockClears(old(board), p);
        TetrominosShape(drawA);
        crashed == old(crashed) &&
        keyBoard == (if p.y > 0 then board else old(keyBoard)) &&
        board == AfterLock(old(board), p) &&
        lines == old(lines) + k &&
        score == old(score) + LineScore(k, old(level)) &&
        level == (if k > 0 then LevelFor(old(lines) + k) else old(level)) &&
        (p.y <= 0 ==> current == old(current) && next == old(next)) &&
        (p.y > 0 ==> current == Some(Spawned(Tetrominos[drawA], old(next))) && next == Some(Tetrominos[drawB]))
    }

    /** The piece `p` cannot drop: lock it, clear full rows, and spawn a new piece unless
        the locked piece sat at the top (y <= 0). A piece with a filled cell below the floor
        makes the lock throw: the component crashes and no state changes but that. */
    method Settle(p: Piece, drawA: nat, drawB: nat)
      requires Valid() && drawA < |Tetrominos| && drawB < |Tetrominos|
      modifies this
      ensures Valid()
      ensures Settled(p, drawA, drawB)
    {
      var nb, k, thrown := LockAndClear(board, p);
      if thrown {
        crashed := true;
        return;
      }
      Commit(nb, k, p.y > 0, drawA, drawB);
    }

    /** The rest of the settle once the lock went through: the cleared board `nb` with its
        k completed rows is written back and scored, and the next piece is spawned when
        `spawn` holds. */
    method Commit(nb: Board, k: nat, spawn: bool, drawA: nat, drawB: nat)
      requires Valid() && WellFormed(nb) && drawA < |Tetrominos| && drawB < |Tetrominos|
      modifies this
      ensures Valid()
      ensures crashed == old(crashed) && board == nb && lines == old(lines) + k
      ensures score == old(score) + LineScore(k, old(level))
      ensures level == (if k > 0 then LevelFor(old(lines) + k) else old(level))
      ensures !spawn ==> current == old(current) && next == old(next) && keyBoard == old(keyBoard)
      ensures spawn ==> current == Some(Spawned(Tetrominos[drawA], old(next))) && next == Some(Tetrominos[drawB]) &&
                        keyBoard == nb
    {
      if k > 0 {
        score := score + LineScore(k, level);
        lines := LinesAfter(lines, k);
        level := LevelFor(lines);
      }
      board := nb;
      if !spawn {
        return;
      }
      TetrominosShape(drawA);
      current := Some(Spawned(Tetrominos[drawA], next));
      next := Some(Tetrominos[drawB]);
      keyBoard := board;
    }

    /** One firing of the game loop: drop the piece if it fits one row lower, otherwise
        settle it. `drawA` and `drawB` are the two random piece choices of the spawn. */
    method Tick(playing: bool, drawA: nat, drawB: nat)
      requires Valid() && drawA < |Tetrominos| && drawB < |Tetrominos|
      modifies this
      ensures Valid()
      ensures old(crashed) || !playing || old(current).None? ==>
                board == old(board) && current == old(current) && score == old(score) &&
                level == old(level) && lines == old(lines) && next == old(next) && crashed == old(crashed) &&
                keyBoard == old(keyBoard)
      ensures !old(crashed) && playing && old(current).Some? && Fits(old(board), old(current).value, 0, 1) ==>
                current == Some(old(current).value.(y := old(current).value.y + 1)) &&
                board == old(board) && score == old(score) && level == old(level) &&
                lines == old(lines) && next == old(next) && !crashed && keyBoard == board
      ensures !old(crashed) && playing && old(current).Some? && !Fits(old(board), old(current).value, 0, 1) ==>
                Settled(old(current).value, drawA, drawB)
    {
      if crashed || !playing || current.None? {
        return;
      }
      var p := current.value;
      var ok := CanMovePiece(board, p, 0, 1);
      if ok {
        current := Some(p.(y := p.y + 1));
        keyBoard := board;
        return;
      }
      Settle(p, drawA, drawB);
    }
  }
}
