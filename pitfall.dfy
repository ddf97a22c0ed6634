/** Pitfall (src/components/games/PitfallGame.tsx): a runner on the ground line y = 200
    who walks in steps of 3 and jumps with an upward speed of 12 slowed by 1 a tick, a
    camera that follows it, five obstacles (three of them pits) and three treasures worth
    2000 each. */
module Pitfall {
  import opened Common

  const Ground: int := 200
  const JumpSpeed: int := 12
  const TreasureValue: int := 2000

  datatype Runner = Runner(x: int, y: int)
  datatype Kind = Pit | LogObstacle | Vine
  datatype Obstacle = Obstacle(x: int, y: int, kind: Kind)
  datatype Treasure = Treasure(x: int, y: int, collected: bool)

  const Start: Runner := Runner(50, Ground)

  /** The level of the mount effect. */
  function InitialObstacles(): seq<Obstacle>
  {
    [Obstacle(150, 220, Pit), Obstacle(300, 180, LogObstacle), Obstacle(450, 220, Pit),
     Obstacle(600, 160, Vine), Obstacle(750, 220, Pit)]
  }

  function InitialTreasures(): seq<Treasure>
  {
    [Treasure(200, 180, false), Treasure(400, 140, false), Treasure(650, 120, false)]
  }

  /** handleKeyPress for the arrows: Left stops at 0, Right has no bound. */
  function Walk(r: Runner, key: string): (n: Runner)
    ensures key == ArrowLeft ==> n == r.(x := Max(0, r.x - 3))
    ensures key == ArrowRight ==> n == r.(x := r.x + 3)
    ensures key != ArrowLeft && key != ArrowRight ==> n == r
  {
    if key == ArrowLeft then r.(x := Max(0, r.x - 3))
    else if key == ArrowRight then r.(x := r.x + 3)
    else r
  }

  // ---------------------------------------------------------------- the jump

  /** The jump's height, velocity and flag. */
  datatype Jump = Jump(y: int, velocity: int, jumping: bool)

  /** The jump step as written: the runner rises by the velocity and the velocity grows
      by 1, but the landing test looks at the height before this tick's move; a runner
      on the ground who has just jumped is at 200 and lands at once. */
  function JumpAsWritten(j: Jump): (r: Jump)
    ensures !j.jumping ==> r == j
    ensures j.jumping ==> (r == JumpStep(j) <==> (j.y >= Ground) == (j.y + j.velocity >= Ground))
  {
    if !j.jumping then j
    else if j.y >= Ground then Jump(Ground, 0, false)
    else Jump(j.y + j.velocity, j.velocity + 1, true)
  }

  /** A jump from the ground ends on its first tick, where it began: the runner never
      leaves the ground. */
  lemma FirstTickLanding()
    ensures JumpAsWritten(Jump(Ground, -JumpSpeed, true)) == Jump(Ground, 0, false)
  {
  }

  /** So, as written, every height the runner has is 200, and no treasure (at 180, 140
      and 120) is ever within 20 of it. */
  lemma {:induction false} AsWrittenStaysOnGround(j: Jump, n: nat)
    requires j.y == Ground
    ensures JumpsAsWritten(j, n).y == Ground
    ensures forall k :: 0 <= k < |InitialTreasures()| ==> Abs(InitialTreasures()[k].y - JumpsAsWritten(j, n).y) >= 20
    decreases n
  {
    if n > 0 {
      AsWrittenStaysOnGround(JumpAsWritten(j), n - 1);
    }
  }

  function JumpsAsWritten(j: Jump, n: nat): (r: Jump)
    ensures !j.jumping ==> r == j
    decreases n
  {
    if n == 0 then j else JumpsAsWritten(JumpAsWritten(j), n - 1)
  }

  /** The jump step as intended: the landing test looks at the new height. */
  function JumpStep(j: Jump): (r: Jump)
    ensures !j.jumping ==> r == j
    ensures j.jumping && j.y + j.velocity >= Ground ==> r == Jump(Ground, 0, false)
    ensures j.jumping && j.y + j.velocity < Ground ==> r == Jump(j.y + j.velocity, j.velocity + 1, true)
  {
    if !j.jumping then j
    else if j.y + j.velocity >= Ground then Jump(Ground, 0, false)
    else Jump(j.y + j.velocity, j.velocity + 1, true)
  }

  /** The height k ticks into a jump: 200 - 12k + k(k-1)/2. */
  function ArcY(k: int): int
  {
    Ground - JumpSpeed * k + k * (k - 1) / 2
  }

  /** A jump k ticks in, for k from 0 to 24. */
  predicate InFlight(j: Jump)
  {
    j.jumping && 0 <= j.velocity + JumpSpeed <= 24 && j.y == ArcY(j.velocity + JumpSpeed)
  }

  /** Standing or in flight: the two shapes a jump can have. */
  predicate JumpOk(j: Jump)
  {
    (!j.jumping && j.y == Ground && j.velocity == 0) || InFlight(j)
  }

  lemma ArcNext(k: int)
    requires 0 <= k
    ensures ArcY(k) + (k - JumpSpeed) == ArcY(k + 1)
  {
    assert (k + 1) * k / 2 == k * (k - 1) / 2 + k by {
      assert (k + 1) * k == k * (k - 1) + 2 * k;
    }
  }

  /** The arc stays below the ground from tick 1 to tick 24 and reaches it at tick 25. */
  lemma ArcBelowGround(k: int)
    requires 0 <= k <= 24
    ensures ArcY(k + 1) < Ground <==> k < 24
  {
    assert k * (k + 1) / 2 < JumpSpeed * (k + 1) <==> k < 24 by {
      assert k * (k + 1) == (k + 1) * k;
      if k < 24 {
        assert k * (k + 1) < 24 * (k + 1);
      } else {
        assert k * (k + 1) == 24 * 25;
      }
    }
    ArcNext(k);
  }

  /** A step keeps a jump in one of its two shapes: in flight it moves one tick on the
      arc, and after tick 24 it lands. */
  lemma JumpStepOk(j: Jump)
    requires JumpOk(j)
    ensures JumpOk(JumpStep(j))
    ensures InFlight(j) && j.velocity + JumpSpeed < 24 ==> InFlight(JumpStep(j)) && JumpStep(j).velocity == j.velocity + 1
    ensures InFlight(j) && j.velocity + JumpSpeed == 24 ==> JumpStep(j) == Jump(Ground, 0, false)
  {
    if InFlight(j) {
      var k := j.velocity + JumpSpeed;
      ArcNext(k);
      ArcBelowGround(k);
    }
  }

  /** n jump steps in a row. */
  function Jumps(j: Jump, n: nat): Jump
    decreases n
  {
    if n == 0 then j else Jumps(JumpStep(j), n - 1)
  }

  /** With the intended test a jump from the ground follows the arc for 24 ticks and
      lands on the 25th, back on the ground and at rest. */
  lemma {:induction false} FullJump(n: nat)
    requires n <= 25
    ensures n <= 24 ==> InFlight(Jumps(Jump(Ground, -JumpSpeed, true), n)) &&
                        Jumps(Jump(Ground, -JumpSpeed, true), n).velocity == n - JumpSpeed
    ensures n == 25 ==> Jumps(Jump(Ground, -JumpSpeed, true), n) == Jump(Ground, 0, false)
    decreases n
  {
    if n == 0 {
      assert ArcY(0) == Ground;
    } else {
      FullJump(n - 1);
      JumpsLast(Jump(Ground, -JumpSpeed, true), n - 1);
      JumpStepOk(Jumps(Jump(Ground, -JumpSpeed, true), n - 1));
    }
  }

  lemma {:induction false} JumpsLast(j: Jump, n: nat)
    ensures Jumps(j, n + 1) == JumpStep(Jumps(j, n))
    decreases n
  {
    if n > 0 {
      JumpsLast(JumpStep(j), n - 1);
    }
  }

  /** A jump makes the treasures reachable that the ground does not: one tick into a jump
      under the first treasure the runner is within reach of it. */
  lemma FirstTreasureReachable()
    ensures Reaches(InitialTreasures()[0], Runner(200, ArcY(1)))
    ensures !Reaches(InitialTreasures()[0], Runner(200, Ground))
  {
  }

  /** k(k-1) is even, so halving it loses nothing. */
  lemma HalfExact(k: int)
    ensures k * (k - 1) / 2 * 2 == k * (k - 1)
  {
    if k % 2 == 0 {
      assert k * (k - 1) == 2 * ((k / 2) * (k - 1));
    } else {
      assert k * (k - 1) == 2 * (k * ((k - 1) / 2));
    }
  }

  /** The arc's top is 122, reached at ticks 12 and 13; it never goes higher. */
  lemma ArcPeak(k: int)
    requires 0 <= k <= 25
    ensures ArcY(k) >= 122 && ArcY(12) == 122 && ArcY(13) == 122
  {
    HalfExact(k);
    var p := (k - 12) * (k - 13);
    assert p == k * (k - 1) - 24 * k + 156;
    assert 2 * (ArcY(k) - 122) == p;
    if k <= 12 {
      assert p == (12 - k) * (13 - k);
    } else {
      assert p == (k - 12) * (k - 13);
    }
  }

  // ---------------------------------------------------------------- the rest of the tick

  /** A treasure within 20 of the runner on both axes. */
  predicate Reaches(t: Treasure, r: Runner)
  {
    Abs(t.x - r.x) < 20 && Abs(t.y - r.y) < 20
  }

  /** Every treasure not yet collected and within reach is collected. */
  function Collect(ts: seq<Treasure>, r: Runner): (c: seq<Treasure>)
    ensures |c| == |ts|
    ensures forall k :: 0 <= k < |ts| ==>
              c[k] == if !ts[k].collected && Reaches(ts[k], r) then ts[k].(collected := true) else ts[k]
  {
    seq(|ts|, k requires 0 <= k < |ts| => if !ts[k].collected && Reaches(ts[k], r) then ts[k].(collected := true) else ts[k])
  }

  predicate AnyCollected(ts: seq<Treasure>, r: Runner)
  {
    exists k :: 0 <= k < |ts| && !ts[k].collected && Reaches(ts[k], r)
  }

  /** A treasure is collected once: once collected it stays so, and it pays only then. */
  lemma CollectOnce(ts: seq<Treasure>, r: Runner, k: nat)
    requires k < |ts|
    ensures ts[k].collected ==> Collect(ts, r)[k] == ts[k]
    ensures Collect(Collect(ts, r), r) == Collect(ts, r)
    ensures !AnyCollected(Collect(ts, r), r)
  {
  }

  /** A pit under the runner: x within the pit's 50 and y at or below its top. */
  predicate InPit(os: seq<Obstacle>, r: Runner)
  {
    exists k :: 0 <= k < |os| && os[k].kind == Pit && os[k].x <= r.x <= os[k].x + 50 && r.y >= os[k].y
  }

  /** On the jump's arc or on the ground the runner is never at or below a pit's top
      (220), so the pit test never fires in this level. */
  lemma PitsUnreachable(r: Runner)
    requires r.y <= Ground
    ensures !InPit(InitialObstacles(), r)
  {
  }

  class Game {
    var playerPos: Runner
    var isJumping: bool
    var jumpVelocity: int
    var obstacles: seq<Obstacle>
    var treasures: seq<Treasure>
    var score: int
    var cameraX: int

    predicate Valid()
      reads this
    {
      JumpOk(Jump(playerPos.y, jumpVelocity, isJumping))
    }

    /** The state once the mount effect has laid out the level. */
    constructor ()
      ensures Valid()
      ensures playerPos == Start && !isJumping && jumpVelocity == 0 && score == 0 && cameraX == 0
      ensures obstacles == InitialObstacles() && treasures == InitialTreasures()
    {
      playerPos, isJumping, jumpVelocity := Start, false, 0;
      obstacles, treasures, score, cameraX := InitialObstacles(), InitialTreasures(), 0, 0;
    }

    /** handleKeyPress: nothing unless playing; the arrows walk, Space starts a jump when
        not in one. */
    method Key(key: string, playing: bool)
      requires Valid()
      modifies this
      ensures Valid()
      ensures obstacles == old(obstacles) && treasures == old(treasures) && score == old(score) && cameraX == old(cameraX)
      ensures !playing ==> playerPos == old(playerPos) && isJumping == old(isJumping) && jumpVelocity == old(jumpVelocity)
      ensures playing && key == Space ==>
                playerPos == old(playerPos) &&
                (old(isJumping) ==> isJumping && jumpVelocity == old(jumpVelocity)) &&
                (!old(isJumping) ==> isJumping && jumpVelocity == -JumpSpeed)
      ensures playing && key != Space ==>
                playerPos == Walk(old(playerPos), key) && isJumping == old(isJumping) && jumpVelocity == old(jumpVelocity)
    {
      if !playing {
        return;
      }
      if key == Space {
        if !isJumping {
          assert ArcY(0) == Ground;
          isJumping, jumpVelocity := true, -JumpSpeed;
        }
      } else {
        playerPos := Walk(playerPos, key);
      }
    }

    /** One firing of the 50 ms loop, with the corrected landing test: the jump steps,
        the camera follows the runner's x from before the step, treasures within reach of
        that place are collected for the snapshot plus 2000, and a pit under a runner who
        is not jumping sends it back to the start. */
    method Tick(playing: bool)
      requires Valid()
      modifies this
      ensures Valid() && obstacles == old(obstacles)
      ensures !playing ==> playerPos == old(playerPos) && isJumping == old(isJumping) &&
                           jumpVelocity == old(jumpVelocity) && treasures == old(treasures) &&
                           score == old(score) && cameraX == old(cameraX)
      ensures playing ==>
                var j := JumpStep(Jump(old(playerPos).y, old(jumpVelocity), old(isJumping)));
                var reset := InPit(old(obstacles), old(playerPos)) && !old(isJumping);
                treasures == Collect(old(treasures), old(playerPos)) &&
                score == (if AnyCollected(old(treasures), old(playerPos)) then old(score) + TreasureValue else old(score)) &&
                (reset ==> playerPos == Start && cameraX == 0) &&
                (!reset ==> playerPos == Runner(old(playerPos).x, j.y) && cameraX == old(playerPos).x - 200) &&
                isJumping == j.jumping && jumpVelocity == j.velocity
    {
      if !playing {
        return;
      }
      var j := JumpStep(Jump(playerPos.y, jumpVelocity, isJumping));
      JumpStepOk(Jump(playerPos.y, jumpVelocity, isJumping));
      var reset := InPit(obstacles, playerPos) && !isJumping;
      var s := if AnyCollected(treasures, playerPos) then score + TreasureValue else score;
      treasures, score := Collect(treasures, playerPos), s;
      isJumping, jumpVelocity := j.jumping, j.velocity;
      if reset {
        playerPos, cameraX := Start, 0;
      } else {
        playerPos, cameraX := Runner(playerPos.x, j.y), playerPos.x - 200;
      }
    }
  }
}
