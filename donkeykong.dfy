/** Donkey Kong (src/components/games/DonkeyKongGame.tsx): Mario walks in steps of 5 on
    a 400 by 500 board, jumps with an upward speed of 15 slowed by 1 a tick and lands on
    the first of four platforms whose top band holds him once he is falling; barrels
    enter at (350, 50) and roll down to the left; every tick of play scores 1. */
module DonkeyKong {
  import opened Common

  const GameWidth: int := 400
  const GameHeight: int := 500
  const PlayerSize: int := 20
  const BarrelSize: int := 15
  const JumpSpeed: int := 15

  datatype Mario = Mario(x: int, y: int)
  datatype Platform = Platform(x: int, y: int, width: int)
  datatype Barrel = Barrel(x: int, y: int, id: int)

  const Start: Mario := Mario(50, GameHeight - 50)

  /** The four girders, bottom to top. */
  function Platforms(): seq<Platform>
  {
    [Platform(0, GameHeight - 30, GameWidth), Platform(50, GameHeight - 130, GameWidth - 100),
     Platform(0, GameHeight - 230, GameWidth - 50), Platform(100, GameHeight - 330, GameWidth - 150)]
  }

  /** handleKeyPress for the arrows: x kept in [0, 380]. */
  function Walk(m: Mario, key: string): (n: Mario)
    ensures n.y == m.y
    ensures key == ArrowLeft ==> n.x == Max(0, m.x - 5)
    ensures key == ArrowRight ==> n.x == Min(GameWidth - PlayerSize, m.x + 5)
    ensures key != ArrowLeft && key != ArrowRight ==> n == m
    ensures 0 <= m.x <= GameWidth - PlayerSize ==> 0 <= n.x <= GameWidth - PlayerSize
  {
    if key == ArrowLeft then m.(x := Max(0, m.x - 5))
    else if key == ArrowRight then m.(x := Min(GameWidth - PlayerSize, m.x + 5))
    else m
  }

  // ---------------------------------------------------------------- platforms and the jump

  /** Mario within a platform's span and in the 30 above its top. */
  predicate Holds(p: Platform, m: Mario)
  {
    p.x <= m.x <= p.x + p.width && p.y - 30 <= m.y <= p.y
  }

  /** `platforms.find(...)`: the first platform that holds Mario. */
  function PlatformUnder(ps: seq<Platform>, m: Mario): (r: Option<nat>)
    ensures r.None? <==> forall k :: 0 <= k < |ps| ==> !Holds(ps[k], m)
    ensures r.Some? ==> r.value < |ps| && Holds(ps[r.value], m) &&
                        forall k :: 0 <= k < r.value ==> !Holds(ps[k], m)
    decreases |ps|
  {
    if |ps| == 0 then None
    else if Holds(ps[0], m) then Some(0)
    else match PlatformUnder(ps[1..], m)
      case None => None
      case Some(k) => Some(k + 1)
  }

  datatype Jump = Jump(y: int, velocity: int, jumping: bool)

  /** The jump step at Mario's x: he moves by the velocity and the velocity grows by 1,
      unless he is falling (velocity over 0) and a platform holds the height he had, in
      which case he stands 30 above that platform's top. */
  function JumpStep(x: int, j: Jump): (r: Jump)
    ensures !j.jumping ==> r == j
    ensures j.jumping && r.jumping ==> r == Jump(j.y + j.velocity, j.velocity + 1, true)
    ensures j.jumping && !r.jumping <==>
              j.jumping && j.velocity > 0 && PlatformUnder(Platforms(), Mario(x, j.y)).Some?
    ensures j.jumping && !r.jumping ==>
              r.velocity == 0 && r.y == Platforms()[PlatformUnder(Platforms(), Mario(x, j.y)).value].y - 30
  {
    if !j.jumping then j
    else match PlatformUnder(Platforms(), Mario(x, j.y))
      case Some(k) =>
        if j.velocity > 0 then Jump(Platforms()[k].y - 30, 0, false)
        else Jump(j.y + j.velocity, j.velocity + 1, true)
      case None => Jump(j.y + j.velocity, j.velocity + 1, true)
  }

  /** Only a falling Mario lands: one still rising (velocity at most 0) keeps jumping. */
  lemma RisingNeverLands(x: int, j: Jump)
    requires j.jumping && j.velocity <= 0
    ensures JumpStep(x, j) == Jump(j.y + j.velocity, j.velocity + 1, true)
  {
  }

  function Jumps(x: int, j: Jump, n: nat): Jump
    decreases n
  {
    if n == 0 then j else Jumps(x, JumpStep(x, j), n - 1)
  }

  lemma {:induction false} JumpsLast(x: int, j: Jump, n: nat)
    ensures Jumps(x, j, n + 1) == JumpStep(x, Jumps(x, j, n))
    decreases n
  {
    if n > 0 {
      JumpsLast(x, JumpStep(x, j), n - 1);
    }
  }

  /** The height k ticks into a jump from the bottom girder: 450 - 15k + k(k-1)/2. */
  function ArcY(k: int): int
  {
    GameHeight - 50 - JumpSpeed * k + k * (k - 1) / 2
  }

  lemma ArcNext(k: int)
    requires 0 <= k
    ensures ArcY(k) + (k - JumpSpeed) == ArcY(k + 1)
  {
    assert (k + 1) * k / 2 == k * (k - 1) / 2 + k by {
      assert (k + 1) * k == k * (k - 1) + 2 * k;
    }
  }

  /** From tick 16 to tick 19 of the jump Mario is between 330 and 336, in no platform's
      band */
  lemma NoBandNearPeak(x: int, k: int)
    requires 16 <= k <= 19
    ensures PlatformUnder(Platforms(), Mario(x, ArcY(k))).None?
  {
    assert 330 <= ArcY(k) <= 336 by {
      if k == 16 { assert ArcY(k) == 330; }
      else if k == 17 { assert ArcY(k) == 331; }
      else if k == 18 { assert ArcY(k) == 333; }
      else { assert ArcY(k) == 336; }
    }
  }

  /** A jump from the bottom girder follows the arc for 20 ticks, whatever Mario's x: it
      rises for 15 and then falls past no platform's band. */
  lemma {:induction false} ClimbArc(x: int, n: nat)
    requires n <= 20
    ensures Jumps(x, Jump(Start.y, -JumpSpeed, true), n) == Jump(ArcY(n), n - JumpSpeed, true)
    decreases n
  {
    if n > 0 {
      ClimbArc(x, n - 1);
      JumpsLast(x, Jump(Start.y, -JumpSpeed, true), n - 1);
      ArcNext(n - 1);
      if n - 1 >= 16 {
        NoBandNearPeak(x, n - 1);
      }
    }
  }

  /** Under the second girder (x from 50 to 350) a jump from the bottom lands on it 21
      ticks later, standing at 340. */
  lemma ClimbToSecondGirder(x: int)
    requires 50 <= x <= 350
    ensures Jumps(x, Jump(Start.y, -JumpSpeed, true), 21) == Jump(340, 0, false)
  {
    ClimbArc(x, 20);
    JumpsLast(x, Jump(Start.y, -JumpSpeed, true), 20);
    assert ArcY(20) == 340;
    assert !Holds(Platforms()[0], Mario(x, 340)) && Holds(Platforms()[1], Mario(x, 340));
  }

  // ---------------------------------------------------------------- barrels

  /** Barrels roll 2 left and 1 down a tick. */
  function Roll(b: Barrel): (r: Barrel)
    ensures r.id == b.id
    ensures !OnBoard(b) ==> !OnBoard(r)
  {
    b.(x := b.x - 2, y := b.y + 1)
  }

  predicate OnBoard(b: Barrel) { b.x > -BarrelSize && b.y < GameHeight }

  /** The new barrel of a spawning tick. */
  function Spawned(id: int): (b: Barrel)
    ensures b.id == id && OnBoard(b) && OnBoard(Roll(b))
  {
    Barrel(GameWidth - 50, 50, id)
  }

  /** The barrel list after a tick: a draw under 0.02 adds a barrel, then every barrel
      rolls and those off the board are dropped. */
  function MoveBarrels(bs: seq<Barrel>, id: int, draw: real): (r: seq<Barrel>)
    ensures forall b :: b in r ==> OnBoard(b)
    ensures forall b :: b in bs && OnBoard(Roll(b)) ==> Roll(b) in r
    ensures forall b :: b in r ==> (exists a :: a in bs && b == Roll(a)) || (draw < 0.02 && b == Roll(Spawned(id)))
    ensures draw < 0.02 ==> Roll(Spawned(id)) in r
    ensures |r| <= |bs| + (if draw < 0.02 then 1 else 0)
  {
    var spawned := if draw < 0.02 then bs + [Spawned(id)] else bs;
    assert draw < 0.02 ==> Spawned(id) in spawned;
    Advance(spawned, Roll, OnBoard)
  }

  /** A barrel leaves the board after at most 182 ticks: it can roll only while x stays
      over -15, and every roll takes 2 off x, which starts at most at 350. */
  lemma BarrelLifetime(b: Barrel, n: nat)
    requires b.x <= GameWidth - 50 && n >= 183
    ensures !OnBoard(Rolled(b, n))
  {
    RolledAt(b, n);
  }

  function Rolled(b: Barrel, n: nat): Barrel
    decreases n
  {
    if n == 0 then b else Rolled(Roll(b), n - 1)
  }

  lemma {:induction false} RolledAt(b: Barrel, n: nat)
    ensures Rolled(b, n) == Barrel(b.x - 2 * n, b.y + n, b.id)
    decreases n
  {
    if n > 0 {
      RolledAt(Roll(b), n - 1);
    }
  }

  class Game {
    var marioPos: Mario
    var barrels: seq<Barrel>
    var score: int
    var isJumping: bool
    var jumpVelocity: int
    var barrelId: int

    /** x stays on the board; standing Mario has no velocity. */
    predicate Valid()
      reads this
    {
      0 <= marioPos.x <= GameWidth - PlayerSize && (!isJumping ==> jumpVelocity == 0)
    }

    constructor ()
      ensures Valid()
      ensures marioPos == Start && barrels == [] && score == 0 && !isJumping && jumpVelocity == 0 && barrelId == 0
    {
      marioPos, barrels, score, isJumping, jumpVelocity, barrelId := Start, [], 0, false, 0, 0;
    }

    /** handleKeyPress: nothing unless playing; the arrows walk, Space starts a jump when
        Mario is not in one. */
    method Key(key: string, playing: bool)
      requires Valid()
      modifies this
      ensures Valid()
      ensures barrels == old(barrels) && score == old(score) && barrelId == old(barrelId)
      ensures !playing ==> marioPos == old(marioPos) && isJumping == old(isJumping) && jumpVelocity == old(jumpVelocity)
      ensures playing && key == Space ==>
                marioPos == old(marioPos) && isJumping &&
                jumpVelocity == (if old(isJumping) then old(jumpVelocity) else -JumpSpeed)
      ensures playing && key != Space ==>
                marioPos == Walk(old(marioPos), key) && isJumping == old(isJumping) && jumpVelocity == old(jumpVelocity)
    {
      if !playing {
        return;
      }
      if key == Space {
        if !isJumping {
          isJumping, jumpVelocity := true, -JumpSpeed;
        }
      } else {
        marioPos := Walk(marioPos, key);
      }
    }

    /** One firing of the 50 ms loop with its spawn draw: nothing unless playing. */
    method Tick(playing: bool, draw: real)
      requires Valid()
      modifies this
      ensures Valid()
      ensures !playing ==> marioPos == old(marioPos) && barrels == old(barrels) && score == old(score) &&
                           isJumping == old(isJumping) && jumpVelocity == old(jumpVelocity) && barrelId == old(barrelId)
      ensures playing ==>
                var j := JumpStep(old(marioPos).x, Jump(old(marioPos).y, old(jumpVelocity), old(isJumping)));
                marioPos == Mario(old(marioPos).x, j.y) && isJumping == j.jumping && jumpVelocity == j.velocity &&
                barrels == MoveBarrels(old(barrels), old(barrelId), draw) &&
                barrelId == (if draw < 0.02 then old(barrelId) + 1 else old(barrelId)) &&
                score == old(score) + 1
    {
      if playing {
        Step(draw);
      }
    }

    /** A tick of play: the jump steps, barrels spawn, roll and leave, a barrel touching
        Mario does nothing, and the score grows by 1. */
    method Step(draw: real)
      requires Valid()
      modifies this
      ensures Valid()
      ensures var j := JumpStep(old(marioPos).x, Jump(old(marioPos).y, old(jumpVelocity), old(isJumping)));
              marioPos == Mario(old(marioPos).x, j.y) && isJumping == j.jumping && jumpVelocity == j.velocity
      ensures barrels == MoveBarrels(old(barrels), old(barrelId), draw)
      ensures barrelId == (if draw < 0.02 then old(barrelId) + 1 else old(barrelId))
      ensures score == old(score) + 1
    {
      var j := JumpStep(marioPos.x, Jump(marioPos.y, jumpVelocity, isJumping));
      var bs := MoveBarrels(barrels, barrelId, draw);
      var id := if draw < 0.02 then barrelId + 1 else barrelId;
      marioPos, isJumping, jumpVelocity, barrels, barrelId, score := Mario(marioPos.x, j.y), j.jumping, j.velocity, bs, id, score + 1;
    }
  }
}
