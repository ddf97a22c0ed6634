/** Space Invaders (src/components/games/SpaceInvadersGame.tsx): a formation of 5 by 10
    invaders that steps half a pixel a tick and drops at the edges, a cannon clamped to
    [20, 380], the cannon's bullets against the live invaders ("first bullet wins", a hit
    marks the invader dead and leaves it in the list), and the invaders' bullets against
    the cannon. */
module SpaceInvaders {
  import opened Common
  import opened Collision

  const GameWidth: int := 400
  const GameHeight: int := 500

  datatype Bullet = Bullet(x: int, y: int)
  /** An invader's bullet leaves from the invader's place, whose x moves by halves. */
  datatype Bomb = Bomb(x: real, y: int)
  datatype Invader = Invader(x: real, y: int, alive: bool)

  // ---------------------------------------------------------------- the formation

  /** Invader k of the mount effect's loops (row outer, column inner). */
  function FormationAt(k: int): Invader
  {
    Invader((k % 10 * 35 + 50) as real, k / 10 * 30 + 50, true)
  }

  method InitialInvaders() returns (invs: seq<Invader>)
    ensures |invs| == 50 && forall k :: 0 <= k < 50 ==> invs[k] == FormationAt(k)
  {
    invs := [];
    var row := 0;
    while row < 5
      invariant 0 <= row <= 5 && |invs| == row * 10
      invariant forall k :: 0 <= k < |invs| ==> invs[k] == FormationAt(k)
    {
      var col := 0;
      while col < 10
        invariant 0 <= col <= 10 && |invs| == row * 10 + col
        invariant forall k :: 0 <= k < |invs| ==> invs[k] == FormationAt(k)
      {
        assert (row * 10 + col) % 10 == col && (row * 10 + col) / 10 == row;
        invs := invs + [Invader((col * 35 + 50) as real, row * 30 + 50, true)];
        col := col + 1;
      }
      row := row + 1;
    }
  }

  /** The formation: rows 30 apart from y = 50, columns 35 apart from x = 50, all alive,
      inside the band where no invader is at an edge. */
  lemma FormationInside(k: int)
    requires 0 <= k < 50
    ensures var v := FormationAt(k);
            v.alive && 50.0 <= v.x <= 365.0 && 50 <= v.y <= 170 && v.y < GameHeight - 100
  {
  }

  // ---------------------------------------------------------------- the cannon

  /** handleKeyPress for the arrows: steps of 10 kept in [20, 380]. */
  function CannonMove(p: int, key: string): (r: int)
    ensures key == ArrowLeft ==> r == Max(20, p - 10)
    ensures key == ArrowRight ==> r == Min(GameWidth - 20, p + 10)
    ensures key != ArrowLeft && key != ArrowRight ==> r == p
    ensures 20 <= p <= GameWidth - 20 ==> 20 <= r <= GameWidth - 20
  {
    if key == ArrowLeft then Max(20, p - 10)
    else if key == ArrowRight then Min(GameWidth - 20, p + 10)
    else p
  }

  /** A cannon shot leaves from (playerPos, 420). */
  function Fired(p: int): Bullet { Bullet(p, GameHeight - 80) }

  function Rise(b: Bullet): Bullet { b.(y := b.y - 5) }
  predicate Below(b: Bullet) { b.y > 0 }
  function Fall(b: Bomb): Bomb { b.(y := b.y + 3) }
  predicate Above(b: Bomb) { b.y < GameHeight }

  // ---------------------------------------------------------------- the invaders' step

  /** The step half a pixel along the direction would reach x <= 0 or x >= 370. */
  predicate AtEdge(v: Invader, dir: int)
  {
    var newX := v.x + dir as real * 0.5;
    newX <= 0.0 || newX >= (GameWidth - 30) as real
  }

  /** One invader's step: half a pixel along the direction, or, at an edge, no step across
      and 20 down. Dead invaders step too. */
  function March(v: Invader, dir: int): (r: Invader)
    ensures r.alive == v.alive
    ensures AtEdge(v, dir) ==> r.x == v.x && r.y == v.y + 20
    ensures !AtEdge(v, dir) ==> r.x == v.x + dir as real * 0.5 && r.y == v.y
  {
    if AtEdge(v, dir) then v.(y := v.y + 20) else v.(x := v.x + dir as real * 0.5)
  }

  function MarchAll(invs: seq<Invader>, dir: int): (r: seq<Invader>)
    ensures |r| == |invs| && forall k :: 0 <= k < |invs| ==> r[k] == March(invs[k], dir)
  {
    seq(|invs|, k requires 0 <= k < |invs| => March(invs[k], dir))
  }

  /** How many invaders are at an edge: each calls `setInvaderDirection(prev => -prev)`. */
  function EdgeCount(invs: seq<Invader>, dir: int): (n: nat)
    ensures n <= |invs|
    ensures n == 0 <==> forall k :: 0 <= k < |invs| ==> !AtEdge(invs[k], dir)
  {
    if |invs| == 0 then 0 else (if AtEdge(invs[0], dir) then 1 else 0) + EdgeCount(invs[1..], dir)
  }

  /** `prev => -prev` applied n times. */
  function Negated(dir: int, n: nat): int
  {
    if n == 0 then dir else -Negated(dir, n - 1)
  }

  /** The direction is reversed exactly when an odd number of invaders reach an edge in
      a tick; it stays 1 or -1. */
  lemma {:induction false} NegatedParity(dir: int, n: nat)
    ensures Negated(dir, n) == if n % 2 == 0 then dir else -dir
  {
    if n > 0 {
      NegatedParity(dir, n - 1);
    }
  }

  /** Some moved invader is at y >= 400. */
  predicate Landed(invs: seq<Invader>)
  {
    exists k :: 0 <= k < |invs| && invs[k].y >= GameHeight - 100
  }

  // ---------------------------------------------------------------- firing

  /** `prevInvaders.find(invader => invader.alive && Math.random() < 0.005)`, with one
      draw per live invader supplied in `draws` (by index). */
  function Shooter(invs: seq<Invader>, draws: seq<bool>): (r: Option<nat>)
    ensures r.Some? ==> r.value < |invs| && r.value < |draws| && invs[r.value].alive && draws[r.value]
    ensures r.Some? ==> forall k :: 0 <= k < r.value ==> !(invs[k].alive && draws[k])
    ensures r.None? <==> forall k :: 0 <= k < |invs| && k < |draws| ==> !(invs[k].alive && draws[k])
    decreases |invs|
  {
    if |invs| == 0 || |draws| == 0 then None
    else if invs[0].alive && draws[0] then Some(0)
    else
      match Shooter(invs[1..], draws[1..])
      case None => None
      case Some(k) => Some(k + 1)
  }

  function Shots(invs: seq<Invader>, draws: seq<bool>): (r: seq<Bomb>)
    ensures |r| <= 1
  {
    var s := Shooter(invs, draws);
    if s.Some? then [Bomb(invs[s.value].x, invs[s.value].y)] else []
  }

  // ---------------------------------------------------------------- the passes

  predicate NearInvader(b: Bullet, v: Invader)
  {
    AbsR(b.x as real - v.x) < 15.0 && Abs(b.y - v.y) < 15
  }

  predicate Alive(v: Invader) { v.alive }

  /** Only a live invader can be hit; it is hit exactly when some bullet left after the
      invaders before it is within 15 on both axes, by the first such one, which hits no
      other invader. */
  lemma InvaderHitRule(bs: seq<Bullet>, invs: seq<Invader>, i: nat)
    requires i < |invs|
    ensures var L := LiveBefore(bs, invs, NearInvader, Alive, i);
            var r := Resolve(bs, invs, NearInvader, Alive);
            IndicesBelow(L, |bs|) &&
            (r.hitBy[i].Some? <==> invs[i].alive && exists k :: 0 <= k < |L| && NearInvader(bs[L[k]], invs[i])) &&
            (r.hitBy[i].Some? ==> forall j :: 0 <= j < |invs| && j != i && r.hitBy[j].Some? ==> r.hitBy[j].value != r.hitBy[i].value)
  {
    PassAt(bs, invs, NearInvader, Alive, i);
    PassConsumesOnce(bs, invs, NearInvader, Alive, AllIndices(|bs|));
    var r := Resolve(bs, invs, NearInvader, Alive);
    if r.hitBy[i].Some? {
      forall j | 0 <= j < |invs| && j != i && r.hitBy[j].Some?
        ensures r.hitBy[j].value != r.hitBy[i].value
      {
        if j < i {
          assert r.hitBy[j].value != r.hitBy[i].value;
        } else {
          assert r.hitBy[i].value != r.hitBy[j].value;
        }
      }
    }
  }

  /** `{ ...invader, alive: false }` for every invader hit; nothing is removed. */
  function Killed(invs: seq<Invader>, hs: seq<Option<nat>>): (r: seq<Invader>)
    requires |invs| == |hs|
    ensures |r| == |invs|
    ensures forall k :: 0 <= k < |invs| ==> r[k] == if hs[k].Some? then invs[k].(alive := false) else invs[k]
  {
    seq(|invs|, k requires 0 <= k < |invs| => if hs[k].Some? then invs[k].(alive := false) else invs[k])
  }

  /** An invader's bullet at |dx| < 15 from the cannon and at y >= 420 strikes it. */
  predicate HitsCannon(b: Bomb, p: int)
  {
    AbsR(b.x - p as real) < 15.0 && b.y >= GameHeight - 80
  }

  function Missed(bombs: seq<Bomb>, p: int): (r: seq<Bomb>)
    ensures |r| <= |bombs|
    ensures forall b :: b in r <==> b in bombs && !HitsCannon(b, p)
  {
    if |bombs| == 0 then []
    else (if HitsCannon(bombs[0], p) then [] else [bombs[0]]) + Missed(bombs[1..], p)
  }

  /** The score a tick reports: the snapshot plus 10 when any invader is hit. */
  function TickScore(snapshot: int, hits: nat): (s: int)
    ensures s == if hits > 0 then snapshot + 10 else snapshot
  {
    if hits > 0 then snapshot + 10 else snapshot
  }

  /** What one firing of the loop leaves. */
  datatype Lists = Lists(bullets: seq<Bullet>, bombs: seq<Bomb>, invaders: seq<Invader>,
                         direction: int, hits: nat, over: bool)

  /** The cannon's bullets rise 5, the invaders' bullets fall 3, the formation marches,
      the first live invader whose draw comes up fires, the cannon's bullets strike the
      live invaders, and the invaders' bullets that reach the cannon are removed. The game
      ends when an invader lands or the cannon is struck. */
  function TickLists(bullets: seq<Bullet>, bombs: seq<Bomb>, invs: seq<Invader>, dir: int, p: int, draws: seq<bool>): (t: Lists)
    ensures |t.invaders| == |invs|
    ensures |t.bullets| + t.hits == |Advance(bullets, Rise, Below)|
    ensures |t.bombs| <= |bombs| + 1
    ensures Landed(MarchAll(invs, dir)) ==> t.over
  {
    var bs := Advance(bullets, Rise, Below);
    var moved := MarchAll(invs, dir);
    var falling := Advance(bombs, Fall, Above) + Shots(moved, draws);
    var r := Resolve(bs, moved, NearInvader, Alive);
    ResolveBelow(bs, moved, NearInvader, Alive);
    var left := Missed(falling, p);
    Lists(Remaining(bs, r.live), left, Killed(moved, r.hitBy), Negated(dir, EdgeCount(invs, dir)),
          Hits(r.hitBy), Landed(moved) || |left| < |falling|)
  }

  /** The cannon is struck exactly when some falling bullet reaches it. */
  lemma StruckIff(bombs: seq<Bomb>, p: int)
    ensures |Missed(bombs, p)| < |bombs| <==> exists k :: 0 <= k < |bombs| && HitsCannon(bombs[k], p)
    decreases |bombs|
  {
    if |bombs| > 0 {
      StruckIff(bombs[1..], p);
      if exists k :: 0 <= k < |bombs[1..]| && HitsCannon(bombs[1..][k], p) {
        var k :| 0 <= k < |bombs[1..]| && HitsCannon(bombs[1..][k], p);
        assert HitsCannon(bombs[k + 1], p);
      }
      if exists k :: 0 <= k < |bombs| && HitsCannon(bombs[k], p) {
        var k :| 0 <= k < |bombs| && HitsCannon(bombs[k], p);
        if k > 0 {
          assert HitsCannon(bombs[1..][k - 1], p);
        }
      }
    }
  }

  /** A tick never revives an invader: invader k is alive afterwards exactly when it was
      alive and no bullet struck it; it is never removed from the list. */
  lemma AliveAfterTick(bullets: seq<Bullet>, bombs: seq<Bomb>, invs: seq<Invader>, dir: int, p: int, draws: seq<bool>, k: nat)
    requires k < |invs|
    ensures var t := TickLists(bullets, bombs, invs, dir, p, draws);
            var r := Resolve(Advance(bullets, Rise, Below), MarchAll(invs, dir), NearInvader, Alive);
            |t.invaders| == |invs| && (t.invaders[k].alive <==> invs[k].alive && r.hitBy[k].None?)
  {
  }

  /** The collision work of one tick, on values. */
  method MoveAndCollide(bullets: seq<Bullet>, bombs: seq<Bomb>, invs: seq<Invader>, dir: int, p: int, draws: seq<bool>)
    returns (t: Lists)
    requires dir == 1 || dir == -1
    ensures t == TickLists(bullets, bombs, invs, dir, p, draws)
    ensures t.direction == 1 || t.direction == -1
    ensures |t.invaders| == |invs|
  {
    var bs := Advance(bullets, Rise, Below);
    var moved := MarchAll(invs, dir);
    var falling := Advance(bombs, Fall, Above) + Shots(moved, draws);
    var remaining, hitBy := FirstHitPass(bs, moved, NearInvader, Alive);
    var flips := EdgeCount(invs, dir);
    NegatedParity(dir, flips);
    var left := Missed(falling, p);
    t := Lists(remaining, left, Killed(moved, hitBy), Negated(dir, flips), Hits(hitBy), Landed(moved) || |left| < |falling|);
  }

  class Game {
    var playerPos: int
    var bullets: seq<Bullet>
    var invaderBullets: seq<Bomb>
    var invaders: seq<Invader>
    var score: int
    var invaderDirection: int
    var gameOver: bool

    predicate Valid()
      reads this
    {
      20 <= playerPos <= GameWidth - 20 && (invaderDirection == 1 || invaderDirection == -1)
    }

    /** The state once the mount effect has built the formation. */
    constructor ()
      ensures Valid()
      ensures playerPos == GameWidth / 2 && bullets == [] && invaderBullets == [] && score == 0
      ensures invaderDirection == 1 && !gameOver
      ensures |invaders| == 50 && forall k :: 0 <= k < 50 ==> invaders[k] == FormationAt(k)
    {
      var invs := InitialInvaders();
      playerPos, bullets, invaderBullets, invaders := GameWidth / 2, [], [], invs;
      score, invaderDirection, gameOver := 0, 1, false;
    }

    /** handleKeyPress: nothing unless playing and not over; the arrows move the cannon and
        Space fires from it. */
    method Key(key: string, playing: bool)
      requires Valid()
      modifies this
      ensures Valid()
      ensures invaderBullets == old(invaderBullets) && invaders == old(invaders) && score == old(score)
      ensures invaderDirection == old(invaderDirection) && gameOver == old(gameOver)
      ensures !playing || old(gameOver) ==> playerPos == old(playerPos) && bullets == old(bullets)
      ensures playing && !old(gameOver) ==>
                playerPos == CannonMove(old(playerPos), key) &&
                bullets == if key == Space then old(bullets) + [Fired(old(playerPos))] else old(bullets)
    {
      if !playing || gameOver {
        return;
      }
      if key == Space {
        bullets := bullets + [Fired(playerPos)];
      } else {
        playerPos := CannonMove(playerPos, key);
      }
    }

    /** One firing of the 100 ms loop, with the score and direction snapshots and the
        firing draws. Nothing happens once the game is over. */
    method Tick(playing: bool, draws: seq<bool>)
      requires Valid()
      modifies this
      ensures Valid()
      ensures playerPos == old(playerPos)
      ensures !playing || old(gameOver) ==>
                bullets == old(bullets) && invaderBullets == old(invaderBullets) && invaders == old(invaders) &&
                score == old(score) && invaderDirection == old(invaderDirection) && gameOver == old(gameOver)
      ensures playing && !old(gameOver) ==>
                var t := TickLists(old(bullets), old(invaderBullets), old(invaders), old(invaderDirection), old(playerPos), draws);
                bullets == t.bullets && invaderBullets == t.bombs && invaders == t.invaders &&
                invaderDirection == t.direction && gameOver == t.over && score == TickScore(old(score), t.hits)
    {
      if playing && !gameOver {
        Step(draws);
      }
    }

    /** The body of the loop, run while playing and not over. */
    method Step(draws: seq<bool>)
      requires Valid()
      modifies this
      ensures Valid()
      ensures playerPos == old(playerPos)
      ensures var t := TickLists(old(bullets), old(invaderBullets), old(invaders), old(invaderDirection), old(playerPos), draws);
              bullets == t.bullets && invaderBullets == t.bombs && invaders == t.invaders &&
              invaderDirection == t.direction && gameOver == t.over && score == TickScore(old(score), t.hits)
    {
      var t := MoveAndCollide(bullets, invaderBullets, invaders, invaderDirection, playerPos, draws);
      Apply(t);
    }

    /** Writes a tick's lists back into the state. */
    method Apply(t: Lists)
      requires Valid() && (t.direction == 1 || t.direction == -1)
      modifies this
      ensures Valid() && playerPos == old(playerPos)
      ensures bullets == t.bullets && invaderBullets == t.bombs && invaders == t.invaders &&
              invaderDirection == t.direction && gameOver == t.over && score == TickScore(old(score), t.hits)
    {
      bullets, invaderBullets, invaders, invaderDirection, gameOver, score :=
        t.bullets, t.bombs, t.invaders, t.direction, t.over, TickScore(score, t.hits);
    }
  }
}
