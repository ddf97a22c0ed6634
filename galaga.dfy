/** Galaga (src/components/games/GalagaGame.tsx): a 4 by 8 formation of galagas and bees
    that drifts while alive, a ship clamped to [20, 380] firing numbered bullets, and the
    ship's bullets against the live enemies ("first bullet wins", a hit marks the enemy
    dead, 50 points for a galaga and 30 for a bee). */
module Galaga {
  import opened Common
  import opened Collision

  const GameWidth: int := 400
  const GameHeight: int := 500

  datatype Bullet = Bullet(x: int, y: int, id: int)
  /** `type` is 'galaga' for the first two rows and 'bee' below them. */
  datatype Kind = Boss | Bee
  datatype Enemy = Enemy(x: real, y: real, kind: Kind, alive: bool, id: int)

  // ---------------------------------------------------------------- the formation

  /** Enemy k of the mount effect's loops (row outer, column inner), numbered from the
      enemy counter's initial value 0. */
  function FormationAt(k: int): Enemy
  {
    Enemy((k % 8 * 45 + 50) as real, (k / 8 * 40 + 50) as real, if k / 8 < 2 then Boss else Bee, true, k)
  }

  method InitialEnemies() returns (es: seq<Enemy>)
    ensures |es| == 32 && forall k :: 0 <= k < 32 ==> es[k] == FormationAt(k)
  {
    es := [];
    var row := 0;
    while row < 4
      invariant 0 <= row <= 4 && |es| == row * 8
      invariant forall k :: 0 <= k < |es| ==> es[k] == FormationAt(k)
    {
      var col := 0;
      while col < 8
        invariant 0 <= col <= 8 && |es| == row * 8 + col
        invariant forall k :: 0 <= k < |es| ==> es[k] == FormationAt(k)
      {
        assert (row * 8 + col) % 8 == col && (row * 8 + col) / 8 == row;
        es := es + [Enemy((col * 45 + 50) as real, (row * 40 + 50) as real, if row < 2 then Boss else Bee, true, row * 8 + col)];
        col := col + 1;
      }
      row := row + 1;
    }
  }

  /** The first sixteen are galagas, the rest bees; the ids are the positions, so no two
      enemies share one. */
  lemma FormationKinds(k: int)
    requires 0 <= k < 32
    ensures (FormationAt(k).kind == Boss <==> k < 16) && FormationAt(k).id == k
    ensures 50.0 <= FormationAt(k).x <= 365.0 && 50.0 <= FormationAt(k).y <= 170.0
  {
  }

  // ---------------------------------------------------------------- the ship

  /** handleKeyPress for the arrows: steps of 8 kept in [20, 380]. */
  function ShipMove(p: int, key: string): (r: int)
    ensures key == ArrowLeft ==> r == Max(20, p - 8)
    ensures key == ArrowRight ==> r == Min(GameWidth - 20, p + 8)
    ensures key != ArrowLeft && key != ArrowRight ==> r == p
    ensures 20 <= p <= GameWidth - 20 ==> 20 <= r <= GameWidth - 20
  {
    if key == ArrowLeft then Max(20, p - 8)
    else if key == ArrowRight then Min(GameWidth - 20, p + 8)
    else p
  }

  /** A shot leaves from (playerPos, 440) with the current bullet number. */
  function Fired(p: int, id: int): Bullet { Bullet(p, GameHeight - 60, id) }

  /** Every bullet in flight carries a number the counter has passed. */
  predicate NumberedBelow(bs: seq<Bullet>, n: int)
  {
    forall b :: b in bs ==> b.id < n
  }

  /** Firing keeps every number in flight below the counter, which is what makes the
      numbers unique keys. */
  lemma FireKeepsNumbers(bs: seq<Bullet>, n: int, p: int)
    requires NumberedBelow(bs, n)
    ensures NumberedBelow(bs + [Fired(p, n)], n + 1)
    ensures forall b :: b in bs ==> b.id != Fired(p, n).id
  {
  }

  function Rise(b: Bullet): Bullet { b.(y := b.y - 8) }
  predicate Below(b: Bullet) { b.y > 0 }

  // ---------------------------------------------------------------- the drift

  /** The formation movement of one live enemy: a tenth of its horizontal wave offset
      `ox` (sin of the clock and the id, times 20) and a twentieth of the shared
      vertical offset `oy` (sin of half the clock, times 10), plus 0.2 downwards. A dead
      enemy stays where it is. */
  function Drift(e: Enemy, ox: real, oy: real): (r: Enemy)
    ensures r.alive == e.alive && r.kind == e.kind && r.id == e.id
    ensures !e.alive ==> r == e
    ensures e.alive ==> r.x == e.x + ox * 0.1 && r.y == e.y + oy * 0.05 + 0.2
  {
    if !e.alive then e else e.(x := e.x + ox * 0.1, y := e.y + oy * 0.05 + 0.2)
  }

  function DriftAll(es: seq<Enemy>, ox: seq<real>, oy: real): (r: seq<Enemy>)
    requires |ox| == |es|
    ensures |r| == |es| && forall k :: 0 <= k < |es| ==> r[k] == Drift(es[k], ox[k], oy)
  {
    seq(|es|, k requires 0 <= k < |es| => Drift(es[k], ox[k], oy))
  }

  /** With offsets in the ranges a sine gives, a live enemy moves at most 2 sideways and
      sinks by between -0.3 and 0.7 a tick. */
  lemma DriftBounded(e: Enemy, ox: real, oy: real)
    requires e.alive && -20.0 <= ox <= 20.0 && -10.0 <= oy <= 10.0
    ensures var r := Drift(e, ox, oy);
            AbsR(r.x - e.x) <= 2.0 && e.y - 0.3 <= r.y <= e.y + 0.7
  {
  }

  // ---------------------------------------------------------------- the pass

  predicate NearEnemy(b: Bullet, e: Enemy)
  {
    AbsR(b.x as real - e.x) < 20.0 && AbsR(b.y as real - e.y) < 20.0
  }

  predicate Alive(e: Enemy) { e.alive }

  function Points(e: Enemy): (p: int)
    ensures p == 50 || p == 30
    ensures p == 50 <==> e.kind == Boss
  {
    if e.kind == Boss then 50 else 30
  }

  /** `{ ...enemy, alive: false }` for every enemy hit; nothing is removed. */
  function Killed(es: seq<Enemy>, hs: seq<Option<nat>>): (r: seq<Enemy>)
    requires |es| == |hs|
    ensures |r| == |es|
    ensures forall k :: 0 <= k < |es| ==> r[k] == if hs[k].Some? then es[k].(alive := false) else es[k]
  {
    seq(|es|, k requires 0 <= k < |es| => if hs[k].Some? then es[k].(alive := false) else es[k])
  }

  /** Every hit calls `setScore(score + points)` with the same snapshot, so the last hit
      of the pass decides the score. */
  function TickScore(snapshot: int, es: seq<Enemy>, hs: seq<Option<nat>>): int
    requires |es| == |hs|
  {
    match LastHit(hs)
    case None => snapshot
    case Some(i) => snapshot + Points(es[i])
  }

  /** The score moves only when something is hit, and then by 30 or 50 exactly, whatever
      the number of hits. */
  lemma ScoreStep(snapshot: int, es: seq<Enemy>, hs: seq<Option<nat>>)
    requires |es| == |hs|
    ensures var s := TickScore(snapshot, es, hs);
            (s == snapshot <==> Hits(hs) == 0) && (s == snapshot || s == snapshot + 30 || s == snapshot + 50)
  {
  }

  datatype Lists = Lists(bullets: seq<Bullet>, enemies: seq<Enemy>, hits: seq<Option<nat>>)

  /** Bullets rise 8 and leave above the top, live enemies drift, then the remaining
      bullets strike the live enemies. */
  function TickLists(bullets: seq<Bullet>, es: seq<Enemy>, ox: seq<real>, oy: real): (t: Lists)
    requires |ox| == |es|
    ensures |t.enemies| == |es| && |t.hits| == |es|
  {
    var bs := Advance(bullets, Rise, Below);
    var moved := DriftAll(es, ox, oy);
    var r := Resolve(bs, moved, NearEnemy, Alive);
    ResolveBelow(bs, moved, NearEnemy, Alive);
    Lists(Remaining(bs, r.live), Killed(moved, r.hitBy), r.hitBy)
  }

  /** Enemy k is alive after a tick exactly when it was alive and no bullet struck it at
      its drifted place; a bullet strikes only when it is within 20 on both axes. */
  lemma EnemyHitRule(bullets: seq<Bullet>, es: seq<Enemy>, ox: seq<real>, oy: real, k: nat)
    requires |ox| == |es| && k < |es|
    ensures var bs := Advance(bullets, Rise, Below);
            var moved := DriftAll(es, ox, oy);
            var L := LiveBefore(bs, moved, NearEnemy, Alive, k);
            var t := TickLists(bullets, es, ox, oy);
            IndicesBelow(L, |bs|) && |t.enemies| == |es| &&
            (t.enemies[k].alive <==> es[k].alive && forall j :: 0 <= j < |L| ==> !NearEnemy(bs[L[j]], moved[k]))
  {
    var bs := Advance(bullets, Rise, Below);
    var moved := DriftAll(es, ox, oy);
    PassAt(bs, moved, NearEnemy, Alive, k);
  }

  /** Each hit uses up its own bullet: the bullets left are the bullets in flight less
      one per enemy hit. */
  lemma BulletsSpent(bullets: seq<Bullet>, es: seq<Enemy>, ox: seq<real>, oy: real)
    requires |ox| == |es|
    ensures var t := TickLists(bullets, es, ox, oy);
            |t.bullets| + Hits(t.hits) == |Advance(bullets, Rise, Below)|
  {
    var bs := Advance(bullets, Rise, Below);
    var moved := DriftAll(es, ox, oy);
    PassCount(bs, moved, NearEnemy, Alive, AllIndices(|bs|));
  }

  /** Every bullet left after a tick is one that was in flight, moved up 8: a hit
      never makes or renumbers a bullet, so numbers below n stay below n. */
  lemma BulletsFromFlight(bullets: seq<Bullet>, es: seq<Enemy>, ox: seq<real>, oy: real, n: int)
    requires |ox| == |es|
    ensures forall b :: b in TickLists(bullets, es, ox, oy).bullets ==> exists x :: x in bullets && b == Rise(x)
    ensures NumberedBelow(bullets, n) ==> NumberedBelow(TickLists(bullets, es, ox, oy).bullets, n)
  {
    var bs := Advance(bullets, Rise, Below);
    var moved := DriftAll(es, ox, oy);
    var r := Resolve(bs, moved, NearEnemy, Alive);
    ResolveBelow(bs, moved, NearEnemy, Alive);
    var t := TickLists(bullets, es, ox, oy);
    assert t.bullets == Remaining(bs, r.live);
    forall b | b in t.bullets
      ensures exists x :: x in bullets && b == Rise(x)
    {
      var k :| 0 <= k < |t.bullets| && t.bullets[k] == b;
      assert b == bs[r.live[k]] && b in bs;
    }
  }

  method MoveAndCollide(bullets: seq<Bullet>, es: seq<Enemy>, ox: seq<real>, oy: real, snapshot: int)
    returns (t: Lists, score: int)
    requires |ox| == |es|
    ensures t == TickLists(bullets, es, ox, oy)
    ensures score == TickScore(snapshot, t.enemies, t.hits)
  {
    var bs := Advance(bullets, Rise, Below);
    var moved := DriftAll(es, ox, oy);
    var remaining, hitBy := FirstHitPass(bs, moved, NearEnemy, Alive);
    t := Lists(remaining, Killed(moved, hitBy), hitBy);
    score := TickScore(snapshot, t.enemies, t.hits);
  }

  class Game {
    var playerPos: int
    var bullets: seq<Bullet>
    var enemies: seq<Enemy>
    var score: int
    var bulletId: int
    var enemyId: int

    predicate Valid()
      reads this
    {
      20 <= playerPos <= GameWidth - 20
    }

    /** The state once the mount effect has built the formation and advanced the enemy
        counter past it. */
    constructor ()
      ensures Valid()
      ensures playerPos == GameWidth / 2 && bullets == [] && score == 0 && bulletId == 0 && enemyId == 32
      ensures |enemies| == 32 && forall k :: 0 <= k < 32 ==> enemies[k] == FormationAt(k)
    {
      var es := InitialEnemies();
      playerPos, bullets, enemies, score, bulletId, enemyId := GameWidth / 2, [], es, 0, 0, 32;
    }

    /** handleKeyPress: nothing unless playing; the arrows move the ship and Space fires a
        bullet carrying the next number. */
    method Key(key: string, playing: bool)
      requires Valid()
      modifies this
      ensures Valid()
      ensures enemies == old(enemies) && score == old(score) && enemyId == old(enemyId)
      ensures !playing ==> playerPos == old(playerPos) && bullets == old(bullets) && bulletId == old(bulletId)
      ensures playing && key == Space ==>
                playerPos == old(playerPos) && bullets == old(bullets) + [Fired(old(playerPos), old(bulletId))] &&
                bulletId == old(bulletId) + 1
      ensures playing && key != Space ==>
                playerPos == ShipMove(old(playerPos), key) && bullets == old(bullets) && bulletId == old(bulletId)
    {
      if !playing {
        return;
      }
      if key == Space {
        bullets, bulletId := bullets + [Fired(playerPos, bulletId)], bulletId + 1;
      } else {
        playerPos := ShipMove(playerPos, key);
      }
    }

    /** One firing of the 50 ms loop, with one horizontal wave offset per enemy and the
        shared vertical one. */
    method Tick(playing: bool, ox: seq<real>, oy: real)
      requires Valid() && |ox| == |enemies|
      modifies this
      ensures Valid()
      ensures playerPos == old(playerPos) && bulletId == old(bulletId) && enemyId == old(enemyId)
      ensures !playing ==> bullets == old(bullets) && enemies == old(enemies) && score == old(score)
      ensures playing ==>
                var t := TickLists(old(bullets), old(enemies), ox, oy);
                bullets == t.bullets && enemies == t.enemies && score == TickScore(old(score), t.enemies, t.hits)
    {
      if playing {
        Step(ox, oy);
      }
    }

    method Step(ox: seq<real>, oy: real)
      requires Valid() && |ox| == |enemies|
      modifies this
      ensures Valid()
      ensures playerPos == old(playerPos) && bulletId == old(bulletId) && enemyId == old(enemyId)
      ensures var t := TickLists(old(bullets), old(enemies), ox, oy);
              bullets == t.bullets && enemies == t.enemies && score == TickScore(old(score), t.enemies, t.hits)
    {
      var t, s := MoveAndCollide(bullets, enemies, ox, oy, score);
      Apply(t, s);
    }

    /** Writes a tick's lists and score back into the state. */
    method Apply(t: Lists, s: int)
      requires Valid()
      modifies this
      ensures Valid() && playerPos == old(playerPos) && bulletId == old(bulletId) && enemyId == old(enemyId)
      ensures bullets == t.bullets && enemies == t.enemies && score == s
    {
      bullets, enemies, score := t.bullets, t.enemies, s;
    }
  }
}
