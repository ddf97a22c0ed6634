/** Tempest (src/components/games/TempestGame.tsx): a player on one of 16 lanes of the rim,
    bullets that fly outward along a lane and enemies that crawl inward, and the pass in
    which each enemy is destroyed by the first remaining bullet in its lane and close to
    it. */
module Tempest {
  import opened Common
  import opened Collision

  const Lanes: int := 16
  const MaxDistance: int := 100

  /** A bullet or an enemy: its lane, its distance from the centre and its id. */
  datatype Shot = Shot(lane: int, distance: int, id: int)

  /** `(prev - 1 + LANES) % LANES` and `(prev + 1) % LANES` */
  function LaneLeft(p: int): (r: int)
    ensures 0 <= r < Lanes
    ensures 0 < p < Lanes ==> r == p - 1
    ensures p == 0 ==> r == Lanes - 1
  {
    (p - 1 + Lanes) % Lanes
  }

  function LaneRight(p: int): (r: int)
    ensures 0 <= r < Lanes
    ensures 0 <= p < Lanes - 1 ==> r == p + 1
    ensures p == Lanes - 1 ==> r == 0
  {
    (p + 1) % Lanes
  }

  /** Left and right undo each other on the rim. */
  lemma LanesInverse(p: int)
    requires 0 <= p < Lanes
    ensures LaneLeft(LaneRight(p)) == p && LaneRight(LaneLeft(p)) == p
  {
  }

  function Outward(b: Shot): Shot { b.(distance := b.distance + 5) }
  predicate BulletInTunnel(b: Shot) { b.distance < MaxDistance + 20 }
  function Inward(e: Shot): Shot { e.(distance := e.distance - 1) }
  predicate EnemyInTunnel(e: Shot) { e.distance > 0 }

  /** A bullet strikes an enemy in its lane less than 10 away. */
  predicate Near(b: Shot, e: Shot)
  {
    b.lane == e.lane && Abs(b.distance - e.distance) < 10
  }

  predicate AnyEnemy(e: Shot) { true }

  /** Enemy i of the moved list is destroyed exactly when some bullet still left after
      the enemies before it is in its lane and less than 10 away; the bullet used is the
      first such one, and it is used for no other enemy. */
  lemma HitRule(bs: seq<Shot>, es: seq<Shot>, i: nat)
    requires i < |es|
    ensures var L := LiveBefore(bs, es, Near, AnyEnemy, i);
            var r := Resolve(bs, es, Near, AnyEnemy);
            IndicesBelow(L, |bs|) &&
            (r.hitBy[i].Some? <==> exists k :: 0 <= k < |L| && bs[L[k]].lane == es[i].lane && Abs(bs[L[k]].distance - es[i].distance) < 10) &&
            (r.hitBy[i].Some? ==> forall j :: 0 <= j < |es| && j != i && r.hitBy[j].Some? ==> r.hitBy[j].value != r.hitBy[i].value)
  {
    PassAt(bs, es, Near, AnyEnemy, i);
    PassConsumesOnce(bs, es, Near, AnyEnemy, AllIndices(|bs|));
    var r := Resolve(bs, es, Near, AnyEnemy);
    if r.hitBy[i].Some? {
      forall j | 0 <= j < |es| && j != i && r.hitBy[j].Some?
        ensures r.hitBy[j].value != r.hitBy[i].value
      {
        if j < i {
          assert r.hitBy[j].value != r.hitBy[i].value;
        } else {
          assert r.hitBy[i].value != r.hitBy[j].value;
        }
      }
    }
  }

  /** The score a tick reports: every `setScore` of the pass writes the snapshot plus 150,
      so any number of hits adds 150 once. */
  function TickScore(snapshot: int, hits: nat): (s: int)
    ensures hits == 0 ==> s == snapshot
    ensures hits > 0 ==> s == snapshot + 150
  {
    if hits > 0 then snapshot + 150 else snapshot
  }

  /** Bullets on a lane, inside the tunnel, with ids below `next`. */
  predicate BulletsOk(bs: seq<Shot>, next: int)
  {
    forall k :: 0 <= k < |bs| ==> 0 <= bs[k].lane < Lanes && 0 <= bs[k].distance < MaxDistance + 20 && bs[k].id < next
  }

  /** Enemies on a lane, between the centre and the rim, with ids below `next`. */
  predicate EnemiesOk(es: seq<Shot>, next: int)
  {
    forall k :: 0 <= k < |es| ==> 0 <= es[k].lane < Lanes && 0 < es[k].distance <= MaxDistance && es[k].id < next
  }

  /** What survives the move, and any part of it, is still where it may be. */
  lemma TickKeepsBounds(bullets: seq<Shot>, enemies: seq<Shot>, bId: int, eId: int, bs': seq<Shot>, es': seq<Shot>)
    requires BulletsOk(bullets, bId) && EnemiesOk(enemies, eId)
    requires forall b :: b in bs' ==> b in Advance(bullets, Outward, BulletInTunnel)
    requires forall e :: e in es' ==> e in Advance(enemies, Inward, EnemyInTunnel)
    ensures BulletsOk(bs', bId) && EnemiesOk(es', eId)
  {
    forall k | 0 <= k < |bs'|
      ensures 0 <= bs'[k].lane < Lanes && 0 <= bs'[k].distance < MaxDistance + 20 && bs'[k].id < bId
    {
      assert bs'[k] in bs';
      var x :| x in bullets && bs'[k] == Outward(x);
      var j :| 0 <= j < |bullets| && bullets[j] == x;
    }
    forall k | 0 <= k < |es'|
      ensures 0 <= es'[k].lane < Lanes && 0 < es'[k].distance <= MaxDistance && es'[k].id < eId
    {
      assert es'[k] in es';
      var x :| x in enemies && es'[k] == Inward(x);
      var j :| 0 <= j < |enemies| && enemies[j] == x;
    }
  }

  /** What one firing of the loop leaves: the bullets, the enemies, and how many enemies
      were destroyed. */
  datatype Lists = Lists(bullets: seq<Shot>, enemies: seq<Shot>, hits: nat)

  function TickLists(bullets: seq<Shot>, enemies: seq<Shot>): (t: Lists)
    ensures |t.bullets| + t.hits == |Advance(bullets, Outward, BulletInTunnel)|
    ensures |t.enemies| + t.hits == |Advance(enemies, Inward, EnemyInTunnel)|
  {
    var bs := Advance(bullets, Outward, BulletInTunnel);
    var es := Advance(enemies, Inward, EnemyInTunnel);
    var r := Resolve(bs, es, Near, AnyEnemy);
    ResolveBelow(bs, es, Near, AnyEnemy);
    Lists(Remaining(bs, r.live), Unhit(es, r.hitBy), Hits(r.hitBy))
  }

  /** The list updates of one firing of the 50 ms loop: bullets fly out 5 and leave at
      120, enemies come in 1 and leave at 0, then the collision pass. */
  method MoveAndCollide(bullets: seq<Shot>, enemies: seq<Shot>, bId: int, eId: int) returns (t: Lists)
    requires BulletsOk(bullets, bId) && EnemiesOk(enemies, eId)
    ensures t == TickLists(bullets, enemies)
    ensures BulletsOk(t.bullets, bId) && EnemiesOk(t.enemies, eId)
  {
    var bs := Advance(bullets, Outward, BulletInTunnel);
    var es := Advance(enemies, Inward, EnemyInTunnel);
    var remaining, hitBy := FirstHitPass(bs, es, Near, AnyEnemy);
    assert forall b :: b in remaining ==> b in bs by {
      forall b | b in remaining
        ensures b in bs
      {
        var k :| 0 <= k < |remaining| && remaining[k] == b;
      }
    }
    var survivors := Unhit(es, hitBy);
    TickKeepsBounds(bullets, enemies, bId, eId, remaining, survivors);
    t := Lists(remaining, survivors, Hits(hitBy));
  }

  class Game {
    var playerPos: int
    var bullets: seq<Shot>
    var enemies: seq<Shot>
    var score: int
    var bulletId: int
    var enemyId: int

    /** The player and every bullet and enemy are on a lane, bullets are inside the
        tunnel, enemies between the rim and the centre, and every id handed out so far is
        below the next one. */
    predicate Valid()
      reads this
    {
      0 <= playerPos < Lanes && BulletsOk(bullets, bulletId) && EnemiesOk(enemies, enemyId)
    }

    constructor ()
      ensures Valid()
      ensures playerPos == 0 && bullets == [] && enemies == [] && score == 0 && bulletId == 0 && enemyId == 0
    {
      playerPos := 0;
      bullets := [];
      enemies := [];
      score := 0;
      bulletId := 0;
      enemyId := 0;
    }

    /** handleKeyPress: the arrows step round the rim, Space fires a bullet out of the
        player's lane with a fresh id. */
    method Key(key: string, playing: bool)
      requires Valid()
      modifies this
      ensures Valid()
      ensures enemies == old(enemies) && score == old(score) && enemyId == old(enemyId)
      ensures !playing || key !in {ArrowLeft, ArrowRight, Space} ==>
                playerPos == old(playerPos) && bullets == old(bullets) && bulletId == old(bulletId)
      ensures playing && key == ArrowLeft ==> playerPos == LaneLeft(old(playerPos)) && bullets == old(bullets) && bulletId == old(bulletId)
      ensures playing && key == ArrowRight ==> playerPos == LaneRight(old(playerPos)) && bullets == old(bullets) && bulletId == old(bulletId)
      ensures playing && key == Space ==>
                playerPos == old(playerPos) && bullets == old(bullets) + [Shot(old(playerPos), 0, old(bulletId))] &&
                bulletId == old(bulletId) + 1
      ensures playing && key == Space ==> forall k :: 0 <= k < |old(bullets)| ==> old(bullets)[k].id != old(bulletId)
    {
      if !playing {
        return;
      }
      if key == ArrowLeft {
        playerPos := LaneLeft(playerPos);
      } else if key == ArrowRight {
        playerPos := LaneRight(playerPos);
      } else if key == Space {
        bullets := bullets + [Shot(playerPos, 0, bulletId)];
        bulletId := bulletId + 1;
      }
    }

    /** One firing of the 1.5 s spawn timer: with `roll` (Math.random() < 0.3) an enemy
        appears on lane `lane` at the rim. */
    method Spawn(playing: bool, roll: bool, lane: int)
      requires Valid() && 0 <= lane < Lanes
      modifies this
      ensures Valid()
      ensures playerPos == old(playerPos) && bullets == old(bullets) && score == old(score) && bulletId == old(bulletId)
      ensures playing && roll ==> enemies == old(enemies) + [Shot(lane, MaxDistance, old(enemyId))] && enemyId == old(enemyId) + 1
      ensures !(playing && roll) ==> enemies == old(enemies) && enemyId == old(enemyId)
    {
      if playing && roll {
        enemies := enemies + [Shot(lane, MaxDistance, enemyId)];
        enemyId := enemyId + 1;
      }
    }

    /** One firing of the 50 ms loop, with the score snapshot. */
    method Tick(playing: bool)
      requires Valid()
      modifies this
      ensures Valid()
      ensures playerPos == old(playerPos) && bulletId == old(bulletId) && enemyId == old(enemyId)
      ensures !playing ==> bullets == old(bullets) && enemies == old(enemies) && score == old(score)
      ensures playing ==>
                var t := TickLists(old(bullets), old(enemies));
                bullets == t.bullets && enemies == t.enemies && score == TickScore(old(score), t.hits)
    {
      if playing {
        Step();
      }
    }

    /** A tick of play. */
    method Step()
      requires Valid()
      modifies this
      ensures Valid()
      ensures playerPos == old(playerPos) && bulletId == old(bulletId) && enemyId == old(enemyId)
      ensures var t := TickLists(old(bullets), old(enemies));
              bullets == t.bullets && enemies == t.enemies && score == TickScore(old(score), t.hits)
    {
      var t := MoveAndCollide(bullets, enemies, bulletId, enemyId);
      Apply(t);
    }

    /** Writes a tick's lists back into the state. */
    method Apply(t: Lists)
      requires Valid() && BulletsOk(t.bullets, bulletId) && EnemiesOk(t.enemies, enemyId)
      modifies this
      ensures Valid() && playerPos == old(playerPos) && bulletId == old(bulletId) && enemyId == old(enemyId)
      ensures bullets == t.bullets && enemies == t.enemies && score == TickScore(old(score), t.hits)
    {
      bullets, enemies, score := t.bullets, t.enemies, TickScore(score, t.hits);
    }
  }
}
