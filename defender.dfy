/** Defender (src/components/games/DefenderGame.tsx): a ship that moves in steps of 5
    inside the 400 by 300 field and fires to the right, landers drifting left with a
    wobble, eight humanoids on the ground, and the bullets against the landers ("first
    bullet wins", a hit removes the lander and reports the score snapshot plus 150). */
module Defender {
  import opened Common
  import opened Collision

  const GameWidth: int := 400
  const GameHeight: int := 300

  datatype Ship = Ship(x: int, y: int)
  datatype Bullet = Bullet(x: int, y: int, id: int)
  datatype Lander = Lander(x: real, y: real, id: int)
  datatype Humanoid = Humanoid(x: int, y: int, saved: bool)

  // ---------------------------------------------------------------- the start

  /** Humanoid i of the mount effect: 50 apart from x = 25, on the ground line y = 270. */
  function HumanoidAt(i: int): Humanoid { Humanoid(i * 50 + 25, GameHeight - 30, false) }

  /** The mount effect: five landers at the drawn places with ids 0 to 4, and the eight
      humanoids. */
  method InitialObjects(places: seq<(real, real)>) returns (ls: seq<Lander>, hs: seq<Humanoid>)
    requires |places| == 5
    ensures |ls| == 5 && forall i :: 0 <= i < 5 ==> ls[i] == Lander(places[i].0, places[i].1, i)
    ensures |hs| == 8 && forall i :: 0 <= i < 8 ==> hs[i] == HumanoidAt(i)
  {
    ls, hs := [], [];
    var i := 0;
    while i < 5
      invariant 0 <= i <= 5 && |ls| == i
      invariant forall k :: 0 <= k < i ==> ls[k] == Lander(places[k].0, places[k].1, k)
    {
      ls := ls + [Lander(places[i].0, places[i].1, i)];
      i := i + 1;
    }
    i := 0;
    while i < 8
      invariant 0 <= i <= 8 && |hs| == i
      invariant forall k :: 0 <= k < i ==> hs[k] == HumanoidAt(k)
    {
      hs := hs + [HumanoidAt(i)];
      i := i + 1;
    }
  }

  // ---------------------------------------------------------------- the ship

  predicate InField(s: Ship)
  {
    0 <= s.x <= GameWidth - 30 && 0 <= s.y <= GameHeight - 30
  }

  /** handleKeyPress for the arrows: steps of 5, x kept in [0, 370] and y in [0, 270]. */
  function ShipMove(s: Ship, key: string): (r: Ship)
    ensures key == ArrowLeft ==> r == s.(x := Max(0, s.x - 5))
    ensures key == ArrowRight ==> r == s.(x := Min(GameWidth - 30, s.x + 5))
    ensures key == ArrowUp ==> r == s.(y := Max(0, s.y - 5))
    ensures key == ArrowDown ==> r == s.(y := Min(GameHeight - 30, s.y + 5))
    ensures key != ArrowLeft && key != ArrowRight && key != ArrowUp && key != ArrowDown ==> r == s
  {
    if key == ArrowLeft then s.(x := Max(0, s.x - 5))
    else if key == ArrowRight then s.(x := Min(GameWidth - 30, s.x + 5))
    else if key == ArrowUp then s.(y := Max(0, s.y - 5))
    else if key == ArrowDown then s.(y := Min(GameHeight - 30, s.y + 5))
    else s
  }

  /** The ship never leaves the field, whatever key is pressed. */
  lemma ShipStaysInField(s: Ship, key: string)
    requires InField(s)
    ensures InField(ShipMove(s, key))
  {
  }

  /** A shot leaves from the ship's nose, 15 right and 10 down of its corner. */
  function Fired(s: Ship, id: int): Bullet { Bullet(s.x + 15, s.y + 10, id) }

  function Fly(b: Bullet): Bullet { b.(x := b.x + 8) }
  predicate OnScreen(b: Bullet) { b.x < GameWidth }

  /** A lander's move: 1 left and `wobble(id)` down, the wobble standing for half the sine
      of the clock plus the id. */
  function Drift(wobble: int -> real): Lander -> Lander
  {
    (l: Lander) => l.(x := l.x - 1.0, y := l.y + wobble(l.id))
  }

  predicate NotGone(l: Lander) { l.x > -50.0 }

  predicate NearLander(b: Bullet, l: Lander)
  {
    AbsR(b.x as real - l.x) < 20.0 && AbsR(b.y as real - l.y) < 20.0
  }

  predicate AnyLander(l: Lander) { true }

  /** Lander i of the moved list is shot down exactly when some bullet left after the
      landers before it is within 20 on both axes; that bullet is used for no other. */
  lemma LanderHitRule(bs: seq<Bullet>, ls: seq<Lander>, i: nat)
    requires i < |ls|
    ensures var L := LiveBefore(bs, ls, NearLander, AnyLander, i);
            var r := Resolve(bs, ls, NearLander, AnyLander);
            IndicesBelow(L, |bs|) &&
            (r.hitBy[i].Some? <==> exists k :: 0 <= k < |L| && NearLander(bs[L[k]], ls[i])) &&
            (r.hitBy[i].Some? ==> forall j :: 0 <= j < |ls| && j != i && r.hitBy[j].Some? ==> r.hitBy[j].value != r.hitBy[i].value)
  {
    PassAt(bs, ls, NearLander, AnyLander, i);
    PassConsumesOnce(bs, ls, NearLander, AnyLander, AllIndices(|bs|));
    var r := Resolve(bs, ls, NearLander, AnyLander);
    if r.hitBy[i].Some? {
      forall j | 0 <= j < |ls| && j != i && r.hitBy[j].Some?
        ensures r.hitBy[j].value != r.hitBy[i].value
      {
        if j < i {
          assert r.hitBy[j].value != r.hitBy[i].value;
        } else {
          assert r.hitBy[i].value != r.hitBy[j].value;
        }
      }
    }
  }

  /** Every hit writes the snapshot plus 150, so any number of hits adds 150 once. */
  function TickScore(snapshot: int, hits: nat): (s: int)
    ensures hits == 0 ==> s == snapshot
    ensures hits > 0 ==> s == snapshot + 150
  {
    if hits > 0 then snapshot + 150 else snapshot
  }

  datatype Lists = Lists(bullets: seq<Bullet>, landers: seq<Lander>, hits: nat)

  /** Bullets fly 8 right and leave at the right edge, landers drift and leave past
      x = -50, then the collision pass removes each lander hit with its bullet. */
  function TickLists(bullets: seq<Bullet>, ls: seq<Lander>, wobble: int -> real): Lists
  {
    var bs := Advance(bullets, Fly, OnScreen);
    var moved := Advance(ls, Drift(wobble), NotGone);
    var r := Resolve(bs, moved, NearLander, AnyLander);
    ResolveBelow(bs, moved, NearLander, AnyLander);
    Lists(Remaining(bs, r.live), Unhit(moved, r.hitBy), Hits(r.hitBy))
  }

  /** Shooting removes exactly one bullet and one lander per hit. */
  lemma TickCounts(bullets: seq<Bullet>, ls: seq<Lander>, wobble: int -> real)
    ensures var t := TickLists(bullets, ls, wobble);
            var bs := Advance(bullets, Fly, OnScreen);
            var moved := Advance(ls, Drift(wobble), NotGone);
            |t.bullets| + t.hits == |bs| && |t.landers| + t.hits == |moved| && t.hits <= |ls|
  {
    var bs := Advance(bullets, Fly, OnScreen);
    var moved := Advance(ls, Drift(wobble), NotGone);
    PassCount(bs, moved, NearLander, AnyLander, AllIndices(|bs|));
  }

  method MoveAndCollide(bullets: seq<Bullet>, ls: seq<Lander>, wobble: int -> real) returns (t: Lists)
    ensures t == TickLists(bullets, ls, wobble)
  {
    var bs := Advance(bullets, Fly, OnScreen);
    var moved := Advance(ls, Drift(wobble), NotGone);
    var remaining, hitBy := FirstHitPass(bs, moved, NearLander, AnyLander);
    t := Lists(remaining, Unhit(moved, hitBy), Hits(hitBy));
  }

  class Game {
    var playerPos: Ship
    var bullets: seq<Bullet>
    var enemies: seq<Lander>
    var humanoids: seq<Humanoid>
    var score: int
    var bulletId: int

    predicate Valid()
      reads this
    {
      InField(playerPos)
    }

    /** The state once the mount effect has placed the landers at the drawn places. */
    constructor (places: seq<(real, real)>)
      requires |places| == 5
      ensures Valid()
      ensures playerPos == Ship(50, 150) && bullets == [] && score == 0 && bulletId == 0
      ensures |enemies| == 5 && forall i :: 0 <= i < 5 ==> enemies[i] == Lander(places[i].0, places[i].1, i)
      ensures |humanoids| == 8 && forall i :: 0 <= i < 8 ==> humanoids[i] == HumanoidAt(i)
    {
      var ls, hs := InitialObjects(places);
      playerPos, bullets, enemies, humanoids, score, bulletId := Ship(50, 150), [], ls, hs, 0, 0;
    }

    /** handleKeyPress: nothing unless playing; the arrows move the ship and Space fires a
        numbered bullet from its nose. */
    method Key(key: string, playing: bool)
      requires Valid()
      modifies this
      ensures Valid()
      ensures enemies == old(enemies) && humanoids == old(humanoids) && score == old(score)
      ensures !playing ==> playerPos == old(playerPos) && bullets == old(bullets) && bulletId == old(bulletId)
      ensures playing && key == Space ==>
                playerPos == old(playerPos) && bullets == old(bullets) + [Fired(old(playerPos), old(bulletId))] &&
                bulletId == old(bulletId) + 1
      ensures playing && key != Space ==>
                playerPos == ShipMove(old(playerPos), key) && bullets == old(bullets) && bulletId == old(bulletId)
    {
      if !playing {
        return;
      }
      if key == Space {
        bullets, bulletId := bullets + [Fired(playerPos, bulletId)], bulletId + 1;
      } else {
        ShipStaysInField(playerPos, key);
        playerPos := ShipMove(playerPos, key);
      }
    }

    /** One firing of the 50 ms loop, with the wobble of each lander by id. The ship and
        the humanoids are untouched. */
    method Tick(playing: bool, wobble: int -> real)
      requires Valid()
      modifies this
      ensures Valid()
      ensures playerPos == old(playerPos) && humanoids == old(humanoids) && bulletId == old(bulletId)
      ensures !playing ==> bullets == old(bullets) && enemies == old(enemies) && score == old(score)
      ensures playing ==>
                var t := TickLists(old(bullets), old(enemies), wobble);
                bullets == t.bullets && enemies == t.landers && score == TickScore(old(score), t.hits)
    {
      if playing {
        Step(wobble);
      }
    }

    method Step(wobble: int -> real)
      requires Valid()
      modifies this
      ensures Valid()
      ensures playerPos == old(playerPos) && humanoids == old(humanoids) && bulletId == old(bulletId)
      ensures var t := TickLists(old(bullets), old(enemies), wobble);
              bullets == t.bullets && enemies == t.landers && score == TickScore(old(score), t.hits)
    {
      var t := MoveAndCollide(bullets, enemies, wobble);
      Apply(t);
    }

    /** Writes a tick's lists back into the state. */
    method Apply(t: Lists)
      requires Valid()
      modifies this
      ensures Valid() && playerPos == old(playerPos) && humanoids == old(humanoids) && bulletId == old(bulletId)
      ensures bullets == t.bullets && enemies == t.landers && score == TickScore(old(score), t.hits)
    {
      bullets, enemies, score := t.bullets, t.landers, TickScore(score, t.hits);
    }
  }
}
