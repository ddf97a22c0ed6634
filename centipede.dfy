/** Centipede (src/components/games/CentipedeGame.tsx): a shooter clamped to the bottom of
    a 400 by 500 field, bullets that fly up 8 a tick, a ten-segment centipede that bounces
    off the walls and the mushrooms, and two "first bullet wins" passes: bullets against
    segments (a struck segment becomes a mushroom) and bullets against mushrooms (four hits
    take a mushroom away). */
module Centipede {
  import opened Common
  import opened Collision

  const GameWidth: int := 400
  const GameHeight: int := 500

  datatype Pos = Pos(x: int, y: int)
  datatype Bullet = Bullet(x: int, y: int, id: int)
  datatype Segment = Segment(x: int, y: int, direction: int)
  datatype Mushroom = Mushroom(x: int, y: int, hits: int)

  // ---------------------------------------------------------------- the shooter

  /** handleKeyPress for the arrows: steps of 5, x kept in [0, 380] and y in [300, 480]. */
  function PlayerMove(p: Pos, key: string): (r: Pos)
    ensures key == ArrowLeft ==> r == Pos(Max(0, p.x - 5), p.y)
    ensures key == ArrowRight ==> r == Pos(Min(GameWidth - 20, p.x + 5), p.y)
    ensures key == ArrowUp ==> r == Pos(p.x, Max(300, p.y - 5))
    ensures key == ArrowDown ==> r == Pos(p.x, Min(GameHeight - 20, p.y + 5))
    ensures key !in {ArrowLeft, ArrowRight, ArrowUp, ArrowDown} ==> r == p
  {
    if key == ArrowLeft then Pos(Max(0, p.x - 5), p.y)
    else if key == ArrowRight then Pos(Min(GameWidth - 20, p.x + 5), p.y)
    else if key == ArrowUp then Pos(p.x, Max(300, p.y - 5))
    else if key == ArrowDown then Pos(p.x, Min(GameHeight - 20, p.y + 5))
    else p
  }

  predicate InZone(p: Pos)
  {
    0 <= p.x <= GameWidth - 20 && 300 <= p.y <= GameHeight - 20
  }

  /** The shooter never leaves its zone. */
  lemma PlayerStaysInZone(p: Pos, key: string)
    requires InZone(p)
    ensures InZone(PlayerMove(p, key))
  {
  }

  /** A bullet leaves from 10 right of the shooter. */
  function Fired(p: Pos, id: int): Bullet
  {
    Bullet(p.x + 10, p.y, id)
  }

  function Fly(b: Bullet): Bullet { b.(y := b.y - 8) }
  predicate OnField(b: Bullet) { b.y > 0 }

  // ---------------------------------------------------------------- the centipede

  /** Some mushroom lies within 20 on both axes of (x, y) (`mushrooms.find`). */
  predicate Blocked(ms: seq<Mushroom>, x: int, y: int)
  {
    exists k :: 0 <= k < |ms| && Abs(x - ms[k].x) < 20 && Abs(y - ms[k].y) < 20
  }

  /** One segment's step: 2 along its direction; at a wall (x <= 0 or x >= 380) it turns
      and drops 20, then a mushroom near the new place turns it and drops it 20 again. */
  function Crawl(s: Segment, ms: seq<Mushroom>): (r: Segment)
    ensures r.x == s.x + 2 * s.direction
    ensures var wall := r.x <= 0 || r.x >= GameWidth - 20;
            var y1 := if wall then s.y + 20 else s.y;
            var d1 := if wall then -s.direction else s.direction;
            r.y == (if Blocked(ms, r.x, y1) then y1 + 20 else y1) &&
            r.direction == (if Blocked(ms, r.x, y1) then -d1 else d1)
  {
    var newX := s.x + s.direction * 2;
    var wall := newX <= 0 || newX >= GameWidth - 20;
    var y1 := if wall then s.y + 20 else s.y;
    var d1 := if wall then -s.direction else s.direction;
    if Blocked(ms, newX, y1) then Segment(newX, y1 + 20, -d1) else Segment(newX, y1, d1)
  }

  /** A segment heading either way keeps heading one way or the other, and drops 0, 20
      or 40; when both bounces apply it keeps its heading and drops 40. */
  lemma CrawlBounds(s: Segment, ms: seq<Mushroom>)
    requires s.direction == 1 || s.direction == -1
    ensures var r := Crawl(s, ms);
            (r.direction == 1 || r.direction == -1) && r.y - s.y in {0, 20, 40} &&
            (r.y - s.y == 40 <==> r.direction == s.direction && (r.x <= 0 || r.x >= GameWidth - 20) && r.y != s.y) &&
            (r.y == s.y <==> r.direction == s.direction && r.x > 0 && r.x < GameWidth - 20)
  {
  }

  /** The head at x = 2 heading left meets the wall and a mushroom just below: both
      bounces apply in the same step. */
  lemma DoubleBounce()
    ensures Crawl(Segment(2, 50, -1), [Mushroom(0, 70, 0)]) == Segment(0, 90, -1)
  {
    assert Blocked([Mushroom(0, 70, 0)], 0, 70) by {
      assert Abs(0 - [Mushroom(0, 70, 0)][0].x) < 20;
    }
  }

  function CrawlAll(cs: seq<Segment>, ms: seq<Mushroom>): (r: seq<Segment>)
    ensures |r| == |cs| && forall k :: 0 <= k < |cs| ==> r[k] == Crawl(cs[k], ms)
  {
    seq(|cs|, k requires 0 <= k < |cs| => Crawl(cs[k], ms))
  }

  /** The ten segments of the mount effect's loop, 20 apart on y = 50, heading right. */
  method InitialCentipede() returns (cs: seq<Segment>)
    ensures |cs| == 10 && forall i :: 0 <= i < 10 ==> cs[i] == Segment(i * 20, 50, 1)
  {
    cs := [];
    var i := 0;
    while i < 10
      invariant 0 <= i <= 10 && |cs| == i
      invariant forall k :: 0 <= k < i ==> cs[k] == Segment(k * 20, 50, 1)
    {
      cs := cs + [Segment(i * 20, 50, 1)];
      i := i + 1;
    }
  }

  // ---------------------------------------------------------------- the two passes

  predicate NearSegment(b: Bullet, s: Segment)
  {
    Abs(b.x - s.x) < 15 && Abs(b.y - s.y) < 15
  }

  predicate NearMushroom(b: Bullet, m: Mushroom)
  {
    Abs(b.x - m.x) < 15 && Abs(b.y - m.y) < 15
  }

  predicate AnySegment(s: Segment) { true }
  predicate AnyMushroom(m: Mushroom) { true }

  /** Segment i of the moved centipede is struck exactly when some bullet left after the
      segments before it is within 15 on both axes; the bullet is the first such one and
      strikes no other segment. The number of bullets used is the number of segments
      struck. */
  lemma SegmentHitRule(bs: seq<Bullet>, cs: seq<Segment>, i: nat)
    requires i < |cs|
    ensures var L := LiveBefore(bs, cs, NearSegment, AnySegment, i);
            var r := Resolve(bs, cs, NearSegment, AnySegment);
            IndicesBelow(L, |bs|) &&
            (r.hitBy[i].Some? <==> exists k :: 0 <= k < |L| && NearSegment(bs[L[k]], cs[i])) &&
            (r.hitBy[i].Some? ==> forall j :: 0 <= j < |cs| && j != i && r.hitBy[j].Some? ==> r.hitBy[j].value != r.hitBy[i].value) &&
            |bs| == |r.live| + Hits(r.hitBy)
  {
    PassAt(bs, cs, NearSegment, AnySegment, i);
    PassConsumesOnce(bs, cs, NearSegment, AnySegment, AllIndices(|bs|));
    PassCount(bs, cs, NearSegment, AnySegment, AllIndices(|bs|));
    var r := Resolve(bs, cs, NearSegment, AnySegment);
    if r.hitBy[i].Some? {
      forall j | 0 <= j < |cs| && j != i && r.hitBy[j].Some?
        ensures r.hitBy[j].value != r.hitBy[i].value
      {
        if j < i {
          assert r.hitBy[j].value != r.hitBy[i].value;
        } else {
          assert r.hitBy[i].value != r.hitBy[j].value;
        }
      }
    }
  }

  /** The mushrooms the struck segments leave, in order, with no hits. */
  function Fallen(cs: seq<Segment>, hs: seq<Option<nat>>): (r: seq<Mushroom>)
    requires |cs| == |hs|
    ensures |r| == Hits(hs)
    ensures forall m :: m in r ==> m.hits == 0 && exists k :: 0 <= k < |cs| && hs[k].Some? && m == Mushroom(cs[k].x, cs[k].y, 0)
  {
    if |cs| == 0 then []
    else
      var rest := Fallen(cs[1..], hs[1..]);
      assert forall m :: m in rest ==> exists k :: 0 <= k < |cs| && hs[k].Some? && m == Mushroom(cs[k].x, cs[k].y, 0) by {
        forall m | m in rest
          ensures exists k :: 0 <= k < |cs| && hs[k].Some? && m == Mushroom(cs[k].x, cs[k].y, 0)
        {
          var k :| 0 <= k < |cs[1..]| && hs[1..][k].Some? && m == Mushroom(cs[1..][k].x, cs[1..][k].y, 0);
          assert hs[k + 1].Some? && m == Mushroom(cs[k + 1].x, cs[k + 1].y, 0);
        }
      }
      (if hs[0].Some? then [Mushroom(cs[0].x, cs[0].y, 0)] else []) + rest
  }

  /** `{ ...mushroom, hits: mushroom.hits + 1 }` for every struck mushroom. */
  function Struck(ms: seq<Mushroom>, hs: seq<Option<nat>>): (r: seq<Mushroom>)
    requires |ms| == |hs|
    ensures |r| == |ms|
    ensures forall k :: 0 <= k < |ms| ==> r[k] == if hs[k].Some? then ms[k].(hits := ms[k].hits + 1) else ms[k]
  {
    seq(|ms|, k requires 0 <= k < |ms| => if hs[k].Some? then ms[k].(hits := ms[k].hits + 1) else ms[k])
  }

  /** `filter(mushroom => mushroom.hits < 4)` */
  function Standing(ms: seq<Mushroom>): (r: seq<Mushroom>)
    ensures |r| <= |ms|
    ensures forall m :: m in r <==> m in ms && m.hits < 4
  {
    if |ms| == 0 then []
    else (if ms[0].hits < 4 then [ms[0]] else []) + Standing(ms[1..])
  }

  /** The score a tick reports. Every segment hit writes the snapshot plus 10 and every
      mushroom hit the snapshot plus 1; the mushroom pass runs last, so its write wins. */
  function TickScore(snapshot: int, segmentHits: nat, mushroomHits: nat): (s: int)
    ensures mushroomHits > 0 ==> s == snapshot + 1
    ensures mushroomHits == 0 && segmentHits > 0 ==> s == snapshot + 10
    ensures mushroomHits == 0 && segmentHits == 0 ==> s == snapshot
  {
    if mushroomHits > 0 then snapshot + 1 else if segmentHits > 0 then snapshot + 10 else snapshot
  }

  /** What one firing of the loop leaves. */
  datatype Lists = Lists(bullets: seq<Bullet>, centipede: seq<Segment>, mushrooms: seq<Mushroom>,
                         segmentHits: nat, mushroomHits: nat)

  /** The bullets fly, the segments crawl (against the mushrooms of the snapshot), the
      segment pass, then the mushroom pass over what bullets are left and over the
      mushrooms with the new ones added. */
  function TickLists(bullets: seq<Bullet>, cs: seq<Segment>, ms: seq<Mushroom>): (t: Lists)
    ensures |t.bullets| + t.segmentHits + t.mushroomHits == |Advance(bullets, Fly, OnField)|
    ensures |t.centipede| + t.segmentHits == |cs|
    ensures |t.mushrooms| <= |ms| + t.segmentHits
  {
    var bs := Advance(bullets, Fly, OnField);
    var moved := CrawlAll(cs, ms);
    var r1 := Resolve(bs, moved, NearSegment, AnySegment);
    ResolveBelow(bs, moved, NearSegment, AnySegment);
    var bs1 := Remaining(bs, r1.live);
    var ms0 := ms + Fallen(moved, r1.hitBy);
    var r2 := Resolve(bs1, ms0, NearMushroom, AnyMushroom);
    ResolveBelow(bs1, ms0, NearMushroom, AnyMushroom);
    Lists(Remaining(bs1, r2.live), Unhit(moved, r1.hitBy), Standing(Struck(ms0, r2.hitBy)),
          Hits(r1.hitBy), Hits(r2.hitBy))
  }

  /** The segment pass as written: `newCentipede.splice(index, 1)` with `index` counted
      in the centipede before any splice. */
  function SpliceAsWritten(cs: seq<Segment>, hs: seq<Option<nat>>, index: nat): (r: seq<Segment>)
    ensures |r| <= |cs|
    ensures index <= |hs| ==> |cs| - Hits(hs[index..]) <= |r|
    decreases |hs| - index
  {
    if index >= |hs| then cs
    else if hs[index].Some? then
      SpliceAsWritten(if index < |cs| then cs[..index] + cs[index + 1..] else cs, hs, index + 1)
    else SpliceAsWritten(cs, hs, index + 1)
  }

  /** When the first two segments are struck, the splices remove segments 0 and 2 of the
      original centipede: segment 1 survives and segment 2, never struck, is gone. */
  lemma SpliceShifts()
    ensures var a, b, c := Segment(0, 50, 1), Segment(20, 50, 1), Segment(40, 50, 1);
            var hs := [Some(0), Some(1), None];
            SpliceAsWritten([a, b, c], hs, 0) == [b] && Unhit([a, b, c], hs) == [c]
  {
    var a, b, c := Segment(0, 50, 1), Segment(20, 50, 1), Segment(40, 50, 1);
    var hs := [Some(0), Some(1), None];
    assert [a, b, c][..0] + [a, b, c][1..] == [b, c];
    assert [b, c][..1] + [b, c][2..] == [b];
    assert [a, b, c][1..] == [b, c] && hs[1..] == [Some(1), None];
    assert [b, c][1..] == [c] && hs[1..][1..] == [None];
  }

  /** Mushrooms: hits stay in [0, 3] for those left on the field. */
  predicate MushroomsOk(ms: seq<Mushroom>)
  {
    forall m :: m in ms ==> 0 <= m.hits < 4
  }

  lemma StandingOk(ms: seq<Mushroom>, hs: seq<Option<nat>>)
    requires |ms| == |hs| && forall m :: m in ms ==> 0 <= m.hits
    ensures MushroomsOk(Standing(Struck(ms, hs)))
  {
    var s := Struck(ms, hs);
    forall m | m in s
      ensures 0 <= m.hits
    {
      var k :| 0 <= k < |s| && s[k] == m;
    }
  }

  predicate SegmentsOk(cs: seq<Segment>)
  {
    forall s :: s in cs ==> s.direction == 1 || s.direction == -1
  }

  /** The collision work of one tick, on values. */
  method MoveAndCollide(bullets: seq<Bullet>, cs: seq<Segment>, ms: seq<Mushroom>) returns (t: Lists)
    requires SegmentsOk(cs) && MushroomsOk(ms)
    ensures t == TickLists(bullets, cs, ms)
    ensures SegmentsOk(t.centipede) && MushroomsOk(t.mushrooms)
  {
    var bs := Advance(bullets, Fly, OnField);
    var moved := CrawlAll(cs, ms);
    var bs1, hit1 := FirstHitPass(bs, moved, NearSegment, AnySegment);
    var ms0 := ms + Fallen(moved, hit1);
    var bs2, hit2 := FirstHitPass(bs1, ms0, NearMushroom, AnyMushroom);
    t := Lists(bs2, Unhit(moved, hit1), Standing(Struck(ms0, hit2)), Hits(hit1), Hits(hit2));
    forall s | s in t.centipede
      ensures s.direction == 1 || s.direction == -1
    {
      var k :| 0 <= k < |moved| && moved[k] == s;
      CrawlBounds(cs[k], ms);
    }
    StandingOk(ms0, hit2);
  }

  class Game {
    var playerPos: Pos
    var bullets: seq<Bullet>
    var centipede: seq<Segment>
    var mushrooms: seq<Mushroom>
    var score: int
    var bulletId: int

    /** The shooter is in its zone, every segment heads one way or the other, and every
        mushroom on the field has fewer than four hits. */
    predicate Valid()
      reads this
    {
      InZone(playerPos) && SegmentsOk(centipede) && MushroomsOk(mushrooms)
    }

    /** The state after the mount effect. `field` holds the 30 random mushroom places:
        x = floor(random * 380) and y = floor(random * 300) + 100. */
    constructor (field: seq<Pos>)
      requires |field| == 30 && forall p :: p in field ==> 0 <= p.x < GameWidth - 20 && 100 <= p.y < 400
      ensures Valid()
      ensures playerPos == Pos(200, 450) && bullets == [] && score == 0 && bulletId == 0
      ensures |centipede| == 10 && forall i :: 0 <= i < 10 ==> centipede[i] == Segment(i * 20, 50, 1)
      ensures |mushrooms| == 30 && forall i :: 0 <= i < 30 ==> mushrooms[i] == Mushroom(field[i].x, field[i].y, 0)
    {
      var cs := InitialCentipede();
      var ms := seq(30, i requires 0 <= i < 30 => Mushroom(field[i].x, field[i].y, 0));
      playerPos, bullets, centipede, mushrooms, score, bulletId := Pos(200, 450), [], cs, ms, 0, 0;
    }

    /** handleKeyPress: the arrows move the shooter, Space fires from 10 right of it. */
    method Key(key: string, playing: bool)
      requires Valid()
      modifies this
      ensures Valid()
      ensures centipede == old(centipede) && mushrooms == old(mushrooms) && score == old(score)
      ensures !playing ==> playerPos == old(playerPos) && bullets == old(bullets) && bulletId == old(bulletId)
      ensures playing && key != Space ==>
                playerPos == PlayerMove(old(playerPos), key) && bullets == old(bullets) && bulletId == old(bulletId)
      ensures playing && key == Space ==>
                playerPos == old(playerPos) && bullets == old(bullets) + [Fired(old(playerPos), old(bulletId))] &&
                bulletId == old(bulletId) + 1
    {
      if !playing {
        return;
      }
      if key == Space {
        bullets := bullets + [Fired(playerPos, bulletId)];
        bulletId := bulletId + 1;
      } else {
        PlayerStaysInZone(playerPos, key);
        playerPos := PlayerMove(playerPos, key);
      }
    }

    /** One firing of the 100 ms loop, with the score snapshot. */
    method Tick(playing: bool)
      requires Valid()
      modifies this
      ensures Valid()
      ensures playerPos == old(playerPos) && bulletId == old(bulletId)
      ensures !playing ==> bullets == old(bullets) && centipede == old(centipede) && mushrooms == old(mushrooms) && score == old(score)
      ensures playing ==>
                var t := TickLists(old(bullets), old(centipede), old(mushrooms));
                bullets == t.bullets && centipede == t.centipede && mushrooms == t.mushrooms &&
                score == TickScore(old(score), t.segmentHits, t.mushroomHits)
    {
      if playing {
        Step();
      }
    }

    /** A tick of play. */
    method Step()
      requires Valid()
      modifies this
      ensures Valid()
      ensures playerPos == old(playerPos) && bulletId == old(bulletId)
      ensures var t := TickLists(old(bullets), old(centipede), old(mushrooms));
              bullets == t.bullets && centipede == t.centipede && mushrooms == t.mushrooms &&
              score == TickScore(old(score), t.segmentHits, t.mushroomHits)
    {
      var t := MoveAndCollide(bullets, centipede, mushrooms);
      Apply(t);
    }

    /** Writes a tick's lists back into the state. */
    method Apply(t: Lists)
      requires Valid() && SegmentsOk(t.centipede) && MushroomsOk(t.mushrooms)
      modifies this
      ensures Valid() && playerPos == old(playerPos) && bulletId == old(bulletId)
      ensures bullets == t.bullets && centipede == t.centipede && mushrooms == t.mushrooms
      ensures score == TickScore(old(score), t.segmentHits, t.mushroomHits)
    {
      bullets, centipede, mushrooms, score := t.bullets, t.centipede, t.mushrooms, TickScore(score, t.segmentHits, t.mushroomHits);
    }
  }
}
