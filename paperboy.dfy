/** Paperboy (src/components/games/PaperboyGame.tsx): a rider in a band of the street
    throwing papers that fly in a falling arc, a row of ten houses scrolling past, papers
    against the houses not yet served ("first paper wins": 250 for a subscriber, 100 off
    for anyone else, never below 0), and obstacles that knock the rider back. */
module Paperboy {
  import opened Common
  import opened Collision

  const GameWidth: int := 400
  const GameHeight: int := 300

  datatype Rider = Rider(x: int, y: int)
  /** A paper's place and speed are reals: gravity adds 0.2 to vy each tick. */
  datatype Paper = Paper(x: real, y: real, vx: real, vy: real, id: int)
  datatype House = House(x: int, y: int, delivered: bool, subscriber: bool)
  datatype Obstacle = Obstacle(x: real, y: real, car: bool)

  const Home: Rider := Rider(50, 200)

  // ---------------------------------------------------------------- the street

  /** House i of the mount effect: 80 apart from x = 100 at y = 150, a subscriber when its
      draw is over 0.3. */
  function HouseAt(i: int, draw: real): House { House(i * 80 + 100, 150, false, draw > 0.3) }

  /** Obstacle i from its three draws: x in [200, 1000), y in [220, 270), a car or a dog. */
  function ObstacleAt(dx: real, dy: real, dkind: real): Obstacle
  {
    Obstacle(dx * 800.0 + 200.0, 220.0 + dy * 50.0, dkind > 0.5)
  }

  method InitialStreet(houseDraws: seq<real>, obstacleDraws: seq<(real, real, real)>)
    returns (hs: seq<House>, os: seq<Obstacle>)
    requires |houseDraws| == 10 && |obstacleDraws| == 15
    ensures |hs| == 10 && forall i :: 0 <= i < 10 ==> hs[i] == HouseAt(i, houseDraws[i])
    ensures |os| == 15 && forall i :: 0 <= i < 15 ==>
              os[i] == ObstacleAt(obstacleDraws[i].0, obstacleDraws[i].1, obstacleDraws[i].2)
  {
    hs, os := [], [];
    var i := 0;
    while i < 10
      invariant 0 <= i <= 10 && |hs| == i
      invariant forall k :: 0 <= k < i ==> hs[k] == HouseAt(k, houseDraws[k])
    {
      hs := hs + [House(i * 80 + 100, 150, false, houseDraws[i] > 0.3)];
      i := i + 1;
    }
    i := 0;
    while i < 15
      invariant 0 <= i <= 15 && |os| == i
      invariant forall k :: 0 <= k < i ==> os[k] == ObstacleAt(obstacleDraws[k].0, obstacleDraws[k].1, obstacleDraws[k].2)
    {
      var d := obstacleDraws[i];
      os := os + [Obstacle(d.0 * 800.0 + 200.0, 220.0 + d.1 * 50.0, d.2 > 0.5)];
      i := i + 1;
    }
  }

  // ---------------------------------------------------------------- the rider

  predicate OnStreet(r: Rider) { 0 <= r.x <= GameWidth - 30 && 100 <= r.y <= 250 }

  /** handleKeyPress for the arrows: steps of 3, x kept in [0, 370] and y in [100, 250]. */
  function Ride(r: Rider, key: string): (n: Rider)
    ensures key == ArrowLeft ==> n == r.(x := Max(0, r.x - 3))
    ensures key == ArrowRight ==> n == r.(x := Min(GameWidth - 30, r.x + 3))
    ensures key == ArrowUp ==> n == r.(y := Max(100, r.y - 3))
    ensures key == ArrowDown ==> n == r.(y := Min(250, r.y + 3))
    ensures key != ArrowLeft && key != ArrowRight && key != ArrowUp && key != ArrowDown ==> n == r
    ensures OnStreet(r) ==> OnStreet(n)
  {
    if key == ArrowLeft then r.(x := Max(0, r.x - 3))
    else if key == ArrowRight then r.(x := Min(GameWidth - 30, r.x + 3))
    else if key == ArrowUp then r.(y := Max(100, r.y - 3))
    else if key == ArrowDown then r.(y := Min(250, r.y + 3))
    else r
  }

  /** A paper leaves 15 right and 10 below the rider's corner, 4 right and 2 up a tick. */
  function Thrown(r: Rider, id: int): Paper { Paper((r.x + 15) as real, (r.y + 10) as real, 4.0, -2.0, id) }

  // ---------------------------------------------------------------- the papers

  function Fly(p: Paper): Paper { p.(x := p.x + p.vx, y := p.y + p.vy, vy := p.vy + 0.2) }

  predicate InSight(p: Paper) { p.x < (GameWidth + 50) as real && p.y < GameHeight as real }

  /** A paper n ticks on, if nothing stops it. */
  function Flight(p: Paper, n: nat): Paper
  {
    if n == 0 then p else Fly(Flight(p, n - 1))
  }

  /** The arc in closed form: after n ticks the paper is 4n further right, its vertical
      speed has grown by 0.2n, and it has dropped n times its first vertical speed plus
      0.1 n (n - 1). */
  lemma {:induction false} FlightArc(p: Paper, n: nat)
    ensures var q := Flight(p, n);
            q.x == p.x + n as real * p.vx && q.vx == p.vx && q.id == p.id &&
            q.vy == p.vy + 0.2 * n as real &&
            q.y == p.y + n as real * p.vy + 0.1 * (n as real) * (n as real - 1.0)
  {
    if n > 0 {
      FlightArc(p, n - 1);
    }
  }

  /** A thrown paper rises for ten ticks and falls after: its vertical speed is
      negative before tick 10 and not after. */
  lemma ThrownPaperTurns(r: Rider, id: int, n: nat)
    ensures var q := Flight(Thrown(r, id), n);
            (n < 10 ==> q.vy < 0.0) && (n >= 10 ==> q.vy >= 0.0)
  {
    FlightArc(Thrown(r, id), n);
  }

  // ---------------------------------------------------------------- the houses

  /** A paper lands on a house within 30 of its scrolled place on both axes. */
  function NearAt(scroll: int): (Paper, House) -> bool
  {
    (p: Paper, h: House) => AbsR(p.x - (h.x - scroll) as real) < 30.0 && AbsR(p.y - h.y as real) < 30.0
  }

  predicate Undelivered(h: House) { !h.delivered }

  /** `{ ...house, delivered: true }` for every house hit; nothing is removed. */
  function Served(hs: seq<House>, hits: seq<Option<nat>>): (r: seq<House>)
    requires |hs| == |hits|
    ensures |r| == |hs|
    ensures forall k :: 0 <= k < |hs| ==> r[k] == if hits[k].Some? then hs[k].(delivered := true) else hs[k]
  {
    seq(|hs|, k requires 0 <= k < |hs| => if hits[k].Some? then hs[k].(delivered := true) else hs[k])
  }

  /** What one delivery writes: the snapshot plus 250 for a subscriber, the snapshot less
      100 (never below 0) for anyone else. */
  function Delivery(snapshot: int, h: House): (s: int)
    ensures h.subscriber ==> s == snapshot + 250
    ensures !h.subscriber ==> s == Max(0, snapshot - 100)
  {
    if h.subscriber then snapshot + 250 else Max(0, snapshot - 100)
  }

  /** Every delivery writes from the same snapshot, so the last house served in the pass
      decides the score. */
  function TickScore(snapshot: int, hs: seq<House>, hits: seq<Option<nat>>): int
    requires |hs| == |hits|
  {
    match LastHit(hits)
    case None => snapshot
    case Some(i) => Delivery(snapshot, hs[i])
  }

  /** The score stays at or above 0 and moves by one delivery at most. */
  lemma ScoreStep(snapshot: int, hs: seq<House>, hits: seq<Option<nat>>)
    requires |hs| == |hits| && snapshot >= 0
    ensures var s := TickScore(snapshot, hs, hits);
            s >= 0 && (Hits(hits) == 0 ==> s == snapshot) &&
            (s == snapshot || s == snapshot + 250 || s == Max(0, snapshot - 100))
  {
  }

  /** An obstacle within 25 of the rider on both axes, at its scrolled place. */
  predicate Bumps(os: seq<Obstacle>, r: Rider, scroll: int)
  {
    exists k :: 0 <= k < |os| && AbsR((os[k].x - scroll as real) - r.x as real) < 25.0 && AbsR(os[k].y - r.y as real) < 25.0
  }

  datatype Lists = Lists(papers: seq<Paper>, houses: seq<House>, hits: seq<Option<nat>>)

  /** Papers fly and leave the view, then the papers still flying hit the houses not yet
      served, at the scroll before this tick's step. */
  function TickLists(papers: seq<Paper>, hs: seq<House>, scroll: int): (t: Lists)
    ensures |t.houses| == |hs| && |t.hits| == |hs|
  {
    var ps := Advance(papers, Fly, InSight);
    var r := Resolve(ps, hs, NearAt(scroll), Undelivered);
    ResolveBelow(ps, hs, NearAt(scroll), Undelivered);
    Lists(Remaining(ps, r.live), Served(hs, r.hitBy), r.hitBy)
  }

  /** A house is served at most once: one already served stays so and takes no paper;
      one not yet served is served exactly when some paper left after the houses before
      it is within 30 of it. */
  lemma DeliveryRule(papers: seq<Paper>, hs: seq<House>, scroll: int, i: nat)
    requires i < |hs|
    ensures var ps := Advance(papers, Fly, InSight);
            var L := LiveBefore(ps, hs, NearAt(scroll), Undelivered, i);
            var t := TickLists(papers, hs, scroll);
            IndicesBelow(L, |ps|) &&
            (hs[i].delivered ==> t.houses[i] == hs[i] && t.hits[i].None?) &&
            (!hs[i].delivered ==>
               (t.houses[i].delivered <==> exists k :: 0 <= k < |L| && NearAt(scroll)(ps[L[k]], hs[i])))
  {
    var ps := Advance(papers, Fly, InSight);
    PassAt(ps, hs, NearAt(scroll), Undelivered, i);
  }

  method MoveAndCollide(papers: seq<Paper>, hs: seq<House>, scroll: int, snapshot: int)
    returns (t: Lists, score: int)
    requires snapshot >= 0
    ensures t == TickLists(papers, hs, scroll)
    ensures score == TickScore(snapshot, hs, t.hits) && score >= 0
  {
    var ps := Advance(papers, Fly, InSight);
    var remaining, hitBy := FirstHitPass(ps, hs, NearAt(scroll), Undelivered);
    t := Lists(remaining, Served(hs, hitBy), hitBy);
    ScoreStep(snapshot, hs, hitBy);
    score := TickScore(snapshot, hs, hitBy);
  }

  /** The bump test sees the rider of the last tick's render. From (50, 215), scrolled
      200, beside an obstacle at (250, 240), the captured rider is 25 away vertically and
      not bumped, while one ArrowDown puts the current rider 22 away, inside the range. */
  lemma StaleRiderBump()
    ensures var os := [Obstacle(250.0, 240.0, true)];
            var before := Rider(50, 215);
            var after := Ride(before, ArrowDown);
            after == Rider(50, 218) && !Bumps(os, before, 200) && Bumps(os, after, 200)
  {
    var os := [Obstacle(250.0, 240.0, true)];
    assert AbsR((os[0].x - 200 as real) - 50 as real) < 25.0 && AbsR(os[0].y - 218 as real) < 25.0;
  }

  class Game {
    var playerPos: Rider
    var papers: seq<Paper>
    var houses: seq<House>
    var obstacles: seq<Obstacle>
    var score: int
    var paperId: int
    var scrollX: int
    /** The rider the running interval callback has captured. `playerPos` is not among the
        loop effect's dependencies, but `scrollX` is and every tick changes it, so the
        effect restarts after each tick holding the rider of that render; key presses in
        between move `playerPos` and not this. */
    var seen: Rider

    predicate Valid()
      reads this
    {
      OnStreet(playerPos) && score >= 0
    }

    /** The state once the mount effect has laid out the street with its draws. */
    constructor (houseDraws: seq<real>, obstacleDraws: seq<(real, real, real)>)
      requires |houseDraws| == 10 && |obstacleDraws| == 15
      ensures Valid()
      ensures playerPos == Home && papers == [] && score == 0 && paperId == 0 && scrollX == 0 && seen == Home
      ensures |houses| == 10 && forall i :: 0 <= i < 10 ==> houses[i] == HouseAt(i, houseDraws[i])
      ensures |obstacles| == 15 && forall i :: 0 <= i < 15 ==>
                obstacles[i] == ObstacleAt(obstacleDraws[i].0, obstacleDraws[i].1, obstacleDraws[i].2)
    {
      var hs, os := InitialStreet(houseDraws, obstacleDraws);
      playerPos, papers, houses, obstacles := Home, [], hs, os;
      score, paperId, scrollX := 0, 0, 0;
      seen := Home;
    }

    /** handleKeyPress: nothing unless playing; the arrows ride and Space throws a
        numbered paper. */
    method Key(key: string, playing: bool)
      requires Valid()
      modifies this
      ensures Valid()
      ensures houses == old(houses) && obstacles == old(obstacles) && score == old(score) && scrollX == old(scrollX)
      ensures seen == old(seen)
      ensures !playing ==> playerPos == old(playerPos) && papers == old(papers) && paperId == old(paperId)
      ensures playing && key == Space ==>
                playerPos == old(playerPos) && papers == old(papers) + [Thrown(old(playerPos), old(paperId))] &&
                paperId == old(paperId) + 1
      ensures playing && key != Space ==>
                playerPos == Ride(old(playerPos), key) && papers == old(papers) && paperId == old(paperId)
    {
      if !playing {
        return;
      }
      if key == Space {
        papers, paperId := papers + [Thrown(playerPos, paperId)], paperId + 1;
      } else {
        playerPos := Ride(playerPos, key);
      }
    }

    /** One firing of the 50 ms loop. Not playing, there is no interval and nothing
        changes but the captured rider: the effect starts again with the current rider when
        play resumes, and keys do not move the rider in between. */
    method Tick(playing: bool)
      requires Valid()
      modifies this
      ensures Valid() && obstacles == old(obstacles) && paperId == old(paperId)
      ensures seen == playerPos
      ensures !playing ==> playerPos == old(playerPos) && papers == old(papers) && houses == old(houses) &&
                           score == old(score) && scrollX == old(scrollX)
      ensures playing ==>
                var t := TickLists(old(papers), old(houses), old(scrollX));
                papers == t.papers && houses == t.houses && score == TickScore(old(score), old(houses), t.hits) &&
                scrollX == old(scrollX) + 1 &&
                playerPos == (if Bumps(obstacles, old(seen), old(scrollX)) then Home else old(playerPos))
    {
      if playing {
        Step();
      } else {
        seen := playerPos;
      }
    }

    /** The scroll steps on by 1, the papers fly and hit the houses, and an obstacle at
        the captured rider sends the rider back to the start; the effect then restarts with
        the rider this tick leaves. */
    method Step()
      requires Valid()
      modifies this
      ensures Valid() && obstacles == old(obstacles) && paperId == old(paperId)
      ensures seen == playerPos
      ensures var t := TickLists(old(papers), old(houses), old(scrollX));
              papers == t.papers && houses == t.houses && score == TickScore(old(score), old(houses), t.hits) &&
              scrollX == old(scrollX) + 1 &&
              playerPos == (if Bumps(obstacles, old(seen), old(scrollX)) then Home else old(playerPos))
    {
      var rider := if Bumps(obstacles, seen, scrollX) then Home else playerPos;
      Deliver();
      playerPos, scrollX := rider, scrollX + 1;
      seen := rider;
    }

    /** The paper updates of one tick. */
    method Deliver()
      requires Valid()
      modifies this
      ensures Valid() && obstacles == old(obstacles) && paperId == old(paperId)
      ensures playerPos == old(playerPos) && scrollX == old(scrollX) && seen == old(seen)
      ensures var t := TickLists(old(papers), old(houses), old(scrollX));
              papers == t.papers && houses == t.houses && score == TickScore(old(score), old(houses), t.hits)
    {
      var t, s := MoveAndCollide(papers, houses, scrollX, score);
      Apply(t, s);
    }

    /** Writes a tick's lists and score back into the state. */
    method Apply(t: Lists, s: int)
      requires Valid() && s >= 0
      modifies this
      ensures Valid() && obstacles == old(obstacles) && paperId == old(paperId)
      ensures playerPos == old(playerPos) && scrollX == old(scrollX) && seen == old(seen)
      ensures papers == t.papers && houses == t.houses && score == s
    {
      papers, houses, score := t.papers, t.houses, s;
    }
  }
}
