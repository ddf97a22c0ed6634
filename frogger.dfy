/** Frogger (src/components/games/FroggerGame.tsx): a frog hopping 25 at a time from the
    bottom of a 400 by 500 field to the goal row, five lanes of cars that wrap around,
    four lanes of logs over the water, three lives, and 100 points a crossing. */
module Frogger {
  import opened Common

  const GameWidth: int := 400
  const GameHeight: int := 500
  const CellSize: int := 25
  const StartLives: int := 3

  /** The frog's x is a real: riding a log adds the log's speed to it. */
  datatype Frog = Frog(x: real, y: int)
  datatype Car = Car(x: real, y: int, speed: real, direction: int)
  datatype Log = Log(x: real, y: int, speed: real, width: real)

  const Start: Frog := Frog(200.0, 450)

  /** A value Math.random can return. */
  predicate Draw(r: real) { 0.0 <= r < 1.0 }

  // ---------------------------------------------------------------- the start

  /** Car k of the mount effect's loops (lane outer, three per lane): 150 apart, lanes 50
      apart from y = 350 up, speed 2 plus twice the draw, even lanes driving right. */
  function CarAt(k: int, draw: real): Car
  {
    Car((k % 3 * 150) as real, 350 - k / 3 * 50, 2.0 + draw * 2.0, if k / 3 % 2 == 0 then 1 else -1)
  }

  /** Log k of the mount effect's loops (lane outer, two per lane): 200 apart, lanes 50
      apart from y = 250 up, speed 1 plus a draw, width 80 plus 40 times a draw. */
  function LogAt(k: int, speedDraw: real, widthDraw: real): Log
  {
    Log((k % 2 * 200) as real, 250 - k / 2 * 50, 1.0 + speedDraw, 80.0 + widthDraw * 40.0)
  }

  method InitialTraffic(carDraws: seq<real>, speedDraws: seq<real>, widthDraws: seq<real>)
    returns (cars: seq<Car>, logs: seq<Log>)
    requires |carDraws| == 15 && |speedDraws| == 8 && |widthDraws| == 8
    ensures |cars| == 15 && forall k :: 0 <= k < 15 ==> cars[k] == CarAt(k, carDraws[k])
    ensures |logs| == 8 && forall k :: 0 <= k < 8 ==> logs[k] == LogAt(k, speedDraws[k], widthDraws[k])
  {
    cars, logs := [], [];
    var lane := 0;
    while lane < 5
      invariant 0 <= lane <= 5 && |cars| == lane * 3
      invariant forall k :: 0 <= k < |cars| ==> cars[k] == CarAt(k, carDraws[k])
    {
      var i := 0;
      while i < 3
        invariant 0 <= i <= 3 && |cars| == lane * 3 + i
        invariant forall k :: 0 <= k < |cars| ==> cars[k] == CarAt(k, carDraws[k])
      {
        assert (lane * 3 + i) % 3 == i && (lane * 3 + i) / 3 == lane;
        var draw := carDraws[lane * 3 + i];
        cars := cars + [Car((i * 150) as real, 350 - lane * 50, 2.0 + draw * 2.0, if lane % 2 == 0 then 1 else -1)];
        i := i + 1;
      }
      lane := lane + 1;
    }
    lane := 0;
    while lane < 4
      invariant 0 <= lane <= 4 && |logs| == lane * 2
      invariant forall k :: 0 <= k < |logs| ==> logs[k] == LogAt(k, speedDraws[k], widthDraws[k])
    {
      var i := 0;
      while i < 2
        invariant 0 <= i <= 2 && |logs| == lane * 2 + i
        invariant forall k :: 0 <= k < |logs| ==> logs[k] == LogAt(k, speedDraws[k], widthDraws[k])
      {
        assert (lane * 2 + i) % 2 == i && (lane * 2 + i) / 2 == lane;
        logs := logs + [Log((i * 200) as real, 250 - lane * 50, 1.0 + speedDraws[lane * 2 + i], 80.0 + widthDraws[lane * 2 + i] * 40.0)];
        i := i + 1;
      }
      lane := lane + 1;
    }
  }

  // ---------------------------------------------------------------- the traffic

  /** Right-going cars wrap with `% 450`; left-going ones jump back to 400 once they would
      pass x = -50. */
  function CarStep(c: Car): (r: Car)
    ensures r.y == c.y && r.speed == c.speed && r.direction == c.direction
    ensures c.direction <= 0 ==> r.x == (if c.x - c.speed < -50.0 then GameWidth as real else c.x - c.speed)
  {
    if c.direction > 0 then c.(x := JsRem(c.x + c.speed, (GameWidth + 50) as real))
    else if c.x - c.speed < -50.0 then c.(x := GameWidth as real)
    else c.(x := c.x - c.speed)
  }

  /** Logs wrap with `% (400 + width)`. */
  function LogStep(l: Log): (r: Log)
    requires l.width > 0.0
    ensures r.y == l.y && r.speed == l.speed && r.width == l.width
  {
    l.(x := JsRem(l.x + l.speed, GameWidth as real + l.width))
  }

  /** A car where the mount effect can put it and the loop can move it: speed in [2, 4),
      driving one way or the other, right-going ones in [0, 450) and left-going ones in
      [-50, 450). */
  predicate CarOk(c: Car)
  {
    2.0 <= c.speed < 4.0 && (c.direction == 1 || c.direction == -1) &&
    (c.direction == 1 ==> 0.0 <= c.x < (GameWidth + 50) as real) &&
    (c.direction == -1 ==> -50.0 <= c.x < (GameWidth + 50) as real)
  }

  /** A log: speed in [1, 2), width in [80, 120), x in [0, 400 + width). */
  predicate LogOk(l: Log)
  {
    1.0 <= l.speed < 2.0 && 80.0 <= l.width < 120.0 && 0.0 <= l.x < GameWidth as real + l.width
  }

  predicate CarsOk(cs: seq<Car>) { forall k :: 0 <= k < |cs| ==> CarOk(cs[k]) }
  predicate LogsOk(ls: seq<Log>) { forall k :: 0 <= k < |ls| ==> LogOk(ls[k]) }

  /** Traffic never leaves its lanes' range: a step keeps every car and every log in it. */
  lemma CarStaysOnRoad(c: Car)
    requires CarOk(c)
    ensures CarOk(CarStep(c))
  {
  }

  lemma LogStaysOnRiver(l: Log)
    requires LogOk(l)
    ensures LogOk(LogStep(l))
  {
  }

  /** The mount effect's traffic is in range for every draw Math.random can give. */
  lemma InitialTrafficOk(k: int, draw: real, speedDraw: real, widthDraw: real)
    requires Draw(draw) && Draw(speedDraw) && Draw(widthDraw)
    ensures 0 <= k < 15 ==> CarOk(CarAt(k, draw))
    ensures 0 <= k < 8 ==> LogOk(LogAt(k, speedDraw, widthDraw))
  {
  }

  function MoveCars(cs: seq<Car>): (r: seq<Car>)
    ensures |r| == |cs| && forall k :: 0 <= k < |cs| ==> r[k] == CarStep(cs[k])
  {
    seq(|cs|, k requires 0 <= k < |cs| => CarStep(cs[k]))
  }

  function MoveLogs(ls: seq<Log>): (r: seq<Log>)
    requires LogsOk(ls)
    ensures |r| == |ls| && forall k :: 0 <= k < |ls| ==> r[k] == LogStep(ls[k])
  {
    seq(|ls|, k requires 0 <= k < |ls| => LogStep(ls[k]))
  }

  // ---------------------------------------------------------------- the frog

  /** handleKeyPress for the arrows: hops of 25, y kept in [0, 450] and x in [0, 375].
      ArrowUp from the goal rows (y at most 50) scores instead; see `Game.Key`. */
  function Hop(f: Frog, key: string): (r: Frog)
    ensures key == ArrowUp ==> r == f.(y := Max(0, f.y - CellSize))
    ensures key == ArrowDown ==> r == f.(y := Min(450, f.y + CellSize))
    ensures key == ArrowLeft ==> r == f.(x := MaxR(0.0, f.x - CellSize as real))
    ensures key == ArrowRight ==> r == f.(x := MinR((GameWidth - 25) as real, f.x + CellSize as real))
    ensures key != ArrowUp && key != ArrowDown && key != ArrowLeft && key != ArrowRight ==> r == f
    ensures 0 <= f.y <= 450 ==> 0 <= r.y <= 450
  {
    if key == ArrowUp then f.(y := Max(0, f.y - CellSize))
    else if key == ArrowDown then f.(y := Min(450, f.y + CellSize))
    else if key == ArrowLeft then f.(x := MaxR(0.0, f.x - CellSize as real))
    else if key == ArrowRight then f.(x := MinR((GameWidth - 25) as real, f.x + CellSize as real))
    else f
  }

  /** `cars.some(...)`: a car within 30 across and 20 along, with the frog on the road
      (100 < y < 400). */
  predicate CarHit(cs: seq<Car>, f: Frog)
  {
    exists k :: 0 <= k < |cs| && AbsR(cs[k].x - f.x) < 30.0 && Abs(cs[k].y - f.y) < 20 && 100 < f.y < 400
  }

  predicate OnWater(f: Frog) { 50 < f.y < 250 }

  predicate Carries(l: Log, f: Frog)
  {
    f.x >= l.x && f.x <= l.x + l.width && Abs(l.y - f.y) < 20
  }

  /** `logs.find(...)`: the first log the frog stands on. */
  function LogUnder(ls: seq<Log>, f: Frog): (r: Option<nat>)
    ensures r.Some? ==> r.value < |ls| && Carries(ls[r.value], f)
    ensures r.Some? ==> forall k :: 0 <= k < r.value ==> !Carries(ls[k], f)
    ensures r.None? <==> forall k :: 0 <= k < |ls| ==> !Carries(ls[k], f)
    decreases |ls|
  {
    if |ls| == 0 then None
    else if Carries(ls[0], f) then Some(0)
    else
      match LogUnder(ls[1..], f)
      case None => None
      case Some(k) => Some(k + 1)
  }

  /** The frog a tick leaves: back at the start after a car or the water, then carried by
      the log it stood on. Both can happen in one tick (a car beside a log lane), and then
      the ride moves the frog from the start. */
  function TickFrog(cs: seq<Car>, ls: seq<Log>, f: Frog): (r: Frog)
    ensures r.y == f.y || r.y == Start.y
    ensures !CarHit(cs, f) && !OnWater(f) ==> r == f
  {
    var killed := CarHit(cs, f) || (OnWater(f) && LogUnder(ls, f).None?);
    var placed := if killed then Start else f;
    var under := LogUnder(ls, f);
    if OnWater(f) && under.Some? then placed.(x := placed.x + ls[under.value].speed) else placed
  }

  /** On the water the frog either rides the first log under it by that log's speed or
      drowns; away from cars and water it stays put. */
  lemma FrogRules(cs: seq<Car>, ls: seq<Log>, f: Frog)
    ensures OnWater(f) && LogUnder(ls, f).None? ==> TickFrog(cs, ls, f) == Start
    ensures OnWater(f) && LogUnder(ls, f).Some? && !CarHit(cs, f) ==>
              TickFrog(cs, ls, f) == f.(x := f.x + ls[LogUnder(ls, f).value].speed)
    ensures !OnWater(f) && !CarHit(cs, f) ==> TickFrog(cs, ls, f) == f
    ensures !OnWater(f) && CarHit(cs, f) ==> TickFrog(cs, ls, f) == Start
    ensures TickFrog(cs, ls, f).y == f.y || TickFrog(cs, ls, f).y == Start.y
  {
  }

  /** Only the road rows and the water rows are dangerous; the start row never is. */
  lemma StartIsSafe(cs: seq<Car>, ls: seq<Log>)
    ensures !CarHit(cs, Start) && !OnWater(Start) && TickFrog(cs, ls, Start) == Start
  {
  }

  class Game {
    var frogPos: Frog
    var cars: seq<Car>
    var logs: seq<Log>
    var score: int
    var lives: int
    var gameOver: bool

    /** The lives count down from 3 and the game is over exactly at 0; the frog stays
        between the top and the start row, and is on the start row once the game is
        over, where nothing can hit it. */
    predicate Valid()
      reads this
    {
      0 <= lives <= StartLives && (gameOver <==> lives == 0) && 0 <= frogPos.y <= 450 &&
      (gameOver ==> frogPos.y == Start.y) && CarsOk(cars) && LogsOk(logs)
    }

    /** The state once the mount effect has placed the traffic with its draws. */
    constructor (carDraws: seq<real>, speedDraws: seq<real>, widthDraws: seq<real>)
      requires |carDraws| == 15 && |speedDraws| == 8 && |widthDraws| == 8
      requires forall k :: 0 <= k < 15 ==> Draw(carDraws[k])
      requires forall k :: 0 <= k < 8 ==> Draw(speedDraws[k]) && Draw(widthDraws[k])
      ensures Valid()
      ensures frogPos == Start && score == 0 && lives == StartLives && !gameOver
      ensures |cars| == 15 && forall k :: 0 <= k < 15 ==> cars[k] == CarAt(k, carDraws[k])
      ensures |logs| == 8 && forall k :: 0 <= k < 8 ==> logs[k] == LogAt(k, speedDraws[k], widthDraws[k])
    {
      var cs, ls := InitialTraffic(carDraws, speedDraws, widthDraws);
      forall k | 0 <= k < 15
        ensures CarOk(cs[k])
      {
        InitialTrafficOk(k, carDraws[k], 0.0, 0.0);
      }
      forall k | 0 <= k < 8
        ensures LogOk(ls[k])
      {
        InitialTrafficOk(k, 0.0, speedDraws[k], widthDraws[k]);
      }
      frogPos, cars, logs, score, lives, gameOver := Start, cs, ls, 0, StartLives, false;
    }

    /** handleKeyPress: nothing unless playing and not over; the arrows hop, and ArrowUp
        from the goal rows scores 100 and puts the frog back on the start. */
    method Key(key: string, playing: bool)
      requires Valid()
      modifies this
      ensures Valid()
      ensures cars == old(cars) && logs == old(logs) && lives == old(lives) && gameOver == old(gameOver)
      ensures !playing || old(gameOver) ==> frogPos == old(frogPos) && score == old(score)
      ensures playing && !old(gameOver) && key == ArrowUp && old(frogPos).y <= 50 ==>
                frogPos == Start && score == old(score) + 100
      ensures playing && !old(gameOver) && !(key == ArrowUp && old(frogPos).y <= 50) ==>
                frogPos == Hop(old(frogPos), key) && score == old(score)
    {
      if !playing || gameOver {
        return;
      }
      if key == ArrowUp && frogPos.y <= 50 {
        frogPos, score := Start, score + 100;
      } else {
        frogPos := Hop(frogPos, key);
      }
    }

    /** One firing of the 50 ms loop. It does not look at `gameOver`: it goes on moving the
        traffic after the game ends, but the frog is on the start row then and is never
        hit again. */
    method Tick(playing: bool)
      requires Valid()
      modifies this
      ensures Valid() && score == old(score)
      ensures !playing ==> frogPos == old(frogPos) && cars == old(cars) && logs == old(logs) &&
                           lives == old(lives) && gameOver == old(gameOver)
      ensures playing ==>
                var killed := CarHit(old(cars), old(frogPos)) || (OnWater(old(frogPos)) && LogUnder(old(logs), old(frogPos)).None?);
                frogPos == TickFrog(old(cars), old(logs), old(frogPos)) &&
                cars == MoveCars(old(cars)) && logs == MoveLogs(old(logs)) &&
                lives == (if killed then old(lives) - 1 else old(lives)) &&
                gameOver == (old(gameOver) || (killed && old(lives) - 1 <= 0))
    {
      if playing {
        Step();
      }
    }

    /** A tick of play: the frog is checked and carried, the traffic moves. */
    method Step()
      requires Valid()
      modifies this
      ensures Valid() && score == old(score)
      ensures var killed := CarHit(old(cars), old(frogPos)) || (OnWater(old(frogPos)) && LogUnder(old(logs), old(frogPos)).None?);
              frogPos == TickFrog(old(cars), old(logs), old(frogPos)) &&
              cars == MoveCars(old(cars)) && logs == MoveLogs(old(logs)) &&
              lives == (if killed then old(lives) - 1 else old(lives)) &&
              gameOver == (old(gameOver) || (killed && old(lives) - 1 <= 0))
    {
      var killed := CarHit(cars, frogPos) || (OnWater(frogPos) && LogUnder(logs, frogPos).None?);
      if gameOver {
        StartIsSafe(cars, logs);
        assert !killed;
      }
      var newFrog := TickFrog(cars, logs, frogPos);
      FrogRules(cars, logs, frogPos);
      forall k | 0 <= k < |cars|
        ensures CarOk(CarStep(cars[k]))
      {
        CarStaysOnRoad(cars[k]);
      }
      forall k | 0 <= k < |logs|
        ensures LogOk(LogStep(logs[k]))
      {
        LogStaysOnRiver(logs[k]);
      }
      var newLives := if killed then lives - 1 else lives;
      var newCars, newLogs := MoveCars(cars), MoveLogs(logs);
      cars, logs, frogPos, lives, gameOver := newCars, newLogs, newFrog, newLives, gameOver || (killed && newLives <= 0);
    }
  }
}
