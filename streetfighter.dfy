/** Street Fighter (src/components/games/StreetFighterGame.tsx): two fighters on a 400
    wide stage, player 1 on the keyboard (walk, punch, kick), player 2 driven by a 300 ms
    AI loop, health clamped at 0. The bout has no end: nothing declares a winner. */
module StreetFighter {
  import opened Common

  const GameWidth: int := 400
  const MaxHealth: int := 100

  datatype Action = Idle | Walk | Punch | Kick
  datatype Fighter = Fighter(x: int, y: int, health: int, action: Action)

  predicate Healthy(f: Fighter) { 0 <= f.health <= MaxHealth }

  /** `Math.max(0, prev.health - damage)`. */
  function Hurt(f: Fighter, damage: int): (r: Fighter)
    ensures r.health == Max(0, f.health - damage) && r.x == f.x && r.action == f.action
    ensures Healthy(f) && damage >= 0 ==> Healthy(r) && r.health <= f.health
  {
    f.(health := Max(0, f.health - damage))
  }

  /** The walking keys: steps of 5 kept in [0, 350]. */
  function Walked(f: Fighter, key: string): (r: Fighter)
    requires key == ArrowLeft || key == ArrowRight
    ensures r.health == f.health && r.action == Walk
    ensures key == ArrowLeft ==> r.x == Max(0, f.x - 5)
    ensures key == ArrowRight ==> r.x == Min(GameWidth - 50, f.x + 5)
    ensures 0 <= f.x <= GameWidth - 50 ==> 0 <= r.x <= GameWidth - 50
  {
    if key == ArrowLeft then f.(x := Max(0, f.x - 5), action := Walk)
    else f.(x := Min(GameWidth - 50, f.x + 5), action := Walk)
  }

  /** Space punches (reach 60, 10 damage, 10 points), ArrowUp kicks (reach 70, 15
      damage, 15 points); the blow lands exactly when the fighters are closer than its
      reach. */
  function Strike(p1: Fighter, p2: Fighter, score: int, kick: bool): (r: (Fighter, Fighter, int))
    ensures r.0 == p1.(action := if kick then Kick else Punch)
    ensures !kick && Abs(p1.x - p2.x) < 60 ==> r.1 == Hurt(p2, 10) && r.2 == score + 10
    ensures kick && Abs(p1.x - p2.x) < 70 ==> r.1 == Hurt(p2, 15) && r.2 == score + 15
    ensures Abs(p1.x - p2.x) >= (if kick then 70 else 60) ==> r.1 == p2 && r.2 == score
  {
    var reach := if kick then 70 else 60;
    var damage := if kick then 15 else 10;
    if Abs(p1.x - p2.x) < reach then (p1.(action := if kick then Kick else Punch), Hurt(p2, damage), score + damage)
    else (p1.(action := if kick then Kick else Punch), p2, score)
  }

  /** Nothing ends the bout: a blow on a knocked-out player 2 leaves its health at 0 and
      still pays. */
  lemma KnockedOutStillPays(p1: Fighter, p2: Fighter, score: int, kick: bool)
    requires p2.health == 0 && Abs(p1.x - p2.x) < 60
    ensures var r := Strike(p1, p2, score, kick);
            r.1.health == 0 && r.2 > score
  {
  }

  /** One firing of the AI loop with its draw: far (over 80) it walks 2 towards player 1;
      close (under 60) with a draw over 0.7 it punches, for 8 within 50; otherwise it
      stands idle. Returns both fighters. */
  function Ai(p1: Fighter, p2: Fighter, draw: real): (r: (Fighter, Fighter))
    ensures r.0.x == p1.x && r.0.action == p1.action
    ensures r.1.health == p2.health
    ensures Abs(p1.x - p2.x) >= 50 || draw <= 0.7 ==> r.0 == p1
  {
    var distance := Abs(p1.x - p2.x);
    if distance > 80 then (p1, p2.(x := if p2.x < p1.x then p2.x + 2 else p2.x - 2, action := Walk))
    else if distance < 60 && draw > 0.7 then (if distance < 50 then Hurt(p1, 8) else p1, p2.(action := Punch))
    else (p1, p2.(action := Idle))
  }

  /** The AI walks closer by exactly 2 when far; it hurts player 1 only from closer than
      50, and then by 8 (or down to 0); it never hurts itself. */
  lemma AiRules(p1: Fighter, p2: Fighter, draw: real)
    requires Healthy(p1)
    ensures var r := Ai(p1, p2, draw);
            Healthy(r.0) && r.0.x == p1.x && r.1.health == p2.health &&
            (Abs(p1.x - p2.x) > 80 ==> Abs(p1.x - r.1.x) == Abs(p1.x - p2.x) - 2) &&
            (r.0.health < p1.health <==> Abs(p1.x - p2.x) < 50 && draw > 0.7 && p1.health > 0) &&
            (r.0.health < p1.health ==> r.0.health == Max(0, p1.health - 8))
  {
  }

  class Game {
    var player1: Fighter
    var player2: Fighter
    var score: int

    predicate Valid()
      reads this
    {
      Healthy(player1) && Healthy(player2) && 0 <= player1.x <= GameWidth - 50
    }

    constructor ()
      ensures Valid()
      ensures player1 == Fighter(100, 200, MaxHealth, Idle) && player2 == Fighter(300, 200, MaxHealth, Idle)
      ensures score == 0
    {
      player1, player2, score := Fighter(100, 200, MaxHealth, Idle), Fighter(300, 200, MaxHealth, Idle), 0;
    }

    /** handleKeyPress: nothing unless playing; the arrows left and right walk player 1,
        Space and ArrowUp strike player 2. */
    method Key(key: string, playing: bool)
      requires Valid()
      modifies this
      ensures Valid()
      ensures !playing ==> player1 == old(player1) && player2 == old(player2) && score == old(score)
      ensures playing && (key == ArrowLeft || key == ArrowRight) ==>
                player1 == Walked(old(player1), key) && player2 == old(player2) && score == old(score)
      ensures playing && (key == Space || key == ArrowUp) ==>
                (player1, player2, score) == Strike(old(player1), old(player2), old(score), key == ArrowUp)
      ensures key != ArrowLeft && key != ArrowRight && key != Space && key != ArrowUp ==>
                player1 == old(player1) && player2 == old(player2) && score == old(score)
    {
      if !playing {
        return;
      }
      if key == ArrowLeft || key == ArrowRight {
        player1 := Walked(player1, key);
      } else if key == Space || key == ArrowUp {
        var r := Strike(player1, player2, score, key == ArrowUp);
        player1, player2, score := r.0, r.1, r.2;
      }
    }

    /** The timeouts that put a fighter back on guard after an attack. */
    method Recover(first: bool)
      requires Valid()
      modifies this
      ensures Valid() && score == old(score)
      ensures first ==> player1 == old(player1).(action := Idle) && player2 == old(player2)
      ensures !first ==> player2 == old(player2).(action := Idle) && player1 == old(player1)
    {
      if first {
        player1 := player1.(action := Idle);
      } else {
        player2 := player2.(action := Idle);
      }
    }

    /** One firing of the AI loop with its draw: nothing unless playing. */
    method AiTick(playing: bool, draw: real)
      requires Valid()
      modifies this
      ensures Valid() && score == old(score)
      ensures !playing ==> player1 == old(player1) && player2 == old(player2)
      ensures playing ==> (player1, player2) == Ai(old(player1), old(player2), draw)
    {
      if !playing {
        return;
      }
      AiRules(player1, player2, draw);
      var r := Ai(player1, player2, draw);
      player1, player2 := r.0, r.1;
    }
  }
}
