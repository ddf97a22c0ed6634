/** Mortal Kombat (src/components/games/MortalKombatGame.tsx): two fighters on a 400 wide
    stage, player 1 on the keyboard (walk, punch, kick, special), player 2 driven by a
    400 ms AI loop, health clamped at 0, and the effect that declares the winner and pays
    player 1 a 1000 point bonus. */
module MortalKombat {
  import opened Common

  const GameWidth: int := 400
  const MaxHealth: int := 100
  const WinBonus: int := 1000

  datatype Action = Idle | Walk | Punch | Kick | Special
  datatype Facing = FaceLeft | FaceRight
  datatype Fighter = Fighter(x: int, y: int, health: int, action: Action, facing: Facing)
  /** The two texts `setWinner` is called with. */
  datatype Winner = Player1Wins | Player2Wins

  predicate Healthy(f: Fighter) { 0 <= f.health <= MaxHealth }

  /** `Math.max(0, prev.health - damage)`. */
  function Hurt(f: Fighter, damage: int): (r: Fighter)
    ensures r.health == Max(0, f.health - damage) && r.x == f.x && r.action == f.action && r.facing == f.facing
    ensures Healthy(f) && damage >= 0 ==> Healthy(r) && r.health <= f.health
  {
    f.(health := Max(0, f.health - damage))
  }

  // ---------------------------------------------------------------- player 1

  /** Player 1's three attacks: reach (the distance must be below it), damage, points. */
  function Reach(a: Action): int
  {
    match a
    case Punch => 60
    case Kick => 70
    case Special => 80
    case _ => 0
  }

  function Damage(a: Action): int
  {
    match a
    case Punch => 12
    case Kick => 18
    case Special => 25
    case _ => 0
  }

  function Points(a: Action): int
  {
    match a
    case Punch => 10
    case Kick => 15
    case Special => 25
    case _ => 0
  }

  /** Space punches, ArrowUp kicks, ArrowDown throws the special. */
  function AttackOf(key: string): Option<Action>
  {
    if key == Space then Some(Punch)
    else if key == ArrowUp then Some(Kick)
    else if key == ArrowDown then Some(Special)
    else None
  }

  /** The walking keys: steps of 4 kept in [0, 350], turning to face the way walked. */
  function Walked(f: Fighter, key: string): (r: Fighter)
    requires key == ArrowLeft || key == ArrowRight
    ensures r.health == f.health && r.action == Walk
    ensures key == ArrowLeft ==> r.x == Max(0, f.x - 4) && r.facing == FaceLeft
    ensures key == ArrowRight ==> r.x == Min(GameWidth - 50, f.x + 4) && r.facing == FaceRight
  {
    if key == ArrowLeft then f.(x := Max(0, f.x - 4), action := Walk, facing := FaceLeft)
    else f.(x := Min(GameWidth - 50, f.x + 4), action := Walk, facing := FaceRight)
  }

  /** An attack lands exactly when the fighters are closer than its reach; a landed
      attack takes its damage off player 2 (never below 0) and gives its points. */
  function Strike(p1: Fighter, p2: Fighter, score: int, a: Action): (r: (Fighter, Fighter, int))
    ensures r.0 == p1.(action := a)
    ensures Abs(p1.x - p2.x) < Reach(a) ==> r.1 == Hurt(p2, Damage(a)) && r.2 == score + Points(a)
    ensures Abs(p1.x - p2.x) >= Reach(a) ==> r.1 == p2 && r.2 == score
  {
    if Abs(p1.x - p2.x) < Reach(a) then (p1.(action := a), Hurt(p2, Damage(a)), score + Points(a))
    else (p1.(action := a), p2, score)
  }

  /** The longer the reach, the harder the blow and the more it pays. */
  lemma AttacksRanked()
    ensures Reach(Punch) < Reach(Kick) < Reach(Special)
    ensures Damage(Punch) < Damage(Kick) < Damage(Special)
    ensures Points(Punch) < Points(Kick) < Points(Special)
  {
  }

  // ---------------------------------------------------------------- player 2

  /** One firing of the AI loop, with its two draws: far (over 100) it walks 2 towards
      player 1; close (under 70) and with a first draw over 0.6 it attacks, the second
      draw choosing special (over 0.7, 20 damage within 80), kick (over 0.4, 15 within
      70) or punch (10 within 60); otherwise it stands idle. Returns both fighters. */
  function Ai(p1: Fighter, p2: Fighter, r1: real, r2: real): (r: (Fighter, Fighter))
    ensures r.0.x == p1.x && r.0.action == p1.action && r.0.facing == p1.facing
    ensures r.1.health == p2.health
    ensures Abs(p1.x - p2.x) >= 70 || r1 <= 0.6 ==> r.0 == p1
  {
    var distance := Abs(p1.x - p2.x);
    if distance > 100 then
      (p1, p2.(x := if p2.x < p1.x then p2.x + 2 else p2.x - 2, action := Walk,
               facing := if p2.x < p1.x then FaceRight else FaceLeft))
    else if distance < 70 && r1 > 0.6 then
      if r2 > 0.7 then (if distance < 80 then Hurt(p1, 20) else p1, p2.(action := Special))
      else if r2 > 0.4 then (if distance < 70 then Hurt(p1, 15) else p1, p2.(action := Kick))
      else (if distance < 60 then Hurt(p1, 10) else p1, p2.(action := Punch))
    else (p1, p2.(action := Idle))
  }

  /** Far apart, the AI closes the distance by exactly 2 and faces player 1, and nobody
      is hurt. */
  lemma AiApproaches(p1: Fighter, p2: Fighter, r1: real, r2: real)
    requires Abs(p1.x - p2.x) > 100
    ensures var r := Ai(p1, p2, r1, r2);
            r.0 == p1 && Abs(p1.x - r.1.x) == Abs(p1.x - p2.x) - 2 && r.1.health == p2.health &&
            r.1.facing == (if p2.x < p1.x then FaceRight else FaceLeft)
  {
  }

  /** The AI hurts player 1 only from closer than 70, by 10, 15 or 20, and never hurts
      itself or moves while attacking. */
  lemma AiDamage(p1: Fighter, p2: Fighter, r1: real, r2: real)
    requires Healthy(p1)
    ensures var r := Ai(p1, p2, r1, r2);
            Healthy(r.0) && r.1.health == p2.health && r.0.x == p1.x &&
            (r.0.health < p1.health ==>
               Abs(p1.x - p2.x) < 70 && r1 > 0.6 && r.1.x == p2.x && p1.health - r.0.health <= 20 &&
               (r.0.health == 0 || p1.health - r.0.health in {10, 15, 20}))
  {
  }

  /** The special always lands when the AI attacks (it only attacks within 70, inside
      the special's reach of 80), so that guard never fails. */
  lemma AiSpecialAlwaysLands(p1: Fighter, p2: Fighter, r1: real, r2: real)
    requires Abs(p1.x - p2.x) < 70 && r1 > 0.6 && r2 > 0.7
    ensures Ai(p1, p2, r1, r2).0 == Hurt(p1, 20)
  {
  }

  // ---------------------------------------------------------------- the winner

  /** The winner effect as written: player 1 down means player 2 wins; otherwise player 2
      down means player 1 wins and the score snapshot plus 1000 is written. Its own
      `setScore` changes `score`, one of the effect's dependencies, so React runs it
      again, and again. */
  function WinnerEffectAsWritten(winner: Option<Winner>, p1: Fighter, p2: Fighter, score: int): (r: (Option<Winner>, int))
    ensures r.0 == Decide(winner, p1, p2, score).0
    ensures r == Decide(winner, p1, p2, score) <==> !(p1.health > 0 && p2.health <= 0 && winner == Some(Player1Wins))
  {
    if p1.health <= 0 then (Some(Player2Wins), score)
    else if p2.health <= 0 then (Some(Player1Wins), score + WinBonus)
    else (winner, score)
  }

  /** The effect's runs after player 2 goes down: each one pays the bonus again. */
  function EffectRunsAsWritten(winner: Option<Winner>, p1: Fighter, p2: Fighter, score: int, runs: nat): (s: int)
    ensures s >= score
    ensures p1.health <= 0 || p2.health > 0 ==> s == score
    decreases runs
  {
    if runs == 0 then score
    else
      var r := WinnerEffectAsWritten(winner, p1, p2, score);
      EffectRunsAsWritten(r.0, p1, p2, r.1, runs - 1)
  }

  /** The bonus is paid once per run: after n runs player 1 has n times 1000 more. */
  lemma {:induction false} BonusRepeats(winner: Option<Winner>, p1: Fighter, p2: Fighter, score: int, runs: nat)
    requires p1.health > 0 && p2.health <= 0
    ensures EffectRunsAsWritten(winner, p1, p2, score, runs) == score + runs * WinBonus
    ensures runs >= 2 ==> EffectRunsAsWritten(winner, p1, p2, score, runs) > score + WinBonus
    decreases runs
  {
    if runs > 0 {
      BonusRepeats(Some(Player1Wins), p1, p2, score + WinBonus, runs - 1);
    }
  }

  /** The winner effect as intended: the same decision, with the bonus paid only when
      the winner is first declared. */
  function Decide(winner: Option<Winner>, p1: Fighter, p2: Fighter, score: int): (r: (Option<Winner>, int))
    ensures p1.health <= 0 ==> r == (Some(Player2Wins), score)
    ensures p1.health > 0 && p2.health <= 0 ==>
              r.0 == Some(Player1Wins) && r.1 == (if winner == Some(Player1Wins) then score else score + WinBonus)
    ensures p1.health > 0 && p2.health > 0 ==> r == (winner, score)
  {
    if p1.health <= 0 then (Some(Player2Wins), score)
    else if p2.health <= 0 then (Some(Player1Wins), if winner == Some(Player1Wins) then score else score + WinBonus)
    else (winner, score)
  }

  /** Running the corrected effect again changes nothing, so the bonus is paid once
      however often React re-runs it. */
  lemma DecideIdempotent(winner: Option<Winner>, p1: Fighter, p2: Fighter, score: int)
    ensures var r := Decide(winner, p1, p2, score);
            Decide(r.0, p1, p2, r.1) == r
    ensures var r := Decide(winner, p1, p2, score);
            r.1 - score == (if winner != Some(Player1Wins) && p1.health > 0 && p2.health <= 0 then WinBonus else 0)
  {
  }

  class Game {
    var player1: Fighter
    var player2: Fighter
    var score: int
    var winner: Option<Winner>

    predicate Valid()
      reads this
    {
      Healthy(player1) && Healthy(player2) && 0 <= player1.x <= GameWidth - 50
    }

    constructor ()
      ensures Valid()
      ensures player1 == Fighter(100, 200, MaxHealth, Idle, FaceRight)
      ensures player2 == Fighter(300, 200, MaxHealth, Idle, FaceLeft)
      ensures score == 0 && winner == None
    {
      player1 := Fighter(100, 200, MaxHealth, Idle, FaceRight);
      player2 := Fighter(300, 200, MaxHealth, Idle, FaceLeft);
      score, winner := 0, None;
    }

    /** handleKeyPress: nothing unless playing with no winner yet; the arrows left and
        right walk player 1, the attack keys strike player 2. */
    method Key(key: string, playing: bool)
      requires Valid()
      modifies this
      ensures Valid() && winner == old(winner)
      ensures !playing || old(winner).Some? ==>
                player1 == old(player1) && player2 == old(player2) && score == old(score)
      ensures playing && old(winner).None? && (key == ArrowLeft || key == ArrowRight) ==>
                player1 == Walked(old(player1), key) && player2 == old(player2) && score == old(score)
      ensures playing && old(winner).None? && AttackOf(key).Some? ==>
                (player1, player2, score) == Strike(old(player1), old(player2), old(score), AttackOf(key).value)
      ensures playing && old(winner).None? && key != ArrowLeft && key != ArrowRight && AttackOf(key).None? ==>
                player1 == old(player1) && player2 == old(player2) && score == old(score)
    {
      if !playing || winner.Some? {
        return;
      }
      if key == ArrowLeft || key == ArrowRight {
        player1 := Walked(player1, key);
      } else {
        var attack := AttackOf(key);
        if attack.Some? {
          var r := Strike(player1, player2, score, attack.value);
          player1, player2, score := r.0, r.1, r.2;
        }
      }
    }

    /** The timeouts that put a fighter back on guard after an attack. */
    method Recover(first: bool)
      requires Valid()
      modifies this
      ensures Valid() && score == old(score) && winner == old(winner)
      ensures first ==> player1 == old(player1).(action := Idle) && player2 == old(player2)
      ensures !first ==> player2 == old(player2).(action := Idle) && player1 == old(player1)
    {
      if first {
        player1 := player1.(action := Idle);
      } else {
        player2 := player2.(action := Idle);
      }
    }

    /** One firing of the AI loop, with its two draws: nothing unless playing with no
        winner yet. */
    method AiTick(playing: bool, r1: real, r2: real)
      requires Valid()
      modifies this
      ensures Valid() && score == old(score) && winner == old(winner)
      ensures !playing || old(winner).Some? ==> player1 == old(player1) && player2 == old(player2)
      ensures playing && old(winner).None? ==> (player1, player2) == Ai(old(player1), old(player2), r1, r2)
    {
      if !playing || winner.Some? {
        return;
      }
      AiDamage(player1, player2, r1, r2);
      var r := Ai(player1, player2, r1, r2);
      player1, player2 := r.0, r.1;
    }

    /** The winner effect, run after any change to the healths or the score, in its
        corrected form. */
    method CheckWinner()
      requires Valid()
      modifies this
      ensures Valid() && player1 == old(player1) && player2 == old(player2)
      ensures (winner, score) == Decide(old(winner), player1, player2, old(score))
    {
      var r := Decide(winner, player1, player2, score);
      winner, score := r.0, r.1;
    }
  }
}
