/** The cabinet shell (src/components/ArcadeMachine.tsx): the power switch, the credit
    counter, the chosen game and whether it is being played, and which of the power-off
    screen, the game screen and the menu is displayed. */
module Cabinet {
  import opened Common

  datatype Display = PowerOff | GameScreen(id: int) | Menu

  /** What the cabinet shows: nothing but the power button when off; the game screen when
      a game is chosen (a non-zero id, as JavaScript tests `selectedGame` for truth) and
      playing; the menu otherwise. */
  function Shown(poweredOn: bool, selected: Option<int>, playing: bool): (d: Display)
    ensures d == PowerOff <==> !poweredOn
    ensures d.GameScreen? <==> poweredOn && selected.Some? && selected.value != 0 && playing
    ensures d.GameScreen? ==> d.id == selected.value
  {
    if !poweredOn then PowerOff
    else if selected.Some? && selected.value != 0 && playing then GameScreen(selected.value)
    else Menu
  }

  class Machine {
    var isPoweredOn: bool
    var selectedGame: Option<int>
    var credits: int
    var isPlaying: bool

    /** Credits never go negative, and a game is chosen exactly while one is being played. */
    predicate Valid()
      reads this
    {
      credits >= 0 && (isPlaying <==> selectedGame.Some?)
    }

    function Screen(): Display
      reads this
    {
      Shown(isPoweredOn, selectedGame, isPlaying)
    }

    constructor ()
      ensures Valid()
      ensures isPoweredOn && selectedGame == None && credits == 3 && !isPlaying
      ensures Screen() == Menu
    {
      isPoweredOn := true;
      selectedGame := None;
      credits := 3;
      isPlaying := false;
    }

    /** handleInsertCoin: exactly one more credit. */
    method InsertCoin()
      requires Valid()
      modifies this
      ensures Valid()
      ensures credits == old(credits) + 1
      ensures isPoweredOn == old(isPoweredOn) && selectedGame == old(selectedGame) && isPlaying == old(isPlaying)
    {
      credits := credits + 1;
    }

    /** handleStartGame: with a credit, spend it and start the game; without one, nothing. */
    method StartGame(gameId: int)
      requires Valid()
      modifies this
      ensures Valid()
      ensures isPoweredOn == old(isPoweredOn)
      ensures old(credits) > 0 ==> credits == old(credits) - 1 && selectedGame == Some(gameId) && isPlaying
      ensures old(credits) <= 0 ==> credits == old(credits) && selectedGame == old(selectedGame) && isPlaying == old(isPlaying)
      ensures isPoweredOn && old(credits) > 0 && gameId != 0 ==> Screen() == GameScreen(gameId)
    {
      if credits > 0 {
        credits := credits - 1;
        selectedGame := Some(gameId);
        isPlaying := true;
      }
    }

    /** handleBackToMenu: forget the game, keep the credits. */
    method BackToMenu()
      requires Valid()
      modifies this
      ensures Valid()
      ensures selectedGame == None && !isPlaying
      ensures credits == old(credits) && isPoweredOn == old(isPoweredOn)
      ensures isPoweredOn ==> Screen() == Menu
    {
      selectedGame := None;
      isPlaying := false;
    }

    /** handlePowerToggle: flip the switch; switching off also forgets the game. */
    method PowerToggle()
      requires Valid()
      modifies this
      ensures Valid()
      ensures isPoweredOn == !old(isPoweredOn) && credits == old(credits)
      ensures old(isPoweredOn) ==> selectedGame == None && !isPlaying && Screen() == PowerOff
      ensures !old(isPoweredOn) ==> selectedGame == old(selectedGame) && isPlaying == old(isPlaying)
    {
      var wasOn := isPoweredOn;
      isPoweredOn := !wasOn;
      if wasOn {
        selectedGame := None;
        isPlaying := false;
      }
    }
  }
}
