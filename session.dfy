/**
 * The game session of App.tsx as a state machine, without React or timers.
 *
 * The fields are the component's state variables. `handleSpin` is split at its
 * timer: `Spin` is the synchronous part (guard, token payment, re-draw) and
 * `Settle` is the callback that runs when the spin animation ends (scoring and
 * the next state). `CooldownElapsed` is the cooldown timer's callback.
 * Randomness comes in as draws, one per gem.
 */
module Session {
  import opened Wrappers
  import opened Gems
  import opened SpinScoring

  class Session {
    var gems: seq<Gem>
    var tokens: int
    var score: int
    var comboStreak: nat
    var gameState: GameState
    var lastWin: nat
    var winningGemType: Option<GemType>
    /** The first row of gems, drawn once; a restart brings it back. */
    const initialGems: seq<Gem>

    /** Unique ids, at most one locked gem, no negative balance, and GAME_OVER
        only when a spin can no longer be paid for. */
    ghost predicate Valid()
      reads this
    {
      WellFormed(initialGems) && (forall i :: 0 <= i < |initialGems| ==> !initialGems[i].locked) &&
      WellFormed(gems) && tokens >= 0 && score >= 0 &&
      (gameState == GameOver ==> tokens < SpinCost)
    }

    /** The session as it stands once the initial gems are shown. */
    constructor (draws: seq<nat>)
      requires |draws| == GridSize && ValidDraws(draws)
      ensures Valid()
      ensures initialGems == InitialGems(draws) && gems == initialGems
      ensures tokens == InitialTokens && score == 0 && comboStreak == 0 && lastWin == 0
      ensures gameState == Idle && winningGemType == None
    {
      initialGems := InitialGems(draws);
      gems := InitialGems(draws);
      tokens := InitialTokens;
      score := 0;
      comboStreak := 0;
      gameState := Idle;
      lastWin := 0;
      winningGemType := None;
    }

    /** `handleRestart`. */
    method Restart()
      requires Valid()
      modifies this
      ensures Valid()
      ensures tokens == InitialTokens && score == 0 && comboStreak == 0 && lastWin == 0
      ensures gems == initialGems && gameState == Idle && winningGemType == None
    {
      tokens := InitialTokens;
      score := 0;
      comboStreak := 0;
      lastWin := 0;
      gems := initialGems;
      gameState := Idle;
      winningGemType := None;
    }

    /** The synchronous part of `handleSpin`. A spin is refused while spinning,
        during the cooldown or when the tokens do not cover its cost; a refusal
        for lack of tokens ends the game. An accepted spin pays its cost and
        re-draws every unlocked gem. */
    method Spin(draws: seq<nat>) returns (started: bool)
      requires Valid()
      requires |draws| == |gems| && ValidDraws(draws)
      modifies this`gameState, this`tokens, this`lastWin, this`winningGemType, this`gems
      ensures Valid()
      ensures started <==> old(gameState) != Spinning && old(gameState) != Cooldown && old(tokens) >= SpinCost
      ensures !started ==> (tokens == old(tokens) && gems == old(gems) && lastWin == old(lastWin) &&
                            winningGemType == old(winningGemType) &&
                            gameState == (if old(tokens) < SpinCost then GameOver else old(gameState)))
      ensures started ==> (tokens == old(tokens) - SpinCost && gameState == Spinning &&
                           lastWin == 0 && winningGemType == None && gems == Redraw(old(gems), draws))
    {
      if gameState == Spinning || gameState == Cooldown || tokens < SpinCost {
        if tokens < SpinCost {
          gameState := GameOver;
        }
        return false;
      }
      gameState := Spinning;
      tokens := tokens - SpinCost;
      lastWin := 0;
      winningGemType := None;
      gems := Redraw(gems, draws);
      started := true;
    }

    /** The spin timer's callback: score the row, update score and combo,
        then end the game when the spin used the last token and won nothing,
        or start the cooldown otherwise. The balance the callback saw was the
        one before the spin's cost was paid, so its `tokens - SPIN_COST` is
        the current balance. */
    method Settle()
      requires Valid() && gameState == Spinning
      modifies this`score, this`comboStreak, this`lastWin, this`winningGemType, this`gameState
      ensures Valid()
      ensures lastWin == SpinWin(gems, old(comboStreak)) && winningGemType == WinningType(gems)
      ensures BaseScore(MaxCount(gems)) > 0 ==> score == old(score) + lastWin && comboStreak == old(comboStreak) + 1
      ensures BaseScore(MaxCount(gems)) == 0 ==> score == old(score) && comboStreak == 0 && lastWin == 0
      ensures gameState == (if tokens <= 0 && lastWin == 0 then GameOver else Cooldown)
    {
      var maxCount, baseScore, currentWin, currentWinningType := ScoreGems(gems, comboStreak);
      if baseScore > 0 {
        score := score + currentWin;
        comboStreak := comboStreak + 1;
      } else {
        comboStreak := 0;
      }
      lastWin := currentWin;
      winningGemType := currentWinningType;
      if tokens <= 0 && currentWin == 0 {
        gameState := GameOver;
      } else {
        gameState := Cooldown;
      }
    }

    /** The cooldown timer's callback. It sets IDLE whatever the state is by then. */
    method CooldownElapsed()
      requires Valid()
      modifies this`gameState
      ensures Valid() && gameState == Idle
    {
      gameState := Idle;
    }

    /** `handleLockGem`: ignored while spinning; otherwise the gem with this id
        flips its lock and every other gem is unlocked. */
    method LockGem(idToToggle: string)
      requires Valid()
      modifies this`gems
      ensures Valid()
      ensures gems == if old(gameState) == Spinning then old(gems) else ToggleLock(old(gems), idToToggle)
    {
      if gameState == Spinning {
        return;
      }
      gems := ToggleLock(gems, idToToggle);
    }
  }

  /** A spin from a state where the game is over is always refused. */
  method SpinAfterGameOver(s: Session, draws: seq<nat>) returns (started: bool)
    requires s.Valid() && s.gameState == GameOver
    requires |draws| == |s.gems| && ValidDraws(draws)
    modifies s
    ensures !started && s.gameState == GameOver && s.tokens == old(s.tokens) && s.gems == old(s.gems)
  {
    started := s.Spin(draws);
  }
}
