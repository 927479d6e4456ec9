/** The concrete games of the test suite, each stated as a fact about the
    state `Run` reaches from a new game.
 */
module Scenarios {
  import opened Game
  import opened Runs

  /** Rolling 1 to 6 in order walks to square 6 and wins. */
  lemma BaseGame()
    ensures AllDice([1, 2, 3, 4, 5, 6])
    ensures Run(New(), [1, 2, 3, 4, 5, 6]).position == 6
    ensures Victory(Run(New(), [1, 2, 3, 4, 5, 6])) == Some(true)
  {
  }

  /** A double four arms a jump, and the following 6 lands on square 6. */
  lemma JumpToSix()
    ensures AllDice([4, 4, 6])
    ensures Run(New(), [4, 4, 6]).position == 6
  {
  }

  /** A shielded double six is death by Ceres. */
  lemma DeathByCeres()
    ensures AllDice([6, 6])
    ensures Run(New(), [6, 6]).dead
    ensures Run(New(), [6, 6]).causeOfDeath == Some(Ceres)
  {
  }

  /** A double one loses the shield, so the double two that follows is
      fatal: the shield check comes before the hazard table, and a repeated
      2 kills an unshielded player like any other repeat. */
  lemma DeathByNoShields()
    ensures AllDice([1, 1, 2, 2])
    ensures Run(New(), [1, 1, 2, 2]).dead
    ensures Run(New(), [1, 1, 2, 2]).causeOfDeath == Some(Shields)
  {
  }

  /** In the other order the shield is still up for the double two, which
      is harmless, and the double one only takes the shield. */
  lemma NoShieldsButAlive()
    ensures AllDice([2, 2, 1, 1])
    ensures !Run(New(), [2, 2, 1, 1]).dead
    ensures !Run(New(), [2, 2, 1, 1]).shield
  {
  }

  /** A double five on square 5 sticks the player, so the 6 is blocked. */
  lemma StuckAtFive()
    ensures AllDice([1, 2, 3, 4, 5, 5, 6])
    ensures Run(New(), [1, 2, 3, 4, 5, 5, 6]).position == 5
    ensures Run(New(), [1, 2, 3, 4, 5, 5, 6]).stuck
  {
  }

  /** A later single 5 frees the player, and the next 6 moves on to win. */
  lemma StuckAndUnstuck()
    ensures AllDice([1, 2, 3, 4, 5, 5, 6, 5, 6])
    ensures Run(New(), [1, 2, 3, 4, 5, 5, 6, 5, 6]).position == 6
    ensures !Run(New(), [1, 2, 3, 4, 5, 5, 6, 5, 6]).stuck
  {
  }

  /** Three ones fire the shield hazard once: the third 1 finds the history
      cleared, so the now unshielded player survives it. */
  lemma HistoryIsClearedAfterHittingAsteroid()
    ensures AllDice([1, 1, 1])
    ensures !Run(New(), [1, 1, 1]).dead
    ensures !Run(New(), [1, 1, 1]).shield
    ensures Run(New(), [1, 1, 1]).history == 1
  {
  }

  /** A pending jump moves a stuck player. */
  lemma JumpingWorksWhenStuck()
    ensures AllDice([5, 5, 4, 4, 6])
    ensures Run(New(), [5, 5, 4, 4, 6]).position == 6
    ensures Run(New(), [5, 5, 4, 4, 6]).stuck
  {
  }

  /** A double six after the shield is gone is death by both causes. */
  lemma DeathByBothCeresAndNoShieldsAtOnce()
    ensures AllDice([1, 1, 6, 6])
    ensures Run(New(), [1, 1, 6, 6]).dead
    ensures Run(New(), [1, 1, 6, 6]).causeOfDeath == Some(Both)
  {
  }

  /** A jump is used once: the 3 spends it, so the 2 that follows is neither
      a jump nor the next square and the player stays on 3. */
  lemma NoDoubleJumping()
    ensures AllDice([4, 4, 3, 2])
    ensures Run(New(), [4, 4, 3, 2]).position == 3
    ensures !Run(New(), [4, 4, 3, 2]).jumping
  {
  }
}
