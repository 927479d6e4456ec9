/** The rule table of one roll, stated case by case about `Game.Update`:
    the start state, movement, the one-shot jump, unsticking, the two kinds
    of repeated roll, and the history bookkeeping between them.
 */
module Rules {
  import opened Game

  /** A new game is valid, has not been decided, and starts with the shield
      up, no history, on square 0. */
  lemma NewGame()
    ensures Valid(New())
    ensures Victory(New()) == None
    ensures New().position == 0 && New().history == 0
    ensures New().shield && !New().jumping && !New().stuck && !New().dead
  {
  }

  /** Every roll keeps the position and history within 0..6 and keeps the
      cause of death set exactly when the player is dead. */
  lemma UpdatePreservesValid(s: State, dice: nat)
    requires IsDie(dice)
    requires Valid(s)
    ensures Valid(Update(s, dice).next)
  {
  }

  /** Movement: a pending jump lands on the rolled value even when stuck;
      otherwise rolling the next square moves there, or reports `Stuck`
      without moving when stuck; any other roll leaves the position alone.
      A shielded double three overrides all of this with `ToZero`. */
  lemma Movement(s: State, dice: nat)
    requires IsDie(dice)
    ensures var t := Update(s, dice);
      ShieldedRepeat(s, dice) && dice == 3 ==>
        t.moved == PositionDelta.ToZero && t.next.position == 0
    ensures var t := Update(s, dice);
      !(ShieldedRepeat(s, dice) && dice == 3) && s.jumping ==>
        t.moved == PositionDelta.Jump(dice) && t.next.position == dice
    ensures var t := Update(s, dice);
      !(ShieldedRepeat(s, dice) && dice == 3) && !s.jumping && s.position + 1 == dice && s.stuck ==>
        t.moved == PositionDelta.Stuck(dice) && t.next.position == s.position
    ensures var t := Update(s, dice);
      !(ShieldedRepeat(s, dice) && dice == 3) && !s.jumping && s.position + 1 == dice && !s.stuck ==>
        t.moved == PositionDelta.Forward(dice) && t.next.position == dice
    ensures var t := Update(s, dice);
      !(ShieldedRepeat(s, dice) && dice == 3) && !s.jumping && s.position + 1 != dice ==>
        t.moved == PositionDelta.Nothing && t.next.position == s.position
  {
  }

  /** A pending jump is used up by the very next roll: the flag survives a
      roll only when that roll is itself a shielded double four. */
  lemma JumpIsOneShot(s: State, dice: nat)
    requires IsDie(dice)
    ensures Update(s, dice).next.jumping <==> ShieldedRepeat(s, dice) && dice == 4
  {
  }

  /** A 5 frees a stuck player and reports `Unstuck`, unless the same roll is
      a shielded double five, which sticks the player again and reports
      `Stuck`.  In general the player is stuck after a roll exactly when it
      was a shielded double five, or the player was stuck and rolled no 5. */
  lemma Unstick(s: State, dice: nat)
    requires IsDie(dice)
    ensures Update(s, dice).next.stuck <==>
      (ShieldedRepeat(s, dice) && dice == 5) || (s.stuck && dice != 5)
    ensures s.stuck && dice == 5 && !Repeat(s, dice) ==>
      Update(s, dice).status == StateDelta.Unstuck
    ensures s.stuck && dice == 5 && ShieldedRepeat(s, dice) ==>
      Update(s, dice).status == StateDelta.Stuck
    ensures Update(s, dice).status == StateDelta.Unstuck <==>
      s.stuck && dice == 5 && !Repeat(s, dice)
  {
  }

  /** A repeated roll without a shield kills at once: the cause is `Both` for
      a six and `Shields` otherwise.  Nothing after the movement step runs, so
      the history still holds the repeated value and the shield stays down,
      while the position, the cleared jump flag and an unstick on a 5 stand. */
  lemma UnshieldedRepeatIsFatal(s: State, dice: nat)
    requires IsDie(dice)
    requires UnshieldedRepeat(s, dice)
    ensures var t := Update(s, dice);
      && t.status == StateDelta.Death
      && t.next.dead
      && t.next.causeOfDeath == Some(if dice == 6 then Both else Shields)
      && t.next.history == s.history
      && !t.next.shield
      && !t.next.jumping
      && t.next.stuck == (s.stuck && dice != 5)
    ensures var t := Update(s, dice);
      t.next.position == (if s.jumping || (s.position + 1 == dice && !s.stuck) then dice else s.position)
  {
  }

  /** A shielded repeat clears the history and applies the hazard for the
      rolled value: 1 loses the shield, 2 does nothing, 3 returns to 0,
      4 arms a jump, 5 sticks the player, 6 is death by Ceres.  Everything
      a hazard does not name is left as the movement step set it. */
  lemma ShieldedHazard(s: State, dice: nat)
    requires IsDie(dice)
    requires ShieldedRepeat(s, dice)
    ensures var t := Update(s, dice);
      t.next.history == 0
    ensures var t := Update(s, dice);
      t.next.shield <==> dice != 1
    ensures var t := Update(s, dice);
      t.next.dead <==> s.dead || dice == 6
    ensures var t := Update(s, dice);
      t.next.causeOfDeath == if dice == 6 then Some(Ceres) else s.causeOfDeath
    ensures var t := Update(s, dice);
      t.status == match dice
        case 1 => StateDelta.Shield
        case 4 => StateDelta.Jumping
        case 5 => StateDelta.Stuck
        case 6 => StateDelta.Death
        case _ => StateDelta.Nothing
    ensures var t := Update(s, dice);
      dice == 3 <==> t.moved == PositionDelta.ToZero
  {
  }

  /** A roll that does not repeat the previous one becomes the history and
      triggers no hazard: shield, death and cause are untouched and the only
      status it can report is `Unstuck`. */
  lemma NonRepeatRecordsHistory(s: State, dice: nat)
    requires IsDie(dice)
    requires !Repeat(s, dice)
    ensures var t := Update(s, dice);
      && t.next.history == dice
      && t.next.shield == s.shield
      && t.next.dead == s.dead
      && t.next.causeOfDeath == s.causeOfDeath
      && !t.next.jumping
      && (t.status == StateDelta.Nothing || t.status == StateDelta.Unstuck)
  {
  }

  /** A hazard consumes the match: right after a shielded repeat no roll
      repeats, so three equal rolls in a row fire at most one hazard. */
  lemma HazardConsumesHistory(s: State, dice: nat, again: nat)
    requires IsDie(dice) && IsDie(again)
    requires ShieldedRepeat(s, dice)
    ensures !Repeat(Update(s, dice).next, again)
  {
  }

  /** Of the second and third of three equal rolls, at most one fires a
      hazard the shield survives. */
  lemma ThreeEqualRolls(s: State, dice: nat)
    requires IsDie(dice)
    ensures var s1 := Update(s, dice).next;
      var s2 := Update(s1, dice).next;
      !(ShieldedRepeat(s1, dice) && Repeat(s2, dice))
  {
  }
}
