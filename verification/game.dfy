/** The asteroid-roulette game engine: one player, one die, a position that
    climbs from 0 to 6, and hazards that fire when the same value is rolled
    twice in a row.  `Update` is the whole state machine; `New` starts a game
    and `Victory` reads its outcome.
 */
module Game {

  /** Why the player died. */
  datatype CauseOfDeath =
    | Shields   // a repeated roll hit a player who had no shield left
    | Ceres     // a shielded double six
    | Both      // a double six with no shield left

  /** What one roll did to the position. */
  datatype PositionDelta =
    | Nothing
    | Forward(to: nat)   // moved one square on to the rolled value
    | Jump(to: nat)      // a pending jump moved the player to the rolled value
    | Stuck(to: nat)     // would have moved to the rolled value, but is stuck
    | ToZero             // a double three sent the player back to 0

  /** What one roll did to the rest of the state. */
  datatype StateDelta =
    | Nothing
    | Shield    // the shield was lost
    | Jumping   // the next roll will be a jump
    | Stuck     // the player is now stuck
    | Unstuck   // a 5 freed the player
    | Death

  /** The whole game state.  `history` is the previous roll, or 0 when there
      is none to compare with (at the start, and right after a hazard). */
  datatype State = State(
    position: nat,
    history: nat,
    shield: bool,
    jumping: bool,
    stuck: bool,
    dead: bool,
    causeOfDeath: Option<CauseOfDeath>
  )

  datatype Option<T> = None | Some(value: T)

  /** The result of one roll: the state after it and the two deltas reported. */
  datatype Transition = Transition(next: State, moved: PositionDelta, status: StateDelta)

  /** A legal die value. */
  predicate IsDie(dice: int) {
    1 <= dice <= 6
  }

  /** The invariants every state reachable from `New` keeps. */
  predicate Valid(s: State) {
    && s.position <= 6
    && s.history <= 6
    && (s.causeOfDeath.Some? <==> s.dead)
  }

  /** The roll repeats the previous one: the trigger of every hazard. */
  predicate Repeat(s: State, dice: int) {
    s.history == dice
  }

  /** A repeat that the shield survives, so the hazard table applies. */
  predicate ShieldedRepeat(s: State, dice: int) {
    Repeat(s, dice) && s.shield
  }

  /** A repeat without a shield: always fatal. */
  predicate UnshieldedRepeat(s: State, dice: int) {
    Repeat(s, dice) && !s.shield
  }

  /** The state a game starts in. */
  function New(): State {
    State(0, 0, true, false, false, false, None)
  }

  /** One roll of the die.  The steps run in the engine's order: movement
      (a pending jump first, then a forward step that being stuck blocks),
      the jump flag is cleared, a 5 unsticks, then a repeated roll either
      kills an unshielded player at once or, with the shield up, clears the
      history and applies the hazard for the rolled value; any other roll
      becomes the new history. */
  function Update(s: State, dice: nat): (t: Transition)
    requires IsDie(dice)
    ensures t.next.position == s.position || t.next.position == dice || t.next.position == 0
    ensures t.next.history == dice || t.next.history == 0
    ensures s.dead ==> t.next.dead
    ensures t.next.shield ==> s.shield
    ensures t.next.dead <==> s.dead || t.status == StateDelta.Death
    ensures t.status == StateDelta.Death ==> t.next.causeOfDeath.Some?
    ensures t.status != StateDelta.Death ==> t.next.causeOfDeath == s.causeOfDeath
    ensures t.next.jumping ==> t.status == StateDelta.Jumping
  {
    // Movement, decided on the state before the roll.
    var moved :=
      if s.jumping then PositionDelta.Jump(dice)
      else if s.position + 1 == dice then
        (if s.stuck then PositionDelta.Stuck(dice) else PositionDelta.Forward(dice))
      else PositionDelta.Nothing;
    var position := if moved.Jump? || moved.Forward? then dice else s.position;
    // The pending jump is always consumed; a 5 frees a stuck player.
    var unstuck := dice == 5 && s.stuck;
    var status := if unstuck then StateDelta.Unstuck else StateDelta.Nothing;
    var s1 := s.(position := position, jumping := false, stuck := s.stuck && !unstuck);
    if Repeat(s, dice) then
      if !s.shield then
        var cause := if dice == 6 then Both else Shields;
        Transition(s1.(dead := true, causeOfDeath := Some(cause)), moved, StateDelta.Death)
      else
        var s2 := s1.(history := 0);
        match dice
        case 1 => Transition(s2.(shield := false), moved, StateDelta.Shield)
        case 2 => Transition(s2, moved, status)
        case 3 => Transition(s2.(position := 0), PositionDelta.ToZero, status)
        case 4 => Transition(s2.(jumping := true), moved, StateDelta.Jumping)
        case 5 => Transition(s2.(stuck := true), moved, StateDelta.Stuck)
        case 6 => Transition(s2.(dead := true, causeOfDeath := Some(Ceres)), moved, StateDelta.Death)
    else
      Transition(s1.(history := dice), moved, status)
  }

  /** The outcome so far: `Some(false)` once dead, `Some(true)` when alive on
      square 6, `None` while the game goes on. */
  function Victory(s: State): (r: Option<bool>)
    ensures r == Some(false) <==> s.dead
    ensures r == Some(true) <==> !s.dead && s.position == 6
    ensures r == None <==> !s.dead && s.position != 6
  {
    if s.dead then Some(false)
    else if s.position == 6 then Some(true)
    else None
  }
}
