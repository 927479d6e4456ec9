/** Games as sequences of rolls: `Run` folds `Game.Update` over the rolls,
    the way the test suite drives one state through `update` roll by roll,
    and the lemmas lift the one-roll invariants to whole games.
 */
module Runs {
  import opened Game

  /** Every roll is a legal die value. */
  predicate AllDice(rolls: seq<nat>) {
    forall i :: 0 <= i < |rolls| ==> IsDie(rolls[i])
  }

  /** The state after rolling `rolls` in order, starting from `s`.  No roll
      can revive the dead or give back a lost shield, and a valid state stays
      valid. */
  function Run(s: State, rolls: seq<nat>): (r: State)
    requires AllDice(rolls)
    ensures s.dead ==> r.dead
    ensures r.shield ==> s.shield
    ensures Valid(s) ==> Valid(r)
    decreases |rolls|
  {
    if |rolls| == 0 then s
    else
      var t := Update(s, rolls[0]);
      Run(t.next, rolls[1..])
  }

  /** Rolling one more die extends a run by one `Update`. */
  lemma {:induction false} RunSnoc(s: State, rolls: seq<nat>, dice: nat)
    requires AllDice(rolls) && IsDie(dice)
    ensures AllDice(rolls + [dice])
    ensures Run(s, rolls + [dice]) == Update(Run(s, rolls), dice).next
    decreases |rolls|
  {
    if |rolls| == 0 {
      assert rolls + [dice] == [dice];
    } else {
      assert (rolls + [dice])[1..] == rolls[1..] + [dice];
      RunSnoc(Update(s, rolls[0]).next, rolls[1..], dice);
    }
  }

  /** Running two blocks of rolls one after the other is running their
      concatenation. */
  lemma {:induction false} RunAppend(s: State, a: seq<nat>, b: seq<nat>)
    requires AllDice(a) && AllDice(b)
    ensures AllDice(a + b)
    ensures Run(s, a + b) == Run(Run(s, a), b)
    decreases |a|
  {
    if |a| == 0 {
      assert a + b == b;
    } else {
      assert (a + b)[1..] == a[1..] + b;
      RunAppend(Update(s, a[0]).next, a[1..], b);
    }
  }

  /** In every game started with `New`, each intermediate state is valid: the
      position stays within 0..6 and a cause of death is recorded exactly
      when the player is dead. */
  lemma EveryPrefixIsValid(rolls: seq<nat>)
    requires AllDice(rolls)
    ensures forall k :: 0 <= k <= |rolls| ==>
      AllDice(rolls[..k]) && Valid(Run(New(), rolls[..k])) && Run(New(), rolls[..k]).position <= 6
  {
    forall k | 0 <= k <= |rolls|
      ensures AllDice(rolls[..k]) && Valid(Run(New(), rolls[..k]))
    {
      assert AllDice(rolls[..k]);
      assert Valid(New());
    }
  }

  /** A lost game stays lost whatever is rolled afterwards. */
  lemma LossIsFinal(s: State, rolls: seq<nat>)
    requires AllDice(rolls)
    requires Victory(s) == Some(false)
    ensures Victory(Run(s, rolls)) == Some(false)
  {
  }

  /** Drives a new game through `rolls` one update at a time, recording what
      each roll reported; the final state is the fold `Run`, and each entry of
      the log is the transition taken from the state reached before it. */
  method Replay(rolls: seq<nat>) returns (s: State, log: seq<Transition>)
    requires AllDice(rolls)
    ensures s == Run(New(), rolls)
    ensures Valid(s)
    ensures |log| == |rolls|
    ensures forall i :: 0 <= i < |rolls| ==>
      AllDice(rolls[..i]) && log[i] == Update(Run(New(), rolls[..i]), rolls[i])
  {
    s := New();
    log := [];
    var i := 0;
    while i < |rolls|
      invariant 0 <= i <= |rolls|
      invariant AllDice(rolls[..i])
      invariant s == Run(New(), rolls[..i])
      invariant |log| == i
      invariant forall j :: 0 <= j < i ==>
        AllDice(rolls[..j]) && log[j] == Update(Run(New(), rolls[..j]), rolls[j])
    {
      var t := Update(s, rolls[i]);
      RunSnoc(New(), rolls[..i], rolls[i]);
      assert rolls[..i + 1] == rolls[..i] + [rolls[i]];
      s := t.next;
      log := log + [t];
      i := i + 1;
    }
    assert rolls[..i] == rolls;
    assert Valid(New());
  }
}
