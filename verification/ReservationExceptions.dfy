/** A run in which a failed order does not free its key. */
module ReservationExceptions {
  import opened Common
  import opened ReservationProtocol
  import opened ReservationSafety

  const ROOM_FOR_ONE: Capacities := map[Pass("pass") := 1]
  const ASKS := Request("u", "mun", "pass", [], 1, false, Some("k"))

  function Hold(status: Status): Row {
    Row("u", "mun", "pass", {}, status, Some("k"), Some("k"), None)
  }

  lemma OneMoreStep(states: seq<State>, actions: seq<Action>, a: Action) returns (states': seq<State>, actions': seq<Action>)
    requires IsRun(ROOM_FOR_ONE, states, actions) && Enabled(states[|actions|], a)
    ensures IsRun(ROOM_FOR_ONE, states', actions') && actions' == actions + [a]
    ensures states'[|actions'|] == Apply(ROOM_FOR_ONE, states[|actions|], a) && states'[|actions|] == states[|actions|]
  {
    states', actions' := states + [Apply(ROOM_FOR_ONE, states[|actions|], a)], actions + [a];
  }

  lemma LockedRun() returns (states: seq<State>, actions: seq<Action>)
    ensures IsRun(ROOM_FOR_ONE, states, actions) && |actions| == 3
    ensures states[3] == State(map[], map[Pass("pass") := 0], map[0 := Locked(ASKS, 0)], {})
  {
    states, actions := OneMoreStep([START], [], Begin(0, ASKS));
    states, actions := OneMoreStep(states, actions, Lookup(0, None));
    assert states[2].calls == map[0 := Waiting(ASKS, 0)];
    states, actions := OneMoreStep(states, actions, LockNext(0));
  }

  lemma CountedRun() returns (states: seq<State>, actions: seq<Action>)
    ensures IsRun(ROOM_FOR_ONE, states, actions) && |actions| == 4
    ensures states[4] == State(map[], map[Pass("pass") := 0], map[0 := Waiting(ASKS, 1)], {})
  {
    states, actions := LockedRun();
    assert TakenBy(map[], Pass("pass")) == {};
    states, actions := OneMoreStep(states, actions, Count(0, None));
  }

  lemma HeldRun() returns (states: seq<State>, actions: seq<Action>)
    ensures IsRun(ROOM_FOR_ONE, states, actions) && |actions| == 6
    ensures states[6].rows == map[7 := Hold(PENDING)] && states[6].calls == map[0 := AwaitingOrder(ASKS, {7}, 7)]
  {
    states, actions := CountedRun();
    states, actions := OneMoreStep(states, actions, Insert(0, {7}, 7, false));
    assert states[5].calls == map[0 := Inserted(ASKS, {7}, 7, false)];
    states, actions := OneMoreStep(states, actions, Commit(0));
    assert (set r | r in ASKS.extras) == {};
  }

  /** The order fails after a sweep has cancelled the hold: the key stays with the
      cancelled registration, and that is what a retry finds. */
  lemma SweptHoldKeepsItsKey() returns (states: seq<State>, actions: seq<Action>)
    ensures IsRun(ROOM_FOR_ONE, states, actions) && |actions| > 0 && actions[|actions| - 1] == FailOrder(0)
    ensures states[|actions|].calls[0] == Done(ASKS, OrderFailed(7))
    ensures states[|actions|].rows == map[7 := Hold(CANCELLED)] && Finds(states[|actions|].rows, ASKS, Some(7))
  {
    states, actions := HeldRun();
    states, actions := OneMoreStep(states, actions, MoveStatus(7, CANCELLED));
    assert states[7].rows == map[7 := Hold(CANCELLED)];
    states, actions := OneMoreStep(states, actions, FailOrder(0));
  }
}
