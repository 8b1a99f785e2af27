/** Runs that reach the exceptions: awards written late, and a completion without review. */
module ResultsExceptions {
  import opened Results

  lemma OneMoreStep(states: seq<State>, actions: seq<Action>, a: Action) returns (states': seq<State>, actions': seq<Action>)
    requires IsRun(states, actions) && Enabled(states[|actions|], a)
    ensures IsRun(states', actions') && actions' == actions + [a]
    ensures states'[|actions'|] == Step(states[|actions|], a) && states'[|actions|] == states[|actions|]
  {
    states', actions' := states + [Step(states[|actions|], a)], actions + [a];
  }

  /** A conference in progress with one award, and another call past its check. */
  lemma OneAward(asked: Action) returns (states: seq<State>, actions: seq<Action>)
    requires asked == CheckCreate(1) || asked == CheckDelete(1, 1)
    ensures IsRun(states, actions) && |actions| == 4
    ensures states[4] == State(Mun(CONFERENCE_ACTIVE, map[1 := false]),
                               map[1 := if asked.CheckCreate? then Creating else Deleting(1)], false, false)
  {
    states, actions := OneMoreStep([START], [], Move(CONFERENCE_ACTIVE));
    states, actions := OneMoreStep(states, actions, CheckCreate(0));
    assert states[2] == State(Mun(CONFERENCE_ACTIVE, map[]), map[0 := Creating], false, false);
    states, actions := OneMoreStep(states, actions, WriteCreate(0, 1));
    assert states[3] == State(Mun(CONFERENCE_ACTIVE, map[1 := false]), map[], false, false);
    states, actions := OneMoreStep(states, actions, asked);
  }

  lemma Submitted(states: seq<State>, actions: seq<Action>) returns (states': seq<State>, actions': seq<Action>)
    requires IsRun(states, actions) && |actions| == 4
    requires states[4].mun == Mun(CONFERENCE_ACTIVE, map[1 := false]) && !states[4].submitting && !states[4].reviewed
    ensures IsRun(states', actions') && |actions'| == 6
    ensures states'[6] == states[4].(mun := Mun(RESULTS_UNDER_REVIEW, map[1 := false]))
  {
    assert |map[1 := false]| == 1;
    states', actions' := OneMoreStep(states, actions, CountAwards);
    states', actions' := OneMoreStep(states', actions', CommitSubmit);
  }

  /** An award checked before the submission and written after the approval stays
      unverified in the completed MUN. */
  lemma LateCreateEscapesReview() returns (states: seq<State>, actions: seq<Action>)
    ensures IsRun(states, actions) && |actions| > 0 && actions[|actions| - 1].WriteCreate?
    ensures var end := states[|actions|]; end.reviewed && Done(end.mun.status) && !HasReviewedResults(end.mun)
  {
    states, actions := OneAward(CheckCreate(1));
    states, actions := Submitted(states, actions);
    states, actions := OneMoreStep(states, actions, Decide(true, ""));
    assert states[7].mun == Mun(COMPLETED, AllVerified(map[1 := false]));
    states, actions := OneMoreStep(states, actions, WriteCreate(1, 2));
    assert 2 in states[8].mun.awards && !states[8].mun.awards[2];
  }

  /** An award checked before the submission and deleted after it leaves results under
      review without any. */
  lemma LateDeleteEmptiesReview() returns (states: seq<State>, actions: seq<Action>)
    ensures IsRun(states, actions) && |actions| > 0 && actions[|actions| - 1].WriteDelete?
    ensures states[|actions|].mun == Mun(RESULTS_UNDER_REVIEW, map[])
  {
    states, actions := OneAward(CheckDelete(1, 1));
    states, actions := Submitted(states, actions);
    states, actions := OneMoreStep(states, actions, WriteDelete(1));
    assert states[7].mun.awards == map[];
  }

  /** A conference completed without a review keeps its award unverified. */
  lemma UnreviewedCompletion() returns (states: seq<State>, actions: seq<Action>)
    ensures IsRun(states, actions) && |actions| > 0 && actions[|actions| - 1] == Finish
    ensures states[|actions|].mun == Mun(COMPLETED, map[1 := false])
  {
    states, actions := OneAward(CheckCreate(1));
    states, actions := OneMoreStep(states, actions, GiveUp(1));
    states, actions := OneMoreStep(states, actions, Finish);
  }
}
