/** Runs that reach the exceptions: an overtaken acceptance, and two live invitations
    for one slot. */
module SeatExceptions {
  import opened Common
  import opened SeatInvariants
  import opened SeatInvitations
  import opened SeatOwnership
  import opened SeatTables

  // ---------------------------------------------------------------------------
  // A team with one seat on offer
  // ---------------------------------------------------------------------------

  /** Two free seats for "ana", the second offered at time 0. */
  const TEAM := ReserveTeam(0, {0, 1}, 0, "ana", "mun", "pass", 10, true, 0)
  const OFFER := Invite(0, 0, 1, "a", 0)

  function Seat(userId: UserId, g: GroupId): Registration {
    Registration(userId, "mun", "pass", CONFIRMED, None, Some(g))
  }

  predicate Offered(s: State) {
    s.registrations == map[0 := Seat("ana", 0), 1 := Seat("ana", 0)]
    && s.groups == map[0 := Group("ana", 0, "mun", "pass", 2)]
    && s.invitations == map[0 := Invitation(0, 1, "a", SENT, INVITATION_TTL, 0)] && s.issued == {"a"}
  }

  lemma TeamIsOffered() returns (s1: State, s2: State)
    ensures Enabled(START, TEAM) && s1 == Apply(START, TEAM)
    ensures Enabled(s1, OFFER) && s2 == Apply(s1, OFFER)
    ensures Offered(s2)
  {
    assert ActiveIn(START.registrations, "pass") == {};
    assert |{0, 1}| == 2;
    s1 := Apply(START, TEAM);
    assert 1 in OpenSlots(s1, 0, 0);
    s2 := Apply(s1, OFFER);
  }

  /** The run goes on with `a`. */
  lemma OneMoreStep(states: seq<State>, actions: seq<Action>, a: Action) returns (states': seq<State>, actions': seq<Action>)
    requires IsRun(states, actions) && Enabled(states[|actions|], a)
    ensures IsRun(states', actions') && actions' == actions + [a]
    ensures states'[|actions'|] == Apply(states[|actions|], a) && states'[|actions|] == states[|actions|]
    ensures |actions| > 0 ==> states'[|actions| - 1] == states[|actions| - 1]
  {
    states', actions' := states + [Apply(states[|actions|], a)], actions + [a];
  }

  /** The offer as a run. */
  lemma OfferedRun() returns (states: seq<State>, actions: seq<Action>)
    ensures IsRun(states, actions) && actions == [TEAM, OFFER] && Offered(states[2])
  {
    var s1, s2 := TeamIsOffered();
    states, actions := OneMoreStep([START], [], TEAM);
    states, actions := OneMoreStep(states, actions, OFFER);
  }

  // ---------------------------------------------------------------------------
  // An overtaken acceptance
  // ---------------------------------------------------------------------------

  const BEN_ACCEPTS := Accept(0, "ben", 1)

  /** A run in which "ben" passes acceptance's checks, then `a` gives him another seat
      for the pass, and then his acceptance is written. */
  ghost predicate Overtakes(states: seq<State>, actions: seq<Action>, a: Action) {
    var m := |actions| - 2;
    m >= 0 && IsRun(states, actions) && actions[m] == a && actions[m + 1] == BEN_ACCEPTS
    && 0 in states[m].invitations && AcceptError(states[m], 0, "ben", 1) == None
    && Locked(states, actions, m, m + 1, 0) && !OwnershipInv(states[m + 2])
  }

  /** Step `a` leaves the offer to "ben" alone and gives him seat `id`. */
  predicate Intrudes(s: State, a: Action, id: RowId) {
    Enabled(s, a) && 0 in s.invitations && AcceptError(s, 0, "ben", 1) == None && LeavesAlone(s, a, 0)
    && Holds(Apply(s, a), id, "ben", s.groups[s.invitations[0].groupId].productId)
  }

  lemma WriteIsOvertaken(s: State, a: Action, id: RowId)
    requires Intrudes(s, a, id)
    ensures Enabled(Apply(s, a), BEN_ACCEPTS) && Overtaken(Apply(s, a), BEN_ACCEPTS)
  {
    HoldingIsHavingActive(Apply(s, a), "ben", s.groups[s.invitations[0].groupId].productId);
  }

  lemma BrokenAtLast(states: seq<State>, actions: seq<Action>)
    requires IsRun(states, actions) && Enabled(states[|actions|], BEN_ACCEPTS) && Overtaken(states[|actions|], BEN_ACCEPTS)
    ensures !OwnershipInv(Apply(states[|actions|], BEN_ACCEPTS))
  {
    RunKeepsSeats(states, actions, |actions|);
    OvertakenBreaks(states[|actions|], BEN_ACCEPTS);
  }

  lemma OvertakenRun(before: seq<State>, taken: seq<Action>, a: Action, id: RowId)
    returns (states: seq<State>, actions: seq<Action>)
    requires IsRun(before, taken) && Intrudes(before[|taken|], a, id)
    ensures |actions| == |taken| + 2 && Overtakes(states, actions, a) && states[|taken|] == before[|taken|]
  {
    var between, so := OneMoreStep(before, taken, a);
    WriteIsOvertaken(before[|taken|], a, id);
    BrokenAtLast(between, so);
    states, actions := OneMoreStep(between, so, BEN_ACCEPTS);
    WasLocked(states, actions, |taken|, a);
  }

  lemma WasLocked(states: seq<State>, actions: seq<Action>, m: nat, a: Action)
    requires IsRun(states, actions) && m < |actions| && actions[m] == a
    requires 0 in states[m].invitations && states[m].invitations[0].registrationId in states[m].registrations
    requires LeavesAlone(states[m], a, 0)
    ensures Locked(states, actions, m, m + 1, 0)
  {
  }

  lemma BenIsFree(s: State)
    requires Offered(s)
    ensures AcceptError(s, 0, "ben", 1) == None && ReserveError(s, "ben", "pass", 2, 10) == None
    ensures ReserveError(s, "ben", "pass", 1, 10) == None
  {
    assert "ana"[0] != "ben"[0];
    assert ActiveIn(s.registrations, "pass") == {0, 1};
    assert |{0, 1}| == 2;
    assert !HasActive(s.registrations, "ben", "pass");
  }

  /** By a solo reservation. */
  lemma ReservationOvertakes() returns (states: seq<State>, actions: seq<Action>, a: Action)
    ensures a.Reserve? && Overtakes(states, actions, a)
  {
    var before, taken := OfferedRun();
    a := Reserve(2, "ben", "mun", "pass", 10, true, 1);
    BenIsFree(before[2]);
    states, actions := OvertakenRun(before, taken, a, 2);
  }

  /** By a team reservation. */
  lemma TeamReservationOvertakes() returns (states: seq<State>, actions: seq<Action>, a: Action)
    ensures a.ReserveTeam? && Overtakes(states, actions, a)
  {
    var before, taken := OfferedRun();
    a := ReserveTeam(1, {2, 3}, 2, "ben", "mun", "pass", 10, true, 1);
    BenIsFree(before[2]);
    assert |{2, 3}| == 2;
    states, actions := OvertakenRun(before, taken, a, 2);
  }

  const TEAM2 := ReserveTeam(1, {2, 3}, 2, "cat", "mun", "pass", 10, true, 0)
  const OFFER2 := Invite(1, 1, 3, "b", 0)

  predicate BothOffered(s: State) {
    s.registrations == map[0 := Seat("ana", 0), 1 := Seat("ana", 0), 2 := Seat("cat", 1), 3 := Seat("cat", 1)]
    && s.groups == map[0 := Group("ana", 0, "mun", "pass", 2), 1 := Group("cat", 2, "mun", "pass", 2)]
    && s.invitations == map[0 := Invitation(0, 1, "a", SENT, INVITATION_TTL, 0),
                            1 := Invitation(1, 3, "b", SENT, INVITATION_TTL, 0)]
  }

  lemma SecondTeam(s: State) returns (t: State)
    requires Offered(s)
    ensures Enabled(s, TEAM2) && t == Apply(s, TEAM2) && t.invitations == s.invitations && t.issued == {"a"}
    ensures t.registrations == map[0 := Seat("ana", 0), 1 := Seat("ana", 0), 2 := Seat("cat", 1), 3 := Seat("cat", 1)]
    ensures t.groups == map[0 := Group("ana", 0, "mun", "pass", 2), 1 := Group("cat", 2, "mun", "pass", 2)]
  {
    assert "ana"[0] != "cat"[0];
    assert ActiveIn(s.registrations, "pass") == {0, 1};
    assert |{0, 1}| == 2 && |{2, 3}| == 2;
    t := Apply(s, TEAM2);
  }

  lemma SecondOffer(s: State) returns (t: State)
    requires s.registrations == map[0 := Seat("ana", 0), 1 := Seat("ana", 0), 2 := Seat("cat", 1), 3 := Seat("cat", 1)]
    requires s.groups == map[0 := Group("ana", 0, "mun", "pass", 2), 1 := Group("cat", 2, "mun", "pass", 2)]
    requires s.invitations == map[0 := Invitation(0, 1, "a", SENT, INVITATION_TTL, 0)] && s.issued == {"a"}
    ensures Enabled(s, OFFER2) && t == Apply(s, OFFER2) && BothOffered(t)
  {
    assert "a"[0] != "b"[0];
    assert 3 in OpenSlots(s, 1, 0);
    t := Apply(s, OFFER2);
  }

  lemma BenIsFreeForBoth(s: State)
    requires BothOffered(s)
    ensures AcceptError(s, 0, "ben", 1) == None && AcceptError(s, 1, "ben", 1) == None
  {
    assert "ana"[0] != "ben"[0] && "cat"[0] != "ben"[0];
    assert ActiveIn(s.registrations, "pass") == {0, 1, 2, 3};
  }

  lemma BenIntrudes(s: State)
    requires BothOffered(s)
    ensures AcceptError(s, 1, "ben", 1) == None && Intrudes(s, Accept(1, "ben", 1), 3)
  {
    BenIsFreeForBoth(s);
  }

  /** By another acceptance, of another team's invitation: both passed their checks
      before either was written. */
  lemma AcceptanceOvertakes() returns (states: seq<State>, actions: seq<Action>, a: Action)
    ensures a.Accept? && a.i != 0 && Overtakes(states, actions, a)
    ensures AcceptError(states[|actions| - 2], a.i, a.userId, a.now) == None
  {
    var before, taken := OfferedRun();
    var s3 := SecondTeam(before[2]);
    var between, so := OneMoreStep(before, taken, TEAM2);
    var s4 := SecondOffer(s3);
    between, so := OneMoreStep(between, so, OFFER2);
    a := Accept(1, "ben", 1);
    BenIntrudes(s4);
    states, actions := OvertakenRun(between, so, a, 3);
  }

  // ---------------------------------------------------------------------------
  // Two live invitations
  // ---------------------------------------------------------------------------

  lemma SlotIsOfferedAgain(s: State, now: Time) returns (t: State)
    requires Offered(s) && now >= INVITATION_TTL
    ensures var again := Invite(1, 0, 1, "b", now); Enabled(s, again) && t == Apply(s, again)
    ensures t.invitations == map[0 := Invitation(0, 1, "a", SENT, INVITATION_TTL, 0),
                                 1 := Invitation(0, 1, "b", SENT, now + INVITATION_TTL, now)] && t.issued == {"a", "b"}
  {
    assert "a"[0] != "b"[0];
    assert 1 in OpenSlots(s, 0, now);
    t := Apply(s, Invite(1, 0, 1, "b", now));
  }

  /** The offer, and then another for the same slot once the first may be considered gone. */
  lemma ReofferedRun(now: Time) returns (states: seq<State>, actions: seq<Action>)
    requires now >= INVITATION_TTL
    ensures IsRun(states, actions) && actions == [TEAM, OFFER, Invite(1, 0, 1, "b", now)]
    ensures states[3].invitations == map[0 := Invitation(0, 1, "a", SENT, INVITATION_TTL, 0),
                                         1 := Invitation(0, 1, "b", SENT, now + INVITATION_TTL, now)]
    ensures states[3].issued == {"a", "b"}
  {
    states, actions := OfferedRun();
    var s3 := SlotIsOfferedAgain(states[2], now);
    states, actions := OneMoreStep(states, actions, Invite(1, 0, 1, "b", now));
  }

  lemma ResendRivals(s: State, now: Time)
    requires 0 in s.invitations && 1 in s.invitations && s.invitations[0].status == SENT && s.issued == {"a", "b"}
    requires s.invitations[1].registrationId == s.invitations[0].registrationId && LiveAt(s, 1, now)
    ensures Enabled(s, Resend(0, "c", now)) && !OneLive(Apply(s, Resend(0, "c", now)), now)
  {
    assert "c"[0] != "a"[0] && "c"[0] != "b"[0];
    assert Rivals(Apply(s, Resend(0, "c", now)), 0, 1, now);
  }

  /** A resend whose write comes after the expiry leaves two live invitations for one slot. */
  lemma LateResend() returns (states: seq<State>, actions: seq<Action>, clock: seq<Time>)
    ensures IsRun(states, actions) && Timed(actions, clock) && |actions| > 0 && actions[|actions| - 1].Resend?
    ensures !OneLive(states[|actions|], clock[|actions|])
  {
    var now := INVITATION_TTL + 1;
    states, actions := ReofferedRun(now);
    ResendRivals(states[3], now);
    states, actions := OneMoreStep(states, actions, Resend(0, "c", now));
    clock := [0, 0, 0, now, now];
  }

  /** So does inviting again at the expiry instant, without any resend. */
  lemma ReofferAtExpiry() returns (states: seq<State>, actions: seq<Action>, clock: seq<Time>)
    ensures IsRun(states, actions) && Timed(actions, clock) && forall k :: 0 <= k < |actions| ==> !actions[k].Resend?
    ensures !OneLive(states[|actions|], clock[|actions|])
  {
    states, actions := ReofferedRun(INVITATION_TTL);
    clock := [0, 0, 0, INVITATION_TTL];
    assert Rivals(states[3], 0, 1, INVITATION_TTL);
  }
}
