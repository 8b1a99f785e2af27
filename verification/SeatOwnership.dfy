/** One seat per delegate and pass. Every reservation checks for another active seat
    under the pass lock; an acceptance checks without it, and writes later. The rule
    holds exactly as long as no acceptance is overtaken between the two. */
module SeatOwnership {
  import opened Common
  import opened SeatInvariants
  import opened SeatTables

  /** Two seats of one team, both held by its head. */
  ghost predicate BothHeads(s: State, i: RowId, j: RowId)
    requires i in s.registrations && j in s.registrations
  {
    var group := s.registrations[i].group;
    group.Some? && s.registrations[j].group == group && group.value in s.groups
    && s.registrations[i].userId == s.groups[group.value].headUserId
  }

  predicate SameDelegate(rows: map<RowId, Registration>, i: RowId, j: RowId) {
    i in rows && j in rows && i != j && IsActive(rows[i].status) && IsActive(rows[j].status)
    && rows[i].userId == rows[j].userId && rows[i].productId == rows[j].productId
  }

  ghost predicate OwnershipInv(s: State) {
    forall i, j :: SameDelegate(s.registrations, i, j) ==> BothHeads(s, i, j)
  }

  /** An acceptance that is written although the delegate has an active seat for the
      pass by now. */
  predicate Overtaken(s: State, a: Action)
    requires Enabled(s, a)
  {
    a.Accept? && HasActive(s.registrations, a.userId, s.groups[s.invitations[a.i].groupId].productId)
  }

  // ---------------------------------------------------------------------------
  // One step
  // ---------------------------------------------------------------------------

  /** A seat that a delegate did not hold before the step. */
  predicate Gains(s: State, a: Action, id: RowId)
    requires Enabled(s, a)
  {
    id in RegistrationsAfter(s, a) && (id !in s.registrations || (a.Accept? && id == s.invitations[a.i].registrationId))
  }

  lemma KeptSeat(s: State, a: Action, id: RowId)
    requires Enabled(s, a) && InOrder(s, a) && id in RegistrationsAfter(s, a) && !Gains(s, a, id)
    ensures id in s.registrations
    ensures var before, after := s.registrations[id], RegistrationsAfter(s, a)[id];
            after.userId == before.userId && after.productId == before.productId && after.group == before.group
            && (IsActive(after.status) ==> IsActive(before.status))
  {
    OldRow(s, a, id);
    OwnerStep(s, a, id);
    StatusStep(s, a, id);
  }

  /** Whoever gains a seat, other than by an overtaken acceptance, had none for that pass. */
  lemma GainIsFirst(s: State, a: Action, id: RowId)
    requires Enabled(s, a) && InOrder(s, a) && Gains(s, a, id) && !Overtaken(s, a)
    ensures !HasActive(s.registrations, RegistrationsAfter(s, a)[id].userId, RegistrationsAfter(s, a)[id].productId)
  {
    if id in s.registrations {
      OldRow(s, a, id);
    }
  }

  lemma OwnershipStays(s: State, a: Action)
    requires Enabled(s, a) && InOrder(s, a) && OwnershipInv(s) && !Overtaken(s, a)
    ensures OwnershipInv(Apply(s, a))
  {
    var t := Apply(s, a);
    forall i, j | SameDelegate(t.registrations, i, j) ensures BothHeads(t, i, j) {
      if !Gains(s, a, i) && !Gains(s, a, j) {
        KeptSeat(s, a, i);
        KeptSeat(s, a, j);
        assert SameDelegate(s.registrations, i, j) && BothHeads(s, i, j);
      }
    }
  }

  /** An overtaken acceptance leaves its delegate two seats for the pass. */
  lemma OvertakenBreaks(s: State, a: Action)
    requires Enabled(s, a) && InOrder(s, a) && Overtaken(s, a)
    ensures !OwnershipInv(Apply(s, a))
  {
    var slot, team := s.invitations[a.i].registrationId, s.groups[s.invitations[a.i].groupId];
    var id :| id in ActiveIn(s.registrations, team.productId) && s.registrations[id].userId == a.userId;
    OldRow(s, a, slot);
    OldRow(s, a, id);
    assert SameDelegate(Apply(s, a).registrations, slot, id) && !BothHeads(Apply(s, a), slot, id);
  }

  /** One step keeps the rule if and only if it is no overtaken acceptance. */
  lemma OwnershipStep(s: State, a: Action)
    requires SeatInv(s) && OwnershipInv(s) && Enabled(s, a)
    ensures OwnershipInv(Apply(s, a)) <==> !Overtaken(s, a)
  {
    if Overtaken(s, a) { OvertakenBreaks(s, a); } else { OwnershipStays(s, a); }
  }

  // ---------------------------------------------------------------------------
  // Runs
  // ---------------------------------------------------------------------------

  ghost predicate RuleHolds(states: seq<State>, n: nat)
    requires n < |states|
  {
    forall k :: 0 <= k <= n ==> OwnershipInv(states[k])
  }

  ghost predicate NoneOvertaken(states: seq<State>, actions: seq<Action>, n: nat)
    requires IsRun(states, actions) && n < |states|
  {
    forall k :: 0 <= k < n ==> !Overtaken(states[k], actions[k])
  }

  lemma RunStep(states: seq<State>, actions: seq<Action>, n: nat)
    requires IsRun(states, actions) && n < |actions| && OwnershipInv(states[n])
    ensures OwnershipInv(states[n + 1]) <==> !Overtaken(states[n], actions[n])
  {
    RunKeepsSeats(states, actions, n);
    OwnershipStep(states[n], actions[n]);
  }

  /** Over a run the rule holds all along if and only if no acceptance was overtaken. */
  lemma {:induction false} OwnershipIff(states: seq<State>, actions: seq<Action>, n: nat)
    requires IsRun(states, actions) && n < |states|
    ensures RuleHolds(states, n) <==> NoneOvertaken(states, actions, n)
    decreases n
  {
    if n > 0 {
      OwnershipIff(states, actions, n - 1);
      assert n - 1 + 1 == n;
      if RuleHolds(states, n - 1) {
        RunStep(states, actions, n - 1);
      }
    }
  }

  /** A delegate's active seats for one pass are a single row, or rows of one team that
      the delegate heads, in every run that takes each acceptance in one step: its
      checks would still pass at its write. */
  lemma OneSeatPerPass(states: seq<State>, actions: seq<Action>, n: nat, i: RowId, j: RowId)
    requires IsRun(states, actions) && n < |states| && SameDelegate(states[n].registrations, i, j)
    requires forall k :: 0 <= k < n && actions[k].Accept? ==>
               AcceptError(states[k], actions[k].i, actions[k].userId, actions[k].now) == None
    ensures BothHeads(states[n], i, j)
  {
    forall k | 0 <= k < n ensures !Overtaken(states[k], actions[k]) { }
    OwnershipIff(states, actions, n);
  }

  // ---------------------------------------------------------------------------
  // Between an acceptance's checks and its write
  // ---------------------------------------------------------------------------

  /** Acceptance holds the row locks of the invitation and its slot, so no other step
      writes either of them. */
  predicate LeavesAlone(s: State, a: Action, i: InvitationId)
    requires Enabled(s, a) && i in s.invitations && s.invitations[i].registrationId in s.registrations
  {
    var slot := s.invitations[i].registrationId;
    i in InvitationsAfter(s, a) && InvitationsAfter(s, a)[i] == s.invitations[i]
    && slot in RegistrationsAfter(s, a) && RegistrationsAfter(s, a)[slot] == s.registrations[slot]
  }

  /** From the checks at `m` to the write at `n` the two locked rows are left alone. */
  ghost predicate Locked(states: seq<State>, actions: seq<Action>, m: nat, n: nat, i: InvitationId)
    requires IsRun(states, actions) && m <= n < |states|
  {
    forall k :: m <= k < n ==>
      i in states[k].invitations && states[k].invitations[i].registrationId in states[k].registrations
      && LeavesAlone(states[k], actions[k], i)
  }

  /** What was checked on the locked rows still is so at the write. */
  lemma {:induction false} ChecksHold(states: seq<State>, actions: seq<Action>, m: nat, n: nat, i: InvitationId,
                                      userId: UserId, now: Time)
    requires IsRun(states, actions) && m <= n < |states|
    requires i in states[m].invitations && ClaimError(states[m], i, userId, now) == None
    requires Locked(states, actions, m, n, i)
    ensures i in states[n].invitations && ClaimError(states[n], i, userId, now) == None
    ensures states[n].invitations[i] == states[m].invitations[i]
    ensures var g := states[m].invitations[i].groupId; g in states[n].groups && states[n].groups[g] == states[m].groups[g]
    decreases n
  {
    if m < n {
      ChecksHold(states, actions, m, n - 1, i, userId, now);
      assert states[n - 1 + 1] == Apply(states[n - 1], actions[n - 1]);
    }
  }

  /** An active seat of the delegate for the pass. */
  predicate Holds(s: State, id: RowId, userId: UserId, productId: ProductId) {
    id in s.registrations && s.registrations[id].userId == userId && s.registrations[id].productId == productId
    && IsActive(s.registrations[id].status)
  }

  lemma HoldingIsHavingActive(s: State, userId: UserId, productId: ProductId)
    ensures HasActive(s.registrations, userId, productId) <==> exists id :: Holds(s, id, userId, productId)
  {
    if id :| Holds(s, id, userId, productId) { assert id in ActiveIn(s.registrations, productId); }
    if id :| id in ActiveIn(s.registrations, productId) && s.registrations[id].userId == userId {
      assert Holds(s, id, userId, productId);
    }
  }

  /** Step `k` gave the delegate a seat for the pass: a solo or team reservation, or
      another acceptance. */
  ghost predicate SeatTakenAt(states: seq<State>, actions: seq<Action>, k: nat, id: RowId, userId: UserId, productId: ProductId)
    requires IsRun(states, actions) && k < |actions|
  {
    (actions[k].Reserve? || actions[k].ReserveTeam? || actions[k].Accept?) && actions[k].userId == userId
    && Gains(states[k], actions[k], id) && Holds(states[k + 1], id, userId, productId)
  }

  lemma HeldOrTaken(s: State, a: Action, id: RowId, userId: UserId, productId: ProductId)
    requires Enabled(s, a) && InOrder(s, a) && Holds(Apply(s, a), id, userId, productId)
    ensures if Gains(s, a, id) then (a.Reserve? || a.ReserveTeam? || a.Accept?) && a.userId == userId
            else Holds(s, id, userId, productId)
  {
    if !Gains(s, a, id) { KeptSeat(s, a, id); }
  }

  /** A seat held at `n` was held at `m` or taken in between. */
  lemma {:induction false} HeldSince(states: seq<State>, actions: seq<Action>, m: nat, n: nat, id: RowId,
                                     userId: UserId, productId: ProductId)
    requires IsRun(states, actions) && m <= n < |states| && Holds(states[n], id, userId, productId)
    ensures Holds(states[m], id, userId, productId)
            || exists k :: m <= k < n && SeatTakenAt(states, actions, k, id, userId, productId)
    decreases n
  {
    if m < n {
      var s, a := states[n - 1], actions[n - 1];
      assert states[n - 1 + 1] == Apply(s, a);
      RunKeepsSeats(states, actions, n - 1);
      HeldOrTaken(s, a, id, userId, productId);
      if Gains(s, a, id) {
        assert SeatTakenAt(states, actions, n - 1, id, userId, productId);
      } else {
        HeldSince(states, actions, m, n - 1, id, userId, productId);
      }
    }
  }

  /** Acceptance passes its checks at `m` and writes at `n`, with any steps of others in
      between. The write keeps the rule if and only if no seat for the pass that the
      delegate took in between, by a solo or team reservation or another acceptance,
      is still active. */
  lemma SplitAcceptKeepsOwnershipIff(states: seq<State>, actions: seq<Action>, m: nat, n: nat, i: InvitationId,
                                     userId: UserId, now: Time)
    requires IsRun(states, actions) && m <= n < |states| && OwnershipInv(states[n])
    requires i in states[m].invitations && AcceptError(states[m], i, userId, now) == None
    requires Locked(states, actions, m, n, i)
    ensures Enabled(states[n], Accept(i, userId, now))
    ensures var productId := states[m].groups[states[m].invitations[i].groupId].productId;
            OwnershipInv(Apply(states[n], Accept(i, userId, now)))
            <==> !exists k, id :: m <= k < n && SeatTakenAt(states, actions, k, id, userId, productId)
                               && Holds(states[n], id, userId, productId)
  {
    var productId := states[m].groups[states[m].invitations[i].groupId].productId;
    ChecksHold(states, actions, m, n, i, userId, now);
    RunKeepsSeats(states, actions, n);
    OwnershipStep(states[n], Accept(i, userId, now));
    HoldingIsHavingActive(states[m], userId, productId);
    HoldingIsHavingActive(states[n], userId, productId);
    if id :| Holds(states[n], id, userId, productId) {
      HeldSince(states, actions, m, n, id, userId, productId);
    }
  }
}
