/** "A slot can have at most one PENDING invitation at a time": exactly when that holds,
    over time, of the invitations that can still be accepted. */
module SeatInvitations {
  import opened SeatTables

  /** By acceptance's own test, an invitation that it takes at `now`. */
  predicate LiveAt(s: State, i: InvitationId, now: Time) {
    i in s.invitations && s.invitations[i].status == SENT && s.invitations[i].expiresAt >= now
  }

  predicate Rivals(s: State, i: InvitationId, j: InvitationId, now: Time) {
    LiveAt(s, i, now) && LiveAt(s, j, now) && i != j && s.invitations[i].registrationId == s.invitations[j].registrationId
  }

  ghost predicate OneLive(s: State, now: Time) {
    forall i, j :: !Rivals(s, i, j, now)
  }

  /** A resend that was checked while the invitation was live but written after it
      expired, when its slot had been offered to someone else. */
  ghost predicate Revives(s: State, a: Action) {
    a.Resend? && a.i in s.invitations && s.invitations[a.i].status == SENT && !LiveAt(s, a.i, a.now)
    && exists j :: LiveAt(s, j, a.now) && s.invitations[j].registrationId == s.invitations[a.i].registrationId
  }

  /** A slot offered again in the very instant its invitation expires: inviting counts
      that invitation as gone, accepting does not. */
  ghost predicate Reoffers(s: State, a: Action) {
    a.Invite? && exists j :: LiveAt(s, j, a.now) && s.invitations[j].registrationId == a.slot
  }

  /** The clock reading a step was taken at. */
  predicate TakenAt(a: Action, now: Time) {
    a.Invite? || a.Resend? ==> a.now == now
  }

  /** The re-offer is at the expiry instant, and only then. */
  lemma ReofferIsAtExpiry(s: State, a: Action, j: InvitationId)
    requires Enabled(s, a) && a.Invite? && LiveAt(s, j, a.now) && s.invitations[j].registrationId == a.slot
    ensures s.invitations[j].expiresAt == a.now
  {
  }

  lemma NoRivals(s: State, a: Action, now: Time, i: InvitationId, j: InvitationId)
    requires Enabled(s, a) && TakenAt(a, now) && OneLive(s, now) && !Revives(s, a) && !Reoffers(s, a)
    ensures !Rivals(Apply(s, a), i, j, now)
  {
    assert !Rivals(s, i, j, now);
  }

  /** One step breaks the rule if and only if it is such a resend or such a re-offer. */
  lemma OneLiveStep(s: State, a: Action, now: Time)
    requires Enabled(s, a) && TakenAt(a, now) && OneLive(s, now)
    ensures OneLive(Apply(s, a), now) <==> !Revives(s, a) && !Reoffers(s, a)
  {
    if Revives(s, a) {
      var j :| LiveAt(s, j, a.now) && s.invitations[j].registrationId == s.invitations[a.i].registrationId;
      assert Rivals(Apply(s, a), a.i, j, now);
    } else if Reoffers(s, a) {
      var j :| LiveAt(s, j, a.now) && s.invitations[j].registrationId == a.slot;
      assert Rivals(Apply(s, a), a.i, j, now);
    } else {
      forall i, j ensures !Rivals(Apply(s, a), i, j, now) { NoRivals(s, a, now, i, j); }
    }
  }

  lemma LaterIsFewer(s: State, now: Time, later: Time)
    requires OneLive(s, now) && now <= later
    ensures OneLive(s, later)
  {
    forall i, j ensures !Rivals(s, i, j, later) { assert !Rivals(s, i, j, now); }
  }

  /** Clock readings of a run: one per state, never going back. */
  ghost predicate Timed(actions: seq<Action>, clock: seq<Time>) {
    |clock| == |actions| + 1 && (forall n :: 0 <= n < |actions| ==> clock[n] <= clock[n + 1] && TakenAt(actions[n], clock[n + 1]))
  }

  ghost predicate OneLiveSoFar(states: seq<State>, clock: seq<Time>, n: nat)
    requires n < |states| && |clock| == |states|
  {
    forall k :: 0 <= k <= n ==> OneLive(states[k], clock[k])
  }

  ghost predicate NoneDoubled(states: seq<State>, actions: seq<Action>, n: nat)
    requires n < |states| == |actions| + 1
  {
    forall k :: 0 <= k < n ==> !Revives(states[k], actions[k]) && !Reoffers(states[k], actions[k])
  }

  /** Over a run no slot ever has two invitations that can be accepted if and only if
      the run has no such resend and no such re-offer. */
  lemma {:induction false} OneLiveInvitation(states: seq<State>, actions: seq<Action>, clock: seq<Time>, n: nat)
    requires IsRun(states, actions) && Timed(actions, clock) && n < |states|
    ensures OneLiveSoFar(states, clock, n) <==> NoneDoubled(states, actions, n)
    decreases n
  {
    if n > 0 {
      OneLiveInvitation(states, actions, clock, n - 1);
      assert n - 1 + 1 == n;
      if OneLiveSoFar(states, clock, n - 1) { TimedStep(states, actions, clock, n - 1); }
    }
  }

  lemma TimedStep(states: seq<State>, actions: seq<Action>, clock: seq<Time>, n: nat)
    requires IsRun(states, actions) && Timed(actions, clock) && n < |actions| && OneLive(states[n], clock[n])
    ensures OneLive(states[n + 1], clock[n + 1]) <==> !Revives(states[n], actions[n]) && !Reoffers(states[n], actions[n])
  {
    LaterIsFewer(states[n], clock[n], clock[n + 1]);
    OneLiveStep(states[n], actions[n], clock[n + 1]);
  }
}
