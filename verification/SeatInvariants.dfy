/** What every step on the seat tables keeps, and what follows for whole runs: claimed
    seats are paid ones, an invitation fills one slot, a team's hold moves as one, and
    captured money is accounted for. All of it holds however late the write of an
    acceptance comes after its checks. */
module SeatInvariants {
  import opened Common
  import opened SeatTables
  import opened SetSizes

  // ---------------------------------------------------------------------------
  // Invariants
  // ---------------------------------------------------------------------------

  ghost predicate TeamShape(s: State, g: GroupId)
    requires g in s.groups
  {
    var team := s.groups[g];
    |Slots(s.registrations, g)| == team.teamSize && team.headId in s.registrations
    && s.registrations[team.headId].group == Some(g) && s.registrations[team.headId].userId == team.headUserId
  }

  ghost predicate RowShape(s: State, row: Registration) {
    row.group.Some? ==>
      row.group.value in s.groups && row.productId == s.groups[row.group.value].productId
      && row.munId == s.groups[row.group.value].munId
  }

  ghost predicate ShapeInv(s: State) {
    (forall g :: g in s.groups ==> TeamShape(s, g))
    && (forall id :: id in s.registrations ==> RowShape(s, s.registrations[id]))
  }

  /** A team seat that is no longer the head's. */
  predicate Claimed(s: State, id: RowId) {
    id in s.registrations && s.registrations[id].group.Some? && s.registrations[id].group.value in s.groups
    && s.registrations[id].userId != s.groups[s.registrations[id].group.value].headUserId
  }

  ghost predicate ClaimedArePaid(s: State) {
    forall id :: Claimed(s, id) ==> !InFlight(s.registrations[id].status)
  }

  ghost predicate InvitationShape(s: State, inv: Invitation) {
    inv.groupId in s.groups && inv.registrationId in s.registrations
    && s.registrations[inv.registrationId].group == Some(inv.groupId)
    && inv.registrationId != s.groups[inv.groupId].headId
    && (inv.status == ACCEPTED ==> Claimed(s, inv.registrationId))
  }

  predicate AcceptedFor(s: State, i: InvitationId, id: RowId) {
    i in s.invitations && s.invitations[i].status == ACCEPTED && s.invitations[i].registrationId == id
  }

  ghost predicate InvitationInv(s: State) {
    (forall i :: i in s.invitations ==> InvitationShape(s, s.invitations[i]))
    && (forall i, j, id :: AcceptedFor(s, i, id) && AcceptedFor(s, j, id) ==> i == j)
    && (forall id :: Claimed(s, id) ==> exists i :: AcceptedFor(s, i, id))
  }

  ghost predicate TokenInv(s: State) {
    s.spent <= s.issued
    && (forall i :: i in s.invitations ==> s.invitations[i].token in s.issued)
    && (forall i, j :: i in s.invitations && j in s.invitations && s.invitations[i].token == s.invitations[j].token
          ==> i == j)
    && (forall i :: i in s.invitations && s.invitations[i].status == SENT ==> s.invitations[i].token !in s.spent)
  }

  /** Two seats of one team, neither cancelled on its own by an admin. */
  predicate TeamMates(s: State, i: RowId, j: RowId) {
    i in s.registrations && j in s.registrations && s.registrations[i].group.Some?
    && s.registrations[j].group == s.registrations[i].group
    && i !in s.cancelledByAdmin && j !in s.cancelledByAdmin
  }

  ghost predicate Together(s: State, i: RowId, j: RowId) {
    TeamMates(s, i, j) && InFlight(s.registrations[i].status) ==>
      s.registrations[j].status == s.registrations[i].status && s.registrations[j].expiresAt == s.registrations[i].expiresAt
  }

  /** A sweep under way takes whole teams. */
  ghost predicate SweepTogether(s: State, ids: set<RowId>, i: RowId, j: RowId) {
    TeamMates(s, i, j) && InFlight(s.registrations[i].status) ==> (i in ids <==> j in ids)
  }

  ghost predicate TogetherInv(s: State) {
    (forall i, j :: Together(s, i, j))
    && (forall pid :: pid in s.sweeps ==> s.sweeps[pid].ids <= s.registrations.Keys)
    && (forall pid, i, j :: pid in s.sweeps ==> SweepTogether(s, s.sweeps[pid].ids, i, j))
  }

  /** The registration that the seat's one payment is for. */
  function Anchor(s: State, id: RowId): RowId
    requires id in s.registrations
  {
    var group := s.registrations[id].group;
    if group.Some? && group.value in s.groups then s.groups[group.value].headId else id
  }

  predicate IsPaid(s: State, id: RowId) {
    id in s.payments && s.payments[id].status == PAID
  }

  ghost predicate SeatIsPaid(s: State, id: RowId)
    requires id in s.registrations
  {
    Seated(s.registrations[id].status) && s.registrations[id].expiresAt.Some? ==> IsPaid(s, Anchor(s, id))
  }

  ghost predicate MoneyIsSeated(s: State, id: RowId)
    requires id in s.payments && id in s.registrations
  {
    s.payments[id].status == PAID && !s.payments[id].flagged ==>
      Seated(s.registrations[id].status) || id in s.cancelledByAdmin
  }

  ghost predicate MoneyInv(s: State) {
    s.checkouts <= s.registrations.Keys && s.payments.Keys <= s.registrations.Keys && s.checkouts !! s.payments.Keys
    && (forall id :: id in s.registrations && (id in s.checkouts || id in s.payments) ==> Anchor(s, id) == id)
    && (forall id :: id in s.registrations ==> SeatIsPaid(s, id))
    && (forall id :: id in s.payments ==> MoneyIsSeated(s, id))
  }

  ghost predicate SeatInv(s: State) {
    ShapeInv(s) && ClaimedArePaid(s) && InvitationInv(s) && TokenInv(s) && TogetherInv(s) && MoneyInv(s)
  }

  // ---------------------------------------------------------------------------
  // What a step does to one row
  // ---------------------------------------------------------------------------

  /** Only accepting or releasing changes the owner, and only of one slot. */
  predicate ChangesOwner(s: State, a: Action, id: RowId)
    requires Enabled(s, a)
  {
    (a.Accept? && id == s.invitations[a.i].registrationId) || (a.ReleaseSeat? && id == a.id)
  }

  lemma OldRow(s: State, a: Action, id: RowId)
    requires Enabled(s, a) && id in s.registrations
    ensures id in RegistrationsAfter(s, a)
    ensures var before, after := s.registrations[id], RegistrationsAfter(s, a)[id];
            after == before.(status := after.status, userId := after.userId)
            && (after.userId == before.userId || ChangesOwner(s, a, id))
            && after.status == if id in MovedIds(s, a) then MovedTo(s, a) else before.status
  {
  }

  /** The moves a status can make. */
  lemma StatusStep(s: State, a: Action, id: RowId)
    requires Enabled(s, a) && id in s.registrations
    ensures id in RegistrationsAfter(s, a)
    ensures var before, after := s.registrations[id].status, RegistrationsAfter(s, a)[id].status;
            (InFlight(after) ==> InFlight(before)) && (IsActive(after) ==> IsActive(before))
            && (Seated(before) ==> Seated(after) || (a.CancelAsAdmin? && a.id == id))
            && (Seated(after) ==> Seated(before) || (a.Settle? && id in MovedIds(s, a) && MovedTo(s, a) == CONFIRMED))
  {
    OldRow(s, a, id);
  }

  /** What most steps need of the tables. */
  ghost predicate InOrder(s: State, a: Action)
    requires Enabled(s, a)
  {
    ShapeInv(s) && ClaimedArePaid(s) && (a.Accept? ==> InvitationShape(s, s.invitations[a.i]))
  }

  // ---------------------------------------------------------------------------
  // Teams and their slots
  // ---------------------------------------------------------------------------

  lemma OldSlots(s: State, a: Action, g: GroupId)
    requires ShapeInv(s) && Enabled(s, a) && g in s.groups
    ensures Slots(RegistrationsAfter(s, a), g) == Slots(s.registrations, g)
  {
    forall id ensures id in Slots(RegistrationsAfter(s, a), g) <==> id in Slots(s.registrations, g) {
      if id in s.registrations { OldRow(s, a, id); }
    }
  }

  lemma NewSlots(s: State, a: Action)
    requires ShapeInv(s) && Enabled(s, a) && a.ReserveTeam?
    ensures Slots(RegistrationsAfter(s, a), a.g) == a.ids
  {
    forall id ensures id in Slots(RegistrationsAfter(s, a), a.g) <==> id in a.ids {
      if id in s.registrations {
        OldRow(s, a, id);
        assert RowShape(s, s.registrations[id]);
      }
    }
  }

  lemma TeamStays(s: State, a: Action, g: GroupId)
    requires Enabled(s, a) && InOrder(s, a) && g in GroupsAfter(s, a)
    ensures TeamShape(Apply(s, a), g)
  {
    if g in s.groups {
      assert TeamShape(s, g);
      OldSlots(s, a, g);
      OldRow(s, a, s.groups[g].headId);
      HeadKeepsOwner(s, a, g);
    } else {
      NewSlots(s, a);
    }
  }

  lemma HeadKeepsOwner(s: State, a: Action, g: GroupId)
    requires Enabled(s, a) && InOrder(s, a) && g in s.groups
    ensures !ChangesOwner(s, a, s.groups[g].headId)
  {
    if a.Accept? {
      assert InvitationShape(s, s.invitations[a.i]) && TeamShape(s, g);
    } else if a.ReleaseSeat? {
      assert TeamShape(s, g);
    }
  }

  lemma RowShapeStays(s: State, a: Action, id: RowId)
    requires ShapeInv(s) && Enabled(s, a) && id in RegistrationsAfter(s, a)
    ensures RowShape(Apply(s, a), RegistrationsAfter(s, a)[id])
  {
    if id in s.registrations {
      OldRow(s, a, id);
      assert RowShape(s, s.registrations[id]);
    }
  }

  lemma ShapeStays(s: State, a: Action)
    requires Enabled(s, a) && InOrder(s, a)
    ensures ShapeInv(Apply(s, a))
  {
    var t := Apply(s, a);
    forall g | g in t.groups ensures TeamShape(t, g) { TeamStays(s, a, g); }
    forall id | id in t.registrations ensures RowShape(t, t.registrations[id]) { RowShapeStays(s, a, id); }
  }

  // ---------------------------------------------------------------------------
  // Claims and invitations
  // ---------------------------------------------------------------------------

  /** Only accepting changes an owner: it hands a slot of the head's to someone else. */
  lemma OwnerStep(s: State, a: Action, id: RowId)
    requires Enabled(s, a) && InOrder(s, a) && id in s.registrations
    ensures var before, after := s.registrations[id], RegistrationsAfter(s, a)[id];
            if a.Accept? && id == s.invitations[a.i].registrationId
              then before.group.Some? && before.group.value in s.groups && after.userId == a.userId
                   && after.userId != s.groups[before.group.value].headUserId
                   && before.userId == s.groups[before.group.value].headUserId
              else after.userId == before.userId
  {
    OldRow(s, a, id);
  }

  /** The one step that claims a slot. */
  lemma ClaimStep(s: State, a: Action, id: RowId)
    requires Enabled(s, a) && InOrder(s, a)
    ensures Claimed(Apply(s, a), id) <==> Claimed(s, id) || (a.Accept? && id == s.invitations[a.i].registrationId)
    ensures Claimed(Apply(s, a), id) ==> id in s.registrations
  {
    if id in s.registrations {
      OldRow(s, a, id);
      OwnerStep(s, a, id);
      assert RowShape(s, s.registrations[id]);
    }
  }

  lemma ClaimedStayPaid(s: State, a: Action)
    requires Enabled(s, a) && InOrder(s, a)
    ensures ClaimedArePaid(Apply(s, a))
  {
    var t := Apply(s, a);
    forall id | Claimed(t, id) ensures !InFlight(t.registrations[id].status) {
      ClaimStep(s, a, id);
      StatusStep(s, a, id);
    }
  }

  lemma OldInvitation(s: State, a: Action, i: InvitationId)
    requires Enabled(s, a) && i in s.invitations
    ensures i in InvitationsAfter(s, a)
    ensures var before, after := s.invitations[i], InvitationsAfter(s, a)[i];
            after.groupId == before.groupId && after.registrationId == before.registrationId
            && (after.token == before.token || (a.Resend? && a.i == i && after.token == a.token))
            && (after.status == ACCEPTED <==> before.status == ACCEPTED || (a.Accept? && a.i == i))
            && (after.status == SENT ==> before.status == SENT && !(a.Accept? && a.i == i))
  {
  }

  lemma OldInvitationStays(s: State, a: Action, i: InvitationId)
    requires Enabled(s, a) && InOrder(s, a) && i in s.invitations && InvitationShape(s, s.invitations[i])
    ensures i in InvitationsAfter(s, a) && InvitationShape(Apply(s, a), InvitationsAfter(s, a)[i])
  {
    OldInvitation(s, a, i);
    OldRow(s, a, s.invitations[i].registrationId);
    ClaimStep(s, a, s.invitations[i].registrationId);
  }

  lemma InvitationStays(s: State, a: Action, i: InvitationId)
    requires Enabled(s, a) && InOrder(s, a) && InvitationInv(s) && i in InvitationsAfter(s, a)
    ensures InvitationShape(Apply(s, a), InvitationsAfter(s, a)[i])
  {
    if i in s.invitations {
      assert InvitationShape(s, s.invitations[i]);
      OldInvitationStays(s, a, i);
    }
  }

  /** Who fills a slot changes only when the slot is claimed. */
  lemma FillerStep(s: State, a: Action, i: InvitationId, id: RowId)
    requires Enabled(s, a)
    ensures AcceptedFor(Apply(s, a), i, id)
       <==> AcceptedFor(s, i, id) || (a.Accept? && a.i == i && s.invitations[i].registrationId == id)
  {
    if i in s.invitations { OldInvitation(s, a, i); }
  }

  lemma FreshClaim(s: State, a: Action, i: InvitationId)
    requires InvitationInv(s) && Enabled(s, a) && a.Accept?
    ensures !AcceptedFor(s, i, s.invitations[a.i].registrationId)
  {
    assert InvitationShape(s, s.invitations[a.i]);
    if i in s.invitations { assert InvitationShape(s, s.invitations[i]); }
  }

  lemma InvitationsStay(s: State, a: Action)
    requires Enabled(s, a) && InOrder(s, a) && InvitationInv(s)
    ensures InvitationInv(Apply(s, a))
  {
    var t := Apply(s, a);
    forall i | i in t.invitations ensures InvitationShape(t, t.invitations[i]) { InvitationStays(s, a, i); }
    forall i, j, id | AcceptedFor(t, i, id) && AcceptedFor(t, j, id) ensures i == j {
      FillerStep(s, a, i, id);
      FillerStep(s, a, j, id);
      if a.Accept? { FreshClaim(s, a, i); FreshClaim(s, a, j); }
    }
    forall id | Claimed(t, id) ensures exists i :: AcceptedFor(t, i, id) {
      ClaimStep(s, a, id);
      if Claimed(s, id) {
        var i :| AcceptedFor(s, i, id);
        FillerStep(s, a, i, id);
      } else {
        FillerStep(s, a, a.i, id);
      }
    }
  }

  lemma TokenStep(s: State, a: Action, i: InvitationId)
    requires Enabled(s, a) && i in InvitationsAfter(s, a)
    ensures var after := InvitationsAfter(s, a)[i];
            ((a.Invite? || a.Resend?) && a.i == i && after.token == a.token)
            || (i in s.invitations && after.token == s.invitations[i].token
                && (after.status == SENT ==> s.invitations[i].status == SENT && !(a.Accept? && a.i == i)))
  {
    if i in s.invitations { OldInvitation(s, a, i); }
  }

  lemma TokensStay(s: State, a: Action)
    requires TokenInv(s) && Enabled(s, a)
    ensures TokenInv(Apply(s, a))
  {
    var t := Apply(s, a);
    forall i | i in t.invitations
      ensures t.invitations[i].token in t.issued
      ensures t.invitations[i].status == SENT ==> t.invitations[i].token !in t.spent
    {
      TokenStep(s, a, i);
    }
    forall i, j | i in t.invitations && j in t.invitations && t.invitations[i].token == t.invitations[j].token
      ensures i == j
    {
      TokenStep(s, a, i);
      TokenStep(s, a, j);
    }
  }

  // ---------------------------------------------------------------------------
  // Teams move together
  // ---------------------------------------------------------------------------

  /** Whatever tells rows apart in a WHERE clause is the same for both. */
  ghost predicate Alike(s: State, i: RowId, j: RowId) {
    TeamMates(s, i, j) && s.registrations[j] == s.registrations[i]
  }

  lemma AreAlike(s: State, i: RowId, j: RowId)
    requires ShapeInv(s) && ClaimedArePaid(s) && TogetherInv(s) && TeamMates(s, i, j) && InFlight(s.registrations[i].status)
    ensures Alike(s, i, j)
  {
    assert Together(s, i, j) && RowShape(s, s.registrations[i]) && RowShape(s, s.registrations[j]);
    assert !Claimed(s, i) && !Claimed(s, j);
  }

  /** A step takes all of a held team or nothing of it. */
  lemma MovesTogether(s: State, a: Action, i: RowId, j: RowId)
    requires ShapeInv(s) && ClaimedArePaid(s) && TogetherInv(s) && Enabled(s, a) && TeamMates(s, i, j) && InFlight(s.registrations[i].status)
    requires a.CancelAsAdmin? ==> a.id != i && a.id != j
    ensures i in MovedIds(s, a) <==> j in MovedIds(s, a)
  {
    AreAlike(s, i, j);
    if a.CancelExpired? { assert SweepTogether(s, s.sweeps[a.pid].ids, i, j); }
  }

  lemma TogetherStays(s: State, a: Action, i: RowId, j: RowId)
    requires ShapeInv(s) && ClaimedArePaid(s) && TogetherInv(s) && Enabled(s, a)
    ensures Together(Apply(s, a), i, j)
  {
    var t := Apply(s, a);
    if TeamMates(t, i, j) && InFlight(t.registrations[i].status) {
      if i in s.registrations && j in s.registrations {
        OldRow(s, a, i);
        OldRow(s, a, j);
        StatusStep(s, a, i);
        assert Together(s, i, j);
        MovesTogether(s, a, i, j);
      }
    }
  }

  lemma SweepStays(s: State, a: Action, pid: Pid, i: RowId, j: RowId)
    requires ShapeInv(s) && ClaimedArePaid(s) && TogetherInv(s) && Enabled(s, a) && pid in SweepsAfter(s, a)
    ensures SweepTogether(Apply(s, a), SweepsAfter(s, a)[pid].ids, i, j)
  {
    var t := Apply(s, a);
    if TeamMates(t, i, j) && InFlight(t.registrations[i].status) {
      if i in s.registrations && j in s.registrations {
        OldRow(s, a, i);
        OldRow(s, a, j);
        StatusStep(s, a, i);
        assert Together(s, i, j) && RowShape(s, s.registrations[i]) && RowShape(s, s.registrations[j]);
        if pid in s.sweeps && s.sweeps[pid] == SweepsAfter(s, a)[pid] { assert SweepTogether(s, s.sweeps[pid].ids, i, j); }
      }
    }
  }

  lemma TeamsStayTogether(s: State, a: Action)
    requires ShapeInv(s) && ClaimedArePaid(s) && TogetherInv(s) && Enabled(s, a)
    ensures TogetherInv(Apply(s, a))
  {
    var t := Apply(s, a);
    forall i, j ensures Together(t, i, j) { TogetherStays(s, a, i, j); }
    forall pid, i, j | pid in t.sweeps ensures SweepTogether(t, t.sweeps[pid].ids, i, j) { SweepStays(s, a, pid, i, j); }
  }

  // ---------------------------------------------------------------------------
  // Money
  // ---------------------------------------------------------------------------

  lemma AnchorStays(s: State, a: Action, id: RowId)
    requires ShapeInv(s) && Enabled(s, a) && id in s.registrations
    ensures id in RegistrationsAfter(s, a) && Anchor(Apply(s, a), id) == Anchor(s, id)
  {
    OldRow(s, a, id);
    assert RowShape(s, s.registrations[id]);
  }

  lemma SeatStaysPaid(s: State, a: Action, id: RowId)
    requires ShapeInv(s) && MoneyInv(s) && Enabled(s, a) && id in RegistrationsAfter(s, a)
    ensures SeatIsPaid(Apply(s, a), id)
  {
    var t := Apply(s, a);
    if Seated(t.registrations[id].status) && t.registrations[id].expiresAt.Some? {
      if id in s.registrations {
        OldRow(s, a, id);
        StatusStep(s, a, id);
        AnchorStays(s, a, id);
        if Seated(s.registrations[id].status) {
          assert SeatIsPaid(s, id);
        }
      }
    }
  }

  lemma MoneyStaysSeated(s: State, a: Action, id: RowId)
    requires ShapeInv(s) && MoneyInv(s) && Enabled(s, a) && id in PaymentsAfter(s, a)
    ensures id in RegistrationsAfter(s, a) && MoneyIsSeated(Apply(s, a), id)
  {
    OldRow(s, a, id);
    if IsPaid(Apply(s, a), id) && !PaymentsAfter(s, a)[id].flagged {
      StatusStep(s, a, id);
      assert MoneyIsSeated(s, id);
    }
  }

  /** Orders are for solo rows and team heads. */
  lemma OrdersStayAnchored(s: State, a: Action, id: RowId)
    requires ShapeInv(s) && MoneyInv(s) && Enabled(s, a) && (id in CheckoutsAfter(s, a) || id in PaymentsAfter(s, a))
    ensures id in RegistrationsAfter(s, a) && Anchor(Apply(s, a), id) == id
  {
    if id in s.registrations { AnchorStays(s, a, id); }
  }

  lemma MoneyStays(s: State, a: Action)
    requires ShapeInv(s) && MoneyInv(s) && Enabled(s, a)
    ensures MoneyInv(Apply(s, a))
  {
    var t := Apply(s, a);
    forall id | id in t.checkouts || id in t.payments ensures id in t.registrations && Anchor(t, id) == id {
      OrdersStayAnchored(s, a, id);
    }
    forall id | id in t.registrations ensures SeatIsPaid(t, id) { SeatStaysPaid(s, a, id); }
    forall id | id in t.payments ensures MoneyIsSeated(t, id) { MoneyStaysSeated(s, a, id); }
  }

  // ---------------------------------------------------------------------------
  // Runs
  // ---------------------------------------------------------------------------

  lemma {:induction false} RunKeepsSeats(states: seq<State>, actions: seq<Action>, n: nat)
    requires IsRun(states, actions) && n < |states|
    ensures SeatInv(states[n])
    decreases n
  {
    if n > 0 {
      RunKeepsSeats(states, actions, n - 1);
      var s, a := states[n - 1], actions[n - 1];
      assert states[n - 1 + 1] == Apply(s, a);
      ShapeStays(s, a);
      ClaimedStayPaid(s, a);
      InvitationsStay(s, a);
      TokensStay(s, a);
      TeamsStayTogether(s, a);
      MoneyStays(s, a);
    }
  }

  /** `releaseGroupSeat` is refused in every reachable state, whatever the seat. */
  lemma ReleaseNeverSucceeds(states: seq<State>, actions: seq<Action>, n: nat, g: GroupId, id: RowId)
    requires IsRun(states, actions) && n < |states|
    ensures ReleaseError(states[n], g, id).Some?
  {
    RunKeepsSeats(states, actions, n);
  }

  function AcceptedOf(s: State, g: GroupId): set<InvitationId> {
    set i | i in s.invitations && s.invitations[i].groupId == g && s.invitations[i].status == ACCEPTED
  }

  function ClaimedOf(s: State, g: GroupId): set<RowId> {
    set id | id in s.registrations && s.registrations[id].group == Some(g) && Claimed(s, id)
  }

  /** Accepted invitations and claimed slots of a team match one to one: same number,
      and each claimed slot has exactly one accepted invitation. */
  lemma AcceptedMatchClaimed(states: seq<State>, actions: seq<Action>, n: nat, g: GroupId)
    requires IsRun(states, actions) && n < |states|
    ensures |AcceptedOf(states[n], g)| == |ClaimedOf(states[n], g)|
    ensures forall id :: id in ClaimedOf(states[n], g) ==> exists i :: AcceptedFor(states[n], i, id)
    ensures forall i, j, id :: AcceptedFor(states[n], i, id) && AcceptedFor(states[n], j, id) ==> i == j
  {
    RunKeepsSeats(states, actions, n);
    MatchOneToOne(states[n], g);
  }

  lemma MatchOneToOne(s: State, g: GroupId)
    requires InvitationInv(s)
    ensures |AcceptedOf(s, g)| == |ClaimedOf(s, g)|
  {
    var slotOf := map i | i in AcceptedOf(s, g) :: s.invitations[i].registrationId;
    forall id ensures id in ClaimedOf(s, g) <==> exists i :: i in AcceptedOf(s, g) && slotOf[i] == id {
      if id in ClaimedOf(s, g) {
        var i :| AcceptedFor(s, i, id);
        assert InvitationShape(s, s.invitations[i]) && i in AcceptedOf(s, g) && slotOf[i] == id;
      }
      forall i | i in AcceptedOf(s, g) && slotOf[i] == id ensures id in ClaimedOf(s, g) {
        assert InvitationShape(s, s.invitations[i]);
      }
    }
    forall i, j | i in AcceptedOf(s, g) && j in AcceptedOf(s, g) && slotOf[i] == slotOf[j] ensures i == j {
      assert AcceptedFor(s, i, slotOf[i]) && AcceptedFor(s, j, slotOf[i]);
    }
    ImageSize(slotOf, AcceptedOf(s, g), ClaimedOf(s, g));
  }

  /** Histories only grow. */
  lemma {:induction false} HistoryGrows(states: seq<State>, actions: seq<Action>, m: nat, n: nat)
    requires IsRun(states, actions) && m <= n < |states|
    ensures states[m].spent <= states[n].spent && states[m].cancelledByAdmin <= states[n].cancelledByAdmin
    decreases n
  {
    if m < n {
      HistoryGrows(states, actions, m, n - 1);
      assert states[n - 1 + 1] == Apply(states[n - 1], actions[n - 1]);
    }
  }

  /** A token that has been accepted once is never accepted again, not even after its
      invitation was re-sent. */
  lemma TokenWorksOnce(states: seq<State>, actions: seq<Action>, m: nat, n: nat)
    requires IsRun(states, actions) && m < n < |actions| && actions[m].Accept? && actions[n].Accept?
    ensures states[m].invitations[actions[m].i].token != states[n].invitations[actions[n].i].token
  {
    RunKeepsSeats(states, actions, n);
    assert states[m + 1] == Apply(states[m], actions[m]);
    assert Enabled(states[m], actions[m]) && Enabled(states[n], actions[n]);
    HistoryGrows(states, actions, m + 1, n);
  }

  /** A team keeps all its rows, with its head in one of them; and as long as one seat
      awaits payment, all seats share one status and one expiry and are the head's,
      except those an admin cancelled one by one. */
  lemma TeamsHoldTogether(states: seq<State>, actions: seq<Action>, n: nat, g: GroupId, i: RowId)
    requires IsRun(states, actions) && n < |states| && g in states[n].groups
    requires i in Slots(states[n].registrations, g) && i !in states[n].cancelledByAdmin
    requires InFlight(states[n].registrations[i].status)
    ensures TeamShape(states[n], g)
    ensures forall j :: j in Slots(states[n].registrations, g) - states[n].cancelledByAdmin ==>
              states[n].registrations[j] == states[n].registrations[i]
              && states[n].registrations[j].userId == states[n].groups[g].headUserId
  {
    RunKeepsSeats(states, actions, n);
    var s := states[n];
    forall j | j in Slots(s.registrations, g) - s.cancelledByAdmin
      ensures s.registrations[j] == s.registrations[i] && s.registrations[j].userId == s.groups[g].headUserId
    {
      AreAlike(s, i, j);
      assert !Claimed(s, j);
    }
  }

  /** A paid seat is lost only to an admin. */
  lemma {:induction false} SeatedStay(states: seq<State>, actions: seq<Action>, m: nat, n: nat, id: RowId)
    requires IsRun(states, actions) && m <= n < |states|
    requires id in states[m].registrations && Seated(states[m].registrations[id].status)
    ensures id in states[n].registrations
    ensures Seated(states[n].registrations[id].status) || id in states[n].cancelledByAdmin
    decreases n
  {
    if m < n {
      SeatedStay(states, actions, m, n - 1, id);
      assert states[n - 1 + 1] == Apply(states[n - 1], actions[n - 1]);
      SeatedStep(states[n - 1], actions[n - 1], id);
    }
  }

  lemma SeatedStep(s: State, a: Action, id: RowId)
    requires Enabled(s, a) && id in s.registrations && (Seated(s.registrations[id].status) || id in s.cancelledByAdmin)
    ensures var t := Apply(s, a);
            id in t.registrations && (Seated(t.registrations[id].status) || id in t.cancelledByAdmin)
  {
    StatusStep(s, a, id);
  }

  /** Money and seats agree: a seat that costs something is backed by a captured
      payment, and a captured payment without an exception has its seat, unless an
      admin cancelled it. */
  lemma MoneyMatchesSeats(states: seq<State>, actions: seq<Action>, n: nat, id: RowId)
    requires IsRun(states, actions) && n < |states| && id in states[n].registrations
    ensures SeatIsPaid(states[n], id)
    ensures id in states[n].payments ==> MoneyIsSeated(states[n], id)
  {
    RunKeepsSeats(states, actions, n);
  }

  /** An admin who cancels one seat of a held team leaves the rest of the hold in
      place; and if it was the head's seat, the payment can no longer confirm them. */
  lemma AdminCancelSplitsTeam(s: State, g: GroupId, id: RowId, j: RowId, event: PaymentEvent)
    requires TogetherInv(s) && g in s.groups && id in Slots(s.registrations, g) && j in Slots(s.registrations, g) && id != j
    requires TeamMates(s, id, j) && InFlight(s.registrations[id].status)
    ensures Enabled(s, CancelAsAdmin(id))
    ensures var t := Apply(s, CancelAsAdmin(id));
            t.registrations[id].status == CANCELLED && InFlight(t.registrations[j].status)
            && (id == s.groups[g].headId && id in t.payments && event.PaymentCaptured? ==>
                  Apply(t, Settle(id, event)).registrations == t.registrations)
  {
    assert Together(s, id, j);
    var t := Apply(s, CancelAsAdmin(id));
    if id == s.groups[g].headId && id in t.payments && event.PaymentCaptured? {
      assert MovedIds(t, Settle(id, event)) == {};
    }
  }
}
