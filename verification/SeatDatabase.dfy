/** The seat transactions as they run: each method reads and writes the tables in the
    order the source does, and is proved to be the step of SeatTables of the same name.
    The steps' invariants are in SeatInvariants. */
module SeatDatabase {
  import opened Common
  import opened SeatTables

  class Database {
    var registrations: map<RowId, Registration>
    var groups: map<GroupId, Group>
    var invitations: map<InvitationId, Invitation>
    var payments: map<RowId, Payment>
    var checkouts: set<RowId>
    ghost var sweeps: map<Pid, Sweep>
    ghost var issued: set<Token>
    ghost var spent: set<Token>
    ghost var cancelledByAdmin: set<RowId>

    constructor ()
      ensures Contents() == START
    {
      registrations, groups, invitations, payments, checkouts := map[], map[], map[], map[], {};
      sweeps, issued, spent, cancelledByAdmin := map[], {}, {}, {};
    }

    ghost function Contents(): State
      reads this
    {
      State(registrations, groups, invitations, payments, checkouts, sweeps, issued, spent, cancelledByAdmin)
    }

    // -------------------------------------------------------------------------
    // Reservation and payment
    // -------------------------------------------------------------------------

    /** What the checks are about, spelled out: every status but the last two takes a seat. */
    static ghost function SeatsTaken(rows: map<RowId, Registration>, productId: ProductId): nat {
      |set i | i in rows && rows[i].productId == productId && rows[i].status != CANCELLED && rows[i].status != REFUNDED|
    }

    static ghost predicate HoldsSeat(rows: map<RowId, Registration>, userId: UserId, productId: ProductId) {
      exists i :: i in rows && rows[i].userId == userId && rows[i].productId == productId
               && rows[i].status != CANCELLED && rows[i].status != REFUNDED
    }

    static ghost function FreshSeat(userId: UserId, munId: MunId, productId: ProductId, free: bool, now: Time,
                                    group: Option<GroupId>): Registration
    {
      Registration(userId, munId, productId, if free then CONFIRMED else PENDING,
                   if free then None else Some(now + 15 * 60 * 1000), group)
    }

    static lemma ActiveSeatsAreTaken(rows: map<RowId, Registration>, productId: ProductId)
      ensures |ActiveIn(rows, productId)| == SeatsTaken(rows, productId)
    {
      assert ActiveIn(rows, productId)
          == set i | i in rows && rows[i].productId == productId && rows[i].status != CANCELLED && rows[i].status != REFUNDED;
    }

    /** The transaction of `reserveAndStartPayment`. */
    method ReserveSeat(id: RowId, userId: UserId, munId: MunId, productId: ProductId, capacity: nat, free: bool, now: Time)
      returns (r: Result<Status, Error>)
      requires id !in registrations
      modifies this
      ensures r.Failure? <==> ReserveError(old(Contents()), userId, productId, 1, capacity).Some?
      ensures r.Failure? ==> ReserveError(old(Contents()), userId, productId, 1, capacity) == Some(r.error)
                             && Contents() == old(Contents())
      ensures r.Success? ==> Contents() == Apply(old(Contents()), Reserve(id, userId, munId, productId, capacity, free, now))
                             && r.value == registrations[id].status
      ensures r == Failure(AlreadyActive) <==> HoldsSeat(old(registrations), userId, productId)
      ensures r == Failure(AtCapacity) <==> !HoldsSeat(old(registrations), userId, productId)
                                            && SeatsTaken(old(registrations), productId) >= capacity
      ensures r.Success? ==>
                registrations == old(registrations)[id := FreshSeat(userId, munId, productId, free, now, None)]
                && checkouts == if free then old(checkouts) else old(checkouts) + {id}
    {
      var active := ActiveIn(registrations, productId);
      ActiveSeatsAreTaken(registrations, productId);
      if exists i :: i in active && registrations[i].userId == userId { return Failure(AlreadyActive); }
      if |active| >= capacity { return Failure(AtCapacity); }
      var status := if free then CONFIRMED else PENDING;
      var expiresAt := if free then None else Some(now + RESERVATION_TTL);
      registrations := registrations[id := Registration(userId, munId, productId, status, expiresAt, None)];
      if !free { checkouts := checkouts + {id}; }
      return Success(status);
    }

    /** The transaction of `reserveGroupAndStartPayment`: the team, the head's seat, then
        the placeholders. */
    method ReserveTeamSeats(g: GroupId, headId: RowId, placeholders: set<RowId>, userId: UserId, munId: MunId,
                            productId: ProductId, teamSize: int, capacity: nat, free: bool, now: Time)
      returns (r: Result<Status, Error>)
      requires g !in groups && headId !in registrations && placeholders !! registrations.Keys && headId !in placeholders
      requires |placeholders| == if teamSize > 0 then teamSize - 1 else 0
      modifies this
      ensures r.Failure? ==> Contents() == old(Contents())
      ensures r == Failure(GroupSizeInvalid) <==> !(GROUP_MIN_SIZE <= teamSize <= GROUP_MAX_SIZE)
      ensures GROUP_MIN_SIZE <= teamSize <= GROUP_MAX_SIZE ==>
                match ReserveError(old(Contents()), userId, productId, teamSize, capacity)
                case Some(e) => r == Failure(e)
                case None => r.Success? && Contents() == Apply(old(Contents()), ReserveTeam(g, placeholders + {headId}, headId, userId,
                                                                                   munId, productId, capacity, free, now))
      ensures r.Success? <==> 2 <= teamSize <= 20 && !HoldsSeat(old(registrations), userId, productId)
                              && SeatsTaken(old(registrations), productId) + teamSize <= capacity
      ensures r.Success? ==>
                registrations == old(registrations) + map i | i in placeholders + {headId} ::
                                                          FreshSeat(userId, munId, productId, free, now, Some(g))
      ensures r.Success? ==> checkouts == if free then old(checkouts) else old(checkouts) + {headId}
    {
      if teamSize < GROUP_MIN_SIZE || teamSize > GROUP_MAX_SIZE { return Failure(GroupSizeInvalid); }
      var active := ActiveIn(registrations, productId);
      ActiveSeatsAreTaken(registrations, productId);
      if exists i :: i in active && registrations[i].userId == userId { return Failure(AlreadyActive); }
      if |active| + teamSize > capacity { return Failure(AtCapacity); }
      var status := if free then CONFIRMED else PENDING;
      InsertTeam(g, headId, placeholders, NewSeat(userId, munId, productId, free, now, Some(g)));
      if !free { checkouts := checkouts + {headId}; }
      return Success(status);
    }

    /** The team row, the head's seat, the placeholders, and the team's link to its head. */
    method InsertTeam(g: GroupId, headId: RowId, placeholders: set<RowId>, seat: Registration)
      requires g !in groups && headId !in registrations && placeholders !! registrations.Keys && headId !in placeholders
      modifies `registrations, `groups
      ensures registrations == old(registrations) + map id | id in placeholders + {headId} :: seat
      ensures groups == old(groups)[g := Group(seat.userId, headId, seat.munId, seat.productId, |placeholders + {headId}|)]
    {
      registrations := registrations[headId := seat];
      registrations := registrations + map id | id in placeholders :: seat;
      groups := groups[g := Group(seat.userId, headId, seat.munId, seat.productId, |placeholders| + 1)];
    }

    /** The order call threw: of the order's seats none is left pending, none other is
        touched, and a team that was pending as one is cancelled as one. */
    method OrderFailed(id: RowId)
      requires id in checkouts && id in registrations
      modifies this
      ensures Contents() == Apply(old(Contents()), FailOrder(id))
      ensures OnlyPendingMoved(old(registrations), registrations, Members(old(registrations), id), CANCELLED)
      ensures checkouts == old(checkouts) - {id} && payments == old(payments)
    {
      registrations := Moved(registrations, WithStatus(registrations, Members(registrations, id), PENDING), CANCELLED);
      checkouts := checkouts - {id};
    }

    /** The order exists: its pending seats wait for the payment, and there is one due
        payment for it. */
    method OrderStarted(id: RowId)
      requires id in checkouts && id in registrations
      modifies this
      ensures Contents() == Apply(old(Contents()), AttachOrder(id))
      ensures OnlyPendingMoved(old(registrations), registrations, Members(old(registrations), id), PAYMENT_PENDING)
      ensures id in payments && payments[id].status == DUE && !payments[id].flagged
      ensures checkouts == old(checkouts) - {id} && payments - {id} == old(payments) - {id}
    {
      registrations := Moved(registrations, WithStatus(registrations, Members(registrations, id), PENDING), PAYMENT_PENDING);
      payments := payments[id := Payment(DUE, false)];
      checkouts := checkouts - {id};
    }

    /** Of the order's seats none is left pending: those that were have moved to `to`.
        Every other row, and everything else about these, is as before. */
    ghost predicate OnlyPendingMoved(before: map<RowId, Registration>, after: map<RowId, Registration>, seats: set<RowId>,
                                     to: Status)
    {
      after.Keys == before.Keys
      && (forall i :: i in seats && i in before ==>
            after[i].status == if before[i].status == PENDING then to else before[i].status)
      && (forall i :: i in seats && i in before ==> after[i] == before[i].(status := after[i].status))
      && (forall i :: i in before && i !in seats ==> after[i] == before[i])
    }

    /** Of the seats of `id`'s order those that wait for the payment have moved to `to`;
        every other row, and everything else about these, is as before. */
    static ghost predicate OrderMoved(before: map<RowId, Registration>, after: map<RowId, Registration>, id: RowId, to: Status)
      requires id in before
    {
      after == map i | i in before ::
        if before[i].status == PAYMENT_PENDING && (i == id || (before[id].group.Some? && before[i].group == before[id].group))
        then before[i].(status := to) else before[i]
    }

    /** The order's own seat waits for the payment and had not run out at `at`. */
    static ghost predicate HeldAt(row: Registration, at: Time) {
      row.status == PAYMENT_PENDING && match row.expiresAt case Some(e) => at <= e case None => true
    }

    /** What a provider event does to an order's payment and seats. */
    static ghost predicate Settled(before: State, after: State, id: RowId, event: PaymentEvent)
      requires id in before.payments && id in before.registrations
    {
      var due, row := before.payments[id], before.registrations[id];
      id in after.payments && after.payments - {id} == before.payments - {id} &&
      var paid := after.payments[id];
      // a captured order stays as it is, but for the flag of a second charge
      if due.status == PAID then
        after.registrations == before.registrations
        && paid == Payment(PAID, due.flagged || (event.PaymentCaptured? && !event.samePayment))
      else match event
        case PaymentFailed =>
          paid == Payment(FAILED, due.flagged) && OrderMoved(before.registrations, after.registrations, id, CANCELLED)
        case PaymentCaptured(amountMatches, _, capturedAt) =>
          if !amountMatches then paid == Payment(due.status, true) && after.registrations == before.registrations
          // the right amount confirms exactly the seats of an order that was still held when it was paid
          else if HeldAt(row, capturedAt) then
            paid == Payment(PAID, due.flagged) && OrderMoved(before.registrations, after.registrations, id, CONFIRMED)
          else
            paid == Payment(PAID, true)
            && if row.status == PAYMENT_PENDING then OrderMoved(before.registrations, after.registrations, id, CANCELLED)
               else after.registrations == before.registrations
    }

    static lemma WaitingSeatsMove(rows: map<RowId, Registration>, id: RowId, to: Status)
      requires id in rows
      ensures OrderMoved(rows, Moved(rows, WithStatus(rows, Members(rows, id), PAYMENT_PENDING), to), id, to)
    {
    }

    static lemma SettleSettles(s: State, id: RowId, event: PaymentEvent)
      requires id in s.payments && id in s.registrations
      ensures Settled(s, Apply(s, Settle(id, event)), id, event)
    {
      WaitingSeatsMove(s.registrations, id, MovedTo(s, Settle(id, event)));
      assert Moved(s.registrations, {}, MovedTo(s, Settle(id, event))) == s.registrations;
    }

    /** `applyEvent` in the webhook, for an order of this provider. */
    method ApplyEvent(id: RowId, event: PaymentEvent)
      requires id in payments && id in registrations
      modifies this
      ensures Contents() == Apply(old(Contents()), Settle(id, event))
      ensures Settled(old(Contents()), Contents(), id, event)
    {
      SettleSettles(Contents(), id, event);
      var payment, registration := payments[id], registrations[id];
      var held := WithStatus(registrations, Members(registrations, id), PAYMENT_PENDING);
      var alreadyCaptured := payment.status == PAID;
      match event
      case PaymentFailed =>
        if !alreadyCaptured {
          payments := payments[id := payment.(status := FAILED)];
          registrations := Moved(registrations, held, CANCELLED);
        }
      case PaymentCaptured(amountMatches, samePayment, capturedAt) =>
        if alreadyCaptured {
          if !samePayment { payments := payments[id := payment.(flagged := true)]; }
        } else if !amountMatches {
          payments := payments[id := payment.(flagged := true)];
        } else {
          var pending := registration.status == PAYMENT_PENDING;
          var holdExpired := pending && registration.expiresAt.Some? && registration.expiresAt.value < capturedAt;
          if holdExpired { registrations := Moved(registrations, held, CANCELLED); }
          if pending && !holdExpired {
            payments := payments[id := payment.(status := PAID)];
            registrations := Moved(registrations, held, CONFIRMED);
          } else {
            payments := payments[id := Payment(PAID, true)];
          }
        }
      assert payments == PaymentsAfter(old(Contents()), Settle(id, event));
      assert registrations == RegistrationsAfter(old(Contents()), Settle(id, event));
    }

    /** Not paid for and past its time, that very millisecond not included. */
    static ghost predicate Overdue(row: Registration, scope: Scope, now: Time) {
      (match scope case OfProduct(p) => row.productId == p case OfMun(m) => row.munId == m)
      && (row.status == PENDING || row.status == PAYMENT_PENDING)
      && match row.expiresAt case Some(e) => e < now case None => false
    }

    static lemma SweptAreOverdue(rows: map<RowId, Registration>, scope: Scope, now: Time)
      ensures ExpiredIn(rows, scope, now) == set i | i in rows && Overdue(rows[i], scope, now)
      ensures forall i :: i in rows && i !in ExpiredIn(rows, scope, now) ==> !Overdue(rows[i], scope, now)
    {
      assert forall i :: i in rows ==> (i in ExpiredIn(rows, scope, now) <==> Overdue(rows[i], scope, now));
    }

    /** `sweepExpiredHolds` run without interruption: read the ids, then write the rows
        that still qualify. */
    method SweepExpiredHolds(scope: Scope, now: Time, ghost pid: Pid) returns (released: nat)
      requires pid !in sweeps
      modifies this
      ensures Contents() == Apply(Apply(old(Contents()), ReadExpired(pid, scope, now)), CancelExpired(pid))
      ensures registrations == map i | i in old(registrations) ::
                if Overdue(old(registrations)[i], scope, now) then old(registrations)[i].(status := CANCELLED)
                else old(registrations)[i]
      ensures released == |set i | i in old(registrations) && Overdue(old(registrations)[i], scope, now)|
      ensures forall i :: i in registrations ==> !Overdue(registrations[i], scope, now)
    {
      var expired := ExpiredIn(registrations, scope, now);
      SweptAreOverdue(registrations, scope, now);
      released := |expired|;
      ghost var read := Apply(Contents(), ReadExpired(pid, scope, now));
      assert MovedIds(read, CancelExpired(pid)) == expired;
      if released > 0 { registrations := Moved(registrations, expired, CANCELLED); }
      assert registrations == Moved(old(registrations), expired, CANCELLED);
      assert SweepsAfter(read, CancelExpired(pid)) == sweeps;
    }

    static ghost predicate RanOut(row: Registration, status: Status, now: Time) {
      row.status == status && match row.expiresAt case Some(e) => e < now case None => false
    }

    /** One statement of the scheduled sweep, over every conference. */
    method ReleaseWithStatus(status: Status, now: Time) returns (released: set<RowId>)
      requires status == PENDING || status == PAYMENT_PENDING
      modifies this
      ensures Contents() == Apply(old(Contents()), SeatTables.ReleaseWithStatus(status, now))
      ensures released == set i | i in old(registrations) && RanOut(old(registrations)[i], status, now)
      ensures registrations == map i | i in old(registrations) ::
                if i in released then old(registrations)[i].(status := CANCELLED) else old(registrations)[i]
    {
      released := set i | i in registrations && registrations[i].status == status
                          && registrations[i].expiresAt.Some? && registrations[i].expiresAt.value < now;
      assert released == MovedIds(Contents(), SeatTables.ReleaseWithStatus(status, now));
      registrations := Moved(registrations, released, CANCELLED);
    }

    /** `releaseExpiredHoldRows`: the holds that had reached payment, and the number of others. */
    method ReleaseExpiredHoldRows(now: Time) returns (paymentPending: set<RowId>, pending: nat)
      modifies this
      ensures paymentPending == set i | i in old(registrations) && RanOut(old(registrations)[i], PAYMENT_PENDING, now)
      ensures pending == |set i | i in old(registrations) && RanOut(old(registrations)[i], PENDING, now)|
      ensures registrations == map i | i in old(registrations) ::
                if RanOut(old(registrations)[i], PAYMENT_PENDING, now) || RanOut(old(registrations)[i], PENDING, now)
                then old(registrations)[i].(status := CANCELLED) else old(registrations)[i]
    {
      paymentPending := ReleaseWithStatus(PAYMENT_PENDING, now);
      var others := ReleaseWithStatus(PENDING, now);
      assert others == set i | i in old(registrations) && RanOut(old(registrations)[i], PENDING, now);
      pending := |others|;
    }

    // -------------------------------------------------------------------------
    // Everything else that moves a status
    // -------------------------------------------------------------------------

    /** `setDelegateAttendance`. `open` is whether the conference's status allows it,
        `awarded` whether the delegate has an award. */
    method SetDelegateAttendance(munId: MunId, id: RowId, status: Status, open: bool, awarded: bool)
      returns (r: Result<Status, Error>)
      requires status == ATTENDED || status == NO_SHOW
      modifies this
      ensures match AttendanceError(old(Contents()), munId, id, status, open, awarded)
              case Some(e) => r == Failure(e) && Contents() == old(Contents())
              case None => r == Success(status) && Enabled(old(Contents()), Attend(id, status))
                           && Contents() == Apply(old(Contents()), Attend(id, status))
      ensures r.Success? && awarded && status == NO_SHOW ==> registrations == old(registrations)
      ensures r.Success? <==>
                open && id in old(registrations) && old(registrations)[id].munId == munId
                && old(registrations)[id].status in {CONFIRMED, ATTENDED, NO_SHOW}
                && (awarded && status == NO_SHOW ==> old(registrations)[id].status == NO_SHOW)
      ensures r.Success? ==> registrations == old(registrations)[id := old(registrations)[id].(status := status)]
      ensures r.Failure? ==>
                if !open then r.error == AttendanceClosed
                else if !(id in old(registrations) && old(registrations)[id].munId == munId) then r.error == NotFound
                else r.error == if old(registrations)[id].status in {CONFIRMED, ATTENDED, NO_SHOW} then HasAward else NotSeated
    {
      if !open { return Failure(AttendanceClosed); }
      if id !in registrations || registrations[id].munId != munId { return Failure(NotFound); }
      var row := registrations[id];
      if !Seated(row.status) { return Failure(NotSeated); }
      if row.status == status {
        assert registrations == Moved(registrations, {id}, status);
        return Success(status);
      }
      if status == NO_SHOW && awarded { return Failure(HasAward); }
      registrations := registrations[id := row.(status := status)];
      assert registrations == Moved(old(registrations), {id}, status);
      return Success(status);
    }

    method CancelRegistrationAsAdmin(id: RowId) returns (r: Result<Status, Error>)
      modifies this
      ensures r.Success? <==> Enabled(old(Contents()), CancelAsAdmin(id))
      ensures Contents() == if r.Success? then Apply(old(Contents()), CancelAsAdmin(id)) else old(Contents())
      ensures r.Success? <==> id in old(registrations) && old(registrations)[id].status !in {CANCELLED, REFUNDED}
      ensures r.Success? ==> registrations == old(registrations)[id := old(registrations)[id].(status := CANCELLED)]
    {
      if id !in registrations { return Failure(NotFound); }
      var status := registrations[id].status;
      if status == CANCELLED || status == REFUNDED { return Failure(AlreadyCancelled); }
      registrations := registrations[id := registrations[id].(status := CANCELLED)];
      cancelledByAdmin := cancelledByAdmin + {id};
      assert registrations == Moved(old(registrations), {id}, CANCELLED);
      return Success(CANCELLED);
    }

    /** The hold-cancelling statement of `deleteOwnAccount`. */
    method CancelUnpaidHolds(userId: UserId) returns (cancelled: nat)
      modifies this
      ensures Contents() == Apply(old(Contents()), DeleteAccount(userId))
      ensures registrations == map id | id in old(registrations) ::
                if old(registrations)[id].userId == userId && old(registrations)[id].status in {PENDING, PAYMENT_PENDING}
                then old(registrations)[id].(status := CANCELLED) else old(registrations)[id]
      ensures cancelled == |MovedIds(old(Contents()), DeleteAccount(userId))|
    {
      var held := set id | id in registrations && registrations[id].userId == userId && InFlight(registrations[id].status);
      registrations := Moved(registrations, held, CANCELLED);
      cancelled := |held|;
    }

    /** The statement that cancels a conference's unpaid holds. */
    method CancelHoldsOfMun(munId: MunId)
      modifies this
      ensures Contents() == Apply(old(Contents()), CancelMun(munId))
      ensures registrations == map id | id in old(registrations) ::
                if old(registrations)[id].munId == munId && old(registrations)[id].status in {PENDING, PAYMENT_PENDING}
                then old(registrations)[id].(status := CANCELLED) else old(registrations)[id]
    {
      var held := set id | id in registrations && registrations[id].munId == munId && InFlight(registrations[id].status);
      registrations := Moved(registrations, held, CANCELLED);
    }

    // -------------------------------------------------------------------------
    // Team invitations
    // -------------------------------------------------------------------------

    /** A seat of the team that nobody has taken or is being offered: any but the head's
        own that is still in the head's name and has no pending invitation past `now`. */
    static ghost predicate OnOffer(s: State, g: GroupId, id: RowId, now: Time) {
      g in s.groups && id in s.registrations && s.registrations[id].group == Some(g)
      && s.registrations[id].userId == s.groups[g].headUserId && id != s.groups[g].headId
      && forall i :: i in s.invitations && s.invitations[i].registrationId == id && s.invitations[i].status == SENT ==>
           s.invitations[i].expiresAt <= now
    }

    static lemma OpenIsOnOffer(s: State, g: GroupId, now: Time)
      requires g in s.groups
      ensures forall id :: id in OpenSlots(s, g, now) <==> OnOffer(s, g, id, now)
    {
    }

    /** `inviteGroupMember`; the head's status was read before the transaction. */
    method InviteGroupMember(i: InvitationId, g: GroupId, token: Token, headSeen: Status, now: Time)
      returns (r: Result<RowId, Error>)
      requires i !in invitations && token !in issued
      modifies this
      ensures match InviteError(old(Contents()), g, now, headSeen)
              case Some(e) => r == Failure(e) && Contents() == old(Contents())
              case None => r.Success? && Enabled(old(Contents()), Invite(i, g, r.value, token, now))
                           && Contents() == Apply(old(Contents()), Invite(i, g, r.value, token, now))
      ensures r.Success? <==> headSeen == CONFIRMED && exists id :: OnOffer(old(Contents()), g, id, now)
      ensures r.Failure? ==>
                if g !in groups then r.error == NotFound
                else if headSeen == CONFIRMED then r.error == TeamFull
                else r.error == if headSeen == CANCELLED then TeamCancelled else NotPaid
      ensures r.Success? ==>
                OnOffer(old(Contents()), g, r.value, now) && registrations == old(registrations)
                && invitations == old(invitations)[i := Invitation(g, r.value, token, SENT, now + 7 * 24 * 60 * 60 * 1000, now)]
    {
      if g !in groups { return Failure(NotFound); }
      if headSeen == CANCELLED { return Failure(TeamCancelled); }
      if headSeen != CONFIRMED { return Failure(NotPaid); }
      var team := groups[g];
      var candidates := set id | id in registrations && registrations[id].group == Some(g)
                                 && registrations[id].userId == team.headUserId && id != team.headId;
      var taken := set j | j in invitations && invitations[j].registrationId in candidates
                           && invitations[j].status == SENT && invitations[j].expiresAt > now :: invitations[j].registrationId;
      assert candidates - taken == OpenSlots(old(Contents()), g, now);
      OpenIsOnOffer(Contents(), g, now);
      if candidates - taken == {} { return Failure(TeamFull); }
      var slot :| slot in candidates - taken;
      invitations := invitations[i := Invitation(g, slot, token, SENT, now + INVITATION_TTL, now)];
      issued := issued + {token};
      return Success(slot);
    }

    static lemma ExpiryChangesNoClaim(s: State, g: GroupId, now: Time)
      ensures var t := Apply(s, ExpireInvitations(g, now));
              forall i, userId :: i in s.invitations ==>
                i in t.invitations && (ClaimError(t, i, userId, now) == None <==> ClaimError(s, i, userId, now) == None)
    {
    }

    /** No invitation of the team is pending past its time any more; nothing but such an
        invitation's status has changed, so no token stops or starts to work. */
    method ExpireStaleInvitations(g: GroupId, now: Time)
      modifies this
      ensures Contents() == Apply(old(Contents()), ExpireInvitations(g, now))
      ensures forall i :: i in invitations && invitations[i].groupId == g && invitations[i].status == SENT ==>
                invitations[i].expiresAt >= now
      ensures forall i :: i in old(invitations) ==>
                i in invitations && (invitations[i] == old(invitations)[i]
                  || (old(invitations)[i].status == SENT && old(invitations)[i].expiresAt < now
                      && invitations[i] == old(invitations)[i].(status := EXPIRED)))
      ensures forall i, userId :: i in old(invitations) ==>
                (ClaimError(Contents(), i, userId, now) == None <==> ClaimError(old(Contents()), i, userId, now) == None)
    {
      ExpiryChangesNoClaim(Contents(), g, now);
      invitations := map i | i in invitations ::
        if invitations[i].groupId == g && invitations[i].status == SENT && invitations[i].expiresAt < now
        then invitations[i].(status := EXPIRED) else invitations[i];
    }

    /** `resendGroupInvitation`: checked on an earlier read, written unconditionally. */
    method ResendGroupInvitation(i: InvitationId, seen: Invitation, token: Token, now: Time) returns (r: Result<Time, Error>)
      requires i in invitations && token !in issued
      modifies this
      ensures match ResendError(seen, now)
              case Some(e) => r == Failure(e) && Contents() == old(Contents())
              case None => r.Success? && Contents() == Apply(old(Contents()), Resend(i, token, now))
      ensures r.Success? <==> seen.status == SENT && seen.lastSentAt + 60 * 1000 <= now
      ensures r.Failure? ==> r.error == if seen.status == SENT then ResendCooldown else NotPending
      ensures r.Success? ==>
                r.value == now + 7 * 24 * 60 * 60 * 1000 && registrations == old(registrations)
                && invitations == old(invitations)[i := old(invitations)[i].(token := token, expiresAt := r.value, lastSentAt := now)]
    {
      if seen.status != SENT { return Failure(NotPending); }
      if now - seen.lastSentAt < RESEND_COOLDOWN { return Failure(ResendCooldown); }
      var expiresAt := now + INVITATION_TTL;
      invitations := invitations[i := invitations[i].(token := token, expiresAt := expiresAt, lastSentAt := now)];
      issued := issued + {token};
      return Success(expiresAt);
    }

    /** `cancelGroupInvitation`: the write repeats the check of the earlier read. */
    method CancelGroupInvitation(i: InvitationId, seen: InvitationStatus) returns (r: Result<bool, Error>)
      requires i in invitations
      modifies this
      ensures r.Failure? <==> seen != SENT
      ensures Contents() == if r.Success? then Apply(old(Contents()), Withdraw(i)) else old(Contents())
      ensures invitations == if seen == SENT && old(invitations)[i].status == SENT
                             then old(invitations)[i := old(invitations)[i].(status := WITHDRAWN)] else old(invitations)
    {
      if seen != SENT { return Failure(NotPending); }
      if invitations[i].status == SENT { invitations := invitations[i := invitations[i].(status := WITHDRAWN)]; }
      return Success(true);
    }

    /** `releaseGroupSeat`. SeatInvariants.ReleaseNeverSucceeds shows the write is never reached. */
    method ReleaseGroupSeat(g: GroupId, id: RowId) returns (r: Result<bool, Error>)
      modifies this
      ensures match ReleaseError(old(Contents()), g, id)
              case Some(e) => r == Failure(e) && Contents() == old(Contents())
              case None => r.Success? && Contents() == Apply(old(Contents()), ReleaseSeat(g, id))
      ensures r.Success? <==>
                g in groups && id != groups[g].headId && id in old(registrations) && old(registrations)[id].group == Some(g)
                && old(registrations)[id].userId != groups[g].headUserId
                && old(registrations)[id].status in {PENDING, PAYMENT_PENDING}
      ensures r.Success? ==>
                registrations == old(registrations)[id := old(registrations)[id].(userId := groups[g].headUserId)]
    {
      if g !in groups { return Failure(NotFound); }
      if id == groups[g].headId { return Failure(CannotReleaseHead); }
      if id !in registrations || registrations[id].group != Some(g) { return Failure(NotFound); }
      if registrations[id].userId == groups[g].headUserId { return Failure(NotClaimed); }
      if !InFlight(registrations[id].status) { return Failure(AlreadyPaid); }
      registrations := registrations[id := registrations[id].(userId := groups[g].headUserId)];
      return Success(true);
    }

    /** `acceptGroupInvitation`. The column is unique, so the token names one invitation. */
    method AcceptGroupInvitation(token: Token, userId: UserId, now: Time) returns (r: Result<RowId, Error>)
      requires forall i, j :: i in invitations && j in invitations && invitations[i].token == invitations[j].token ==> i == j
      modifies this
      ensures (forall i :: i in old(invitations) ==> old(invitations)[i].token != token) ==>
                r == Failure(InvalidInvite) && Contents() == old(Contents())
      ensures forall i :: i in old(invitations) && old(invitations)[i].token == token ==>
                Accepted(old(Contents()), i, userId, now, r, Contents())
    {
      if forall i :: i in invitations ==> invitations[i].token != token { return Failure(InvalidInvite); }
      var i :| i in invitations && invitations[i].token == token;
      r := ClaimSlot(i, userId, now);
    }

    ghost predicate Accepted(before: State, i: InvitationId, userId: UserId, now: Time, r: Result<RowId, Error>, after: State)
      requires i in before.invitations
    {
      match AcceptError(before, i, userId, now)
      case Some(e) => r == Failure(e) && after == before
      case None => r == Success(before.invitations[i].registrationId) && after == Apply(before, Accept(i, userId, now))
    }

    /** The invitation is pending and not past its time, its slot is paid for and still in
        the head's name, and the user has no seat in the team and none for the pass. */
    ghost predicate MayClaim(i: InvitationId, userId: UserId, now: Time)
      reads this
      requires i in invitations
    {
      var inv := invitations[i];
      inv.status == SENT && now <= inv.expiresAt && inv.groupId in groups && inv.registrationId in registrations
      && registrations[inv.registrationId].userId == groups[inv.groupId].headUserId != userId
      && registrations[inv.registrationId].status == CONFIRMED
      && (forall id :: id in registrations && registrations[id].group == Some(inv.groupId) ==> registrations[id].userId != userId)
      && !HoldsSeat(registrations, userId, groups[inv.groupId].productId)
    }

    /** The rest of the transaction, once the invitation is found and locked. */
    method ClaimSlot(i: InvitationId, userId: UserId, now: Time) returns (r: Result<RowId, Error>)
      requires i in invitations
      modifies this
      ensures Accepted(old(Contents()), i, userId, now, r, Contents())
      ensures r.Success? <==> old(MayClaim(i, userId, now))
      ensures r.Failure? ==>
                var inv := old(invitations)[i];
                if inv.status != SENT || now > inv.expiresAt then r.error == InvalidInvite
                else if inv.groupId !in groups then r.error == NotFound
                else if groups[inv.groupId].headUserId == userId then r.error == IsHead
                else if inv.registrationId !in old(registrations) then r.error == NotFound
                else if old(registrations)[inv.registrationId].userId != groups[inv.groupId].headUserId then
                  r.error == InvalidInvite
                else if old(registrations)[inv.registrationId].status != CONFIRMED then
                  r.error == if old(registrations)[inv.registrationId].status == CANCELLED then TeamCancelled else NotPaid
                else r.error == AlreadyMember || r.error == AlreadyActive
      ensures r == Failure(AlreadyMember) ==>
                exists id :: id in old(registrations) && old(registrations)[id].group == Some(old(invitations)[i].groupId)
                          && old(registrations)[id].userId == userId
      ensures r == Failure(AlreadyActive) ==>
                old(invitations)[i].groupId in groups
                && HoldsSeat(old(registrations), userId, groups[old(invitations)[i].groupId].productId)
      ensures r.Success? ==>
                r.value == old(invitations)[i].registrationId
                && registrations == old(registrations)[r.value := old(registrations)[r.value].(userId := userId)]
                && invitations == old(invitations)[i := old(invitations)[i].(status := ACCEPTED)]
    {
      var inv := invitations[i];
      // an expired one is marked so and then rolled back by the throw
      if inv.status != SENT || inv.expiresAt < now { return Failure(InvalidInvite); }
      if inv.groupId !in groups { return Failure(NotFound); }
      var team := groups[inv.groupId];
      if userId == team.headUserId { return Failure(IsHead); }
      if inv.registrationId !in registrations { return Failure(NotFound); }
      var slot := registrations[inv.registrationId];
      if slot.userId != team.headUserId { return Failure(InvalidInvite); }
      if slot.status == CANCELLED { return Failure(TeamCancelled); }
      if slot.status != CONFIRMED { return Failure(NotPaid); }
      if exists id :: id in Slots(registrations, inv.groupId) && registrations[id].userId == userId {
        return Failure(AlreadyMember);
      }
      if HasActive(registrations, userId, team.productId) { return Failure(AlreadyActive); }
      registrations := registrations[inv.registrationId := slot.(userId := userId)];
      invitations := invitations[i := inv.(status := ACCEPTED)];
      spent := spent + {inv.token};
      return Success(inv.registrationId);
    }
  }
}
