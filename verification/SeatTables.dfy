/** The seat tables and the transactions that write them (lib/actions/registration.ts,
    lib/actions/registration-group.ts, lib/payments/webhook.ts,
    lib/actions/account-deletion.ts, lib/actions/admin-review.ts): each transaction is
    one step here. Their interleaving under row locks, the idempotency keys and the
    other capacities are the subject of ReservationProtocol. */
module SeatTables {
  import opened Common

  type UserId = string
  type MunId = string
  type ProductId = string
  type Token = string  // as stored: the hash
  type RowId = nat
  type GroupId = nat
  type InvitationId = nat
  type Pid = nat
  type Time = int      // milliseconds

  const RESERVATION_TTL := 15 * 60 * 1000
  const INVITATION_TTL := 7 * 24 * 60 * 60 * 1000
  const RESEND_COOLDOWN := 60 * 1000
  const GROUP_MIN_SIZE := 2
  const GROUP_MAX_SIZE := 20

  datatype Status = PENDING | PAYMENT_PENDING | CONFIRMED | ATTENDED | NO_SHOW | CANCELLED | REFUNDED

  /** A seat; `expiresAt` is null on a free one. */
  datatype Registration = Registration(userId: UserId, munId: MunId, productId: ProductId, status: Status,
                                       expiresAt: Option<Time>, group: Option<GroupId>)

  datatype Group = Group(headUserId: UserId, headId: RowId, munId: MunId, productId: ProductId, teamSize: nat)

  /** The source's PENDING and CANCELLED are SENT and WITHDRAWN here. */
  datatype InvitationStatus = SENT | ACCEPTED | EXPIRED | WITHDRAWN

  datatype Invitation = Invitation(groupId: GroupId, registrationId: RowId, token: Token, status: InvitationStatus,
                                   expiresAt: Time, lastSentAt: Time)

  datatype PaymentStatus = DUE | PAID | FAILED

  /** `flagged` is a payment exception, open or resolved. A registration has at most one payment. */
  datatype Payment = Payment(status: PaymentStatus, flagged: bool)

  /** A provider event: whether the charge is the amount asked for, and whether it is
      the payment already on file. */
  datatype PaymentEvent = PaymentFailed | PaymentCaptured(amountMatches: bool, samePayment: bool, capturedAt: Time)

  datatype Scope = OfProduct(productId: ProductId) | OfMun(munId: MunId)

  /** A sweep that has read its rows and not yet written them. */
  datatype Sweep = Sweep(ids: set<RowId>, now: Time)

  /** The four tables; then the calls between two transactions (order calls, sweeps);
      then history: tokens issued and accepted, seats cancelled by an admin. */
  datatype State = State(
    registrations: map<RowId, Registration>, groups: map<GroupId, Group>, invitations: map<InvitationId, Invitation>,
    payments: map<RowId, Payment>, checkouts: set<RowId>, sweeps: map<Pid, Sweep>,
    issued: set<Token>, spent: set<Token>, cancelledByAdmin: set<RowId>)

  const START := State(map[], map[], map[], map[], {}, map[], {}, {}, {})

  datatype Error = AlreadyActive | AtCapacity | GroupSizeInvalid | NotFound | TeamCancelled | NotPaid | TeamFull
                 | InvalidInvite | IsHead | AlreadyMember | ResendCooldown | NotPending | CannotReleaseHead
                 | NotClaimed | AlreadyPaid | AlreadyCancelled | NotSeated | AttendanceClosed | HasAward

  // ---------------------------------------------------------------------------
  // Rows
  // ---------------------------------------------------------------------------

  predicate InFlight(s: Status) {
    s == PENDING || s == PAYMENT_PENDING
  }

  predicate Seated(s: Status) {
    s == CONFIRMED || s == ATTENDED || s == NO_SHOW
  }

  predicate IsActive(s: Status) {
    InFlight(s) || Seated(s)
  }

  function ActiveIn(rows: map<RowId, Registration>, productId: ProductId): set<RowId> {
    set id | id in rows && rows[id].productId == productId && IsActive(rows[id].status)
  }

  predicate HasActive(rows: map<RowId, Registration>, userId: UserId, productId: ProductId) {
    exists id :: id in ActiveIn(rows, productId) && rows[id].userId == userId
  }

  function Slots(rows: map<RowId, Registration>, g: GroupId): set<RowId> {
    set id | id in rows && rows[id].group == Some(g)
  }

  /** `memberScope`: the whole team, or the one solo row. */
  function Members(rows: map<RowId, Registration>, id: RowId): set<RowId>
    requires id in rows
  {
    if rows[id].group.Some? then Slots(rows, rows[id].group.value) else {id}
  }

  function WithStatus(rows: map<RowId, Registration>, ids: set<RowId>, status: Status): set<RowId> {
    set id | id in ids && id in rows && rows[id].status == status
  }

  predicate HoldExpired(row: Registration, now: Time) {
    InFlight(row.status) && row.expiresAt.Some? && row.expiresAt.value < now
  }

  predicate InScope(row: Registration, scope: Scope) {
    match scope
    case OfProduct(p) => row.productId == p
    case OfMun(m) => row.munId == m
  }

  /** UPDATE registrations SET status WHERE id IN ids. */
  function Moved(rows: map<RowId, Registration>, ids: set<RowId>, to: Status): map<RowId, Registration> {
    map id | id in rows :: if id in ids then rows[id].(status := to) else rows[id]
  }

  /** Slots an invitation may go to: still the head's, and without a live invitation. */
  function OpenSlots(s: State, g: GroupId, now: Time): set<RowId>
    requires g in s.groups
  {
    set id | id in s.registrations && s.registrations[id].group == Some(g)
             && s.registrations[id].userId == s.groups[g].headUserId && id != s.groups[g].headId
             && !exists i :: i in s.invitations && s.invitations[i].registrationId == id
                             && s.invitations[i].status == SENT && s.invitations[i].expiresAt > now
  }

  // ---------------------------------------------------------------------------
  // Checks, in the order the source makes them
  // ---------------------------------------------------------------------------

  function ReserveError(s: State, userId: UserId, productId: ProductId, seats: nat, capacity: nat): Option<Error> {
    if HasActive(s.registrations, userId, productId) then Some(AlreadyActive)
    else if |ActiveIn(s.registrations, productId)| + seats > capacity then Some(AtCapacity)
    else None
  }

  function InviteError(s: State, g: GroupId, now: Time, headSeen: Status): Option<Error> {
    if g !in s.groups then Some(NotFound)
    else if headSeen == CANCELLED then Some(TeamCancelled)
    else if headSeen != CONFIRMED then Some(NotPaid)
    else if OpenSlots(s, g, now) == {} then Some(TeamFull)
    else None
  }

  function ResendError(seen: Invitation, now: Time): Option<Error> {
    if seen.status != SENT then Some(NotPending)
    else if now - seen.lastSentAt < RESEND_COOLDOWN then Some(ResendCooldown)
    else None
  }

  /** Acceptance's checks on the two rows it locks, the invitation and its slot. */
  function ClaimError(s: State, i: InvitationId, userId: UserId, now: Time): Option<Error>
    requires i in s.invitations
  {
    var inv := s.invitations[i];
    if inv.status != SENT || inv.expiresAt < now then Some(InvalidInvite)
    else if inv.groupId !in s.groups then Some(NotFound)
    else
      var team := s.groups[inv.groupId];
      if userId == team.headUserId then Some(IsHead)
      else if inv.registrationId !in s.registrations then Some(NotFound)
      else
        var slot := s.registrations[inv.registrationId];
        if slot.userId != team.headUserId then Some(InvalidInvite)
        else if slot.status == CANCELLED then Some(TeamCancelled)
        else if slot.status != CONFIRMED then Some(NotPaid)
        else None
  }

  /** All of its checks: those, and then two on rows it does not lock. */
  function AcceptError(s: State, i: InvitationId, userId: UserId, now: Time): Option<Error>
    requires i in s.invitations
  {
    var inv, refused := s.invitations[i], ClaimError(s, i, userId, now);
    if refused.Some? then refused
    else if exists id :: id in Slots(s.registrations, inv.groupId) && s.registrations[id].userId == userId
      then Some(AlreadyMember)
    else if HasActive(s.registrations, userId, s.groups[inv.groupId].productId) then Some(AlreadyActive)
    else None
  }

  function ReleaseError(s: State, g: GroupId, id: RowId): Option<Error> {
    if g !in s.groups then Some(NotFound)
    else if id == s.groups[g].headId then Some(CannotReleaseHead)
    else if id !in s.registrations || s.registrations[id].group != Some(g) then Some(NotFound)
    else if s.registrations[id].userId == s.groups[g].headUserId then Some(NotClaimed)
    else if !InFlight(s.registrations[id].status) then Some(AlreadyPaid)
    else None
  }

  /** Marking a delegate with the status it has already is no error, whatever else. */
  function AttendanceError(s: State, munId: MunId, id: RowId, status: Status, open: bool, awarded: bool): Option<Error> {
    if !open then Some(AttendanceClosed)
    else if id !in s.registrations || s.registrations[id].munId != munId then Some(NotFound)
    else if !Seated(s.registrations[id].status) then Some(NotSeated)
    else if status == NO_SHOW && awarded && s.registrations[id].status != NO_SHOW then Some(HasAward)
    else None
  }

  /** Whether a provider event settles the seats of an order, one way or the other. */
  predicate Settles(s: State, id: RowId, event: PaymentEvent)
    requires id in s.payments && id in s.registrations
  {
    s.payments[id].status != PAID
    && (event.PaymentCaptured? ==> event.amountMatches && s.registrations[id].status == PAYMENT_PENDING)
  }

  /** Judged by when the money moved, not by when the sweep ran. */
  predicate InTime(row: Registration, event: PaymentEvent) {
    event.PaymentCaptured? && !HoldExpired(row, event.capturedAt)
  }

  function PaymentAfterEvent(s: State, id: RowId, event: PaymentEvent): Payment
    requires id in s.payments && id in s.registrations
  {
    var p, row := s.payments[id], s.registrations[id];
    match event
    case PaymentFailed => if p.status == PAID then p else p.(status := FAILED)
    case PaymentCaptured(amountMatches, samePayment, _) =>
      if p.status == PAID then (if samePayment then p else p.(flagged := true))
      else if !amountMatches then p.(flagged := true)
      else if row.status == PAYMENT_PENDING && InTime(row, event) then p.(status := PAID)
      else Payment(PAID, true)
  }

  // ---------------------------------------------------------------------------
  // Steps
  // ---------------------------------------------------------------------------

  datatype Action =
    | Reserve(id: RowId, userId: UserId, munId: MunId, productId: ProductId, capacity: nat, free: bool, now: Time)
    | ReserveTeam(g: GroupId, ids: set<RowId>, headId: RowId, userId: UserId, munId: MunId, productId: ProductId,
                  capacity: nat, free: bool, now: Time)
    | FailOrder(id: RowId)
    | AttachOrder(id: RowId)
    | Settle(id: RowId, event: PaymentEvent)
    | ReadExpired(pid: Pid, scope: Scope, now: Time)
    | CancelExpired(pid: Pid)
    | ReleaseWithStatus(status: Status, now: Time)  // the scheduled job, once per status
    | Attend(id: RowId, status: Status)
    | CancelAsAdmin(id: RowId)
    | DeleteAccount(userId: UserId)
    | CancelMun(munId: MunId)
    | Invite(i: InvitationId, g: GroupId, slot: RowId, token: Token, now: Time)
    | ExpireInvitations(g: GroupId, now: Time)
    | Resend(i: InvitationId, token: Token, now: Time)  // its check ran earlier: the invitation may be in any state
    | Withdraw(i: InvitationId)
    | Accept(i: InvitationId, userId: UserId, now: Time)  // its writes; only the locked rows still are as checked
    | ReleaseSeat(g: GroupId, id: RowId)

  predicate Enabled(s: State, a: Action) {
    match a
    case Reserve(id, userId, _, productId, capacity, _, _) =>
      id !in s.registrations && ReserveError(s, userId, productId, 1, capacity) == None
    case ReserveTeam(g, ids, headId, userId, _, productId, capacity, _, _) =>
      g !in s.groups && ids !! s.registrations.Keys && headId in ids && GROUP_MIN_SIZE <= |ids| <= GROUP_MAX_SIZE
      && ReserveError(s, userId, productId, |ids|, capacity) == None
    case FailOrder(id) => id in s.checkouts && id in s.registrations
    case AttachOrder(id) => id in s.checkouts && id in s.registrations
    case Settle(id, _) => id in s.payments && id in s.registrations
    case ReadExpired(pid, _, _) => pid !in s.sweeps
    case CancelExpired(pid) => pid in s.sweeps
    case ReleaseWithStatus(status, _) => InFlight(status)
    case Attend(id, status) =>
      id in s.registrations && Seated(s.registrations[id].status) && (status == ATTENDED || status == NO_SHOW)
    case CancelAsAdmin(id) => id in s.registrations && IsActive(s.registrations[id].status)
    case DeleteAccount(_) => true
    case CancelMun(_) => true
    case Invite(i, g, slot, token, now) =>
      i !in s.invitations && token !in s.issued && g in s.groups && slot in OpenSlots(s, g, now)
    case ExpireInvitations(_, _) => true
    case Resend(i, token, _) => i in s.invitations && token !in s.issued
    case Withdraw(i) => i in s.invitations
    case Accept(i, userId, now) => i in s.invitations && ClaimError(s, i, userId, now) == None
    case ReleaseSeat(g, id) => ReleaseError(s, g, id) == None
  }

  /** The rows a step moves to another status, and that status. */
  function MovedIds(s: State, a: Action): set<RowId>
    requires Enabled(s, a)
  {
    match a
    case FailOrder(id) => WithStatus(s.registrations, Members(s.registrations, id), PENDING)
    case AttachOrder(id) => WithStatus(s.registrations, Members(s.registrations, id), PENDING)
    case Settle(id, event) =>
      if Settles(s, id, event) then WithStatus(s.registrations, Members(s.registrations, id), PAYMENT_PENDING) else {}
    case CancelExpired(pid) =>
      set id | id in s.sweeps[pid].ids && id in s.registrations && HoldExpired(s.registrations[id], s.sweeps[pid].now)
    case ReleaseWithStatus(status, now) =>
      set id | id in s.registrations && s.registrations[id].status == status && HoldExpired(s.registrations[id], now)
    case Attend(id, _) => {id}
    case CancelAsAdmin(id) => {id}
    case DeleteAccount(userId) =>
      set id | id in s.registrations && s.registrations[id].userId == userId && InFlight(s.registrations[id].status)
    case CancelMun(munId) =>
      set id | id in s.registrations && s.registrations[id].munId == munId && InFlight(s.registrations[id].status)
    case _ => {}
  }

  function MovedTo(s: State, a: Action): Status
    requires Enabled(s, a)
  {
    match a
    case AttachOrder(_) => PAYMENT_PENDING
    case Settle(id, event) => if InTime(s.registrations[id], event) then CONFIRMED else CANCELLED
    case Attend(_, status) => status
    case _ => CANCELLED
  }

  function NewSeat(userId: UserId, munId: MunId, productId: ProductId, free: bool, now: Time, group: Option<GroupId>)
    : Registration
  {
    if free then Registration(userId, munId, productId, CONFIRMED, None, group)
    else Registration(userId, munId, productId, PENDING, Some(now + RESERVATION_TTL), group)
  }

  function RegistrationsAfter(s: State, a: Action): map<RowId, Registration>
    requires Enabled(s, a)
  {
    match a
    case Reserve(id, userId, munId, productId, _, free, now) =>
      s.registrations[id := NewSeat(userId, munId, productId, free, now, None)]
    case ReserveTeam(g, ids, _, userId, munId, productId, _, free, now) =>
      s.registrations + map id | id in ids :: NewSeat(userId, munId, productId, free, now, Some(g))
    case Accept(i, userId, _) =>
      var slot := s.invitations[i].registrationId;
      s.registrations[slot := s.registrations[slot].(userId := userId)]
    case ReleaseSeat(g, id) => s.registrations[id := s.registrations[id].(userId := s.groups[g].headUserId)]
    case _ => Moved(s.registrations, MovedIds(s, a), MovedTo(s, a))
  }

  function GroupsAfter(s: State, a: Action): map<GroupId, Group> {
    if a.ReserveTeam? then s.groups[a.g := Group(a.userId, a.headId, a.munId, a.productId, |a.ids|)] else s.groups
  }

  function InvitationsAfter(s: State, a: Action): map<InvitationId, Invitation>
    requires Enabled(s, a)
  {
    match a
    case Invite(i, g, slot, token, now) =>
      s.invitations[i := Invitation(g, slot, token, SENT, now + INVITATION_TTL, now)]
    case ExpireInvitations(g, now) =>
      map i | i in s.invitations ::
        if s.invitations[i].groupId == g && s.invitations[i].status == SENT && s.invitations[i].expiresAt < now
        then s.invitations[i].(status := EXPIRED) else s.invitations[i]
    case Resend(i, token, now) =>
      s.invitations[i := s.invitations[i].(token := token, expiresAt := now + INVITATION_TTL, lastSentAt := now)]
    case Withdraw(i) =>
      if s.invitations[i].status == SENT then s.invitations[i := s.invitations[i].(status := WITHDRAWN)]
      else s.invitations
    case Accept(i, _, _) => s.invitations[i := s.invitations[i].(status := ACCEPTED)]
    case _ => s.invitations
  }

  function PaymentsAfter(s: State, a: Action): map<RowId, Payment>
    requires Enabled(s, a)
  {
    match a
    case AttachOrder(id) => s.payments[id := Payment(DUE, false)]
    case Settle(id, event) => s.payments[id := PaymentAfterEvent(s, id, event)]
    case _ => s.payments
  }

  function CheckoutsAfter(s: State, a: Action): set<RowId> {
    match a
    case Reserve(id, _, _, _, _, free, _) => if free then s.checkouts else s.checkouts + {id}
    case ReserveTeam(_, _, headId, _, _, _, _, free, _) => if free then s.checkouts else s.checkouts + {headId}
    case FailOrder(id) => s.checkouts - {id}
    case AttachOrder(id) => s.checkouts - {id}
    case _ => s.checkouts
  }

  function SweepsAfter(s: State, a: Action): map<Pid, Sweep> {
    match a
    case ReadExpired(pid, scope, now) =>
      s.sweeps[pid := Sweep(ExpiredIn(s.registrations, scope, now), now)]
    case CancelExpired(pid) => s.sweeps - {pid}
    case _ => s.sweeps
  }

  function ExpiredIn(rows: map<RowId, Registration>, scope: Scope, now: Time): set<RowId> {
    set id | id in rows && InScope(rows[id], scope) && HoldExpired(rows[id], now)
  }

  function Apply(s: State, a: Action): State
    requires Enabled(s, a)
  {
    State(RegistrationsAfter(s, a), GroupsAfter(s, a), InvitationsAfter(s, a), PaymentsAfter(s, a),
          CheckoutsAfter(s, a), SweepsAfter(s, a),
          if a.Invite? || a.Resend? then s.issued + {a.token} else s.issued,
          if a.Accept? then s.spent + {s.invitations[a.i].token} else s.spent,
          if a.CancelAsAdmin? then s.cancelledByAdmin + {a.id} else s.cancelledByAdmin)
  }

  ghost predicate IsRun(states: seq<State>, actions: seq<Action>) {
    |states| == |actions| + 1 && states[0] == START &&
    forall n :: 0 <= n < |actions| ==> Enabled(states[n], actions[n]) && states[n + 1] == Apply(states[n], actions[n])
  }
}
