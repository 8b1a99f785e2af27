/** Seat reservation (lib/actions/registration.ts) as interleaved transactions:
    taking each row lock, counting under it, inserting, committing and the order call
    are separate steps of any number of concurrent solo and team calls. Everything
    else that touches a registration appears as a step of its own. */
module ReservationProtocol {
  import opened Common

  type UserId = string
  type MunId = string
  type Key = string
  type RowId = nat
  type Pid = nat

  /** A row whose lock guards a capacity. */
  datatype Resource = Pass(id: string) | Committee(id: string) | Portfolio(id: string) | Room(id: string)

  datatype Status = PENDING | PAYMENT_PENDING | CONFIRMED | ATTENDED | NO_SHOW | CANCELLED | REFUNDED

  /** A registration. `bornKey` is history: the idempotency key it was created with. */
  datatype Row = Row(userId: UserId, munId: MunId, pass: string, extras: set<Resource>, status: Status,
                     key: Option<Key>, bornKey: Option<Key>, group: Option<Pid>)

  /** What a call asks for. A team call asks for several seats and no extras. */
  datatype Request = Request(userId: UserId, munId: MunId, pass: string, extras: seq<Resource>, seats: nat, isGroup: bool,
                             key: Option<Key>)

  datatype Outcome =
    | Created(head: RowId)
    | OrderFailed(head: RowId)  // "no seat was held, please try again"
    | Replayed(id: RowId)
    | Refused                   // the key was used for something else
    | Failed                    // at capacity, already registered, closed, crashed ...

  datatype Call =
    | Started(req: Request)
    | Waiting(req: Request, n: nat)  // in the transaction; the first n locks are held and counted
    | Locked(req: Request, n: nat)   // lock n is held too, not yet counted
    | Inserted(req: Request, ids: set<RowId>, head: RowId, free: bool)  // not yet committed
    | Violated(req: Request)         // the insert tripped the unique index
    | AwaitingOrder(req: Request, ids: set<RowId>, head: RowId)
    | Done(req: Request, outcome: Outcome)

  /** Committed rows, row locks, calls, and every row id handed out so far. */
  datatype State = State(rows: map<RowId, Row>, locks: map<Resource, Pid>, calls: map<Pid, Call>, usedIds: set<RowId>)

  const START := State(map[], map[], map[], {})

  // ---------------------------------------------------------------------------
  // Requests, rows and counts
  // ---------------------------------------------------------------------------

  predicate IsActive(s: Status) {
    s == PENDING || s == PAYMENT_PENDING || s == CONFIRMED || s == ATTENDED || s == NO_SHOW
  }

  function Rank(r: Resource): nat {
    match r
    case Pass(_) => 0
    case Committee(_) => 1
    case Portfolio(_) => 2
    case Room(_) => 3
  }

  /** The locks of a call, in the order it takes them. */
  function Resources(req: Request): seq<Resource> {
    [Pass(req.pass)] + req.extras
  }

  /** At most one committee, portfolio and room, locked in that order. */
  predicate WellFormed(req: Request) {
    (forall i, j :: 0 <= i < j < |Resources(req)| ==> Rank(Resources(req)[i]) < Rank(Resources(req)[j]))
    && (if req.isGroup then 2 <= req.seats <= 20 && req.extras == [] else req.seats == 1)
  }

  predicate Uses(row: Row, r: Resource) {
    r == Pass(row.pass) || r in row.extras
  }

  function TakenBy(rows: map<RowId, Row>, r: Resource): set<RowId> {
    set id | id in rows && IsActive(rows[id].status) && Uses(rows[id], r)
  }

  function Taken(rows: map<RowId, Row>, r: Resource): nat {
    |TakenBy(rows, r)|
  }

  predicate HasKey(row: Row, userId: UserId, key: Option<Key>) {
    key.Some? && row.userId == userId && row.key == key
  }

  /** What `findByIdempotencyKey` returns. */
  predicate Finds(rows: map<RowId, Row>, req: Request, found: Option<RowId>) {
    match found
    case Some(id) => id in rows && HasKey(rows[id], req.userId, req.key)
    case None => forall id :: id in rows ==> !HasKey(rows[id], req.userId, req.key)
  }

  /** A team call accepts any registration that belongs to a team, whatever its pass;
      a solo call any registration for the same MUN and pass, team or not. */
  function Replay(req: Request, id: RowId, row: Row): Outcome {
    if req.isGroup then (if row.group.Some? then Replayed(id) else Refused)
    else if row.munId == req.munId && row.pass == req.pass then Replayed(id)
    else Refused
  }

  predicate AlreadyActive(rows: map<RowId, Row>, req: Request) {
    exists id :: id in rows && rows[id].userId == req.userId && rows[id].pass == req.pass && IsActive(rows[id].status)
  }

  function NewRow(p: Pid, c: Call, id: RowId): Row
    requires c.Inserted?
  {
    var req, key := c.req, if id == c.head then c.req.key else None;
    Row(req.userId, req.munId, req.pass, set r | r in req.extras, if c.free then CONFIRMED else PENDING, key, key,
        if req.isGroup then Some(p) else None)
  }

  // ---------------------------------------------------------------------------
  // Steps
  // ---------------------------------------------------------------------------

  datatype Action =
    | Begin(p: Pid, req: Request)
    | Lookup(p: Pid, found: Option<RowId>)
    | LockNext(p: Pid)
    | Count(p: Pid, found: Option<RowId>)
    | Insert(p: Pid, ids: set<RowId>, head: RowId, free: bool)
    | Commit(p: Pid)
    | Abort(p: Pid)
    | Recover(p: Pid, found: Option<RowId>)
    | FailOrder(p: Pid)
    | AttachOrder(p: Pid)
    | MoveStatus(id: RowId, to: Status)   // sweep, webhook, check-in, attendance, cancellation, account deletion
    | Claim(id: RowId, userId: UserId)    // a teammate accepts a team slot

  /** Status changes made outside this protocol. None brings a seat back. */
  predicate OutsideMove(from: Status, to: Status) {
    match from
    case PENDING => to == CANCELLED
    case PAYMENT_PENDING => to == CANCELLED || to == CONFIRMED
    case CONFIRMED => to == ATTENDED || to == NO_SHOW || to == CANCELLED || to == REFUNDED
    case ATTENDED => to == NO_SHOW || to == CANCELLED || to == REFUNDED
    case NO_SHOW => to == ATTENDED || to == CANCELLED || to == REFUNDED
    case _ => false
  }

  predicate InTransaction(c: Call) {
    c.Waiting? || c.Locked? || c.Inserted?
  }

  ghost predicate KeyInFlight(s: State, req: Request) {
    exists q :: q in s.calls && s.calls[q].Inserted? && s.calls[q].req.userId == req.userId
             && req.key.Some? && s.calls[q].req.key == req.key
  }

  ghost predicate Enabled(s: State, a: Action) {
    match a
    case Begin(p, req) => p !in s.calls && WellFormed(req)
    case Lookup(p, found) => p in s.calls && s.calls[p].Started? && Finds(s.rows, s.calls[p].req, found)
    case LockNext(p) =>
      p in s.calls && s.calls[p].Waiting? && s.calls[p].n < |Resources(s.calls[p].req)|
      && Resources(s.calls[p].req)[s.calls[p].n] !in s.locks
    case Count(p, found) =>
      p in s.calls && s.calls[p].Locked? && s.calls[p].n < |Resources(s.calls[p].req)| && Finds(s.rows, s.calls[p].req, found)
    case Insert(p, ids, head, _) =>
      // a row with this key inserted but not committed elsewhere makes the insert wait
      p in s.calls && s.calls[p].Waiting? && s.calls[p].n == |Resources(s.calls[p].req)|
      && |ids| == s.calls[p].req.seats && head in ids && ids !! s.usedIds && !KeyInFlight(s, s.calls[p].req)
    case Commit(p) => p in s.calls && s.calls[p].Inserted?
    case Abort(p) => p in s.calls && InTransaction(s.calls[p])
    case Recover(p, found) => p in s.calls && s.calls[p].Violated? && Finds(s.rows, s.calls[p].req, found)
    case FailOrder(p) => p in s.calls && s.calls[p].AwaitingOrder?
    case AttachOrder(p) => p in s.calls && s.calls[p].AwaitingOrder?
    case MoveStatus(id, to) => id in s.rows && OutsideMove(s.rows[id].status, to)
    case Claim(id, _) => id in s.rows && s.rows[id].group.Some? && s.rows[id].key == None && s.rows[id].bornKey == None
  }

  function Released(locks: map<Resource, Pid>, p: Pid): map<Resource, Pid> {
    map r | r in locks && locks[r] != p :: locks[r]
  }

  /** The rows of a call that still are PENDING. */
  function StillPending(rows: map<RowId, Row>, ids: set<RowId>): set<RowId> {
    set id | id in ids && id in rows && rows[id].status == PENDING
  }

  function Settled(rows: map<RowId, Row>, ids: set<RowId>, to: Status, clearKey: bool): map<RowId, Row> {
    map id | id in rows ::
      if id in StillPending(rows, ids) then rows[id].(status := to, key := if clearKey then None else rows[id].key)
      else rows[id]
  }

  function Answer(rows: map<RowId, Row>, req: Request, found: Option<RowId>, otherwise: Call): Call
    requires Finds(rows, req, found)
  {
    if found.Some? then Done(req, Replay(req, found.value, rows[found.value])) else otherwise
  }

  predicate HasRoom(cap: map<Resource, nat>, rows: map<RowId, Row>, r: Resource, seats: nat) {
    r in cap && Taken(rows, r) + seats <= cap[r]
  }

  function PidOf(a: Action): Option<Pid> {
    if a.MoveStatus? || a.Claim? then None else Some(a.p)
  }

  /** Where the acting call is after the step. */
  ghost function CallAfter(cap: map<Resource, nat>, s: State, a: Action): Call
    requires Enabled(s, a) && PidOf(a).Some?
  {
    match a
    case Begin(p, req) => Started(req)
    case Lookup(p, found) => Answer(s.rows, s.calls[p].req, found, Waiting(s.calls[p].req, 0))
    case LockNext(p) => Locked(s.calls[p].req, s.calls[p].n)
    case Count(p, found) =>
      var c := s.calls[p];
      if c.n == 0 && found.Some? then Answer(s.rows, c.req, found, c)
      else if c.n == 0 && AlreadyActive(s.rows, c.req) then Done(c.req, Failed)
      else if !HasRoom(cap, s.rows, Resources(c.req)[c.n], c.req.seats) then Done(c.req, Failed)
      else Waiting(c.req, c.n + 1)
    case Insert(p, ids, head, free) =>
      var req := s.calls[p].req;
      if exists id :: id in s.rows && HasKey(s.rows[id], req.userId, req.key) then Violated(req)
      else Inserted(req, ids, head, free)
    case Commit(p) =>
      var c := s.calls[p];
      if c.free then Done(c.req, Created(c.head)) else AwaitingOrder(c.req, c.ids, c.head)
    case Abort(p) => Done(s.calls[p].req, Failed)
    case Recover(p, found) => Answer(s.rows, s.calls[p].req, found, Done(s.calls[p].req, Failed))
    case FailOrder(p) => Done(s.calls[p].req, OrderFailed(s.calls[p].head))
    case AttachOrder(p) => Done(s.calls[p].req, Created(s.calls[p].head))
  }

  /** The inserted rows become visible. */
  function Committed(rows: map<RowId, Row>, p: Pid, c: Call): map<RowId, Row>
    requires c.Inserted?
  {
    map id | id in rows.Keys + c.ids :: if id in c.ids then NewRow(p, c, id) else rows[id]
  }

  /** The committed rows after the step. */
  ghost function RowsAfter(s: State, a: Action): map<RowId, Row>
    requires Enabled(s, a)
  {
    match a
    case Commit(p) => Committed(s.rows, p, s.calls[p])
    case FailOrder(p) => Settled(s.rows, s.calls[p].ids, CANCELLED, true)
    case AttachOrder(p) => Settled(s.rows, s.calls[p].ids, PAYMENT_PENDING, false)
    case MoveStatus(id, to) => s.rows[id := s.rows[id].(status := to)]
    case Claim(id, userId) => s.rows[id := s.rows[id].(userId := userId)]
    case _ => s.rows
  }

  /** A call that leaves its transaction gives its locks back. */
  ghost function LocksAfter(s: State, a: Action, after: Call): map<Resource, Pid>
    requires Enabled(s, a) && PidOf(a).Some?
  {
    if a.LockNext? then s.locks[Resources(s.calls[a.p].req)[s.calls[a.p].n] := a.p]
    else if InTransaction(after) then s.locks
    else Released(s.locks, a.p)
  }

  ghost function Apply(cap: map<Resource, nat>, s: State, a: Action): State
    requires Enabled(s, a)
  {
    if PidOf(a) == None then s.(rows := RowsAfter(s, a))
    else
      var after := CallAfter(cap, s, a);
      State(RowsAfter(s, a), LocksAfter(s, a, after), s.calls[a.p := after],
            if a.Insert? && after.Inserted? then s.usedIds + a.ids else s.usedIds)
  }

  ghost predicate IsRun(cap: map<Resource, nat>, states: seq<State>, actions: seq<Action>) {
    |states| == |actions| + 1 && states[0] == START &&
    forall i :: 0 <= i < |actions| ==> Enabled(states[i], actions[i]) && states[i + 1] == Apply(cap, states[i], actions[i])
  }
}
