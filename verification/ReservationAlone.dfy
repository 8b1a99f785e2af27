/** A reservation that nobody interrupts: step by step it is the simple transaction that
    the interleaved protocol has to refine. */
module ReservationAlone {
  import opened Common
  import opened ReservationProtocol
  import opened ReservationKeys

  type Capacities = map<Resource, nat>

  // ---------------------------------------------------------------------------
  // The simple transaction
  // ---------------------------------------------------------------------------

  /** The statuses that take a seat: all but the last two. */
  ghost predicate TakesSeat(row: Row) {
    row.status != CANCELLED && row.status != REFUNDED
  }

  ghost predicate HasSeat(rows: map<RowId, Row>, userId: UserId, pass: string) {
    exists id :: id in rows && rows[id].userId == userId && rows[id].pass == pass && TakesSeat(rows[id])
  }

  ghost predicate Fits(cap: Capacities, rows: map<RowId, Row>, r: Resource, seats: nat) {
    r in cap && |set id | id in rows && TakesSeat(rows[id]) && (r == Pass(rows[id].pass) || r in rows[id].extras)| + seats <= cap[r]
  }

  /** One seat for a solo call, with its choices; a team call's seats are all alike but
      for the head's, which bears the key. */
  ghost function Seat(p: Pid, req: Request, status: Status, key: Option<Key>, bornKey: Option<Key>): Row {
    Row(req.userId, req.munId, req.pass, (set r | r in req.extras), status, key, bornKey, if req.isGroup then Some(p) else None)
  }

  /** How the order call after the transaction goes; a free seat needs none. */
  datatype Payment = Free | OrderMade | OrderFailed

  ghost function Seats(p: Pid, req: Request, ids: set<RowId>, head: RowId, payment: Payment): map<RowId, Row> {
    map id | id in ids ::
      var key := if id == head then req.key else None;
      match payment
      case Free => Seat(p, req, CONFIRMED, key, key)
      case OrderMade => Seat(p, req, PAYMENT_PENDING, key, key)
      case OrderFailed => Seat(p, req, CANCELLED, None, key)
  }

  /** The answer, and the registrations afterwards. */
  ghost function Reserve(cap: Capacities, rows: map<RowId, Row>, p: Pid, req: Request, found: Option<RowId>, ids: set<RowId>,
                         head: RowId, payment: Payment): (Outcome, map<RowId, Row>)
    requires Finds(rows, req, found)
  {
    if found.Some? then (if IsAskedFor(req, rows[found.value]) then Replayed(found.value) else Refused, rows)
    else if HasSeat(rows, req.userId, req.pass) then (Failed, rows)
    else if exists r :: r in Resources(req) && !Fits(cap, rows, r, req.seats) then (Failed, rows)
    else (if payment.OrderFailed? then Outcome.OrderFailed(head) else Created(head), rows + Seats(p, req, ids, head, payment))
  }

  // ---------------------------------------------------------------------------
  // Steps in a row
  // ---------------------------------------------------------------------------

  ghost predicate Leads(cap: Capacities, s: State, actions: seq<Action>, t: State)
    decreases |actions|
  {
    if actions == [] then s == t
    else Enabled(s, actions[0]) && Leads(cap, Apply(cap, s, actions[0]), actions[1..], t)
  }

  lemma {:induction false} LeadsOn(cap: Capacities, s: State, first: seq<Action>, middle: State, more: seq<Action>, t: State)
    requires Leads(cap, s, first, middle) && Leads(cap, middle, more, t)
    ensures Leads(cap, s, first + more, t)
    decreases |first|
  {
    if first == [] {
      assert first + more == more;
    } else {
      assert (first + more)[1..] == first[1..] + more;
      LeadsOn(cap, Apply(cap, s, first[0]), first[1..], middle, more, t);
    }
  }

  lemma LeadsOneMore(cap: Capacities, s: State, first: seq<Action>, middle: State, a: Action)
    requires Leads(cap, s, first, middle) && Enabled(middle, a)
    ensures Leads(cap, s, first + [a], Apply(cap, middle, a))
  {
    assert [a][1..] == [];
    LeadsOn(cap, s, first, middle, [a], Apply(cap, middle, a));
  }

  // ---------------------------------------------------------------------------
  // The transaction's steps
  // ---------------------------------------------------------------------------

  /** The call is in its transaction, with `n` locks taken and the others free. */
  ghost predicate Proceeds(s: State, p: Pid, req: Request, n: nat) {
    p in s.calls && s.calls[p] == Waiting(req, n) && WellFormed(req) && n <= |Resources(req)|
    && Finds(s.rows, req, None) && forall k :: n <= k < |Resources(req)| ==> Resources(req)[k] !in s.locks
  }

  ghost predicate FitFrom(cap: Capacities, rows: map<RowId, Row>, req: Request, n: nat) {
    forall k :: n <= k < |Resources(req)| ==> Fits(cap, rows, Resources(req)[k], req.seats)
  }

  ghost predicate SameButCall(s: State, t: State, p: Pid) {
    t.rows == s.rows && t.usedIds == s.usedIds && p in t.calls && t.calls - {p} == s.calls - {p}
  }

  lemma RoomIsFit(cap: Capacities, rows: map<RowId, Row>, r: Resource, seats: nat)
    ensures HasRoom(cap, rows, r, seats) <==> Fits(cap, rows, r, seats)
  {
    assert TakenBy(rows, r)
        == set id | id in rows && TakesSeat(rows[id]) && (r == Pass(rows[id].pass) || r in rows[id].extras);
  }

  /** One lock and its count. */
  lemma LocksOne(cap: Capacities, s: State, p: Pid, req: Request, n: nat) returns (t: State)
    requires Proceeds(s, p, req, n) && n < |Resources(req)|
    ensures Leads(cap, s, [LockNext(p), Count(p, None)], t) && SameButCall(s, t, p)
    ensures if (n == 0 && HasSeat(s.rows, req.userId, req.pass)) || !Fits(cap, s.rows, Resources(req)[n], req.seats)
            then t.calls[p] == Done(req, Failed) else Proceeds(t, p, req, n + 1)
  {
    RoomIsFit(cap, s.rows, Resources(req)[n], req.seats);
    LeadsOneMore(cap, s, [], s, LockNext(p));
    var locked := Apply(cap, s, LockNext(p));
    LeadsOneMore(cap, s, [LockNext(p)], locked, Count(p, None));
    t := Apply(cap, locked, Count(p, None));
    assert [] + [LockNext(p)] == [LockNext(p)] && [LockNext(p)] + [Count(p, None)] == [LockNext(p), Count(p, None)];
    assert forall k :: n < k < |Resources(req)| ==> Resources(req)[k] != Resources(req)[n];
  }

  ghost predicate Acts(actions: seq<Action>, p: Pid) {
    forall a :: a in actions ==> PidOf(a) == Some(p) && !a.Abort?
  }

  lemma ActsOn(first: seq<Action>, more: seq<Action>, p: Pid)
    requires Acts(first, p) && Acts(more, p)
    ensures Acts(first + more, p)
  {
  }

  lemma FitStep(cap: Capacities, rows: map<RowId, Row>, req: Request, n: nat)
    requires n < |Resources(req)|
    ensures FitFrom(cap, rows, req, n) <==> Fits(cap, rows, Resources(req)[n], req.seats) && FitFrom(cap, rows, req, n + 1)
  {
  }

  /** All of them, until one does not fit. */
  lemma {:induction false} LocksAll(cap: Capacities, s: State, p: Pid, req: Request, n: nat) returns (actions: seq<Action>, t: State)
    requires Proceeds(s, p, req, n)
    ensures Leads(cap, s, actions, t) && SameButCall(s, t, p)
    ensures Acts(actions, p)
    ensures if (n == 0 && HasSeat(s.rows, req.userId, req.pass)) || !FitFrom(cap, s.rows, req, n)
            then t.calls[p] == Done(req, Failed) else Proceeds(t, p, req, |Resources(req)|)
    decreases |Resources(req)| - n
  {
    if n == |Resources(req)| {
      actions, t := [], s;
    } else {
      FitStep(cap, s.rows, req, n);
      var next := LocksOne(cap, s, p, req, n);
      actions, t := [LockNext(p), Count(p, None)], next;
      if !next.calls[p].Done? {
        var rest;
        rest, t := LocksAll(cap, next, p, req, n + 1);
        LeadsOn(cap, s, actions, next, rest, t);
        ActsOn(actions, rest, p);
        actions := actions + rest;
      }
    }
  }

  ghost predicate Fresh(s: State, req: Request, ids: set<RowId>, head: RowId) {
    |ids| == req.seats && head in ids && ids !! s.usedIds && ids !! s.rows.Keys && !KeyInFlight(s, req)
  }

  function OrderSteps(p: Pid, payment: Payment): seq<Action> {
    match payment
    case Free => []
    case OrderMade => [AttachOrder(p)]
    case OrderFailed => [FailOrder(p)]
  }

  ghost function HeldSeats(p: Pid, req: Request, ids: set<RowId>, head: RowId, free: bool): map<RowId, Row> {
    map id | id in ids ::
      var key := if id == head then req.key else None;
      Seat(p, req, if free then CONFIRMED else PENDING, key, key)
  }

  lemma InsertsAndCommits(cap: Capacities, s: State, p: Pid, req: Request, ids: set<RowId>, head: RowId, free: bool)
      returns (t: State)
    requires Proceeds(s, p, req, |Resources(req)|) && Fresh(s, req, ids, head)
    ensures Leads(cap, s, [Insert(p, ids, head, free), Commit(p)], t) && p in t.calls
    ensures t.calls[p] == if free then Done(req, Created(head)) else AwaitingOrder(req, ids, head)
    ensures t.rows == s.rows + HeldSeats(p, req, ids, head, free)
  {
    var insert := Insert(p, ids, head, free);
    LeadsOneMore(cap, s, [], s, insert);
    assert [] + [insert] == [insert] && [insert] + [Commit(p)] == [insert, Commit(p)];
    var inserted := Apply(cap, s, insert);
    assert inserted.calls[p] == Inserted(req, ids, head, free);
    LeadsOneMore(cap, s, [insert], inserted, Commit(p));
    t := Apply(cap, inserted, Commit(p));
    CommittedSeats(s.rows, p, req, ids, head, free);
  }

  lemma CommittedSeats(rows: map<RowId, Row>, p: Pid, req: Request, ids: set<RowId>, head: RowId, free: bool)
    ensures Committed(rows, p, Inserted(req, ids, head, free)) == rows + HeldSeats(p, req, ids, head, free)
  {
    var c := Inserted(req, ids, head, free);
    forall id | id in ids ensures NewRow(p, c, id) == HeldSeats(p, req, ids, head, free)[id] {}
  }

  /** The order call: the seats wait for the payment, or go back. */
  lemma Orders(cap: Capacities, s: State, rows: map<RowId, Row>, p: Pid, req: Request, ids: set<RowId>, head: RowId,
               payment: Payment) returns (t: State)
    requires !payment.Free? && p in s.calls && s.calls[p] == AwaitingOrder(req, ids, head) && ids !! rows.Keys
    requires s.rows == rows + HeldSeats(p, req, ids, head, false)
    ensures Leads(cap, s, OrderSteps(p, payment), t) && p in t.calls
    ensures t.calls[p] == Done(req, if payment.OrderFailed? then Outcome.OrderFailed(head) else Created(head))
    ensures t.rows == rows + Seats(p, req, ids, head, payment)
  {
    var order := if payment.OrderFailed? then FailOrder(p) else AttachOrder(p);
    LeadsOneMore(cap, s, [], s, order);
    assert [] + [order] == OrderSteps(p, payment);
    t := Apply(cap, s, order);
    SettledSeats(rows, p, req, ids, head, payment);
  }

  lemma SettledSeats(rows: map<RowId, Row>, p: Pid, req: Request, ids: set<RowId>, head: RowId, payment: Payment)
    requires !payment.Free? && ids !! rows.Keys
    ensures var failed := payment.OrderFailed?;
            Settled(rows + HeldSeats(p, req, ids, head, false), ids, if failed then CANCELLED else PAYMENT_PENDING, failed)
              == rows + Seats(p, req, ids, head, payment)
  {
    assert StillPending(rows + HeldSeats(p, req, ids, head, false), ids) == ids;
  }

  lemma StaysFresh(s: State, t: State, p: Pid, req: Request, ids: set<RowId>, head: RowId)
    requires Fresh(s, req, ids, head) && t.rows == s.rows && t.usedIds == s.usedIds
    requires t.calls - {p} == s.calls - {p} && (p in t.calls ==> !t.calls[p].Inserted?)
    ensures Fresh(t, req, ids, head)
  {
    forall q | q in t.calls && q != p ensures q in s.calls && t.calls[q] == s.calls[q] {
      assert (t.calls - {p})[q] == (s.calls - {p})[q];
    }
  }

  /** The inserts, the commit and the order call. */
  lemma Inserts(cap: Capacities, s: State, p: Pid, req: Request, ids: set<RowId>, head: RowId, payment: Payment)
      returns (t: State)
    requires Proceeds(s, p, req, |Resources(req)|) && Fresh(s, req, ids, head)
    ensures Leads(cap, s, [Insert(p, ids, head, payment.Free?), Commit(p)] + OrderSteps(p, payment), t) && p in t.calls
    ensures t.calls[p] == Done(req, if payment.OrderFailed? then Outcome.OrderFailed(head) else Created(head))
    ensures t.rows == s.rows + Seats(p, req, ids, head, payment)
  {
    t := InsertsAndCommits(cap, s, p, req, ids, head, payment.Free?);
    if payment.Free? {
      assert [Insert(p, ids, head, true), Commit(p)] + [] == [Insert(p, ids, head, true), Commit(p)];
      assert HeldSeats(p, req, ids, head, true) == Seats(p, req, ids, head, Free);
    } else {
      var ordered := Orders(cap, t, s.rows, p, req, ids, head, payment);
      LeadsOn(cap, s, [Insert(p, ids, head, false), Commit(p)], t, OrderSteps(p, payment), ordered);
      t := ordered;
    }
  }

  // ---------------------------------------------------------------------------
  // Main result
  // ---------------------------------------------------------------------------

  lemma FitsAll(cap: Capacities, rows: map<RowId, Row>, req: Request)
    ensures FitFrom(cap, rows, req, 0) <==> forall r :: r in Resources(req) ==> Fits(cap, rows, r, req.seats)
  {
  }

  /** From the first lock on. */
  lemma Transacts(cap: Capacities, s: State, p: Pid, req: Request, ids: set<RowId>, head: RowId, payment: Payment)
      returns (actions: seq<Action>, t: State)
    requires Proceeds(s, p, req, 0) && Fresh(s, req, ids, head)
    ensures Leads(cap, s, actions, t) && Acts(actions, p) && p in t.calls
    ensures var (outcome, rows) := Reserve(cap, s.rows, p, req, None, ids, head, payment);
            t.calls[p] == Done(req, outcome) && t.rows == rows
  {
    var locked;
    FitsAll(cap, s.rows, req);
    actions, locked := LocksAll(cap, s, p, req, 0);
    t := locked;
    if !locked.calls[p].Done? {
      StaysFresh(s, locked, p, req, ids, head);
      var writing := [Insert(p, ids, head, payment.Free?), Commit(p)] + OrderSteps(p, payment);
      t := Inserts(cap, locked, p, req, ids, head, payment);
      LeadsOn(cap, s, actions, locked, writing, t);
      ActsOn(actions, writing, p);
      actions := actions + writing;
    }
  }

  /** With its row locks free and no other insert under its key on the way, a call whose
      steps are not interrupted ends with exactly the answer and the registrations of the
      simple transaction: a retry's answer; or a refusal, if the user has a seat for the
      pass or something does not fit; or its seats. */
  lemma AloneItIsTheSimpleTransaction(cap: Capacities, s: State, p: Pid, req: Request, found: Option<RowId>, ids: set<RowId>,
                                      head: RowId, payment: Payment) returns (actions: seq<Action>, t: State)
    requires p !in s.calls && WellFormed(req) && Finds(s.rows, req, found) && Fresh(s, req, ids, head)
    requires forall r :: r in Resources(req) ==> r !in s.locks
    ensures Leads(cap, s, actions, t) && Acts(actions, p) && p in t.calls
    ensures var (outcome, rows) := Reserve(cap, s.rows, p, req, found, ids, head, payment);
            t.calls[p] == Done(req, outcome) && t.rows == rows
  {
    LeadsOneMore(cap, s, [], s, Begin(p, req));
    var begun := Apply(cap, s, Begin(p, req));
    LeadsOneMore(cap, s, [] + [Begin(p, req)], begun, Lookup(p, found));
    actions, t := [] + [Begin(p, req)] + [Lookup(p, found)], Apply(cap, begun, Lookup(p, found));
    if found == None {
      StaysFresh(s, t, p, req, ids, head);
      var rest, end := Transacts(cap, t, p, req, ids, head, payment);
      LeadsOn(cap, s, actions, t, rest, end);
      ActsOn(actions, rest, p);
      actions, t := actions + rest, end;
    }
  }
}
