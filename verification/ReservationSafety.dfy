/** What every interleaving of the reservation protocol keeps: no capacity is ever
    exceeded, no set of calls blocks itself, and one key creates at most once. */
module ReservationSafety {
  import opened Common
  import opened ReservationProtocol
  import opened SetSizes

  type Capacities = map<Resource, nat>

  // ---------------------------------------------------------------------------
  // Invariants
  // ---------------------------------------------------------------------------

  /** How many of its locks a transaction holds, and how many it has counted under. */
  function Held(c: Call): nat {
    match c
    case Waiting(_, n) => n
    case Locked(_, n) => n + 1
    case Inserted(req, _, _, _) => |Resources(req)|
    case _ => 0
  }

  function Counted(c: Call): nat {
    match c
    case Waiting(_, n) => n
    case Locked(_, n) => n
    case Inserted(req, _, _, _) => |Resources(req)|
    case _ => 0
  }

  ghost predicate HoldsLocks(locks: map<Resource, Pid>, p: Pid, c: Call) {
    WellFormed(c.req) && Held(c) <= |Resources(c.req)|
    && forall i :: 0 <= i < Held(c) ==> Resources(c.req)[i] in locks && locks[Resources(c.req)[i]] == p
  }

  /** The seats a transaction has counted are still free: it holds the lock. */
  ghost predicate SeatsReserved(cap: Capacities, rows: map<RowId, Row>, c: Call) {
    forall i :: 0 <= i < Counted(c) <= |Resources(c.req)| ==> HasRoom(cap, rows, Resources(c.req)[i], c.req.seats)
  }

  /** Rows a call has inserted, committed or not, before it is done with them. */
  function OwnIds(c: Call): set<RowId> {
    if c.Inserted? || c.AwaitingOrder? then c.ids else {}
  }

  ghost predicate IdsInOrder(usedIds: set<RowId>, rowIds: set<RowId>, c: Call) {
    OwnIds(c) <= usedIds
    && (c.Inserted? ==> |c.ids| == c.req.seats && c.head in c.ids && c.ids !! rowIds)
    && (c.AwaitingOrder? ==> c.head in c.ids && c.ids <= rowIds)
  }

  ghost predicate CallsAreSafe(cap: Capacities, s: State) {
    forall p :: p in s.calls ==>
      HoldsLocks(s.locks, p, s.calls[p]) && SeatsReserved(cap, s.rows, s.calls[p])
      && IdsInOrder(s.usedIds, s.rows.Keys, s.calls[p])
  }

  ghost predicate IdsApart(calls: map<Pid, Call>) {
    forall p, q :: p in calls && q in calls && p != q ==> OwnIds(calls[p]) !! OwnIds(calls[q])
  }

  ghost predicate WithinCapacity(cap: Capacities, rows: map<RowId, Row>) {
    forall r :: r in cap ==> Taken(rows, r) <= cap[r]
  }

  ghost predicate SafetyInv(cap: Capacities, s: State) {
    s.rows.Keys <= s.usedIds && CallsAreSafe(cap, s) && IdsApart(s.calls) && WithinCapacity(cap, s.rows)
  }

  // ---------------------------------------------------------------------------
  // Counting
  // ---------------------------------------------------------------------------

  /** Steps other than a commit never take a seat. */
  lemma SeatsOnlyFreed(s: State, a: Action, r: Resource)
    requires Enabled(s, a) && !a.Commit?
    ensures Taken(RowsAfter(s, a), r) <= Taken(s.rows, r) && RowsAfter(s, a).Keys == s.rows.Keys
  {
    assert TakenBy(RowsAfter(s, a), r) <= TakenBy(s.rows, r);
    SubsetSize(TakenBy(RowsAfter(s, a), r), TakenBy(s.rows, r));
  }

  /** A commit takes its seats of exactly the resources it has locked. */
  lemma CommitTakes(rows: map<RowId, Row>, p: Pid, c: Call, r: Resource)
    requires c.Inserted? && |c.ids| == c.req.seats
    ensures Taken(Committed(rows, p, c), r) <= Taken(rows, r) + (if r in Resources(c.req) then c.req.seats else 0)
  {
    var more := if r in Resources(c.req) then c.ids else {};
    forall id | id in TakenBy(Committed(rows, p, c), r)
      ensures id in TakenBy(rows, r) + more
    {
      if id in c.ids { NewRowUses(p, c, id, r); }
    }
    SubsetSize(TakenBy(Committed(rows, p, c), r), TakenBy(rows, r) + more);
    UnionSize(TakenBy(rows, r), more);
  }

  lemma NewRowUses(p: Pid, c: Call, id: RowId, r: Resource)
    requires c.Inserted?
    ensures Uses(NewRow(p, c, id), r) ==> r in Resources(c.req)
  {
    if r in c.req.extras { assert r in Resources(c.req); } else { assert Resources(c.req)[0] == Pass(c.req.pass); }
  }

  // ---------------------------------------------------------------------------
  // Every step keeps the safety invariant
  // ---------------------------------------------------------------------------

  /** The acting call keeps the locks it still needs. */
  lemma OwnLocks(cap: Capacities, s: State, a: Action)
    requires CallsAreSafe(cap, s) && Enabled(s, a) && PidOf(a).Some?
    ensures var c := CallAfter(cap, s, a);
            HoldsLocks(LocksAfter(s, a, c), a.p, c)
  {
    if a.p in s.calls { assert HoldsLocks(s.locks, a.p, s.calls[a.p]); }
  }

  lemma OtherLocks(cap: Capacities, s: State, a: Action, q: Pid)
    requires Enabled(s, a) && PidOf(a).Some? && a.p != q && q in s.calls && HoldsLocks(s.locks, q, s.calls[q])
    ensures HoldsLocks(LocksAfter(s, a, CallAfter(cap, s, a)), q, s.calls[q])
  {
  }

  /** The acting call's counts hold: the new one was just made, the rest is locked. */
  lemma OwnSeats(cap: Capacities, s: State, a: Action)
    requires CallsAreSafe(cap, s) && Enabled(s, a) && PidOf(a).Some?
    ensures SeatsReserved(cap, s.rows, CallAfter(cap, s, a))
  {
    if a.p in s.calls { assert SeatsReserved(cap, s.rows, s.calls[a.p]); }
  }

  /** Nobody else can commit a row that uses a resource `q` has locked. */
  lemma CommitLeavesRoom(cap: Capacities, s: State, p: Pid, q: Pid, c: Call)
    requires CallsAreSafe(cap, s) && Enabled(s, Commit(p)) && p != q
    requires HoldsLocks(s.locks, q, c) && SeatsReserved(cap, s.rows, c)
    ensures SeatsReserved(cap, RowsAfter(s, Commit(p)), c)
  {
    assert HoldsLocks(s.locks, p, s.calls[p]) && IdsInOrder(s.usedIds, s.rows.Keys, s.calls[p]);
    forall i | 0 <= i < Counted(c) <= |Resources(c.req)|
      ensures HasRoom(cap, RowsAfter(s, Commit(p)), Resources(c.req)[i], c.req.seats)
    {
      CommitTakes(s.rows, p, s.calls[p], Resources(c.req)[i]);
      assert i < Held(c);
    }
  }

  lemma OthersLeaveRoom(cap: Capacities, s: State, a: Action, c: Call)
    requires Enabled(s, a) && !a.Commit? && SeatsReserved(cap, s.rows, c)
    ensures SeatsReserved(cap, RowsAfter(s, a), c)
  {
    forall i | 0 <= i < Counted(c) <= |Resources(c.req)|
      ensures HasRoom(cap, RowsAfter(s, a), Resources(c.req)[i], c.req.seats)
    {
      SeatsOnlyFreed(s, a, Resources(c.req)[i]);
    }
  }

  lemma OwnSeatsAfter(cap: Capacities, s: State, a: Action)
    requires CallsAreSafe(cap, s) && Enabled(s, a) && PidOf(a).Some?
    ensures SeatsReserved(cap, RowsAfter(s, a), CallAfter(cap, s, a))
  {
    if a.Commit? {
      assert Counted(CallAfter(cap, s, a)) == 0;
    } else {
      OwnSeats(cap, s, a);
      OthersLeaveRoom(cap, s, a, CallAfter(cap, s, a));
    }
  }

  lemma OtherSeatsAfter(cap: Capacities, s: State, a: Action, q: Pid)
    requires CallsAreSafe(cap, s) && Enabled(s, a) && PidOf(a) != Some(q) && q in s.calls
    ensures SeatsReserved(cap, RowsAfter(s, a), s.calls[q])
  {
    assert HoldsLocks(s.locks, q, s.calls[q]) && SeatsReserved(cap, s.rows, s.calls[q]);
    if a.Commit? { CommitLeavesRoom(cap, s, a.p, q, s.calls[q]); } else { OthersLeaveRoom(cap, s, a, s.calls[q]); }
  }

  /** What a step does to the set of row ids and to the acting call's own. */
  lemma IdsStep(cap: Capacities, s: State, a: Action)
    requires Enabled(s, a)
    ensures RowsAfter(s, a).Keys == s.rows.Keys + (if a.Commit? then s.calls[a.p].ids else {})
    ensures PidOf(a).Some? ==>
              var own := OwnIds(CallAfter(cap, s, a));
              own == {} || (a.p in s.calls && own == OwnIds(s.calls[a.p]) && own != {} && a.Commit?)
              || (a.Insert? && own == a.ids && CallAfter(cap, s, a).Inserted? && own !! s.usedIds)
  {
  }

  ghost function UsedIdsAfter(cap: Capacities, s: State, a: Action): set<RowId>
    requires Enabled(s, a)
  {
    Apply(cap, s, a).usedIds
  }

  lemma CommittedIdsInOrder(cap: Capacities, s: State, p: Pid)
    requires Enabled(s, Commit(p)) && IdsInOrder(s.usedIds, s.rows.Keys, s.calls[p])
    ensures IdsInOrder(s.usedIds, RowsAfter(s, Commit(p)).Keys, CallAfter(cap, s, Commit(p)))
  {
    assert RowsAfter(s, Commit(p)).Keys == s.rows.Keys + s.calls[p].ids;
  }

  lemma InsertedIdsInOrder(cap: Capacities, s: State, a: Action)
    requires s.rows.Keys <= s.usedIds && Enabled(s, a) && a.Insert? && CallAfter(cap, s, a).Inserted?
    ensures IdsInOrder(s.usedIds + a.ids, s.rows.Keys, CallAfter(cap, s, a))
  {
  }

  lemma OtherwiseNothingIsHeld(cap: Capacities, s: State, a: Action)
    requires Enabled(s, a) && PidOf(a).Some? && !a.Commit? && !(a.Insert? && CallAfter(cap, s, a).Inserted?)
    ensures !CallAfter(cap, s, a).Inserted? && !CallAfter(cap, s, a).AwaitingOrder?
  {
  }

  lemma OwnIdsInOrder(cap: Capacities, s: State, a: Action)
    requires SafetyInv(cap, s) && Enabled(s, a) && PidOf(a).Some?
    ensures IdsInOrder(UsedIdsAfter(cap, s, a), RowsAfter(s, a).Keys, CallAfter(cap, s, a))
  {
    if a.Commit? {
      assert IdsInOrder(s.usedIds, s.rows.Keys, s.calls[a.p]);
      CommittedIdsInOrder(cap, s, a.p);
    } else if a.Insert? && CallAfter(cap, s, a).Inserted? {
      InsertedIdsInOrder(cap, s, a);
    } else {
      OtherwiseNothingIsHeld(cap, s, a);
    }
  }

  lemma OtherIdsInOrder(cap: Capacities, s: State, a: Action, q: Pid)
    requires SafetyInv(cap, s) && Enabled(s, a) && PidOf(a) != Some(q) && q in s.calls
    ensures IdsInOrder(UsedIdsAfter(cap, s, a), RowsAfter(s, a).Keys, s.calls[q])
  {
    IdsStep(cap, s, a);
    assert IdsInOrder(s.usedIds, s.rows.Keys, s.calls[q]);
    if a.Commit? { assert OwnIds(s.calls[q]) !! OwnIds(s.calls[a.p]); }
  }

  lemma IdsStayApart(cap: Capacities, s: State, a: Action)
    requires SafetyInv(cap, s) && Enabled(s, a)
    ensures IdsApart(Apply(cap, s, a).calls)
  {
    IdsStep(cap, s, a);
    forall q | q in s.calls ensures OwnIds(s.calls[q]) <= s.usedIds { assert IdsInOrder(s.usedIds, s.rows.Keys, s.calls[q]); }
  }

  lemma CapacityStays(cap: Capacities, s: State, a: Action)
    requires SafetyInv(cap, s) && Enabled(s, a)
    ensures WithinCapacity(cap, RowsAfter(s, a))
  {
    forall r | r in cap
      ensures Taken(RowsAfter(s, a), r) <= cap[r]
    {
      if a.Commit? {
        var c := s.calls[a.p];
        assert IdsInOrder(s.usedIds, s.rows.Keys, c) && SeatsReserved(cap, s.rows, c);
        CommitTakes(s.rows, a.p, c, r);
        if i :| 0 <= i < |Resources(c.req)| && Resources(c.req)[i] == r {
          assert HasRoom(cap, s.rows, Resources(c.req)[i], c.req.seats);
        }
      } else {
        SeatsOnlyFreed(s, a, r);
      }
    }
  }

  lemma StepIsSafe(cap: Capacities, s: State, a: Action)
    requires SafetyInv(cap, s) && Enabled(s, a)
    ensures SafetyInv(cap, Apply(cap, s, a))
  {
    var t := Apply(cap, s, a);
    IdsStep(cap, s, a);
    IdsStayApart(cap, s, a);
    CapacityStays(cap, s, a);
    if a.Commit? { assert IdsInOrder(s.usedIds, s.rows.Keys, s.calls[a.p]); }
    forall q | q in t.calls
      ensures HoldsLocks(t.locks, q, t.calls[q]) && SeatsReserved(cap, t.rows, t.calls[q])
           && IdsInOrder(t.usedIds, t.rows.Keys, t.calls[q])
    {
      if PidOf(a) == Some(q) {
        OwnLocks(cap, s, a);
        OwnSeatsAfter(cap, s, a);
        OwnIdsInOrder(cap, s, a);
      } else {
        OtherSeatsAfter(cap, s, a, q);
        OtherIdsInOrder(cap, s, a, q);
        assert HoldsLocks(s.locks, q, s.calls[q]);
        if PidOf(a).Some? { OtherLocks(cap, s, a, q); }
      }
    }
  }

  lemma {:induction false} RunIsSafe(cap: Capacities, states: seq<State>, actions: seq<Action>, n: nat)
    requires IsRun(cap, states, actions) && n < |states|
    ensures SafetyInv(cap, states[n])
    decreases n
  {
    if n == 0 {
      assert forall r :: TakenBy(START.rows, r) == {};
    } else {
      RunIsSafe(cap, states, actions, n - 1);
      StepIsSafe(cap, states[n - 1], actions[n - 1]);
      assert states[n - 1 + 1] == Apply(cap, states[n - 1], actions[n - 1]);
    }
  }

  /** No oversell: with fixed capacities, in every state of every interleaving of
      solo and team calls, each pass, committee, portfolio and room has at most as
      many active seats as its capacity. */
  lemma NeverOversold(cap: Capacities, states: seq<State>, actions: seq<Action>, n: nat, r: Resource)
    requires IsRun(cap, states, actions) && n < |states| && r in cap
    ensures Taken(states[n].rows, r) <= cap[r]
  {
    RunIsSafe(cap, states, actions, n);
  }

  // ---------------------------------------------------------------------------
  // No deadlock
  // ---------------------------------------------------------------------------

  /** The lock a call is waiting for. */
  ghost predicate WaitsFor(s: State, p: Pid, r: Resource) {
    p in s.calls && s.calls[p].Waiting? && s.calls[p].n < |Resources(s.calls[p].req)|
    && Resources(s.calls[p].req)[s.calls[p].n] == r && r in s.locks
  }

  /** A call in its transaction that waits for no row lock. */
  ghost predicate HasItsLock(s: State, q: Pid) {
    q in s.calls && InTransaction(s.calls[q]) && forall r :: !WaitsFor(s, q, r)
  }

  /** A call in its transaction that can take its next step now, other than by giving up. */
  ghost predicate CanGoOn(s: State, q: Pid) {
    q in s.calls && InTransaction(s.calls[q]) && exists a :: Enabled(s, a) && PidOf(a) == Some(q) && !a.Abort?
  }

  /** The call is in its transaction and has taken this lock. */
  ghost predicate Took(c: Call, r: Resource) {
    InTransaction(c) && exists i :: 0 <= i < Held(c) <= |Resources(c.req)| && Resources(c.req)[i] == r
  }

  ghost predicate LocksHaveOwners(s: State) {
    forall r :: r in s.locks ==> s.locks[r] in s.calls && Took(s.calls[s.locks[r]], r)
  }

  /** While a call stays in its transaction it keeps what it took. */
  lemma TookStays(cap: Capacities, s: State, a: Action, r: Resource)
    requires CallsAreSafe(cap, s) && Enabled(s, a) && PidOf(a).Some? && InTransaction(CallAfter(cap, s, a))
    requires (a.p in s.calls && Took(s.calls[a.p], r))
          || (a.LockNext? && Resources(s.calls[a.p].req)[s.calls[a.p].n] == r)
    ensures Took(CallAfter(cap, s, a), r)
  {
    var before, after := s.calls[a.p], CallAfter(cap, s, a);
    assert HoldsLocks(s.locks, a.p, before);
    OwnLocks(cap, s, a);
    assert before.req == after.req && Held(before) <= Held(after);
    if a.LockNext? && Resources(before.req)[before.n] == r {
      assert Resources(after.req)[before.n] == r;
    } else {
      var i :| 0 <= i < Held(before) <= |Resources(before.req)| && Resources(before.req)[i] == r;
      assert 0 <= i < Held(after) && Resources(after.req)[i] == r;
    }
  }

  lemma OwnerStays(cap: Capacities, s: State, a: Action, r: Resource)
    requires SafetyInv(cap, s) && Enabled(s, a) && LocksHaveOwners(s) && PidOf(a).Some?
    requires r in LocksAfter(s, a, CallAfter(cap, s, a))
    ensures var q := LocksAfter(s, a, CallAfter(cap, s, a))[r];
            if q == a.p then Took(CallAfter(cap, s, a), r) else q in s.calls && Took(s.calls[q], r)
  {
    var after := CallAfter(cap, s, a);
    if r in s.locks { assert Took(s.calls[s.locks[r]], r); }
    if LocksAfter(s, a, after)[r] == a.p { TookStays(cap, s, a, r); }
  }

  lemma OwnersStay(cap: Capacities, s: State, a: Action)
    requires SafetyInv(cap, s) && Enabled(s, a) && LocksHaveOwners(s)
    ensures LocksHaveOwners(Apply(cap, s, a))
  {
    var t := Apply(cap, s, a);
    forall r | r in t.locks
      ensures t.locks[r] in t.calls && Took(t.calls[t.locks[r]], r)
    {
      if PidOf(a).Some? {
        OwnerStays(cap, s, a, r);
      } else {
        assert Took(s.calls[s.locks[r]], r);
      }
    }
  }

  /** Locks are taken in rank order, so a waiting call is held up, in the end, by one
      that waits for no lock. */
  lemma {:induction false} SomeoneHasItsLock(cap: Capacities, s: State, p: Pid, r: Resource) returns (q: Pid)
    requires SafetyInv(cap, s) && LocksHaveOwners(s) && WaitsFor(s, p, r)
    ensures HasItsLock(s, q)
    decreases 3 - Rank(r)
  {
    q := s.locks[r];
    assert Took(s.calls[q], r) && HoldsLocks(s.locks, q, s.calls[q]);
    if r' :| WaitsFor(s, q, r') {
      var req, n := s.calls[q].req, s.calls[q].n;
      var i :| 0 <= i < n && Resources(req)[i] == r;
      assert Rank(Resources(req)[i]) < Rank(Resources(req)[n]);
      q := SomeoneHasItsLock(cap, s, q, r');
    }
  }

  lemma {:induction false} RunHasOwners(cap: Capacities, states: seq<State>, actions: seq<Action>, n: nat)
    requires IsRun(cap, states, actions) && n < |states|
    ensures LocksHaveOwners(states[n])
    decreases n
  {
    if n > 0 {
      RunHasOwners(cap, states, actions, n - 1);
      RunIsSafe(cap, states, actions, n - 1);
      OwnersStay(cap, states[n - 1], actions[n - 1]);
      assert states[n - 1 + 1] == Apply(cap, states[n - 1], actions[n - 1]);
    }
  }

  /** The other thing to wait for: a key in flight. Its holder can commit. */
  lemma KeyHolderCanGoOn(s: State, req: Request) returns (q: Pid)
    requires KeyInFlight(s, req)
    ensures CanGoOn(s, q)
  {
    q :| q in s.calls && s.calls[q].Inserted? && s.calls[q].req.userId == req.userId
      && req.key.Some? && s.calls[q].req.key == req.key;
    assert Enabled(s, Commit(q)) && PidOf(Commit(q)) == Some(q);
  }

  lemma SomethingIsFound(rows: map<RowId, Row>, req: Request) returns (found: Option<RowId>)
    ensures Finds(rows, req, found)
  {
    if id :| id in rows && HasKey(rows[id], req.userId, req.key) { found := Some(id); } else { found := None; }
  }

  /** A call that has all its locks inserts fresh rows. */
  lemma InsertIsEnabled(s: State, q: Pid) returns (a: Action)
    requires q in s.calls && s.calls[q].Waiting? && WellFormed(s.calls[q].req)
    requires s.calls[q].n == |Resources(s.calls[q].req)| && !KeyInFlight(s, s.calls[q].req)
    ensures Enabled(s, a) && PidOf(a) == Some(q) && !a.Abort?
  {
    var ids := FreshIds(s.usedIds, s.calls[q].req.seats);
    assert ids != {};
    var head :| head in ids;
    a := Insert(q, ids, head, false);
  }

  /** Waiting for no lock, a call goes on, or waits for a key whose holder does. */
  lemma ThenSomeoneCanGoOn(cap: Capacities, s: State, q: Pid) returns (q': Pid)
    requires SafetyInv(cap, s) && HasItsLock(s, q)
    ensures CanGoOn(s, q')
  {
    q' := q;
    var c := s.calls[q];
    assert HoldsLocks(s.locks, q, c);
    if c.Inserted? {
      assert Enabled(s, Commit(q)) && PidOf(Commit(q)) == Some(q);
    } else if c.Locked? {
      var found := SomethingIsFound(s.rows, c.req);
      assert Enabled(s, Count(q, found)) && PidOf(Count(q, found)) == Some(q);
    } else if c.n < |Resources(c.req)| {
      assert !WaitsFor(s, q, Resources(c.req)[c.n]);
      assert Enabled(s, LockNext(q)) && PidOf(LockNext(q)) == Some(q);
    } else if KeyInFlight(s, c.req) {
      q' := KeyHolderCanGoOn(s, c.req);
    } else {
      var a := InsertIsEnabled(s, q);
    }
  }

  /** No deadlock: as long as any reservation is in its transaction, waiting for a row
      lock or for the unique index or not at all, some reservation in its transaction
      can take its next step, and not only give up. */
  lemma NeverDeadlocked(cap: Capacities, states: seq<State>, actions: seq<Action>, n: nat, p: Pid)
    requires IsRun(cap, states, actions) && n < |states| && p in states[n].calls && InTransaction(states[n].calls[p])
    ensures exists q, a :: q in states[n].calls && InTransaction(states[n].calls[q])
                        && Enabled(states[n], a) && PidOf(a) == Some(q) && !a.Abort?
  {
    RunIsSafe(cap, states, actions, n);
    RunHasOwners(cap, states, actions, n);
    var q := p;
    if r :| WaitsFor(states[n], p, r) { q := SomeoneHasItsLock(cap, states[n], p, r); }
    q := ThenSomeoneCanGoOn(cap, states[n], q);
  }
}
