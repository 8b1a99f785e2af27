/** Idempotent retries of the reservation protocol: what one user's calls with one
    key can and cannot do, in every interleaving. */
module ReservationKeys {
  import opened Common
  import opened ReservationProtocol
  import opened ReservationSafety

  // ---------------------------------------------------------------------------
  // Invariants
  // ---------------------------------------------------------------------------

  /** A key is the one the row was created with, or was cleared with the hold. */
  ghost predicate RowKeyInv(row: Row) {
    (row.key == row.bornKey || row.key == None)
    && (row.key != row.bornKey ==> row.status == CANCELLED)
  }

  /** The unique index. */
  ghost predicate KeysUnique(rows: map<RowId, Row>) {
    forall i, j :: i in rows && j in rows && HasKey(rows[i], rows[j].userId, rows[j].key) ==> i == j
  }

  ghost predicate RowsLackKey(rows: map<RowId, Row>, req: Request) {
    forall id :: id in rows ==> !HasKey(rows[id], req.userId, req.key)
  }

  ghost predicate CallLacksKey(c: Call, req: Request) {
    c.Inserted? && c.req.userId == req.userId ==> c.req.key != req.key
  }

  lemma KeyHasOneRow(rows: map<RowId, Row>, i: RowId, j: RowId)
    requires KeysUnique(rows) && i in rows && j in rows && HasKey(rows[i], rows[j].userId, rows[j].key)
    ensures i == j
  {
  }

  /** An uncommitted insert is the only one with its key, and no committed row has it. */
  ghost predicate InFlightInv(s: State, p: Pid, c: Call) {
    c.Inserted? && c.req.key.Some? ==>
      RowsLackKey(s.rows, c.req) && (forall q :: q in s.calls && q != p ==> CallLacksKey(s.calls[q], c.req))
  }

  /** The row that answers for a call which created something. */
  function HeadOf(c: Call): Option<RowId> {
    if c.AwaitingOrder? then Some(c.head)
    else if c.Done? && c.outcome.Created? then Some(c.outcome.head)
    else if c.Done? && c.outcome.OrderFailed? then Some(c.outcome.head)
    else None
  }

  ghost predicate CreatorInv(rows: map<RowId, Row>, c: Call) {
    HeadOf(c).Some? && c.req.key.Some? ==>
      var head := HeadOf(c).value;
      head in rows && rows[head].userId == c.req.userId && rows[head].bornKey == c.req.key
      && rows[head].munId == c.req.munId && rows[head].pass == c.req.pass && (rows[head].group.Some? <==> c.req.isGroup)
      && (rows[head].key == None ==> c.Done? && c.outcome.OrderFailed?)
  }

  /** The row an answered retry points at: same user, same key, and what was asked. */
  ghost predicate ReplayInv(rows: map<RowId, Row>, c: Call) {
    c.Done? && c.outcome.Replayed? ==>
      var id := c.outcome.id;
      c.req.key.Some? && id in rows && rows[id].userId == c.req.userId && rows[id].bornKey == c.req.key
      && (if c.req.isGroup then rows[id].group.Some?
          else rows[id].munId == c.req.munId && rows[id].pass == c.req.pass)
  }

  ghost predicate HeadsApart(calls: map<Pid, Call>) {
    forall p, q :: p in calls && q in calls && p != q && HeadOf(calls[p]).Some? ==>
      HeadOf(calls[q]) != HeadOf(calls[p]) && HeadOf(calls[p]).value !in OwnIds(calls[q])
  }

  ghost predicate HeadsUsed(s: State) {
    forall p :: p in s.calls && HeadOf(s.calls[p]).Some? ==> HeadOf(s.calls[p]).value in s.usedIds
  }

  ghost predicate KeyInv(s: State) {
    (forall id :: id in s.rows ==> RowKeyInv(s.rows[id]))
    && KeysUnique(s.rows)
    && (forall p :: p in s.calls ==> InFlightInv(s, p, s.calls[p]))
    && (forall p :: p in s.calls ==> CreatorInv(s.rows, s.calls[p]) && ReplayInv(s.rows, s.calls[p]))
    && HeadsApart(s.calls) && HeadsUsed(s)
  }

  // ---------------------------------------------------------------------------
  // Rows
  // ---------------------------------------------------------------------------

  /** What a step can do to a row that was there before. */
  lemma OldRow(s: State, a: Action, id: RowId)
    requires Enabled(s, a) && id in s.rows && (a.Commit? ==> id !in s.calls[a.p].ids)
    ensures id in RowsAfter(s, a)
    ensures var before, after := s.rows[id], RowsAfter(s, a)[id];
            after.bornKey == before.bornKey && after.munId == before.munId && after.pass == before.pass
            && after.group == before.group
            && (after.userId == before.userId || (before.key == None && before.bornKey == None))
            && (after.key == before.key
                || (after.key == None && after.status == CANCELLED && a.FailOrder? && id in s.calls[a.p].ids
                    && before.status == PENDING))
            && (before.status == CANCELLED ==> after.status == CANCELLED)
  {
  }

  lemma NewRows(s: State, a: Action, id: RowId)
    requires Enabled(s, a) && id in RowsAfter(s, a) && !(id in s.rows && (a.Commit? ==> id !in s.calls[a.p].ids))
    ensures a.Commit? && id in s.calls[a.p].ids && RowsAfter(s, a)[id] == NewRow(a.p, s.calls[a.p], id)
  {
  }

  lemma RowKeysStay(s: State, a: Action, id: RowId)
    requires KeyInv(s) && Enabled(s, a) && id in RowsAfter(s, a)
    ensures RowKeyInv(RowsAfter(s, a)[id])
  {
    if id in s.rows && (a.Commit? ==> id !in s.calls[a.p].ids) {
      OldRow(s, a, id);
    } else {
      NewRows(s, a, id);
    }
  }

  lemma KeysStayUnique(cap: Capacities, s: State, a: Action)
    requires SafetyInv(cap, s) && KeyInv(s) && Enabled(s, a)
    ensures KeysUnique(RowsAfter(s, a))
  {
    var rows' := RowsAfter(s, a);
    if a.Commit? {
      assert IdsInOrder(s.usedIds, s.rows.Keys, s.calls[a.p]) && InFlightInv(s, a.p, s.calls[a.p]);
    }
    forall i, j | i in rows' && j in rows' && HasKey(rows'[i], rows'[j].userId, rows'[j].key)
      ensures i == j
    {
      KeyHolder(cap, s, a, i);
      KeyHolder(cap, s, a, j);
      if i in s.rows && j in s.rows { assert HasKey(s.rows[i], s.rows[j].userId, s.rows[j].key); }
    }
  }

  /** A row with a key had it before, or is the head a commit just brought in. */
  lemma KeyHolder(cap: Capacities, s: State, a: Action, i: RowId)
    requires SafetyInv(cap, s) && KeyInv(s) && Enabled(s, a) && i in RowsAfter(s, a) && RowsAfter(s, a)[i].key.Some?
    ensures var row := RowsAfter(s, a)[i];
            if i in s.rows then s.rows[i].userId == row.userId && s.rows[i].key == row.key
            else a.Commit? && i == s.calls[a.p].head && row.userId == s.calls[a.p].req.userId
                 && row.key == s.calls[a.p].req.key
  {
    if a.Commit? { assert IdsInOrder(s.usedIds, s.rows.Keys, s.calls[a.p]); }
    if i in s.rows { OldRow(s, a, i); } else { NewRows(s, a, i); }
  }

  // ---------------------------------------------------------------------------
  // Calls
  // ---------------------------------------------------------------------------

  lemma NewInsertIsAlone(cap: Capacities, s: State, a: Action)
    requires Enabled(s, a) && PidOf(a).Some? && CallAfter(cap, s, a).Inserted? && CallAfter(cap, s, a).req.key.Some?
    ensures a.Insert? && RowsLackKey(s.rows, CallAfter(cap, s, a).req)
    ensures forall q :: q in s.calls ==> CallLacksKey(s.calls[q], CallAfter(cap, s, a).req)
  {
  }

  lemma OldInsertMeetsRows(cap: Capacities, s: State, a: Action, q: Pid)
    requires SafetyInv(cap, s) && KeyInv(s) && Enabled(s, a) && q in s.calls && PidOf(a) != Some(q)
    requires s.calls[q].Inserted? && s.calls[q].req.key.Some?
    ensures RowsLackKey(RowsAfter(s, a), s.calls[q].req)
  {
    assert InFlightInv(s, q, s.calls[q]);
    forall id | id in RowsAfter(s, a)
      ensures !HasKey(RowsAfter(s, a)[id], s.calls[q].req.userId, s.calls[q].req.key)
    {
      if RowsAfter(s, a)[id].key.Some? { KeyHolder(cap, s, a, id); }
    }
  }

  lemma OldInsertMeetsCall(cap: Capacities, s: State, a: Action, q: Pid)
    requires Enabled(s, a) && q in s.calls && PidOf(a).Some? && a.p != q
    requires s.calls[q].Inserted? && s.calls[q].req.key.Some?
    ensures CallLacksKey(CallAfter(cap, s, a), s.calls[q].req)
  {
    var after := CallAfter(cap, s, a);
    if after.Inserted? && after.req.key.Some? { NewInsertIsAlone(cap, s, a); }
  }

  lemma OwnInFlightStays(cap: Capacities, s: State, a: Action)
    requires Enabled(s, a) && PidOf(a).Some?
    ensures InFlightInv(Apply(cap, s, a), a.p, CallAfter(cap, s, a))
  {
    var after, t := CallAfter(cap, s, a), Apply(cap, s, a);
    if after.Inserted? && after.req.key.Some? {
      NewInsertIsAlone(cap, s, a);
      assert t.rows == s.rows;
      forall q | q in t.calls && q != a.p ensures CallLacksKey(t.calls[q], after.req) { assert t.calls[q] == s.calls[q]; }
    }
  }

  lemma OtherInFlightStays(cap: Capacities, s: State, a: Action, q: Pid)
    requires SafetyInv(cap, s) && KeyInv(s) && Enabled(s, a) && q in s.calls && PidOf(a) != Some(q)
    ensures InFlightInv(Apply(cap, s, a), q, s.calls[q])
  {
    var t, req := Apply(cap, s, a), s.calls[q].req;
    if s.calls[q].Inserted? && req.key.Some? {
      OldInsertMeetsRows(cap, s, a, q);
      assert InFlightInv(s, q, s.calls[q]);
      if PidOf(a).Some? { OldInsertMeetsCall(cap, s, a, q); }
      forall p | p in t.calls && p != q ensures CallLacksKey(t.calls[p], req) {
        if PidOf(a) != Some(p) { assert t.calls[p] == s.calls[p]; }
      }
    }
  }

  lemma RowsStayForCalls(s: State, a: Action, c: Call)
    requires Enabled(s, a) && CreatorInv(s.rows, c) && ReplayInv(s.rows, c)
    requires a.Commit? ==> s.calls[a.p].ids !! s.rows.Keys
    requires a.FailOrder? && HeadOf(c).Some? ==> HeadOf(c).value !in s.calls[a.p].ids
    ensures CreatorInv(RowsAfter(s, a), c) && ReplayInv(RowsAfter(s, a), c)
  {
    if HeadOf(c).Some? && c.req.key.Some? { OldRow(s, a, HeadOf(c).value); }
    if c.Done? && c.outcome.Replayed? { OldRow(s, a, c.outcome.id); }
  }

  lemma OtherCallsStay(cap: Capacities, s: State, a: Action, p: Pid)
    requires SafetyInv(cap, s) && KeyInv(s) && Enabled(s, a) && p in s.calls && PidOf(a) != Some(p)
    ensures CreatorInv(RowsAfter(s, a), s.calls[p]) && ReplayInv(RowsAfter(s, a), s.calls[p])
  {
    if a.Commit? { assert IdsInOrder(s.usedIds, s.rows.Keys, s.calls[a.p]); }
    if a.FailOrder? && HeadOf(s.calls[p]).Some? { assert HeadOf(s.calls[p]).value !in OwnIds(s.calls[a.p]); }
    RowsStayForCalls(s, a, s.calls[p]);
  }

  /** Answering with a found row. */
  lemma AnswerIsRight(s: State, a: Action, req: Request, found: RowId)
    requires Enabled(s, a) && RowsAfter(s, a) == s.rows && Finds(s.rows, req, Some(found))
    requires RowKeyInv(s.rows[found])
    ensures ReplayInv(RowsAfter(s, a), Done(req, Replay(req, found, s.rows[found])))
  {
  }

  lemma CommitStays(cap: Capacities, s: State, p: Pid)
    requires SafetyInv(cap, s) && Enabled(s, Commit(p))
    ensures CreatorInv(RowsAfter(s, Commit(p)), CallAfter(cap, s, Commit(p)))
    ensures ReplayInv(RowsAfter(s, Commit(p)), CallAfter(cap, s, Commit(p)))
  {
    assert IdsInOrder(s.usedIds, s.rows.Keys, s.calls[p]);
    NewRows(s, Commit(p), s.calls[p].head);
  }

  lemma OrderStays(cap: Capacities, s: State, a: Action)
    requires KeyInv(s) && Enabled(s, a) && (a.FailOrder? || a.AttachOrder?)
    ensures CreatorInv(RowsAfter(s, a), CallAfter(cap, s, a)) && ReplayInv(RowsAfter(s, a), CallAfter(cap, s, a))
  {
    assert CreatorInv(s.rows, s.calls[a.p]);
    if s.calls[a.p].req.key.Some? { OldRow(s, a, s.calls[a.p].head); }
  }

  lemma AnswerStays(cap: Capacities, s: State, a: Action)
    requires KeyInv(s) && Enabled(s, a) && (a.Lookup? || a.Count? || a.Recover?)
    ensures CreatorInv(RowsAfter(s, a), CallAfter(cap, s, a)) && ReplayInv(RowsAfter(s, a), CallAfter(cap, s, a))
  {
    if a.found.Some? { AnswerIsRight(s, a, s.calls[a.p].req, a.found.value); }
  }

  lemma OwnCallStays(cap: Capacities, s: State, a: Action)
    requires SafetyInv(cap, s) && KeyInv(s) && Enabled(s, a) && PidOf(a).Some?
    ensures CreatorInv(RowsAfter(s, a), CallAfter(cap, s, a)) && ReplayInv(RowsAfter(s, a), CallAfter(cap, s, a))
  {
    if a.Lookup? || a.Count? || a.Recover? {
      AnswerStays(cap, s, a);
    } else if a.Commit? {
      CommitStays(cap, s, a.p);
    } else if a.FailOrder? || a.AttachOrder? {
      OrderStays(cap, s, a);
    }
  }

  lemma HeadStep(cap: Capacities, s: State, a: Action)
    requires Enabled(s, a) && PidOf(a).Some?
    ensures var after := CallAfter(cap, s, a);
            HeadOf(after) == None || (a.p in s.calls && HeadOf(after) == HeadOf(s.calls[a.p]))
            || (a.Commit? && HeadOf(after) == Some(s.calls[a.p].head))
  {
  }

  lemma HeadsStayUsed(cap: Capacities, s: State, a: Action)
    requires SafetyInv(cap, s) && HeadsUsed(s) && Enabled(s, a)
    ensures HeadsUsed(Apply(cap, s, a))
  {
    var t := Apply(cap, s, a);
    forall p | p in t.calls && HeadOf(t.calls[p]).Some? ensures HeadOf(t.calls[p]).value in t.usedIds {
      if PidOf(a) == Some(p) {
        HeadStep(cap, s, a);
        if a.Commit? { assert IdsInOrder(s.usedIds, s.rows.Keys, s.calls[p]); }
      }
    }
  }

  lemma HeadsStay(cap: Capacities, s: State, a: Action)
    requires SafetyInv(cap, s) && KeyInv(s) && Enabled(s, a)
    ensures HeadsApart(Apply(cap, s, a).calls) && HeadsUsed(Apply(cap, s, a))
  {
    var t := Apply(cap, s, a);
    HeadsStayUsed(cap, s, a);
    if PidOf(a).Some? {
      forall p, q | p in t.calls && q in t.calls && p != q && HeadOf(t.calls[p]).Some?
        ensures HeadOf(t.calls[q]) != HeadOf(t.calls[p]) && HeadOf(t.calls[p]).value !in OwnIds(t.calls[q])
      {
        HeadPair(cap, s, a, p, q);
      }
    }
  }

  lemma HeadPair(cap: Capacities, s: State, a: Action, p: Pid, q: Pid)
    requires SafetyInv(cap, s) && KeyInv(s) && Enabled(s, a) && PidOf(a).Some? && p != q
    requires p in Apply(cap, s, a).calls && q in Apply(cap, s, a).calls && HeadOf(Apply(cap, s, a).calls[p]).Some?
    ensures var t := Apply(cap, s, a);
            HeadOf(t.calls[q]) != HeadOf(t.calls[p]) && HeadOf(t.calls[p]).value !in OwnIds(t.calls[q])
  {
    HeadStep(cap, s, a);
    IdsStep(cap, s, a);
    if a.Commit? {
      assert IdsInOrder(s.usedIds, s.rows.Keys, s.calls[a.p]);
      if q in s.calls && q != a.p { assert OwnIds(s.calls[a.p]) !! OwnIds(s.calls[q]); }
      if p in s.calls && p != a.p { assert OwnIds(s.calls[a.p]) !! OwnIds(s.calls[p]); }
    }
  }

  lemma StepKeepsKeys(cap: Capacities, s: State, a: Action)
    requires SafetyInv(cap, s) && KeyInv(s) && Enabled(s, a)
    ensures KeyInv(Apply(cap, s, a))
  {
    var t := Apply(cap, s, a);
    forall id | id in t.rows ensures RowKeyInv(t.rows[id]) { RowKeysStay(s, a, id); }
    KeysStayUnique(cap, s, a);
    HeadsStay(cap, s, a);
    forall p | p in t.calls
      ensures InFlightInv(t, p, t.calls[p]) && CreatorInv(t.rows, t.calls[p]) && ReplayInv(t.rows, t.calls[p])
    {
      if PidOf(a) == Some(p) {
        OwnInFlightStays(cap, s, a);
        OwnCallStays(cap, s, a);
      } else {
        OtherInFlightStays(cap, s, a, p);
        OtherCallsStay(cap, s, a, p);
      }
    }
  }

  lemma {:induction false} RunKeepsKeys(cap: Capacities, states: seq<State>, actions: seq<Action>, n: nat)
    requires IsRun(cap, states, actions) && n < |states|
    ensures SafetyInv(cap, states[n]) && KeyInv(states[n])
    decreases n
  {
    RunIsSafe(cap, states, actions, n);
    if n > 0 {
      RunKeepsKeys(cap, states, actions, n - 1);
      StepKeepsKeys(cap, states[n - 1], actions[n - 1]);
      assert states[n - 1 + 1] == Apply(cap, states[n - 1], actions[n - 1]);
    }
  }

  // ---------------------------------------------------------------------------
  // Main results
  // ---------------------------------------------------------------------------

  /** Of all the calls of one user with one key, at most one creates registrations,
      unless its order failed and took the hold and the key with it. */
  lemma AtMostOneCreates(cap: Capacities, states: seq<State>, actions: seq<Action>, n: nat, p: Pid, q: Pid)
    requires IsRun(cap, states, actions) && n < |states| && p != q && p in states[n].calls && q in states[n].calls
    requires HeadOf(states[n].calls[p]).Some? && HeadOf(states[n].calls[q]).Some?
    requires states[n].calls[p].req.userId == states[n].calls[q].req.userId
    requires states[n].calls[p].req.key.Some? && states[n].calls[p].req.key == states[n].calls[q].req.key
    ensures GaveUp(states[n], p) || GaveUp(states[n], q)
  {
    RunKeepsKeys(cap, states, actions, n);
    var s := states[n];
    assert CreatorInv(s.rows, s.calls[p]) && CreatorInv(s.rows, s.calls[q]);
    var i, j := HeadOf(s.calls[p]).value, HeadOf(s.calls[q]).value;
    assert RowKeyInv(s.rows[i]) && RowKeyInv(s.rows[j]);
    if s.rows[i].key.Some? && s.rows[j].key.Some? {
      KeyHasOneRow(s.rows, i, j);
    }
  }

  /** The call's order failed, its hold is cancelled and its key is free again. */
  ghost predicate GaveUp(s: State, p: Pid)
    requires p in s.calls
  {
    var c := s.calls[p];
    c.Done? && c.outcome.OrderFailed? && c.outcome.head in s.rows && s.rows[c.outcome.head].key == None
    && s.rows[c.outcome.head].status == CANCELLED
  }

  /** A key that created something is found again by the next lookup, except after
      its order failed and cancelled the hold. */
  lemma KeyIsReusableOnlyAfterFailedOrder(cap: Capacities, states: seq<State>, actions: seq<Action>, n: nat, p: Pid,
                                          retry: Request)
    requires IsRun(cap, states, actions) && n < |states| && p in states[n].calls && HeadOf(states[n].calls[p]).Some?
    requires retry.userId == states[n].calls[p].req.userId && retry.key == states[n].calls[p].req.key && retry.key.Some?
    requires Finds(states[n].rows, retry, None)
    ensures GaveUp(states[n], p)
  {
    RunKeepsKeys(cap, states, actions, n);
    var s := states[n];
    var head := HeadOf(s.calls[p]).value;
    assert CreatorInv(s.rows, s.calls[p]) && RowKeyInv(s.rows[head]);
    assert !HasKey(s.rows[head], retry.userId, retry.key);
  }

  /** A retry that is answered gets a registration of the same user, created with the
      same key, of the kind it asked for. */
  lemma ReplayIsTheOriginal(cap: Capacities, states: seq<State>, actions: seq<Action>, n: nat, p: Pid)
    requires IsRun(cap, states, actions) && n < |states| && p in states[n].calls
    requires states[n].calls[p].Done? && states[n].calls[p].outcome.Replayed?
    ensures ReplayInv(states[n].rows, states[n].calls[p])
  {
    RunKeepsKeys(cap, states, actions, n);
  }

  /** The step asks for the registration with the call's key: before the transaction,
      in it under the pass lock, or after the unique index refused the insert. */
  ghost predicate LooksUp(s: State, a: Action) {
    Enabled(s, a) && (a.Lookup? || a.Recover? || (a.Count? && s.calls[a.p].n == 0))
  }

  /** Whether a registration is what a call with its key asks for: for a solo call one
      for the same conference and pass, for a team call any of a team. */
  ghost predicate IsAskedFor(req: Request, row: Row) {
    if req.isGroup then row.group.Some? else row.munId == req.munId && row.pass == req.pass
  }

  /** A call that finds its key in use is answered on the spot, with that registration
      if it is what was asked for, and refused otherwise. */
  lemma FoundKeyIsAnswered(cap: Capacities, s: State, a: Action, id: RowId)
    requires LooksUp(s, a) && a.found == Some(id)
    ensures id in s.rows && s.rows[id].userId == s.calls[a.p].req.userId
            && s.calls[a.p].req.key.Some? && s.rows[id].key == s.calls[a.p].req.key
    ensures var req := s.calls[a.p].req;
            Apply(cap, s, a).calls[a.p] == Done(req, if IsAskedFor(req, s.rows[id]) then Replayed(id) else Refused)
  {
  }

  /** Once a call has created something and the key is still on it, every call of that
      user with that key that looks it up finds exactly that and is done: it gets the
      registration itself if it asks for the same (or both are team calls, or it asks
      for the team's pass), and is refused if not. */
  lemma RetryGetsTheOriginal(cap: Capacities, states: seq<State>, actions: seq<Action>, n: nat, p: Pid)
    requires IsRun(cap, states, actions) && n < |actions| && LooksUp(states[n], actions[n])
    requires p in states[n].calls && HeadOf(states[n].calls[p]).Some?
    requires var head := HeadOf(states[n].calls[p]).value; head in states[n].rows && states[n].rows[head].key.Some?
    requires var first, retry := states[n].calls[p].req, states[n].calls[actions[n].p].req;
             first.key.Some? && retry.key == first.key && retry.userId == first.userId
    ensures var head, first, retry := HeadOf(states[n].calls[p]).value, states[n].calls[p].req, states[n].calls[actions[n].p].req;
            states[n + 1].calls[actions[n].p]
              == Done(retry, if (if retry.isGroup then first.isGroup else retry.munId == first.munId && retry.pass == first.pass)
                             then Replayed(head) else Refused)
  {
    RunKeepsKeys(cap, states, actions, n);
    var s, a := states[n], actions[n];
    var head := HeadOf(s.calls[p]).value;
    assert CreatorInv(s.rows, s.calls[p]) && RowKeyInv(s.rows[head]);
    assert HasKey(s.rows[head], s.calls[a.p].req.userId, s.calls[a.p].req.key);
    KeyHasOneRow(s.rows, a.found.value, head);
    FoundKeyIsAnswered(cap, s, a, head);
  }

  /** Exactly when a failed order frees its key: the hold must still be PENDING. A hold
      the sweep cancelled first keeps its key, so the advised retry with the same key
      is answered with the cancelled registration. */
  lemma FailedOrderFreesKeyIffPending(cap: Capacities, states: seq<State>, actions: seq<Action>, n: nat, p: Pid)
    requires IsRun(cap, states, actions) && n < |actions| && actions[n] == FailOrder(p)
    requires states[n].calls[p].req.key.Some?
    ensures var head, req := states[n].calls[p].head, states[n].calls[p].req;
            head in states[n].rows && head in states[n + 1].rows
            && (Finds(states[n + 1].rows, req, None) <==> states[n].rows[head].status == PENDING)
            && (states[n].rows[head].status != PENDING ==> Finds(states[n + 1].rows, req, Some(head)))
  {
    RunKeepsKeys(cap, states, actions, n);
    RunKeepsKeys(cap, states, actions, n + 1);
    var s, t := states[n], states[n + 1];
    assert t == Apply(cap, s, actions[n]);
    var c, head := s.calls[p], s.calls[p].head;
    assert CreatorInv(s.rows, c) && IdsInOrder(s.usedIds, s.rows.Keys, c);
    assert t.rows == Settled(s.rows, c.ids, CANCELLED, true);
    if s.rows[c.head].status == PENDING {
      forall id | id in t.rows
        ensures !HasKey(t.rows[id], c.req.userId, c.req.key)
      {
        if s.rows[id].key == c.req.key && s.rows[id].userId == c.req.userId { KeyHasOneRow(s.rows, id, head); }
      }
    } else {
      assert HasKey(t.rows[c.head], c.req.userId, c.req.key);
    }
  }
}
