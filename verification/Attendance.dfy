/** Check-in, attendance and awards as interleaved transactions
    (lib/actions/check-in.ts, lib/actions/results.ts): taking a row lock, checking,
    writing and committing are separate steps. An award takes the registration row
    FOR SHARE, everything that changes attendance takes it FOR UPDATE. */
module Attendance {
  type RegistrationId = string
  type AwardId = nat
  type Pid = nat

  datatype Status = PENDING | PAYMENT_PENDING | CONFIRMED | ATTENDED | NO_SHOW | CANCELLED | REFUNDED

  datatype Tx =
    | ShareLocked(id: RegistrationId)                     // createAchievement, status checked
    | AwardInserted(id: RegistrationId, award: AwardId)   // not yet committed
    | UpdateLocked(id: RegistrationId)                    // attendance or check-in, row locked
    | StatusWritten(id: RegistrationId, status: Status)   // not yet committed

  /** Committed registrations and awards, lock holders, and transactions. */
  datatype State = State(statuses: map<RegistrationId, Status>, awards: map<AwardId, RegistrationId>,
                         readers: map<Pid, RegistrationId>, writers: map<Pid, RegistrationId>, txs: map<Pid, Tx>)

  predicate HoldsSeat(s: Status) {
    s == CONFIRMED || s == ATTENDED || s == NO_SHOW
  }

  predicate AwardEligible(s: Status) {
    s == CONFIRMED || s == ATTENDED
  }

  datatype Action =
    | LockForAward(pid: Pid, id: RegistrationId)
    | InsertAward(pid: Pid, award: AwardId)
    | LockForUpdate(pid: Pid, id: RegistrationId)
    | MarkAttendance(pid: Pid, status: Status)  // setDelegateAttendance; status is ATTENDED or NO_SHOW
    | CheckIn(pid: Pid)                         // checkInDelegate
    | Cancel(pid: Pid)                          // cancelRegistrationAsAdmin
    | Commit(pid: Pid)
    | Rollback(pid: Pid)
    | DeleteAward(award: AwardId)
    | Confirm(id: RegistrationId)               // payment settles, or a hold lapses
    | Lapse(id: RegistrationId)

  predicate WriteLocked(s: State, id: RegistrationId) {
    exists p :: p in s.writers && s.writers[p] == id
  }

  predicate ReadLocked(s: State, id: RegistrationId) {
    exists p :: p in s.readers && s.readers[p] == id
  }

  predicate HasAward(s: State, id: RegistrationId) {
    exists a :: a in s.awards && s.awards[a] == id
  }

  ghost predicate Enabled(s: State, a: Action) {
    match a
    case LockForAward(pid, id) => pid !in s.txs && id in s.statuses && !WriteLocked(s, id)
    case LockForUpdate(pid, id) => pid !in s.txs && id in s.statuses && !WriteLocked(s, id) && !ReadLocked(s, id)
    case InsertAward(pid, award) => pid in s.txs && s.txs[pid].ShareLocked? && award !in s.awards
    case MarkAttendance(pid, status) =>
      pid in s.txs && s.txs[pid].UpdateLocked? && s.txs[pid].id in s.statuses && (status == ATTENDED || status == NO_SHOW)
    case CheckIn(pid) => pid in s.txs && s.txs[pid].UpdateLocked? && s.txs[pid].id in s.statuses
    case Cancel(pid) => pid in s.txs && s.txs[pid].UpdateLocked? && s.txs[pid].id in s.statuses
    case Commit(pid) =>
      pid in s.txs && (s.txs[pid].StatusWritten? || (s.txs[pid].AwardInserted? && s.txs[pid].award !in s.awards))
    case Rollback(pid) => pid in s.txs
    case DeleteAward(_) => true
    case Confirm(id) => id in s.statuses && !WriteLocked(s, id) && !ReadLocked(s, id) && s.statuses[id] == PAYMENT_PENDING
    case Lapse(id) =>
      id in s.statuses && !WriteLocked(s, id) && !ReadLocked(s, id)
      && (s.statuses[id] == PENDING || s.statuses[id] == PAYMENT_PENDING)
  }

  function Ended(s: State, pid: Pid): State {
    s.(txs := s.txs - {pid}, readers := s.readers - {pid}, writers := s.writers - {pid})
  }

  ghost function Apply(s: State, a: Action): State
    requires Enabled(s, a)
  {
    match a
    case LockForAward(pid, id) =>
      if AwardEligible(s.statuses[id])
      then s.(txs := s.txs[pid := ShareLocked(id)], readers := s.readers[pid := id])
      else s  // awards need a confirmed or attended delegate
    case InsertAward(pid, award) => s.(txs := s.txs[pid := AwardInserted(s.txs[pid].id, award)])
    case LockForUpdate(pid, id) => s.(txs := s.txs[pid := UpdateLocked(id)], writers := s.writers[pid := id])
    case MarkAttendance(pid, status) =>
      var id := s.txs[pid].id;
      if !HoldsSeat(s.statuses[id]) || s.statuses[id] == status || (status == NO_SHOW && HasAward(s, id)) then Ended(s, pid)
      else s.(txs := s.txs[pid := StatusWritten(id, status)])
    case CheckIn(pid) =>
      var id := s.txs[pid].id;
      if !HoldsSeat(s.statuses[id]) || s.statuses[id] == ATTENDED then Ended(s, pid)
      else s.(txs := s.txs[pid := StatusWritten(id, ATTENDED)])
    case Cancel(pid) =>
      var id := s.txs[pid].id;
      if s.statuses[id] == CANCELLED || s.statuses[id] == REFUNDED then Ended(s, pid)
      else s.(txs := s.txs[pid := StatusWritten(id, CANCELLED)])
    case Commit(pid) =>
      var tx := s.txs[pid];
      if tx.StatusWritten? then Ended(s.(statuses := s.statuses[tx.id := tx.status]), pid)
      else Ended(s.(awards := s.awards[tx.award := tx.id]), pid)
    case Rollback(pid) => Ended(s, pid)
    case DeleteAward(award) => s.(awards := s.awards - {award})
    case Confirm(id) => s.(statuses := s.statuses[id := CONFIRMED])
    case Lapse(id) => s.(statuses := s.statuses[id := CANCELLED])
  }

  /** The claim, and what the locks guarantee to the transactions that hold them. */
  ghost predicate NoAwardedNoShow(s: State) {
    forall a :: a in s.awards ==> s.awards[a] in s.statuses && s.statuses[s.awards[a]] != NO_SHOW
  }

  ghost predicate TxInv(s: State, pid: Pid, tx: Tx) {
    tx.id in s.statuses &&
    match tx
    case ShareLocked(id) => pid in s.readers && s.readers[pid] == id && AwardEligible(s.statuses[id])
    case AwardInserted(id, _) => pid in s.readers && s.readers[pid] == id && AwardEligible(s.statuses[id])
    case UpdateLocked(id) => pid in s.writers && s.writers[pid] == id
    case StatusWritten(id, status) =>
      pid in s.writers && s.writers[pid] == id && (status == NO_SHOW ==> !HasAward(s, id))
  }

  /** A writer excludes every other lock on its row. */
  ghost predicate LocksExclude(s: State) {
    forall p, q :: p in s.writers ==>
      (q in s.writers && s.writers[q] == s.writers[p] ==> q == p) && (q in s.readers ==> s.readers[q] != s.writers[p])
  }

  ghost predicate Inv(s: State) {
    NoAwardedNoShow(s) && LocksExclude(s) && forall p :: p in s.txs ==> TxInv(s, p, s.txs[p])
  }

  predicate IsFor(a: Action, p: Pid) {
    match a
    case LockForAward(pid, _) => pid == p
    case InsertAward(pid, _) => pid == p
    case LockForUpdate(pid, _) => pid == p
    case MarkAttendance(pid, _) => pid == p
    case CheckIn(pid) => pid == p
    case Cancel(pid) => pid == p
    case Commit(pid) => pid == p
    case Rollback(pid) => pid == p
    case _ => false
  }

  lemma OwnTxStays(s: State, a: Action, p: Pid)
    requires Inv(s) && Enabled(s, a) && IsFor(a, p) && p in Apply(s, a).txs
    ensures TxInv(Apply(s, a), p, Apply(s, a).txs[p])
  {
    if p in s.txs { assert TxInv(s, p, s.txs[p]); }
  }

  lemma EndedKeepsOthers(s: State, pid: Pid, p: Pid)
    requires p != pid
    ensures var t := Ended(s, pid);
            t.statuses == s.statuses && (p in t.txs <==> p in s.txs) && (p in s.txs ==> t.txs[p] == s.txs[p])
            && (p in s.readers ==> p in t.readers && t.readers[p] == s.readers[p])
            && (p in s.writers ==> p in t.writers && t.writers[p] == s.writers[p])
  {
  }

  lemma OthersKeepTheirLocks(s: State, a: Action, p: Pid)
    requires Enabled(s, a) && !IsFor(a, p) && p in Apply(s, a).txs
    ensures var t := Apply(s, a);
            p in s.txs && t.txs[p] == s.txs[p] && s.statuses.Keys <= t.statuses.Keys
            && (p in s.readers ==> p in t.readers && t.readers[p] == s.readers[p])
            && (p in s.writers ==> p in t.writers && t.writers[p] == s.writers[p])
  {
    match a {
      case MarkAttendance(pid, _) => EndedKeepsOthers(s, pid, p);
      case CheckIn(pid) => EndedKeepsOthers(s, pid, p);
      case Cancel(pid) => EndedKeepsOthers(s, pid, p);
      case Rollback(pid) => EndedKeepsOthers(s, pid, p);
      case Commit(pid) =>
        var tx := s.txs[pid];
        EndedKeepsOthers(if tx.StatusWritten? then s.(statuses := s.statuses[tx.id := tx.status])
                         else s.(awards := s.awards[tx.award := tx.id]), pid, p);
      case _ =>
    }
  }

  /** A locked row does not change under the transactions that hold the lock. */
  lemma LockedRowStays(s: State, a: Action, p: Pid)
    requires Inv(s) && Enabled(s, a) && !IsFor(a, p) && p in s.txs
    ensures Apply(s, a).statuses[s.txs[p].id] == s.statuses[s.txs[p].id]
    ensures s.txs[p].StatusWritten? && HasAward(Apply(s, a), s.txs[p].id) ==> HasAward(s, s.txs[p].id)
  {
    var t, id := Apply(s, a), s.txs[p].id;
    assert TxInv(s, p, s.txs[p]);
    assert WriteLocked(s, id) || ReadLocked(s, id);
    if a.Commit? { assert TxInv(s, a.pid, s.txs[a.pid]); }
    if s.txs[p].StatusWritten? && HasAward(t, id) {
      var x :| x in t.awards && t.awards[x] == id;
      assert x in s.awards && s.awards[x] == id;
    }
  }

  lemma TxStays(s: State, a: Action, p: Pid)
    requires Inv(s) && Enabled(s, a) && p in Apply(s, a).txs
    ensures TxInv(Apply(s, a), p, Apply(s, a).txs[p])
  {
    if IsFor(a, p) {
      OwnTxStays(s, a, p);
    } else {
      OthersKeepTheirLocks(s, a, p);
      LockedRowStays(s, a, p);
      assert TxInv(s, p, s.txs[p]);
    }
  }

  lemma StepKeeps(s: State, a: Action)
    requires Inv(s) && Enabled(s, a)
    ensures Inv(Apply(s, a))
  {
    var t := Apply(s, a);
    forall p | p in t.txs ensures TxInv(t, p, t.txs[p]) { TxStays(s, a, p); }
    if a.Commit? {
      assert TxInv(s, a.pid, s.txs[a.pid]);
      forall x | x in t.awards
        ensures t.awards[x] in t.statuses && t.statuses[t.awards[x]] != NO_SHOW
      {
        if x in s.awards && t.awards[x] == s.awards[x] { assert HasAward(s, s.awards[x]); }
      }
    }
  }

  ghost predicate IsRun(states: seq<State>, actions: seq<Action>) {
    |states| == |actions| + 1
    && states[0].awards == map[] && states[0].txs == map[] && states[0].readers == map[] && states[0].writers == map[]
    && forall i :: 0 <= i < |actions| ==> Enabled(states[i], actions[i]) && states[i + 1] == Apply(states[i], actions[i])
  }

  lemma {:induction false} RunKeeps(states: seq<State>, actions: seq<Action>, n: nat)
    requires IsRun(states, actions) && n < |states|
    ensures Inv(states[n])
    decreases n
  {
    if n > 0 {
      RunKeeps(states, actions, n - 1);
      StepKeeps(states[n - 1], actions[n - 1]);
      assert states[n - 1 + 1] == Apply(states[n - 1], actions[n - 1]);
    }
  }

  /** In every run, at every moment, no registration marked NO_SHOW has an award. */
  lemma NoShowsNeverHaveAwards(states: seq<State>, actions: seq<Action>, n: nat, id: RegistrationId)
    requires IsRun(states, actions) && n < |states|
    requires id in states[n].statuses && states[n].statuses[id] == NO_SHOW
    ensures !HasAward(states[n], id)
  {
    RunKeeps(states, actions, n);
  }

  /** Attendance never takes a seat away or gives one: once a registration holds a
      seat only a cancellation ends that. */
  lemma SeatHoldersStaySeated(states: seq<State>, actions: seq<Action>, n: nat, id: RegistrationId)
    requires IsRun(states, actions) && n < |actions|
    requires id in states[n].statuses && HoldsSeat(states[n].statuses[id])
    ensures id in states[n + 1].statuses
    ensures HoldsSeat(states[n + 1].statuses[id])
         || (actions[n].Commit? && states[n].txs[actions[n].pid] == StatusWritten(id, CANCELLED))
  {
    RunStatuses(states, actions, n);
    assert states[n + 1] == Apply(states[n], actions[n]);
  }

  /** Under the row's lock, whether a change is let through: who holds a seat can be
      checked in or marked, if not marked so already and no award stands against it; and
      whatever is not cancelled or refunded can be cancelled. */
  ghost predicate MayBecome(s: State, id: RegistrationId, a: Action, to: Status)
    requires id in s.statuses
  {
    match a
    case MarkAttendance(_, status) =>
      to == status != s.statuses[id] && s.statuses[id] in {CONFIRMED, ATTENDED, NO_SHOW}
      && (status == NO_SHOW ==> forall x :: x in s.awards ==> s.awards[x] != id)
    case CheckIn(_) => to == ATTENDED && s.statuses[id] in {CONFIRMED, NO_SHOW}
    case Cancel(_) => to == CANCELLED && s.statuses[id] !in {CANCELLED, REFUNDED}
    case _ => false
  }

  /** A change that may be made is written, and any other ends its transaction. */
  lemma ChangeIsWrittenIff(s: State, a: Action, to: Status)
    requires Enabled(s, a) && (a.MarkAttendance? || a.CheckIn? || a.Cancel?)
    ensures var t, id := Apply(s, a), s.txs[a.pid].id;
            (MayBecome(s, id, a, to) <==> a.pid in t.txs && t.txs[a.pid] == StatusWritten(id, to))
            && t.statuses == s.statuses && t.awards == s.awards
            && (a.pid in t.txs ==> t.txs[a.pid].StatusWritten?)
  {
  }

  /** What a transaction has checked under its lock stays so under others' steps. */
  lemma CheckedStays(s: State, a: Action, p: Pid, check: Action)
    requires Inv(s) && Enabled(s, a) && !IsFor(a, p) && p in Apply(s, a).txs && Apply(s, a).txs[p].StatusWritten?
    ensures var t := Apply(s, a);
            p in s.txs && t.txs[p] == s.txs[p] &&
            var id, to := t.txs[p].id, t.txs[p].status;
            id in s.statuses && id in t.statuses && t.statuses[id] == s.statuses[id]
            && (MayBecome(s, id, check, to) ==> MayBecome(t, id, check, to))
  {
    OthersKeepTheirLocks(s, a, p);
    LockedRowStays(s, a, p);
    assert TxInv(s, p, s.txs[p]);
    var t, id := Apply(s, a), s.txs[p].id;
    if HasAward(t, id) { assert HasAward(s, id); }
    assert (exists x :: x in t.awards && t.awards[x] == id) ==> HasAward(t, id);
  }

  /** The check that led to a written status, and its outcome, still stand. */
  lemma {:induction false} StillAsChecked(states: seq<State>, actions: seq<Action>, n: nat, p: Pid) returns (m: nat)
    requires IsRun(states, actions) && n < |states| && p in states[n].txs && states[n].txs[p].StatusWritten?
    ensures m < n && IsFor(actions[m], p)
    ensures var id := states[n].txs[p].id;
            id in states[m].statuses && id in states[n].statuses && states[n].statuses[id] == states[m].statuses[id]
            && MayBecome(states[n], id, actions[m], states[n].txs[p].status)
    decreases n
  {
    assert n > 0;
    var s, a := states[n - 1], actions[n - 1];
    assert states[n - 1 + 1] == Apply(s, a);
    RunKeeps(states, actions, n - 1);
    if IsFor(a, p) {
      m := n - 1;
      ChangeIsWrittenIff(s, a, states[n].txs[p].status);
    } else {
      CheckedStays(s, a, p, a);
      m := StillAsChecked(states, actions, n - 1, p);
      CheckedStays(s, a, p, actions[m]);
    }
  }

  /** A committed attendance change, check-in or cancellation is the one asked for, is
      made to the status it was checked against, and still may be made at that moment;
      it changes that one row and no award. */
  lemma CommitIsStillRight(states: seq<State>, actions: seq<Action>, n: nat, p: Pid) returns (m: nat)
    requires IsRun(states, actions) && n < |actions| && actions[n] == Commit(p) && states[n].txs[p].StatusWritten?
    ensures m < n && IsFor(actions[m], p)
    ensures var id, to := states[n].txs[p].id, states[n].txs[p].status;
            id in states[m].statuses && id in states[n].statuses && states[n].statuses[id] == states[m].statuses[id]
            && MayBecome(states[n], id, actions[m], to)
            && states[n + 1].statuses == states[n].statuses[id := to] && states[n + 1].awards == states[n].awards
  {
    m := StillAsChecked(states, actions, n, p);
    assert states[n + 1] == Apply(states[n], actions[n]);
  }

  /** A committed award is the one new award, and goes to a delegate who at that moment
      is CONFIRMED or ATTENDED. */
  lemma AwardGoesToTheEligible(states: seq<State>, actions: seq<Action>, n: nat, p: Pid)
    requires IsRun(states, actions) && n < |actions| && actions[n] == Commit(p) && states[n].txs[p].AwardInserted?
    ensures var id, award := states[n].txs[p].id, states[n].txs[p].award;
            id in states[n].statuses && states[n].statuses[id] in {CONFIRMED, ATTENDED}
            && award !in states[n].awards && states[n + 1].awards == states[n].awards[award := id]
            && states[n + 1].statuses == states[n].statuses
  {
    RunKeeps(states, actions, n);
    assert TxInv(states[n], p, states[n].txs[p]);
    assert states[n + 1] == Apply(states[n], actions[n]);
  }

  ghost predicate OnlyKnownStatuses(s: State) {
    forall p :: p in s.txs && s.txs[p].StatusWritten? ==> s.txs[p].status in {ATTENDED, NO_SHOW, CANCELLED}
  }

  lemma {:induction false} RunStatuses(states: seq<State>, actions: seq<Action>, n: nat)
    requires IsRun(states, actions) && n < |states|
    ensures OnlyKnownStatuses(states[n])
    decreases n
  {
    if n > 0 {
      RunStatuses(states, actions, n - 1);
      assert states[n - 1 + 1] == Apply(states[n - 1], actions[n - 1]);
    }
  }

  // ---------------------------------------------------------------------------
  // Calls that nobody interrupts
  // ---------------------------------------------------------------------------

  /** Steps one after another, with nothing in between. */
  ghost predicate Leads(s: State, actions: seq<Action>, t: State)
    decreases |actions|
  {
    if actions == [] then s == t else Enabled(s, actions[0]) && Leads(Apply(s, actions[0]), actions[1..], t)
  }

  lemma LeadsThrough(s: State, a: Action, b: Action, c: Action)
    requires Enabled(s, a) && Enabled(Apply(s, a), b) && Enabled(Apply(Apply(s, a), b), c)
    ensures Leads(s, [a, b, c], Apply(Apply(Apply(s, a), b), c))
  {
    LeadsTo(Apply(s, a), b, c);
    assert [a, b, c][1..] == [b, c];
  }

  lemma LeadsTo(s: State, a: Action, b: Action)
    requires Enabled(s, a) && Enabled(Apply(s, a), b)
    ensures Leads(s, [a, b], Apply(Apply(s, a), b))
  {
    assert [a, b][1..] == [b] && [b][1..] == [];
  }

  /** An award on its own is given if and only if the delegate is CONFIRMED or ATTENDED,
      and ends without a lock. */
  lemma AwardAlone(s: State, pid: Pid, id: RegistrationId, award: AwardId) returns (actions: seq<Action>, t: State)
    requires s.txs == map[] && s.readers == map[] && s.writers == map[] && id in s.statuses && award !in s.awards
    ensures Leads(s, actions, t) && forall a :: a in actions ==> IsFor(a, pid) && !a.Rollback?
    ensures t == if s.statuses[id] == CONFIRMED || s.statuses[id] == ATTENDED then s.(awards := s.awards[award := id]) else s
  {
    var lock := LockForAward(pid, id);
    if s.statuses[id] == CONFIRMED || s.statuses[id] == ATTENDED {
      actions, t := [lock, InsertAward(pid, award), Commit(pid)], s.(awards := s.awards[award := id]);
      LeadsThrough(s, lock, InsertAward(pid, award), Commit(pid));
    } else {
      actions, t := [lock], s;
      assert [lock][1..] == [];
    }
  }

  /** A mark, check-in or cancellation on its own is made if and only if it may be. */
  lemma ChangeAlone(s: State, pid: Pid, id: RegistrationId, a: Action, to: Status) returns (actions: seq<Action>, t: State)
    requires s.txs == map[] && s.readers == map[] && s.writers == map[] && id in s.statuses
    requires a in {MarkAttendance(pid, ATTENDED), MarkAttendance(pid, NO_SHOW), CheckIn(pid), Cancel(pid)}
    requires to == match a case MarkAttendance(_, status) => status case CheckIn(_) => ATTENDED case _ => CANCELLED
    ensures Leads(s, actions, t) && forall x :: x in actions ==> IsFor(x, pid) && !x.Rollback?
    ensures t == if MayBecome(s, id, a, to) then s.(statuses := s.statuses[id := to]) else s
  {
    var lock := LockForUpdate(pid, id);
    var locked := Apply(s, lock);
    ChangeIsWrittenIff(locked, a, to);
    if MayBecome(s, id, a, to) {
      actions, t := [lock, a, Commit(pid)], Apply(Apply(locked, a), Commit(pid));
      LeadsThrough(s, lock, a, Commit(pid));
    } else {
      actions, t := [lock, a], Apply(locked, a);
      LeadsTo(s, lock, a);
    }
  }
}
