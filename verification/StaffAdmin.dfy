/** Staff accounts (lib/actions/admin-staff.ts) as interleaved transactions: every
    row lock, check, write and commit is a step of its own, and any number of
    transactions run at once. */
module StaffAdmin {
  type UserId = string
  type Pid = nat

  datatype Role = STUDENT | ORGANIZER | OPERATIONS | ADMIN | SUPER_ADMIN

  datatype User = User(role: Role, suspended: bool)

  datatype Change = SetRole(role: Role) | Suspend | Reinstate

  /** A transaction in progress. */
  datatype Tx =
    | LockingAdmins(actor: UserId, target: UserId, change: Change, todo: seq<UserId>, seen: map<UserId, bool>)
      // `lockSuperAdmins`: rows still to lock, and `suspended` of those locked and returned
    | Authorized(actor: UserId, target: UserId, change: Change)
    | TargetLocked(actor: UserId, target: UserId, change: Change)
    | Written(actor: UserId, target: UserId, change: Change, user: User)
      // the row as it will be once this transaction commits
    | OrganizerLocked(target: UserId, suspended: bool)
      // `suspendOrganizer` / `reinstateOrganizer` after their role check
    | StudentLocked(target: UserId)
      // `deleteOwnAccount` after its role check; it leaves role and suspension alone

  /** Committed rows, row locks by owner, and the transactions in progress. */
  datatype State = State(users: map<UserId, User>, locks: map<UserId, Pid>, txs: map<Pid, Tx>)

  predicate IsStaff(role: Role) {
    role == OPERATIONS || role == ADMIN || role == SUPER_ADMIN
  }

  predicate IsActiveAdmin(users: map<UserId, User>, id: UserId) {
    id in users && users[id] == User(SUPER_ADMIN, false)
  }

  predicate SomeoneInCharge(users: map<UserId, User>) {
    exists id :: id in users && IsActiveAdmin(users, id)
  }

  // ---------------------------------------------------------------------------
  // Steps
  // ---------------------------------------------------------------------------

  datatype Action =
    | BeginStaffWrite(pid: Pid, actor: UserId, target: UserId, change: Change, admins: seq<UserId>)
    | LockNextAdmin(pid: Pid)
    | Authorize(pid: Pid)
    | LockTarget(pid: Pid)
    | Write(pid: Pid)
    | LockOrganizer(pid: Pid, target: UserId, suspended: bool)
    | LockStudent(pid: Pid, target: UserId)
    | Commit(pid: Pid)
    | Abort(pid: Pid)
    | Bootstrap(target: UserId)
    | SignUp(target: UserId, role: Role)

  predicate CanLock(s: State, pid: Pid, id: UserId) {
    id !in s.locks || s.locks[id] == pid
  }

  function Released(locks: map<UserId, Pid>, pid: Pid): map<UserId, Pid> {
    map id | id in locks && locks[id] != pid :: locks[id]
  }

  function Ended(s: State, pid: Pid): State {
    s.(locks := Released(s.locks, pid), txs := s.txs - {pid})
  }

  /** Whether a step can happen. A step that must wait for a lock cannot. */
  ghost predicate Enabled(s: State, a: Action) {
    match a
    case BeginStaffWrite(pid, actor, target, change, admins) =>
      // your own account is refused; `admins` is what the statement's snapshot selects
      pid !in s.txs && actor != target && (change.SetRole? ==> IsStaff(change.role)) &&
      (forall id :: id in admins <==> id in s.users && s.users[id].role == SUPER_ADMIN)
    case LockNextAdmin(pid) =>
      pid in s.txs && s.txs[pid].LockingAdmins? && s.txs[pid].todo != [] && CanLock(s, pid, s.txs[pid].todo[0])
    case Authorize(pid) => pid in s.txs && s.txs[pid].LockingAdmins? && s.txs[pid].todo == []
    case LockTarget(pid) => pid in s.txs && s.txs[pid].Authorized? && CanLock(s, pid, s.txs[pid].target)
    case Write(pid) => pid in s.txs && s.txs[pid].TargetLocked? && s.txs[pid].target in s.users
    case LockOrganizer(pid, target, _) => pid !in s.txs && target in s.users && CanLock(s, pid, target)
    case LockStudent(pid, target) => pid !in s.txs && target in s.users && CanLock(s, pid, target)
    case Commit(pid) => pid in s.txs && (s.txs[pid].Written? || s.txs[pid].OrganizerLocked? || s.txs[pid].StudentLocked?)
    case Abort(pid) => pid in s.txs
    case Bootstrap(target) => target !in s.locks
    case SignUp(target, _) => target !in s.users && target !in s.locks
  }

  /** A row that no longer is a SUPER_ADMIN when its lock arrives is not returned. */
  function LockAdmin(s: State, pid: Pid): State
    requires pid in s.txs && s.txs[pid].LockingAdmins? && s.txs[pid].todo != []
  {
    var tx := s.txs[pid];
    var id, rest := tx.todo[0], tx.todo[1..];
    if id in s.users && s.users[id].role == SUPER_ADMIN then
      s.(locks := s.locks[id := pid],
         txs := s.txs[pid := tx.(todo := rest, seen := tx.seen[id := s.users[id].suspended])])
    else s.(txs := s.txs[pid := tx.(todo := rest)])
  }

  function Apply(s: State, a: Action): State
    requires Enabled(s, a)
  {
    match a
    case BeginStaffWrite(pid, actor, target, change, admins) =>
      s.(txs := s.txs[pid := LockingAdmins(actor, target, change, admins, map[])])
    case LockNextAdmin(pid) => LockAdmin(s, pid)
    case Authorize(pid) =>
      var tx := s.txs[pid];
      if tx.actor in tx.seen && !tx.seen[tx.actor]
      then s.(txs := s.txs[pid := Authorized(tx.actor, tx.target, tx.change)])
      else Ended(s, pid)  // Forbidden
    case LockTarget(pid) =>
      var tx := s.txs[pid];
      if tx.target in s.users && IsStaff(s.users[tx.target].role)
      then s.(locks := s.locks[tx.target := pid], txs := s.txs[pid := TargetLocked(tx.actor, tx.target, tx.change)])
      else Ended(s, pid)  // Staff member not found
    case Write(pid) =>
      var tx := s.txs[pid];
      var user := s.users[tx.target];
      (match tx.change
       case SetRole(role) =>
         if user.role == role then Ended(s, pid)
         else s.(txs := s.txs[pid := Written(tx.actor, tx.target, tx.change, user.(role := role))])
       case Suspend =>
         if user.suspended then Ended(s, pid)
         else s.(txs := s.txs[pid := Written(tx.actor, tx.target, tx.change, user.(suspended := true))])
       case Reinstate =>
         if !user.suspended then Ended(s, pid)
         else s.(txs := s.txs[pid := Written(tx.actor, tx.target, tx.change, user.(suspended := false))]))
    case LockOrganizer(pid, target, suspended) =>
      if s.users[target].role == ORGANIZER
      then s.(locks := s.locks[target := pid], txs := s.txs[pid := OrganizerLocked(target, suspended)])
      else s  // Organizer not found
    case LockStudent(pid, target) =>
      if s.users[target].role == STUDENT
      then s.(locks := s.locks[target := pid], txs := s.txs[pid := StudentLocked(target)])
      else s
    case Commit(pid) =>
      var tx := s.txs[pid];
      var users' :=
        if tx.Written? then s.users[tx.target := tx.user]
        else if tx.OrganizerLocked? && tx.target in s.users
             then s.users[tx.target := s.users[tx.target].(suspended := tx.suspended)]
        else s.users;
      Ended(s.(users := users'), pid)
    case Abort(pid) => Ended(s, pid)
    case Bootstrap(target) => s.(users := s.users[target := User(SUPER_ADMIN, false)])
    case SignUp(target, role) => s.(users := s.users[target := User(role, false)])
  }

  // ---------------------------------------------------------------------------
  // Invariant
  // ---------------------------------------------------------------------------

  ghost predicate Owns(s: State, pid: Pid, id: UserId) {
    id in s.locks && s.locks[id] == pid && id in s.users
  }

  /** The change asked for, and a real one: the role or the suspension is as asked now and
      was not before, and the other is as before. */
  ghost predicate Makes(change: Change, before: User, after: User) {
    match change
    case SetRole(role) => before.role != role && after.role == role && after.suspended == before.suspended
    case Suspend => !before.suspended && after.suspended && after.role == before.role
    case Reinstate => before.suspended && !after.suspended && after.role == before.role
  }

  /** What a transaction relies on: the rows it has read are locked, so what it read
      is still true. */
  ghost predicate TxInv(s: State, pid: Pid, tx: Tx) {
    match tx
    case LockingAdmins(actor, target, _, _, seen) =>
      actor != target &&
      forall id :: id in seen ==> Owns(s, pid, id) && s.users[id] == User(SUPER_ADMIN, seen[id])
    case Authorized(actor, target, _) => actor != target && Owns(s, pid, actor) && IsActiveAdmin(s.users, actor)
    case TargetLocked(actor, target, _) =>
      actor != target && Owns(s, pid, actor) && Owns(s, pid, target) && IsActiveAdmin(s.users, actor)
      && IsStaff(s.users[target].role)
    case Written(actor, target, change, user) =>
      actor != target && Owns(s, pid, actor) && Owns(s, pid, target) && IsActiveAdmin(s.users, actor)
      && IsStaff(s.users[target].role) && Makes(change, s.users[target], user)
    case OrganizerLocked(target, _) => Owns(s, pid, target) && s.users[target].role == ORGANIZER
    case StudentLocked(target) => Owns(s, pid, target)
  }

  ghost predicate Inv(s: State) {
    forall pid :: pid in s.txs ==> TxInv(s, pid, s.txs[pid])
  }

  lemma OtherTxStays(s: State, a: Action, pid: Pid)
    requires Inv(s) && Enabled(s, a) && pid in s.txs && pid in Apply(s, a).txs && Apply(s, a).txs[pid] == s.txs[pid]
    ensures TxInv(Apply(s, a), pid, s.txs[pid])
  {
    var t := Apply(s, a);
    assert TxInv(s, pid, s.txs[pid]);
    forall id | Owns(s, pid, id)
      ensures Owns(t, pid, id) && t.users[id] == s.users[id]
    {
      if a.Commit? { assert TxInv(s, a.pid, s.txs[a.pid]); }
    }
  }

  lemma StepKeepsInv(s: State, a: Action)
    requires Inv(s) && Enabled(s, a)
    ensures Inv(Apply(s, a))
  {
    var t := Apply(s, a);
    forall pid | pid in t.txs
      ensures TxInv(t, pid, t.txs[pid])
    {
      if pid in s.txs {
        assert TxInv(s, pid, s.txs[pid]);
        if t.txs[pid] == s.txs[pid] { OtherTxStays(s, a, pid); }
      }
    }
  }

  /** No committed step ever takes the last active super admin away. */
  lemma StepKeepsSomeoneInCharge(s: State, a: Action)
    requires Inv(s) && Enabled(s, a) && SomeoneInCharge(s.users)
    ensures SomeoneInCharge(Apply(s, a).users)
  {
    var t := Apply(s, a);
    var id :| id in s.users && IsActiveAdmin(s.users, id);
    if a.Commit? && s.txs[a.pid].Written? {
      assert TxInv(s, a.pid, s.txs[a.pid]);
      assert IsActiveAdmin(t.users, s.txs[a.pid].actor);
    } else if a.Commit? {
      assert TxInv(s, a.pid, s.txs[a.pid]);
      assert IsActiveAdmin(t.users, id);
    } else {
      assert IsActiveAdmin(t.users, if a.Bootstrap? then a.target else id);
    }
  }

  // ---------------------------------------------------------------------------
  // Runs
  // ---------------------------------------------------------------------------

  ghost predicate IsRun(states: seq<State>, actions: seq<Action>) {
    |states| == |actions| + 1 && states[0].txs == map[] && states[0].locks == map[] &&
    forall i :: 0 <= i < |actions| ==> Enabled(states[i], actions[i]) && states[i + 1] == Apply(states[i], actions[i])
  }

  lemma {:induction false} RunKeepsInv(states: seq<State>, actions: seq<Action>, n: nat)
    requires IsRun(states, actions) && n < |states|
    ensures Inv(states[n])
    decreases n
  {
    if n > 0 {
      RunKeepsInv(states, actions, n - 1);
      StepKeepsInv(states[n - 1], actions[n - 1]);
      assert states[n - 1 + 1] == Apply(states[n - 1], actions[n - 1]);
    }
  }

  /** Main result: in every run, once there is an active super admin there always is
      one, whatever demotions and suspensions run at the same time. */
  lemma {:induction false} AlwaysSomeoneInCharge(states: seq<State>, actions: seq<Action>, i: nat, j: nat)
    requires IsRun(states, actions) && i <= j < |states| && SomeoneInCharge(states[i].users)
    ensures SomeoneInCharge(states[j].users)
    decreases j - i
  {
    if i < j {
      AlwaysSomeoneInCharge(states, actions, i, j - 1);
      RunKeepsInv(states, actions, j - 1);
      StepKeepsSomeoneInCharge(states[j - 1], actions[j - 1]);
      assert states[j - 1 + 1] == Apply(states[j - 1], actions[j - 1]);
    }
  }

  /** Two super admins demoting or suspending each other cannot both get as far as a
      write, and two writes never aim at the same account. */
  lemma WritersDoNotCross(states: seq<State>, actions: seq<Action>, n: nat, p: Pid, q: Pid)
    requires IsRun(states, actions) && n < |states| && p != q
    requires p in states[n].txs && states[n].txs[p].Written?
    requires q in states[n].txs && states[n].txs[q].Written?
    ensures states[n].txs[p].actor != states[n].txs[q].target && states[n].txs[p].target != states[n].txs[q].target
  {
    RunKeepsInv(states, actions, n);
    assert TxInv(states[n], p, states[n].txs[p]) && TxInv(states[n], q, states[n].txs[q]);
  }

  /** At commit time the actor still is an active super admin, even if the session
      that started the write is older than that. */
  lemma ActorIsInChargeAtCommit(states: seq<State>, actions: seq<Action>, n: nat, p: Pid)
    requires IsRun(states, actions) && n < |actions| && actions[n] == Commit(p) && states[n].txs[p].Written?
    ensures IsActiveAdmin(states[n].users, states[n].txs[p].actor)
    ensures IsActiveAdmin(states[n + 1].users, states[n].txs[p].actor)
  {
    RunKeepsInv(states, actions, n);
    assert TxInv(states[n], p, states[n].txs[p]);
  }

  /** A transaction's parameters are those it was begun with. */
  predicate CarriesOut(tx: Tx, actor: UserId, target: UserId, change: Change) {
    IsStaffWrite(tx) && tx.actor == actor && tx.target == target && tx.change == change
  }

  predicate IsStaffWrite(tx: Tx) {
    tx.LockingAdmins? || tx.Authorized? || tx.TargetLocked? || tx.Written?
  }

  lemma ParametersStay(s: State, a: Action, p: Pid)
    requires Enabled(s, a) && p in Apply(s, a).txs && IsStaffWrite(Apply(s, a).txs[p])
    ensures var tx := Apply(s, a).txs[p];
            if a.BeginStaffWrite? && a.pid == p then CarriesOut(tx, a.actor, a.target, a.change)
            else p in s.txs && IsStaffWrite(s.txs[p]) && CarriesOut(tx, s.txs[p].actor, s.txs[p].target, s.txs[p].change)
  {
  }

  lemma {:induction false} WasBegun(states: seq<State>, actions: seq<Action>, n: nat, p: Pid) returns (m: nat)
    requires IsRun(states, actions) && n < |states| && p in states[n].txs
    requires IsStaffWrite(states[n].txs[p])
    ensures m < n && actions[m].BeginStaffWrite? && actions[m].pid == p
            && CarriesOut(states[n].txs[p], actions[m].actor, actions[m].target, actions[m].change)
    decreases n
  {
    assert n > 0;
    var s, a := states[n - 1], actions[n - 1];
    assert states[n - 1 + 1] == Apply(s, a);
    ParametersStay(s, a, p);
    if a.BeginStaffWrite? && a.pid == p {
      m := n - 1;
    } else {
      m := WasBegun(states, actions, n - 1, p);
    }
  }

  /** A committed write does what was asked when it began, really changes something, and
      touches nobody else: only a staff member's row, and of it only the role or only
      the suspension. */
  lemma CommitMakesTheChange(states: seq<State>, actions: seq<Action>, n: nat, p: Pid) returns (m: nat)
    requires IsRun(states, actions) && n < |actions| && actions[n] == Commit(p) && states[n].txs[p].Written?
    ensures m < n && actions[m].BeginStaffWrite? && actions[m].pid == p
    ensures var target, before, after := actions[m].target, states[n].users, states[n + 1].users;
            target != actions[m].actor && target in before && target in after
            && before[target].role in {OPERATIONS, ADMIN, SUPER_ADMIN} && after[target].role in {OPERATIONS, ADMIN, SUPER_ADMIN}
            && Makes(actions[m].change, before[target], after[target])
            && after == before[target := after[target]]
  {
    RunKeepsInv(states, actions, n);
    assert TxInv(states[n], p, states[n].txs[p]);
    m := WasBegun(states, actions, n, p);
  }

  // ---------------------------------------------------------------------------
  // A write that nobody interrupts
  // ---------------------------------------------------------------------------

  /** Steps one after another, with nothing in between. */
  ghost predicate Leads(s: State, actions: seq<Action>, t: State)
    decreases |actions|
  {
    if actions == [] then s == t else Enabled(s, actions[0]) && Leads(Apply(s, actions[0]), actions[1..], t)
  }

  lemma {:induction false} LeadsOn(s: State, first: seq<Action>, middle: State, then': seq<Action>, t: State)
    requires Leads(s, first, middle) && Leads(middle, then', t)
    ensures Leads(s, first + then', t)
    decreases |first|
  {
    if first == [] {
      assert first + then' == then';
    } else {
      assert (first + then')[1..] == first[1..] + then';
      LeadsOn(Apply(s, first[0]), first[1..], middle, then', t);
    }
  }

  lemma LeadsOneMore(s: State, first: seq<Action>, middle: State, a: Action)
    requires Leads(s, first, middle) && Enabled(middle, a)
    ensures Leads(s, first + [a], Apply(middle, a))
  {
    assert [a][1..] == [];
    LeadsOn(s, first, middle, [a], Apply(middle, a));
  }

  /** The rows a transaction has locked are super admins, suspended or not as it saw. */
  ghost predicate SeenRight(s: State, seen: map<UserId, bool>) {
    forall id :: id in seen ==> id in s.users && s.users[id] == User(SUPER_ADMIN, seen[id])
  }

  /** `lockSuperAdmins`, when no other transaction holds a row: it locks and returns the
      rows asked for that are super admins. */
  lemma {:induction false} LocksAdmins(s: State, pid: Pid) returns (actions: seq<Action>, t: State)
    requires pid in s.txs && s.txs[pid].LockingAdmins? && SeenRight(s, s.txs[pid].seen) && forall id :: CanLock(s, pid, id)
    ensures Leads(s, actions, t) && forall a :: a in actions ==> a == LockNextAdmin(pid)
    ensures t.users == s.users && (forall id :: CanLock(t, pid, id)) && pid in t.txs
    ensures var tx, after := s.txs[pid], t.txs[pid];
            after.LockingAdmins? && after == tx.(todo := [], seen := after.seen) && SeenRight(s, after.seen)
            && (forall id :: id in after.seen <==>
                  id in tx.seen || (id in tx.todo && id in s.users && s.users[id].role == SUPER_ADMIN))
    decreases |s.txs[pid].todo|
  {
    if s.txs[pid].todo == [] {
      actions, t := [], s;
    } else {
      var rest: seq<Action>;
      assert CanLock(s, pid, s.txs[pid].todo[0]);
      var next := Apply(s, LockNextAdmin(pid));
      forall id ensures CanLock(next, pid, id) { assert CanLock(s, pid, id); }
      rest, t := LocksAdmins(next, pid);
      actions := [LockNextAdmin(pid)] + rest;
      assert actions[1..] == rest;
    }
  }

  /** What a staff write is for: the actor, an active super admin, gives a staff member
      another role, or suspends or reinstates them. Anybody else changes nothing. */
  ghost function Decreed(users: map<UserId, User>, actor: UserId, target: UserId, change: Change): map<UserId, User> {
    if actor in users && users[actor].role == SUPER_ADMIN && !users[actor].suspended
       && target in users && users[target].role in {OPERATIONS, ADMIN, SUPER_ADMIN}
    then users[target := match change
                         case SetRole(role) => User(role, users[target].suspended)
                         case Suspend => User(users[target].role, true)
                         case Reinstate => User(users[target].role, false)]
    else users
  }

  /** A transaction's steps after it has locked the super admins. */
  predicate IsLaterStep(a: Action, pid: Pid) {
    a in {Authorize(pid), LockTarget(pid), Write(pid), Commit(pid)}
  }

  lemma Writes(s: State, pid: Pid) returns (actions: seq<Action>, t: State)
    requires pid in s.txs && s.txs[pid].TargetLocked? && IsActiveAdmin(s.users, s.txs[pid].actor)
    requires s.txs[pid].target in s.users && IsStaff(s.users[s.txs[pid].target].role)
    ensures Leads(s, actions, t) && forall a :: a in actions ==> IsLaterStep(a, pid)
    ensures pid !in t.txs && t.users == Decreed(s.users, s.txs[pid].actor, s.txs[pid].target, s.txs[pid].change)
  {
    var tx := s.txs[pid];
    var written := Apply(s, Write(pid));
    LeadsOneMore(s, [], s, Write(pid));
    if pid in written.txs {
      LeadsOneMore(s, [] + [Write(pid)], written, Commit(pid));
      actions, t := [] + [Write(pid)] + [Commit(pid)], Apply(written, Commit(pid));
    } else {
      actions, t := [] + [Write(pid)], written;
    }
  }

  lemma AuthorizesAndWrites(s: State, pid: Pid) returns (actions: seq<Action>, t: State)
    requires pid in s.txs && s.txs[pid].LockingAdmins? && s.txs[pid].todo == [] && (forall id :: CanLock(s, pid, id))
    requires var seen, actor := s.txs[pid].seen, s.txs[pid].actor;
             actor in seen && !seen[actor] <==> IsActiveAdmin(s.users, actor)
    ensures Leads(s, actions, t) && forall a :: a in actions ==> IsLaterStep(a, pid)
    ensures pid !in t.txs && t.users == Decreed(s.users, s.txs[pid].actor, s.txs[pid].target, s.txs[pid].change)
  {
    actions, t := [] + [Authorize(pid)], Apply(s, Authorize(pid));
    LeadsOneMore(s, [], s, Authorize(pid));
    if pid in t.txs {
      assert CanLock(s, pid, s.txs[pid].target);
      LeadsOneMore(s, actions, t, LockTarget(pid));
      actions, t := actions + [LockTarget(pid)], Apply(t, LockTarget(pid));
      if pid in t.txs {
        var rest, end := Writes(t, pid);
        LeadsOn(s, actions, t, rest, end);
        actions, t := actions + rest, end;
      }
    }
  }

  /** From the statement's locks to the commit: with no other transaction in the way a
      staff write ends, having done exactly what it is for. */
  lemma AloneItDoesWhatItIsFor(s: State, pid: Pid, actor: UserId, target: UserId, change: Change, admins: seq<UserId>)
      returns (locking: seq<Action>, later: seq<Action>, t: State)
    requires s.locks == map[] && pid !in s.txs && actor != target && (change.SetRole? ==> IsStaff(change.role))
    requires forall id :: id in admins <==> id in s.users && s.users[id].role == SUPER_ADMIN
    ensures Leads(s, [BeginStaffWrite(pid, actor, target, change, admins)] + (locking + later), t)
    ensures (forall a :: a in locking ==> a == LockNextAdmin(pid)) && (forall a :: a in later ==> IsLaterStep(a, pid))
    ensures pid !in t.txs && t.users == Decreed(s.users, actor, target, change)
  {
    var begin := BeginStaffWrite(pid, actor, target, change, admins);
    var begun, middle := Apply(s, begin), s;
    locking, middle := LocksAdmins(begun, pid);
    later, t := AuthorizesAndWrites(middle, pid);
    LeadsOn(begun, locking, middle, later, t);
    assert ([begin] + (locking + later))[1..] == locking + later;
  }
}
