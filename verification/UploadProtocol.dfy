/** The upload protocol between object storage and database rows
    (lib/actions/mun-branding.ts, lib/actions/mun-documents.ts), step by step, with
    a failure possible at every step and any number of calls at once. */
module UploadProtocol {
  type MunId = string
  type StorageKey = string
  type RowId = nat
  type Pid = nat

  /** The media kinds, and one kind for the rows of `mun_documents`. */
  datatype Kind = LOGO | COVER | GALLERY | SPONSOR | ORGANIZER_LOGO | DOCUMENT

  datatype Row = Row(munId: MunId, kind: Kind, storageKey: StorageKey)

  /** A call in progress. */
  datatype Call =
    | Uploading(munId: MunId, kind: Kind, key: StorageKey)  // the object is being written
    | Stored(munId: MunId, kind: Kind, key: StorageKey)     // written; no transaction yet
    | Locked(munId: MunId, kind: Kind, key: StorageKey)     // transaction open, mun row locked
    | Replacing(munId: MunId, kind: Kind, key: StorageKey, existing: map<RowId, StorageKey>)
      // rows of this kind read (none unless the kind is replaced), about to be deleted
    | Inserted(munId: MunId, kind: Kind, key: StorageKey, existing: map<RowId, StorageKey>, rowId: RowId)
      // deletes and insert done, not committed
    | Cleaning(keys: set<StorageKey>)
      // left to delete: the new object after a failed transaction, or those of removed rows
    | Deleting(rowId: RowId, key: StorageKey)  // a delete call that has read its row

  /** `issued` and `lost` are history: every key generated so far, and the keys
      whose clean-up a fault prevented. */
  datatype State = State(objects: set<StorageKey>, rows: map<RowId, Row>, locks: map<MunId, Pid>, calls: map<Pid, Call>,
                         issued: set<StorageKey>, usedIds: set<RowId>, lost: set<StorageKey>)

  const START := State({}, map[], map[], map[], {}, {}, {})

  predicate ReplacesKind(kind: Kind) {
    kind == LOGO || kind == COVER
  }

  // ---------------------------------------------------------------------------
  // Steps
  // ---------------------------------------------------------------------------

  datatype Action =
    | StartUpload(pid: Pid, munId: MunId, kind: Kind, key: StorageKey)
    | PutObject(pid: Pid)
    | LockMun(pid: Pid)
    | ReadExisting(pid: Pid)
    | WriteRows(pid: Pid, rowId: RowId)
    | Commit(pid: Pid)
    | Throw(pid: Pid)
    | DeleteObject(pid: Pid, key: StorageKey, works: bool)
    | Finish(pid: Pid)
    | StartDelete(pid: Pid, rowId: RowId)
    | DeleteRow(pid: Pid)
    | Crash(pid: Pid)

  predicate InTransaction(c: Call) {
    c.Locked? || c.Replacing? || c.Inserted?
  }

  ghost predicate Enabled(s: State, a: Action) {
    match a
    case StartUpload(pid, _, _, key) => pid !in s.calls && key !in s.issued
    case StartDelete(pid, rowId) => pid !in s.calls && rowId in s.rows
    case PutObject(pid) => pid in s.calls && s.calls[pid].Uploading?
    case LockMun(pid) => pid in s.calls && s.calls[pid].Stored? && s.calls[pid].munId !in s.locks
    case ReadExisting(pid) => pid in s.calls && s.calls[pid].Locked?
    case WriteRows(pid, rowId) => pid in s.calls && s.calls[pid].Replacing? && rowId !in s.usedIds
    case Commit(pid) => pid in s.calls && s.calls[pid].Inserted?
    case Throw(pid) => pid in s.calls && (s.calls[pid].Stored? || InTransaction(s.calls[pid]))
    case DeleteObject(pid, key, _) => pid in s.calls && s.calls[pid].Cleaning? && key in s.calls[pid].keys
    case Finish(pid) => pid in s.calls && s.calls[pid] == Cleaning({})
    case DeleteRow(pid) => pid in s.calls && s.calls[pid].Deleting?
    case Crash(pid) => pid in s.calls
  }

  function Released(locks: map<MunId, Pid>, pid: Pid): map<MunId, Pid> {
    map m | m in locks && locks[m] != pid :: locks[m]
  }

  function Goes(s: State, pid: Pid, c: Call): State {
    s.(calls := s.calls[pid := c])
  }

  ghost function Apply(s: State, a: Action): State
    requires Enabled(s, a)
  {
    match a
    case StartUpload(pid, munId, kind, key) => Goes(s.(issued := s.issued + {key}), pid, Uploading(munId, kind, key))
    case PutObject(pid) =>
      var c := s.calls[pid];
      Goes(s.(objects := s.objects + {c.key}), pid, Stored(c.munId, c.kind, c.key))
    case LockMun(pid) =>
      var c := s.calls[pid];
      Goes(s.(locks := s.locks[c.munId := pid]), pid, Locked(c.munId, c.kind, c.key))
    case ReadExisting(pid) =>
      var c := s.calls[pid];
      var existing := map id | id in s.rows && ReplacesKind(c.kind) && s.rows[id].munId == c.munId
                            && s.rows[id].kind == c.kind :: s.rows[id].storageKey;
      Goes(s, pid, Replacing(c.munId, c.kind, c.key, existing))
    case WriteRows(pid, rowId) =>
      var c := s.calls[pid];
      Goes(s.(usedIds := s.usedIds + {rowId}), pid, Inserted(c.munId, c.kind, c.key, c.existing, rowId))
    case Commit(pid) =>
      var c := s.calls[pid];
      var rows' := (s.rows - c.existing.Keys)[c.rowId := Row(c.munId, c.kind, c.key)];
      Goes(s.(rows := rows', locks := Released(s.locks, pid)), pid, Cleaning(c.existing.Values))
    case Throw(pid) =>
      // quota exceeded, or the database failed: nothing of the transaction remains
      Goes(s.(locks := Released(s.locks, pid)), pid, Cleaning({s.calls[pid].key}))
    case DeleteObject(pid, key, works) =>
      // best effort: a failure is logged and forgotten
      var t := if works then s.(objects := s.objects - {key}) else s.(lost := s.lost + {key});
      Goes(t, pid, Cleaning(s.calls[pid].keys - {key}))
    case Finish(pid) => s.(calls := s.calls - {pid})
    case StartDelete(pid, rowId) => Goes(s, pid, Deleting(rowId, s.rows[rowId].storageKey))
    case DeleteRow(pid) =>
      var c := s.calls[pid];
      Goes(s.(rows := s.rows - {c.rowId}), pid, Cleaning({c.key}))
    case Crash(pid) =>
      s.(calls := s.calls - {pid}, locks := Released(s.locks, pid), lost := s.lost + HandledBy(s.calls[pid]))
  }

  // ---------------------------------------------------------------------------
  // Invariant
  // ---------------------------------------------------------------------------

  /** A call that may still commit a row for its key. */
  predicate Pending(c: Call) {
    c.Uploading? || c.Stored? || InTransaction(c)
  }

  /** Keys whose objects the call will put under a row or delete. */
  function HandledBy(c: Call): set<StorageKey> {
    if Pending(c) then {c.key} else if c.Cleaning? then c.keys else {}
  }

  ghost predicate NotPending(s: State, key: StorageKey) {
    forall p :: p in s.calls && Pending(s.calls[p]) ==> s.calls[p].key != key
  }

  ghost predicate NotInserted(s: State, id: RowId) {
    forall p :: p in s.calls && s.calls[p].Inserted? ==> s.calls[p].rowId != id
  }

  /** `id` is or was the row with this key; no other row has it or ever will, and
      the id will not come back. */
  ghost predicate OnlyRow(s: State, id: RowId, key: StorageKey) {
    key in s.issued && NotPending(s, key) && id in s.usedIds && NotInserted(s, id)
    && (id in s.rows ==> s.rows[id].storageKey == key)
    && forall r :: r in s.rows && s.rows[r].storageKey == key ==> r == id
  }

  /** No row has this key, and none ever will. */
  ghost predicate Retired(s: State, key: StorageKey) {
    key in s.issued && NotPending(s, key) && forall r :: r in s.rows ==> s.rows[r].storageKey != key
  }

  /** A call's new object is there, under nobody else's name. */
  ghost predicate PendingInv(s: State, pid: Pid, c: Call) {
    Pending(c) ==>
      c.key in s.issued && (c.Uploading? || c.key in s.objects)
      && (forall r :: r in s.rows ==> s.rows[r].storageKey != c.key)
      && (forall q :: q in s.calls && q != pid && Pending(s.calls[q]) ==> s.calls[q].key != c.key)
  }

  ghost predicate LockInv(s: State, pid: Pid, c: Call) {
    InTransaction(c) ==> c.munId in s.locks && s.locks[c.munId] == pid
  }

  /** A MUN's logo or cover. Of the other kinds a MUN can have many. */
  ghost predicate InSlot(row: Row, munId: MunId, kind: Kind) {
    (kind == LOGO || kind == COVER) && row.munId == munId && row.kind == kind
  }

  /** Rows of a replaced kind are among those the transaction read: only the holder
      of the mun's lock adds any. */
  ghost predicate ReplacingInv(s: State, c: Call) {
    c.Replacing? || c.Inserted? ==>
      (forall id :: id in c.existing ==> OnlyRow(s, id, c.existing[id]))
      && (forall id :: id in c.existing && id in s.rows ==> InSlot(s.rows[id], c.munId, c.kind))
      && (forall r :: r in s.rows && ReplacesKind(c.kind) && s.rows[r].munId == c.munId && s.rows[r].kind == c.kind
            ==> r in c.existing)
  }

  ghost predicate InsertInv(s: State, pid: Pid, c: Call) {
    c.Inserted? ==>
      c.rowId in s.usedIds && c.rowId !in s.rows
      && forall q :: q in s.calls && q != pid && s.calls[q].Inserted? ==> s.calls[q].rowId != c.rowId
  }

  ghost predicate DeletionInv(s: State, c: Call) {
    (c.Cleaning? ==> forall k :: k in c.keys ==> Retired(s, k)) &&
    (c.Deleting? ==> OnlyRow(s, c.rowId, c.key))
  }

  ghost predicate CallInv(s: State, pid: Pid, c: Call) {
    PendingInv(s, pid, c) && LockInv(s, pid, c) && ReplacingInv(s, c) && InsertInv(s, pid, c) && DeletionInv(s, c)
  }

  /** Two rows of a kind a MUN has at most one of. */
  ghost predicate SameSlot(a: Row, b: Row) {
    InSlot(b, a.munId, a.kind)
  }

  ghost predicate RowsInv(s: State) {
    (forall r :: r in s.rows ==> s.rows[r].storageKey in s.objects && s.rows[r].storageKey in s.issued && r in s.usedIds) &&
    (forall q, r :: q in s.rows && r in s.rows && s.rows[q].storageKey == s.rows[r].storageKey ==> q == r) &&
    (forall q, r :: q in s.rows && r in s.rows && SameSlot(s.rows[q], s.rows[r]) ==> q == r)
  }

  ghost predicate UnderRow(s: State, key: StorageKey) {
    exists r :: r in s.rows && s.rows[r].storageKey == key
  }

  ghost predicate InHand(s: State, key: StorageKey) {
    exists p :: p in s.calls && key in HandledBy(s.calls[p])
  }

  /** Every stored object belongs to a row, to a call that will deal with it, or was
      lost to a fault. */
  ghost predicate Accounted(s: State, key: StorageKey) {
    UnderRow(s, key) || InHand(s, key) || key in s.lost
  }

  ghost predicate Inv(s: State) {
    RowsInv(s) && (forall p :: p in s.calls ==> CallInv(s, p, s.calls[p])) &&
    (forall k :: k in s.objects ==> Accounted(s, k))
  }

  // ---------------------------------------------------------------------------
  // Every step keeps it
  // ---------------------------------------------------------------------------

  /** A call about to commit a row was already about to, unless it just began. */
  lemma PendingBefore(s: State, a: Action, p: Pid)
    requires Enabled(s, a) && p in Apply(s, a).calls && Pending(Apply(s, a).calls[p])
    ensures var key := Apply(s, a).calls[p].key;
            if a.StartUpload? && p == a.pid then key == a.key
            else p in s.calls && Pending(s.calls[p]) && s.calls[p].key == key
  {
  }

  lemma RetiredStays(s: State, a: Action, k: StorageKey)
    requires Inv(s) && Enabled(s, a) && Retired(s, k)
    ensures Retired(Apply(s, a), k)
  {
    if a.Commit? { assert CallInv(s, a.pid, s.calls[a.pid]); }
  }

  lemma OnlyRowStays(s: State, a: Action, id: RowId, k: StorageKey)
    requires Inv(s) && Enabled(s, a) && OnlyRow(s, id, k)
    ensures OnlyRow(Apply(s, a), id, k)
  {
    var t := Apply(s, a);
    if a.Commit? { assert CallInv(s, a.pid, s.calls[a.pid]); }
    assert k in t.issued && id in t.usedIds;
    assert NotInserted(t, id);
    forall p | p in t.calls && Pending(t.calls[p])
      ensures t.calls[p].key != k
    {
      PendingBefore(s, a, p);
    }
  }

  /** Right now, the row `id` is the only one its key has. */
  lemma RowIsOnlyRow(s: State, id: RowId)
    requires Inv(s) && id in s.rows
    ensures OnlyRow(s, id, s.rows[id].storageKey)
  {
    forall p | p in s.calls
      ensures Pending(s.calls[p]) ==> s.calls[p].key != s.rows[id].storageKey
      ensures s.calls[p].Inserted? ==> s.calls[p].rowId != id
    {
      assert CallInv(s, p, s.calls[p]);
    }
  }

  lemma CommittedRows(s: State, pid: Pid)
    requires Inv(s) && Enabled(s, Commit(pid))
    ensures RowsInv(Apply(s, Commit(pid)))
  {
    var c, t := s.calls[pid], Apply(s, Commit(pid));
    assert CallInv(s, pid, c);
    forall r | r in t.rows
      ensures r == c.rowId || (r in s.rows && t.rows[r] == s.rows[r] && r !in c.existing)
    {
    }
    assert t.objects == s.objects && t.issued == s.issued && t.usedIds == s.usedIds;
    forall q, r | q in t.rows && r in t.rows && SameSlot(t.rows[q], t.rows[r])
      ensures q == r
    {
      if q != c.rowId && r != c.rowId { assert SameSlot(s.rows[q], s.rows[r]); }
    }
  }

  lemma RowsStay(s: State, a: Action)
    requires Inv(s) && Enabled(s, a)
    ensures RowsInv(Apply(s, a))
  {
    if a.Commit? {
      CommittedRows(s, a.pid);
    } else {
      var t := Apply(s, a);
      if a.DeleteObject? {
        assert CallInv(s, a.pid, s.calls[a.pid]);
        assert Retired(s, a.key);
      }
      assert s.issued <= t.issued && s.usedIds <= t.usedIds;
      forall r | r in t.rows
        ensures r in s.rows && t.rows[r] == s.rows[r] && t.rows[r].storageKey in t.objects
      {
      }
      forall q, r | q in t.rows && r in t.rows && SameSlot(t.rows[q], t.rows[r])
        ensures q == r
      {
        assert SameSlot(s.rows[q], s.rows[r]);
      }
    }
  }

  lemma PendingHasNoRow(s: State, a: Action, p: Pid, r: RowId)
    requires Inv(s) && Enabled(s, a) && p in Apply(s, a).calls && Pending(Apply(s, a).calls[p])
    requires r in Apply(s, a).rows
    ensures Apply(s, a).rows[r].storageKey != Apply(s, a).calls[p].key
  {
    PendingBefore(s, a, p);
    if p in s.calls { assert CallInv(s, p, s.calls[p]); }
    if a.Commit? { assert CallInv(s, a.pid, s.calls[a.pid]); }
  }

  lemma PendingIsStored(s: State, a: Action, p: Pid)
    requires Inv(s) && Enabled(s, a) && p in Apply(s, a).calls && Pending(Apply(s, a).calls[p])
    ensures var t := Apply(s, a);
            t.calls[p].key in t.issued && (t.calls[p].Uploading? || t.calls[p].key in t.objects)
  {
    PendingBefore(s, a, p);
    if p in s.calls { assert CallInv(s, p, s.calls[p]); }
    if a.DeleteObject? {
      assert CallInv(s, a.pid, s.calls[a.pid]);
      assert Retired(s, a.key);
    }
  }

  lemma PendingStays(s: State, a: Action, p: Pid)
    requires Inv(s) && Enabled(s, a) && p in Apply(s, a).calls
    ensures PendingInv(Apply(s, a), p, Apply(s, a).calls[p])
  {
    var t := Apply(s, a);
    if Pending(t.calls[p]) {
      PendingIsStored(s, a, p);
      PendingBefore(s, a, p);
      forall r | r in t.rows ensures t.rows[r].storageKey != t.calls[p].key { PendingHasNoRow(s, a, p, r); }
      forall q | q in t.calls && q != p && Pending(t.calls[q])
        ensures t.calls[q].key != t.calls[p].key
      {
        PendingBefore(s, a, q);
        if p in s.calls { assert CallInv(s, p, s.calls[p]); }
        if q in s.calls { assert CallInv(s, q, s.calls[q]); }
      }
    }
  }

  lemma LockStays(s: State, a: Action, p: Pid)
    requires Inv(s) && Enabled(s, a) && p in Apply(s, a).calls
    ensures LockInv(Apply(s, a), p, Apply(s, a).calls[p])
  {
    if p in s.calls { assert CallInv(s, p, s.calls[p]); }
  }

  lemma ExistingStay(s: State, a: Action, p: Pid, id: RowId)
    requires Inv(s) && Enabled(s, a) && p in Apply(s, a).calls
    requires var c := Apply(s, a).calls[p]; (c.Replacing? || c.Inserted?) && id in c.existing
    ensures var t, c := Apply(s, a), Apply(s, a).calls[p];
            OnlyRow(t, id, c.existing[id]) && (id in t.rows ==> InSlot(t.rows[id], c.munId, c.kind))
  {
    var c := Apply(s, a).calls[p];
    assert CallInv(s, p, s.calls[p]);
    if a.Commit? { assert CallInv(s, a.pid, s.calls[a.pid]); }
    if p == a.pid && a.ReadExisting? { RowIsOnlyRow(s, id); }
    OnlyRowStays(s, a, id, c.existing[id]);
  }

  lemma ReplacingStays(s: State, a: Action, p: Pid)
    requires Inv(s) && Enabled(s, a) && p in Apply(s, a).calls
    ensures ReplacingInv(Apply(s, a), Apply(s, a).calls[p])
  {
    var t := Apply(s, a);
    var c := t.calls[p];
    if c.Replacing? || c.Inserted? {
      assert CallInv(s, p, s.calls[p]);
      if a.Commit? { assert CallInv(s, a.pid, s.calls[a.pid]); }
      forall id | id in c.existing
        ensures OnlyRow(t, id, c.existing[id]) && (id in t.rows ==> InSlot(t.rows[id], c.munId, c.kind))
      {
        ExistingStay(s, a, p, id);
      }
    }
  }

  lemma InsertStays(s: State, a: Action, p: Pid)
    requires Inv(s) && Enabled(s, a) && p in Apply(s, a).calls
    ensures InsertInv(Apply(s, a), p, Apply(s, a).calls[p])
  {
    if p in s.calls { assert CallInv(s, p, s.calls[p]); }
    if a.pid in s.calls { assert CallInv(s, a.pid, s.calls[a.pid]); }
    forall q | q in s.calls ensures InsertInv(s, q, s.calls[q]) { assert CallInv(s, q, s.calls[q]); }
  }

  lemma DeletionStays(s: State, a: Action, p: Pid)
    requires Inv(s) && Enabled(s, a) && p in Apply(s, a).calls
    ensures DeletionInv(Apply(s, a), Apply(s, a).calls[p])
  {
    var t := Apply(s, a);
    var c := t.calls[p];
    if p in s.calls { assert CallInv(s, p, s.calls[p]); }
    if c.Cleaning? {
      forall k | k in c.keys
        ensures Retired(t, k)
      {
        if p != a.pid || a.DeleteObject? {
          RetiredStays(s, a, k);
        } else if a.Commit? {
          var id :| id in s.calls[p].existing && s.calls[p].existing[id] == k;
          assert OnlyRow(s, id, k);
          OnlyRowStays(s, a, id, k);
        } else if a.DeleteRow? {
          OnlyRowStays(s, a, s.calls[p].rowId, k);
        }
      }
    }
    if c.Deleting? {
      if p == a.pid {
        RowIsOnlyRow(s, c.rowId);
      }
      OnlyRowStays(s, a, c.rowId, c.key);
    }
  }

  lemma UnderRowStays(s: State, a: Action, r: RowId)
    requires Inv(s) && Enabled(s, a) && r in s.rows
    ensures Accounted(Apply(s, a), s.rows[r].storageKey)
  {
    var t, k := Apply(s, a), s.rows[r].storageKey;
    if r in t.rows && t.rows[r].storageKey == k {
      assert UnderRow(t, k);
    } else {
      var c := s.calls[a.pid];
      assert CallInv(s, a.pid, c);
      if a.Commit? {
        assert r in c.existing && OnlyRow(s, r, c.existing[r]);
        assert k in c.existing.Values;
      } else {
        assert a.DeleteRow? && OnlyRow(s, c.rowId, c.key);
      }
      assert k in HandledBy(t.calls[a.pid]);
    }
  }

  lemma InHandStays(s: State, a: Action, p: Pid, k: StorageKey)
    requires Inv(s) && Enabled(s, a) && p in s.calls && k in HandledBy(s.calls[p]) && k in Apply(s, a).objects
    ensures Accounted(Apply(s, a), k)
  {
    var t := Apply(s, a);
    if p != a.pid {
      assert t.calls[p] == s.calls[p];
    } else if a.Commit? {
      assert t.rows[s.calls[p].rowId].storageKey == k;
    } else if p in t.calls && k in HandledBy(t.calls[p]) {
      assert InHand(t, k);
    } else {
      assert a.Crash? || (a.DeleteObject? && k == a.key);
      assert k in t.lost;
    }
  }

  lemma ObjectsStay(s: State, a: Action, k: StorageKey)
    requires Inv(s) && Enabled(s, a) && k in Apply(s, a).objects
    ensures Accounted(Apply(s, a), k)
  {
    var t := Apply(s, a);
    if k !in s.objects {
      assert a.PutObject? && k in HandledBy(t.calls[a.pid]);
    } else if UnderRow(s, k) {
      var r :| r in s.rows && s.rows[r].storageKey == k;
      UnderRowStays(s, a, r);
    } else if InHand(s, k) {
      var p :| p in s.calls && k in HandledBy(s.calls[p]);
      InHandStays(s, a, p, k);
    } else {
      assert Accounted(s, k);
    }
  }

  lemma StepKeepsInv(s: State, a: Action)
    requires Inv(s) && Enabled(s, a)
    ensures Inv(Apply(s, a))
  {
    var t := Apply(s, a);
    RowsStay(s, a);
    forall p | p in t.calls
      ensures CallInv(t, p, t.calls[p])
    {
      PendingStays(s, a, p);
      LockStays(s, a, p);
      ReplacingStays(s, a, p);
      InsertStays(s, a, p);
      DeletionStays(s, a, p);
    }
    forall k | k in t.objects ensures Accounted(t, k) { ObjectsStay(s, a, k); }
  }

  // ---------------------------------------------------------------------------
  // Main results
  // ---------------------------------------------------------------------------

  ghost predicate IsRun(states: seq<State>, actions: seq<Action>) {
    |states| == |actions| + 1 && states[0] == START &&
    forall i :: 0 <= i < |actions| ==> Enabled(states[i], actions[i]) && states[i + 1] == Apply(states[i], actions[i])
  }

  lemma {:induction false} RunKeepsInv(states: seq<State>, actions: seq<Action>, n: nat)
    requires IsRun(states, actions) && n < |states|
    ensures Inv(states[n])
    decreases n
  {
    if n > 0 {
      RunKeepsInv(states, actions, n - 1);
      StepKeepsInv(states[n - 1], actions[n - 1]);
      assert states[n - 1 + 1] == Apply(states[n - 1], actions[n - 1]);
    }
  }

  /** At every moment, with calls interleaved and failing anywhere, every row's
      storage key has a stored object, no two rows share one, and a MUN has at most
      one LOGO and one COVER row. */
  lemma RowsAlwaysHaveObjects(states: seq<State>, actions: seq<Action>, n: nat, q: RowId, r: RowId)
    requires IsRun(states, actions) && n < |states| && q in states[n].rows && r in states[n].rows
    ensures states[n].rows[q].storageKey in states[n].objects
    ensures states[n].rows[q].storageKey == states[n].rows[r].storageKey ==> q == r
    ensures SameSlot(states[n].rows[q], states[n].rows[r]) ==> q == r
  {
    RunKeepsInv(states, actions, n);
  }

  /** The call was started with these parameters. */
  lemma {:induction false} WasStarted(states: seq<State>, actions: seq<Action>, n: nat, p: Pid) returns (m: nat)
    requires IsRun(states, actions) && n < |states| && p in states[n].calls && Pending(states[n].calls[p])
    ensures m < n && var c := states[n].calls[p]; actions[m] == StartUpload(p, c.munId, c.kind, c.key)
    decreases n
  {
    assert n > 0;
    var s, a := states[n - 1], actions[n - 1];
    assert states[n - 1 + 1] == Apply(s, a);
    PendingBefore(s, a, p);
    if a.StartUpload? && a.pid == p { m := n - 1; } else { m := WasStarted(states, actions, n - 1, p); }
  }

  /** An upload that commits adds the row it was started for. A logo or cover takes the
      place of the MUN's old one, whatever happened in between; no other row goes, and
      no row that stays changes. */
  lemma CommitTakesItsPlace(states: seq<State>, actions: seq<Action>, n: nat, p: Pid) returns (m: nat)
    requires IsRun(states, actions) && n < |actions| && actions[n] == Commit(p)
    ensures m < n && actions[m].StartUpload? && actions[m].pid == p
    ensures var a, id, before, after := actions[m], states[n].calls[p].rowId, states[n].rows, states[n + 1].rows;
            id !in before && id in after && after[id] == Row(a.munId, a.kind, a.key)
            && (forall r :: r in after && r != id ==> r in before && after[r] == before[r])
            && (forall r :: r in before ==> (r !in after <==> InSlot(before[r], a.munId, a.kind)))
  {
    RunKeepsInv(states, actions, n);
    m := WasStarted(states, actions, n, p);
    assert CallInv(states[n], p, states[n].calls[p]);
    assert states[n + 1] == Apply(states[n], actions[n]);
  }

  /** The step leaves an object behind that nobody will delete: the call in charge of it
      crashes, or tries to delete it and cannot. */
  ghost predicate Abandons(s: State, a: Action, key: StorageKey) {
    match a
    case Crash(p) =>
      p in s.calls && !s.calls[p].Deleting? && (if s.calls[p].Cleaning? then key in s.calls[p].keys else key == s.calls[p].key)
    case DeleteObject(_, k, works) => k == key && !works
    case _ => false
  }

  lemma {:induction false} LostByFault(states: seq<State>, actions: seq<Action>, n: nat, key: StorageKey) returns (m: nat)
    requires IsRun(states, actions) && n < |states| && key in states[n].lost
    ensures m < n && Abandons(states[m], actions[m], key)
    decreases n
  {
    assert n > 0;
    assert states[n - 1 + 1] == Apply(states[n - 1], actions[n - 1]);
    if key in states[n - 1].lost { m := LostByFault(states, actions, n - 1, key); } else { m := n - 1; }
  }

  /** Objects never leak silently: once no call is in progress, a stored object with
      no row was left by a crash or by a clean-up that failed. */
  lemma LeftoversAreFaults(states: seq<State>, actions: seq<Action>, n: nat, key: StorageKey)
    requires IsRun(states, actions) && n < |states| && states[n].calls == map[] && key in states[n].objects
    ensures (exists r :: r in states[n].rows && states[n].rows[r].storageKey == key)
         || exists m :: 0 <= m < n && Abandons(states[m], actions[m], key)
  {
    RunKeepsInv(states, actions, n);
    assert Accounted(states[n], key);
    if key in states[n].lost { var m := LostByFault(states, actions, n, key); }
  }

  // ---------------------------------------------------------------------------
  // An upload that nobody interrupts
  // ---------------------------------------------------------------------------

  /** Steps one after another, with nothing in between. */
  ghost predicate Leads(s: State, actions: seq<Action>, t: State)
    decreases |actions|
  {
    if actions == [] then s == t else Enabled(s, actions[0]) && Leads(Apply(s, actions[0]), actions[1..], t)
  }

  lemma LeadsFrom(s: State, a: Action, more: seq<Action>, t: State)
    requires Enabled(s, a) && Leads(Apply(s, a), more, t)
    ensures Leads(s, [a] + more, t)
  {
    assert ([a] + more)[1..] == more;
  }

  /** The rows an upload takes the place of, as the transaction reads them. */
  ghost function Replaced(s: State, munId: MunId, kind: Kind): map<RowId, StorageKey> {
    map r | r in s.rows && InSlot(s.rows[r], munId, kind) :: s.rows[r].storageKey
  }

  /** The clean-up after the commit; of a kind that is replaced there was at most one. */
  lemma CleansUp(s: State, pid: Pid) returns (actions: seq<Action>, t: State)
    requires s.calls.Keys == {pid} && s.calls[pid].Cleaning?
    requires forall k, l :: k in s.calls[pid].keys && l in s.calls[pid].keys ==> k == l
    ensures Leads(s, actions, t)
    ensures t == s.(objects := s.objects - s.calls[pid].keys, calls := map[])
  {
    t := s.(objects := s.objects - s.calls[pid].keys, calls := map[]);
    if s.calls[pid].keys == {} {
      assert Apply(s, Finish(pid)) == t;
      LeadsFrom(s, Finish(pid), [], t);
      actions := [Finish(pid)] + [];
    } else {
      var key :| key in s.calls[pid].keys;
      assert s.calls[pid].keys == {key};
      var cleaned := Apply(s, DeleteObject(pid, key, true));
      assert cleaned.calls[pid] == Cleaning({}) && Apply(cleaned, Finish(pid)) == t;
      LeadsFrom(cleaned, Finish(pid), [], t);
      LeadsFrom(s, DeleteObject(pid, key, true), [Finish(pid)] + [], t);
      actions := [DeleteObject(pid, key, true)] + ([Finish(pid)] + []);
    }
  }

  /** From the transaction to its commit. */
  lemma TransactionAlone(s: State, pid: Pid, rowId: RowId) returns (t: State)
    requires s.locks == map[] && s.calls.Keys == {pid} && s.calls[pid].Stored? && rowId !in s.usedIds
    ensures Leads(s, [LockMun(pid), ReadExisting(pid), WriteRows(pid, rowId), Commit(pid)], t)
    ensures var c := s.calls[pid];
            var old' := Replaced(s, c.munId, c.kind);
            t == s.(rows := (s.rows - old'.Keys)[rowId := Row(c.munId, c.kind, c.key)], usedIds := s.usedIds + {rowId},
                    calls := map[pid := Cleaning(old'.Values)])
  {
    var locked := Apply(s, LockMun(pid));
    var read := Apply(locked, ReadExisting(pid));
    assert read.calls[pid].existing == Replaced(s, s.calls[pid].munId, s.calls[pid].kind);
    var written := Apply(read, WriteRows(pid, rowId));
    t := Apply(written, Commit(pid));
    LeadsFrom(written, Commit(pid), [], t);
    LeadsFrom(read, WriteRows(pid, rowId), [Commit(pid)] + [], t);
    LeadsFrom(locked, ReadExisting(pid), [WriteRows(pid, rowId)] + ([Commit(pid)] + []), t);
    LeadsFrom(s, LockMun(pid), [ReadExisting(pid)] + ([WriteRows(pid, rowId)] + ([Commit(pid)] + [])), t);
    assert [LockMun(pid)] + ([ReadExisting(pid)] + ([WriteRows(pid, rowId)] + ([Commit(pid)] + [])))
        == [LockMun(pid), ReadExisting(pid), WriteRows(pid, rowId), Commit(pid)];
    assert t.locks == map[];
  }

  lemma {:induction false} LeadsOn(s: State, first: seq<Action>, middle: State, more: seq<Action>, t: State)
    requires Leads(s, first, middle) && Leads(middle, more, t)
    ensures Leads(s, first + more, t)
    decreases |first|
  {
    if first == [] {
      assert first + more == more;
    } else {
      assert (first + more)[1..] == first[1..] + more;
      LeadsOn(Apply(s, first[0]), first[1..], middle, more, t);
    }
  }

  /** Between calls an upload on its own stores its object and adds its row; a logo or
      cover takes the old one's place, row and object; nothing else changes, and no call
      and no lock is left. */
  lemma UploadAlone(s: State, pid: Pid, munId: MunId, kind: Kind, key: StorageKey, rowId: RowId)
      returns (actions: seq<Action>, t: State)
    requires Inv(s) && s.calls == map[] && s.locks == map[] && key !in s.issued && rowId !in s.usedIds
    ensures Leads(s, actions, t) && t.calls == map[] && t.locks == map[] && t.lost == s.lost
    ensures var old' := Replaced(s, munId, kind);
            t.rows == (s.rows - old'.Keys)[rowId := Row(munId, kind, key)]
            && t.objects == s.objects + {key} - old'.Values
  {
    var start := StartUpload(pid, munId, kind, key);
    var started := Apply(s, start);
    var stored := Apply(started, PutObject(pid));
    var committed := TransactionAlone(stored, pid, rowId);
    assert Replaced(stored, munId, kind) == Replaced(s, munId, kind);
    forall k, l | k in Replaced(s, munId, kind).Values && l in Replaced(s, munId, kind).Values
      ensures k == l
    {
      var q :| q in Replaced(s, munId, kind) && s.rows[q].storageKey == k;
      var r :| r in Replaced(s, munId, kind) && s.rows[r].storageKey == l;
      assert SameSlot(s.rows[q], s.rows[r]);
    }
    var cleaning;
    cleaning, t := CleansUp(committed, pid);
    actions := [LockMun(pid), ReadExisting(pid), WriteRows(pid, rowId), Commit(pid)] + cleaning;
    LeadsOn(stored, [LockMun(pid), ReadExisting(pid), WriteRows(pid, rowId), Commit(pid)], committed, cleaning, t);
    LeadsFrom(started, PutObject(pid), actions, t);
    LeadsFrom(s, start, [PutObject(pid)] + actions, t);
    actions := [start] + ([PutObject(pid)] + actions);
  }
}
