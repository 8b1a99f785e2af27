/** What the deletion plan does: it stops exactly at cycles, never breaks a
    foreign key on the way, removes exactly the doomed rows, and the dry run
    counts its deletions exactly. */
module DeletionProofs {
  import opened Common
  import opened DeletionPlanner
  import opened SetSizes

  // ---------------------------------------------------------------------------
  // Planning stops exactly at a reachable NOT NULL cycle
  // ---------------------------------------------------------------------------

  /** A NOT NULL foreign key leads from `parent` to a table outside `skip`. */
  ghost predicate Edge(schema: Schema, skip: set<Table>, parent: Table, child: Table) {
    child !in skip && ForeignKeyBetween(schema, parent, child)
  }

  ghost predicate ForeignKeyBetween(schema: Schema, parent: Table, child: Table) {
    exists f :: f in schema.foreignKeys && f.parent == parent && f.table == child && !f.nullable
  }

  ghost predicate IsWalk(schema: Schema, skip: set<Table>, walk: seq<Table>) {
    walk != [] && forall i :: 0 < i < |walk| ==> Edge(schema, skip, walk[i - 1], walk[i])
  }

  ghost predicate Revisits(walk: seq<Table>) {
    exists i, j :: 0 <= i < j < |walk| && walk[i] == walk[j]
  }

  /** A walk from the root that comes back to a table it has been to. */
  ghost predicate CyclicWalk(schema: Schema, skip: set<Table>, root: Table, walk: seq<Table>) {
    IsWalk(schema, skip, walk) && walk[0] == root && Revisits(walk)
  }

  /** What is thrown is the offending walk. */
  lemma {:induction false} ThrownWalk(schema: Schema, refs: seq<ForeignKey>, where: Where, path: seq<Table>, skip: set<Table>)
    requires WellFormed(schema) && IsPath(schema, path) && IsWalk(schema, skip, path)
    requires forall f :: f in refs ==> f in schema.foreignKeys && f.parent == path[|path| - 1]
    requires PlanEach(schema, refs, where, path, skip).Failure?
    ensures CyclicWalk(schema, skip, path[0], PlanEach(schema, refs, where, path, skip).error)
    decreases Unvisited(schema, path), |refs|
  {
    var ref := refs[0];
    if PlanOne(schema, ref, where, path, skip).Failure? {
      var walk := path + [ref.table];
      assert Edge(schema, skip, path[|path| - 1], ref.table);
      assert IsWalk(schema, skip, walk);
      if ref.table in path {
        var i :| 0 <= i < |path| && path[i] == ref.table;
        assert walk[i] == walk[|path|];
      } else {
        assert ref.table in Unvisited(schema, path) && ref.table !in Unvisited(schema, walk);
        var childWhere := References(ref.column, ref.parent, where);
        assert PlanOne(schema, ref, where, path, skip) == Plan(schema, ref.table, childWhere, walk, skip);
        ThrownWalk(schema, ForeignKeysInto(schema.foreignKeys, ref.table), childWhere, walk, skip);
      }
    } else {
      ThrownWalk(schema, refs[1..], where, path, skip);
    }
  }

  /** No cyclic walk that extends `path` gets past the planner. */
  lemma {:induction false} CycleIsFound(schema: Schema, refs: seq<ForeignKey>, where: Where, path: seq<Table>,
                                        skip: set<Table>, walk: seq<Table>)
    requires WellFormed(schema) && IsPath(schema, path) && path != []
    requires forall f :: f in refs ==> f in schema.foreignKeys
    requires IsWalk(schema, skip, walk) && Revisits(walk) && |path| < |walk| && path == walk[..|path|]
    requires exists f :: f in refs && f.parent == path[|path| - 1] && f.table == walk[|path|] && !f.nullable
    ensures PlanEach(schema, refs, where, path, skip).Failure?
    decreases Unvisited(schema, path), |refs|
  {
    var ref, next := refs[0], walk[|path|];
    assert Edge(schema, skip, walk[|path| - 1], next);
    if ref.parent == path[|path| - 1] && ref.table == next && !ref.nullable {
      if next !in path {
        var longer := path + [next];
        assert longer == walk[..|longer|];
        assert next in Unvisited(schema, path) && next !in Unvisited(schema, longer);
        if |longer| == |walk| {
          assert false;  // a path visits no table twice, the walk does
        } else {
          assert Edge(schema, skip, walk[|longer| - 1], walk[|longer|]);
          var childWhere := References(ref.column, ref.parent, where);
          CycleIsFound(schema, ForeignKeysInto(schema.foreignKeys, next), childWhere, longer, skip, walk);
          assert PlanOne(schema, ref, where, path, skip) == Plan(schema, ref.table, childWhere, longer, skip);
        }
      }
    } else {
      var f :| f in refs && f.parent == path[|path| - 1] && f.table == next && !f.nullable;
      assert f in refs[1..];
      CycleIsFound(schema, refs[1..], where, path, skip, walk);
    }
  }

  /** Planning a pass terminates (the recursion is well founded on the tables not
      yet on the path) and throws if and only if a NOT NULL cycle is reachable. */
  lemma PlanThrowsExactlyAtCycles(schema: Schema, root: Table, where: Where, skip: set<Table>)
    requires WellFormed(schema) && root in schema.tables
    ensures Plan(schema, root, where, [root], skip).Failure? <==> exists walk :: CyclicWalk(schema, skip, root, walk)
  {
    var refs := ForeignKeysInto(schema.foreignKeys, root);
    if Plan(schema, root, where, [root], skip).Failure? {
      ThrownWalk(schema, refs, where, [root], skip);
    } else if walk :| CyclicWalk(schema, skip, root, walk) {
      assert [root] == walk[..1] && Edge(schema, skip, walk[0], walk[1]);
      CycleIsFound(schema, refs, where, [root], skip, walk);
    }
  }

  // ---------------------------------------------------------------------------
  // Referential integrity
  // ---------------------------------------------------------------------------

  /** A column is nullable or not, whichever constraint mentions it. */
  ghost predicate Consistent(schema: Schema) {
    WellFormed(schema) &&
    forall f, g :: f in schema.foreignKeys && g in schema.foreignKeys && f.table == g.table && f.column == g.column
      ==> f.nullable == g.nullable
  }

  ghost predicate Holds(db: Db, f: ForeignKey) {
    forall id :: id in RowsOf(db, f.table) ==>
      var target := Cell(RowsOf(db, f.table)[id], f.column);
      (target.Some? ==> target.value in RowsOf(db, f.parent)) && (target.None? ==> f.nullable)
  }

  /** Every foreign key points at a row that is there. */
  ghost predicate Integrity(schema: Schema, db: Db) {
    forall f :: f in schema.foreignKeys ==> Holds(db, f)
  }

  /** The column is not one the plan may null. */
  ghost predicate Solid(schema: Schema, table: Table, column: Column) {
    forall f :: f in schema.foreignKeys && f.table == table && f.column == column ==> !f.nullable
  }

  /** `small` keeps some of the rows of `big`, with nothing changed but nullable
      columns nulled. */
  ghost predicate Shrunk(schema: Schema, small: Db, big: Db) {
    forall t, id :: id in RowsOf(small, t) ==>
      id in RowsOf(big, t) && RowShrunk(schema, t, RowsOf(small, t)[id], RowsOf(big, t)[id])
  }

  ghost predicate RowShrunk(schema: Schema, t: Table, small: Row, big: Row) {
    forall c :: Cell(small, c) == Cell(big, c) || (Cell(small, c) == None && !Solid(schema, t, c))
  }

  /** Conditions that only look at NOT NULL columns and follow real foreign keys. */
  ghost predicate SolidWhere(schema: Schema, table: Table, where: Where)
    decreases where
  {
    match where
    case IdNotIn(_) => true
    case ColumnNotIn(column, _) => Solid(schema, table, column)
    case References(column, parent, condition) =>
      ForeignKey(table, column, false, parent) in schema.foreignKeys && SolidWhere(schema, parent, condition)
  }

  ghost predicate SolidOp(schema: Schema, op: Op) {
    match op
    case Delete(table, where) => SolidWhere(schema, table, where)
    case SetNull(table, column, where) =>
      where.References? && where.column == column && SolidWhere(schema, where.parent, where.condition)
      && ForeignKey(table, column, true, where.parent) in schema.foreignKeys
  }

  ghost predicate SolidOps(schema: Schema, ops: seq<Op>) {
    forall op :: op in ops ==> SolidOp(schema, op)
  }

  /** The heart of the matter: a condition evaluated on a database the plan has
      already pruned says of a surviving row exactly what it said at the start,
      because integrity keeps the row's whole chain of parents alive. */
  lemma {:induction false} SameVerdict(schema: Schema, small: Db, big: Db, table: Table, where: Where, id: Id)
    requires Consistent(schema) && Integrity(schema, small) && Shrunk(schema, small, big)
    requires SolidWhere(schema, table, where) && id in RowsOf(small, table)
    ensures id in RowsOf(big, table)
    ensures Matches(small, where, id, RowsOf(small, table)[id]) == Matches(big, where, id, RowsOf(big, table)[id])
    decreases where
  {
    assert RowShrunk(schema, table, RowsOf(small, table)[id], RowsOf(big, table)[id]);
    match where {
      case IdNotIn(_) =>
      case ColumnNotIn(column, _) =>
      case References(column, parent, condition) =>
        var f := ForeignKey(table, column, false, parent);
        assert Solid(schema, table, column) && Holds(small, f);
        var target := Cell(RowsOf(small, table)[id], column);
        SameVerdict(schema, small, big, parent, condition, target.value);
    }
  }

  lemma ShrunkTransitive(schema: Schema, a: Db, b: Db, c: Db)
    requires Shrunk(schema, a, b) && Shrunk(schema, b, c)
    ensures Shrunk(schema, a, c)
  {
    forall t, id | id in RowsOf(a, t)
      ensures id in RowsOf(c, t) && RowShrunk(schema, t, RowsOf(a, t)[id], RowsOf(c, t)[id])
    {
      assert RowShrunk(schema, t, RowsOf(a, t)[id], RowsOf(b, t)[id]);
      assert RowShrunk(schema, t, RowsOf(b, t)[id], RowsOf(c, t)[id]);
    }
  }

  lemma ApplyShrinks(schema: Schema, db: Db, op: Op)
    requires Consistent(schema) && SolidOp(schema, op)
    ensures Shrunk(schema, Apply(db, op), db)
  {
    var after := Apply(db, op);
    forall t, id | id in RowsOf(after, t)
      ensures id in RowsOf(db, t) && RowShrunk(schema, t, RowsOf(after, t)[id], RowsOf(db, t)[id])
    {
      if op.SetNull? && t == op.table {
        assert ForeignKey(t, op.column, true, op.where.parent) in schema.foreignKeys;
        assert !Solid(schema, t, op.column);
      }
    }
  }

  /** No row still uses `f` to point at a row of `f.parent` that meets `where`. */
  ghost predicate NoReference(db: Db, f: ForeignKey, where: Where) {
    forall id :: id in RowsOf(db, f.table) ==>
      var target := Cell(RowsOf(db, f.table)[id], f.column);
      target.Some? ==> target.value !in Matching(db, f.parent, where)
  }

  lemma NoReferencePersists(schema: Schema, small: Db, big: Db, f: ForeignKey, where: Where)
    requires Consistent(schema) && Integrity(schema, small) && Shrunk(schema, small, big)
    requires SolidWhere(schema, f.parent, where) && NoReference(big, f, where)
    ensures NoReference(small, f, where)
  {
    forall id | id in RowsOf(small, f.table) && Cell(RowsOf(small, f.table)[id], f.column).Some?
      ensures Cell(RowsOf(small, f.table)[id], f.column).value !in Matching(small, f.parent, where)
    {
      var target := Cell(RowsOf(small, f.table)[id], f.column).value;
      assert RowShrunk(schema, f.table, RowsOf(small, f.table)[id], RowsOf(big, f.table)[id]);
      assert target !in Matching(big, f.parent, where);
      if target in RowsOf(small, f.parent) {
        SameVerdict(schema, small, big, f.parent, where, target);
      }
    }
  }

  /** Nulling a nullable column never breaks a foreign key, and leaves no row that
      uses it to point at the rows about to go. */
  lemma SetNullIsSafe(schema: Schema, db: Db, f: ForeignKey, where: Where)
    requires Consistent(schema) && Integrity(schema, db) && f in schema.foreignKeys && f.nullable
    requires SolidWhere(schema, f.parent, where)
    ensures var after := Apply(db, SetNull(f.table, f.column, References(f.column, f.parent, where)));
            Integrity(schema, after) && Shrunk(schema, after, db) && NoReference(after, f, where)
  {
    var op := SetNull(f.table, f.column, References(f.column, f.parent, where));
    var after := Apply(db, op);
    assert f == ForeignKey(f.table, f.column, true, f.parent);
    ApplyShrinks(schema, db, op);
    forall g | g in schema.foreignKeys
      ensures Holds(after, g)
    {
      assert Holds(db, g);
    }
    forall id | id in RowsOf(after, f.table) && Cell(RowsOf(after, f.table)[id], f.column).Some?
      ensures Cell(RowsOf(after, f.table)[id], f.column).value !in Matching(after, f.parent, where)
    {
      var target := Cell(RowsOf(after, f.table)[id], f.column).value;
      assert id !in Matching(db, f.table, op.where) && RowsOf(after, f.table)[id] == RowsOf(db, f.table)[id];
      if target in RowsOf(after, f.parent) {
        SameVerdict(schema, after, db, f.parent, where, target);
      }
    }
  }

  /** Deleting rows nothing points at any more never breaks a foreign key. */
  lemma DeleteIsSafe(schema: Schema, db: Db, table: Table, where: Where)
    requires Consistent(schema) && Integrity(schema, db) && SolidWhere(schema, table, where)
    requires forall g :: g in schema.foreignKeys && g.parent == table ==> NoReference(db, g, where)
    ensures var after := Apply(db, Delete(table, where));
            Integrity(schema, after) && Shrunk(schema, after, db)
  {
    var after := Apply(db, Delete(table, where));
    ApplyShrinks(schema, db, Delete(table, where));
    forall g | g in schema.foreignKeys
      ensures Holds(after, g)
    {
      assert Holds(db, g);
      assert g.parent == table ==> NoReference(db, g, where);
    }
  }

  // ---------------------------------------------------------------------------
  // Executing a pass, statement by statement
  // ---------------------------------------------------------------------------

  /** Integrity holds after every statement of the run. */
  ghost predicate SafeRun(schema: Schema, db: Db, ops: seq<Op>)
    decreases |ops|
  {
    ops == [] || (Integrity(schema, Apply(db, ops[0])) && SafeRun(schema, Apply(db, ops[0]), ops[1..]))
  }

  lemma {:induction false} RunAppend(schema: Schema, db: Db, a: seq<Op>, b: seq<Op>)
    ensures Run(db, a + b) == Run(Run(db, a), b)
    ensures SafeRun(schema, db, a) && SafeRun(schema, Run(db, a), b) ==> SafeRun(schema, db, a + b)
    decreases |a|
  {
    if a == [] {
      assert a + b == b;
    } else {
      assert (a + b)[1..] == a[1..] + b;
      RunAppend(schema, Apply(db, a[0]), a[1..], b);
    }
  }

  /** Tables a pass skips are only referenced from its root. */
  ghost predicate SkipsOnlyAtRoot(schema: Schema, root: Table, skip: set<Table>) {
    forall f :: f in schema.foreignKeys && f.table in skip ==> f.parent == root
  }

  /** What the operations planned for some foreign keys into `parent` achieve. */
  ghost predicate Clears(schema: Schema, db: Db, ops: seq<Op>, refs: seq<ForeignKey>, where: Where, skip: set<Table>) {
    SolidOps(schema, ops) && SafeRun(schema, db, ops) &&
    var after := Run(db, ops);
    Integrity(schema, after) && Shrunk(schema, after, db) &&
    forall f :: f in refs && f.table !in skip ==> NoReference(after, f, where)
  }

  lemma ClearsAppend(schema: Schema, db: Db, a: seq<Op>, b: seq<Op>, f: ForeignKey, refs: seq<ForeignKey>, where: Where,
                     skip: set<Table>)
    requires Consistent(schema) && SolidWhere(schema, f.parent, where)
    requires Clears(schema, db, a, [f], where, skip)
    requires Clears(schema, Run(db, a), b, refs, where, skip)
    ensures Clears(schema, db, a + b, [f] + refs, where, skip)
  {
    RunAppend(schema, db, a, b);
    var middle, after := Run(db, a), Run(db, a + b);
    ShrunkTransitive(schema, after, middle, db);
    if f.table !in skip {
      assert f in [f];
      NoReferencePersists(schema, after, middle, f, where);
    }
  }

  /** Every statement of a planned walk is safe, and at its end nothing outside
      `skip` references the rows about to be deleted from `parent`. */
  lemma {:induction false} PlanClears(schema: Schema, refs: seq<ForeignKey>, where: Where, path: seq<Table>,
                                      skip: set<Table>, db: Db)
    requires Consistent(schema) && IsPath(schema, path) && path != [] && Integrity(schema, db)
    requires SkipsOnlyAtRoot(schema, path[0], skip)
    requires SolidWhere(schema, path[|path| - 1], where)
    requires forall f :: f in refs ==> f in schema.foreignKeys && f.parent == path[|path| - 1]
    requires PlanEach(schema, refs, where, path, skip).Success?
    ensures Clears(schema, db, PlanEach(schema, refs, where, path, skip).value, refs, where, skip)
    decreases Unvisited(schema, path), |refs|, 1
  {
    if refs == [] {
    } else {
      var f := refs[0];
      PlanOneClears(schema, f, where, path, skip, db);
      var a := PlanOne(schema, f, where, path, skip).value;
      PlanClears(schema, refs[1..], where, path, skip, Run(db, a));
      ClearsAppend(schema, db, a, PlanEach(schema, refs[1..], where, path, skip).value, f, refs[1..], where, skip);
      assert refs == [f] + refs[1..];
    }
  }

  lemma {:induction false} PlanOneClears(schema: Schema, f: ForeignKey, where: Where, path: seq<Table>,
                                         skip: set<Table>, db: Db)
    requires Consistent(schema) && IsPath(schema, path) && path != [] && Integrity(schema, db)
    requires SkipsOnlyAtRoot(schema, path[0], skip)
    requires SolidWhere(schema, path[|path| - 1], where)
    requires f in schema.foreignKeys && f.parent == path[|path| - 1]
    requires PlanOne(schema, f, where, path, skip).Success?
    ensures Clears(schema, db, PlanOne(schema, f, where, path, skip).value, [f], where, skip)
    decreases Unvisited(schema, path), 0, 0
  {
    var childWhere := References(f.column, f.parent, where);
    if f.table in skip {
    } else if f.nullable {
      assert f == ForeignKey(f.table, f.column, true, f.parent);
      SetNullIsSafe(schema, db, f, where);
      RunOne(schema, db, SetNull(f.table, f.column, childWhere));
    } else {
      var longer := path + [f.table];
      assert f == ForeignKey(f.table, f.column, false, f.parent);
      assert f.table in Unvisited(schema, path) && f.table !in Unvisited(schema, longer);
      var refs := ForeignKeysInto(schema.foreignKeys, f.table);
      var below := Plan(schema, f.table, childWhere, longer, skip).value;
      PlanClears(schema, refs, childWhere, longer, skip, db);
      DeleteChildren(schema, db, below, f, where, refs, skip);
    }
  }

  lemma RunOne(schema: Schema, db: Db, op: Op)
    ensures Run(db, [op]) == Apply(db, op)
    ensures Integrity(schema, Apply(db, op)) ==> SafeRun(schema, db, [op])
  {
  }

  lemma DeleteChildren(schema: Schema, db: Db, below: seq<Op>, f: ForeignKey, where: Where, refs: seq<ForeignKey>,
                       skip: set<Table>)
    requires Consistent(schema) && SolidWhere(schema, f.parent, where)
    requires f in schema.foreignKeys && !f.nullable
    requires refs == ForeignKeysInto(schema.foreignKeys, f.table)
    requires forall g :: g in refs ==> g.table !in skip
    requires Clears(schema, db, below, refs, References(f.column, f.parent, where), skip)
    ensures Clears(schema, db, below + [Delete(f.table, References(f.column, f.parent, where))], [f], where, skip)
  {
    var childWhere := References(f.column, f.parent, where);
    var op := Delete(f.table, childWhere);
    var middle := Run(db, below);
    var after := Apply(middle, op);
    assert f == ForeignKey(f.table, f.column, false, f.parent);
    DeleteIsSafe(schema, middle, f.table, childWhere);
    RunOne(schema, middle, op);
    RunAppend(schema, db, below, [op]);
    ShrunkTransitive(schema, after, middle, db);
    forall id | id in RowsOf(after, f.table) && Cell(RowsOf(after, f.table)[id], f.column).Some?
      ensures Cell(RowsOf(after, f.table)[id], f.column).value !in Matching(after, f.parent, where)
    {
      var target := Cell(RowsOf(after, f.table)[id], f.column).value;
      assert id !in Matching(middle, f.table, childWhere);
      if target in RowsOf(after, f.parent) {
        SameVerdict(schema, after, middle, f.parent, where, target);
      }
    }
  }

  // ---------------------------------------------------------------------------
  // Both passes: what is deleted, what is nulled, what is left
  // ---------------------------------------------------------------------------

  /** The schema the script is written for: `muns.organizer_id` is the only
      foreign key out of `muns`, and so the only one the users pass skips. */
  ghost predicate Supported(schema: Schema) {
    Consistent(schema) && MUNS in schema.tables && USERS in schema.tables &&
    forall f :: f in schema.foreignKeys && f.table == MUNS ==> f == ForeignKey(MUNS, ORGANIZER_ID, false, USERS)
  }

  /** A user off the keep-list, or a mun whose organizer is one. */
  ghost predicate IsJunk(keep: set<Id>, db: Db, t: Table, id: Id) {
    id in RowsOf(db, t) &&
    match t
    case "users" => id !in keep
    case "muns" => "organizer_id" in RowsOf(db, t)[id] && RowsOf(db, t)[id]["organizer_id"].Some?
                   && RowsOf(db, t)[id]["organizer_id"].value !in keep
    case _ => false
  }

  /** A junk row, or one that cannot exist without a junk row: it reaches one over
      `n` NOT NULL references. */
  ghost predicate DoomedIn(schema: Schema, keep: set<Id>, db: Db, n: nat, t: Table, id: Id)
    decreases n, 0
  {
    if n == 0 then IsJunk(keep, db, t, id)
    else exists f :: f in schema.foreignKeys && f.table == t && !f.nullable && PointsAtDoomed(schema, keep, db, n - 1, f, id)
  }

  ghost predicate PointsAtDoomed(schema: Schema, keep: set<Id>, db: Db, n: nat, f: ForeignKey, id: Id)
    decreases n, 1
  {
    id in RowsOf(db, f.table) &&
    var target := Cell(RowsOf(db, f.table)[id], f.column);
    target.Some? && DoomedIn(schema, keep, db, n, f.parent, target.value)
  }

  ghost predicate Doomed(schema: Schema, keep: set<Id>, db: Db, t: Table, id: Id) {
    exists n: nat :: DoomedIn(schema, keep, db, n, t, id)
  }

  /** Some foreign key in this column points at a doomed row. */
  ghost predicate PointsAtDoom(schema: Schema, keep: set<Id>, db: Db, t: Table, id: Id, c: Column) {
    exists f, n: nat :: f in schema.foreignKeys && f.table == t && f.column == c && PointsAtDoomed(schema, keep, db, n, f, id)
  }

  /** The innermost subquery is one of the two root conditions. */
  ghost predicate Rooted(keep: set<Id>, table: Table, where: Where)
    decreases where
  {
    match where
    case References(_, parent, condition) => Rooted(keep, parent, condition)
    case _ => (table == MUNS && where == MunsWhere(keep)) || (table == USERS && where == UsersWhere(keep))
  }

  ghost predicate RootedOps(keep: set<Id>, ops: seq<Op>) {
    forall op :: op in ops ==>
      if op.Delete? then Rooted(keep, op.table, op.where)
      else op.where.References? && Rooted(keep, op.where.parent, op.where.condition)
  }

  lemma {:induction false} PlanRooted(schema: Schema, keep: set<Id>, refs: seq<ForeignKey>, parent: Table, where: Where,
                                      path: seq<Table>, skip: set<Table>)
    requires WellFormed(schema) && IsPath(schema, path) && Rooted(keep, parent, where)
    requires forall f :: f in refs ==> f in schema.foreignKeys && f.parent == parent
    requires PlanEach(schema, refs, where, path, skip).Success?
    ensures RootedOps(keep, PlanEach(schema, refs, where, path, skip).value)
    decreases Unvisited(schema, path), |refs|
  {
    if refs != [] {
      var f := refs[0];
      PlanRooted(schema, keep, refs[1..], parent, where, path, skip);
      if f.table !in skip && !f.nullable {
        var longer, childWhere := path + [f.table], References(f.column, f.parent, where);
        assert f.table in Unvisited(schema, path) && f.table !in Unvisited(schema, longer);
        assert PlanOne(schema, f, where, path, skip).Success?;
        assert Plan(schema, f.table, childWhere, longer, skip).Success?;
        PlanRooted(schema, keep, ForeignKeysInto(schema.foreignKeys, f.table), f.table, childWhere, longer, skip);
      }
    }
  }

  lemma {:induction false} MatchedIsDoomed(schema: Schema, keep: set<Id>, db: Db, t: Table, where: Where, id: Id)
    requires SolidWhere(schema, t, where) && Rooted(keep, t, where) && id in Matching(db, t, where)
    ensures Doomed(schema, keep, db, t, id)
    decreases where
  {
    match where {
      case References(column, parent, condition) =>
        var f := ForeignKey(t, column, false, parent);
        var target := Cell(RowsOf(db, t)[id], column).value;
        MatchedIsDoomed(schema, keep, db, parent, condition, target);
        var n: nat :| DoomedIn(schema, keep, db, n, parent, target);
        assert PointsAtDoomed(schema, keep, db, n, f, id);
        assert DoomedIn(schema, keep, db, n + 1, t, id);
      case _ =>
        assert DoomedIn(schema, keep, db, 0, t, id);
    }
  }

  /** What one pass does to a database, compared with the one planning started from. */
  ghost predicate Spares(schema: Schema, keep: set<Id>, start: Db, before: Db, after: Db) {
    (forall t, id :: id in RowsOf(before, t) && !Doomed(schema, keep, start, t, id) ==> id in RowsOf(after, t)) &&
    (forall t, id :: id in RowsOf(after, t) ==> id in RowsOf(before, t)) &&
    (forall t, id, c :: id in RowsOf(after, t) ==>
      Cell(RowsOf(after, t)[id], c) == Cell(RowsOf(before, t)[id], c) || PointsAtDoom(schema, keep, start, t, id, c))
  }

  lemma OpSpares(schema: Schema, keep: set<Id>, start: Db, db: Db, op: Op)
    requires Consistent(schema) && Integrity(schema, db) && Shrunk(schema, db, start)
    requires SolidOp(schema, op) && RootedOps(keep, [op])
    ensures Spares(schema, keep, start, db, Apply(db, op))
  {
    var after := Apply(db, op);
    assert op in [op];
    forall id | id in Matching(db, op.table, op.where)
      ensures op.Delete? ==> Doomed(schema, keep, start, op.table, id)
      ensures op.SetNull? ==> PointsAtDoom(schema, keep, start, op.table, id, op.column)
    {
      if op.Delete? {
        SameVerdict(schema, db, start, op.table, op.where, id);
        MatchedIsDoomed(schema, keep, start, op.table, op.where, id);
      } else {
        var f := ForeignKey(op.table, op.column, true, op.where.parent);
        assert RowShrunk(schema, op.table, RowsOf(db, op.table)[id], RowsOf(start, op.table)[id]);
        var target := Cell(RowsOf(db, op.table)[id], op.column).value;
        SameVerdict(schema, db, start, f.parent, op.where.condition, target);
        MatchedIsDoomed(schema, keep, start, f.parent, op.where.condition, target);
        var n: nat :| DoomedIn(schema, keep, start, n, f.parent, target);
        assert PointsAtDoomed(schema, keep, start, n, f, id);
      }
    }
  }

  lemma {:induction false} RunSpares(schema: Schema, keep: set<Id>, start: Db, db: Db, ops: seq<Op>)
    requires Consistent(schema) && Integrity(schema, db) && Shrunk(schema, db, start)
    requires SolidOps(schema, ops) && RootedOps(keep, ops) && SafeRun(schema, db, ops)
    ensures Spares(schema, keep, start, db, Run(db, ops))
    ensures Integrity(schema, Run(db, ops)) && Shrunk(schema, Run(db, ops), start)
    decreases |ops|
  {
    if ops != [] {
      var next := Apply(db, ops[0]);
      OpSpares(schema, keep, start, db, ops[0]);
      ApplyShrinks(schema, db, ops[0]);
      ShrunkTransitive(schema, next, db, start);
      RunSpares(schema, keep, start, next, ops[1..]);
    }
  }

  /** Integrity alone keeps no doomed row: it would keep its junk ancestor. */
  lemma {:induction false} DoomedAreGone(schema: Schema, keep: set<Id>, start: Db, end: Db, n: nat, t: Table, id: Id)
    requires Supported(schema) && Integrity(schema, end) && Shrunk(schema, end, start)
    requires forall t, id :: !IsJunk(keep, end, t, id)
    requires DoomedIn(schema, keep, start, n, t, id)
    ensures id !in RowsOf(end, t)
    decreases n
  {
    if id in RowsOf(end, t) {
      if n == 0 {
        SameVerdict(schema, end, start, t, if t == MUNS then MunsWhere(keep) else UsersWhere(keep), id);
        assert IsJunk(keep, end, t, id);
      } else {
        var f :| f in schema.foreignKeys && f.table == t && !f.nullable && PointsAtDoomed(schema, keep, start, n - 1, f, id);
        assert Holds(end, f) && Solid(schema, t, f.column);
        assert RowShrunk(schema, t, RowsOf(end, t)[id], RowsOf(start, t)[id]);
        DoomedAreGone(schema, keep, start, end, n - 1, f.parent, Cell(RowsOf(start, t)[id], f.column).value);
      }
    }
  }

  /** A pass followed by the DELETE of its root rows. */
  lemma PassIsSafe(schema: Schema, keep: set<Id>, db: Db, root: Table, where: Where, skip: set<Table>)
    requires Supported(schema) && Integrity(schema, db)
    requires (root == MUNS && where == MunsWhere(keep) && skip == {})
          || (root == USERS && where == UsersWhere(keep) && skip == {MUNS} && Matching(db, MUNS, MunsWhere(keep)) == {})
    requires Plan(schema, root, where, [root], skip).Success?
    ensures var ops := Plan(schema, root, where, [root], skip).value + [Delete(root, where)];
            SolidOps(schema, ops) && RootedOps(keep, ops) && SafeRun(schema, db, ops) &&
            Integrity(schema, Run(db, ops)) && Shrunk(schema, Run(db, ops), db) && Matching(Run(db, ops), root, where) == {}
  {
    var refs := ForeignKeysInto(schema.foreignKeys, root);
    var below := Plan(schema, root, where, [root], skip).value;
    PlanClears(schema, refs, where, [root], skip, db);
    PlanRooted(schema, keep, refs, root, where, [root], skip);
    var middle := Run(db, below);
    forall g | g in schema.foreignKeys && g.parent == root
      ensures NoReference(middle, g, where)
    {
      if g.table in skip {
        forall id | id in RowsOf(middle, MUNS)
          ensures Cell(RowsOf(middle, MUNS)[id], ORGANIZER_ID).Some? ==> Cell(RowsOf(middle, MUNS)[id], ORGANIZER_ID).value in keep
        {
          SameVerdict(schema, middle, db, MUNS, MunsWhere(keep), id);
          assert id !in Matching(db, MUNS, MunsWhere(keep));
        }
      } else {
        assert g in refs;
      }
    }
    DeleteIsSafe(schema, middle, root, where);
    RunOne(schema, middle, Delete(root, where));
    RunAppend(schema, db, below, [Delete(root, where)]);
    var after := Run(db, below + [Delete(root, where)]);
    ShrunkTransitive(schema, after, middle, db);
    forall id | id in RowsOf(after, root)
      ensures id !in Matching(after, root, where)
    {
      SameVerdict(schema, after, middle, root, where, id);
    }
  }

  /** The plan as a whole: every statement is safe, and no junk is left. */
  lemma PlanIsSafe(schema: Schema, keep: set<Id>, db: Db)
    requires Supported(schema) && Integrity(schema, db) && BuildPlan(schema, keep).Success?
    ensures var ops := BuildPlan(schema, keep).value;
            SolidOps(schema, ops) && RootedOps(keep, ops) && SafeRun(schema, db, ops) &&
            Integrity(schema, Run(db, ops)) && Shrunk(schema, Run(db, ops), db) &&
            forall t, id :: !IsJunk(keep, Run(db, ops), t, id)
  {
    var muns := Plan(schema, MUNS, MunsWhere(keep), [MUNS], {}).value + [Delete(MUNS, MunsWhere(keep))];
    var users := Plan(schema, USERS, UsersWhere(keep), [USERS], {MUNS}).value + [Delete(USERS, UsersWhere(keep))];
    PassIsSafe(schema, keep, db, MUNS, MunsWhere(keep), {});
    var middle := Run(db, muns);
    PassIsSafe(schema, keep, middle, USERS, UsersWhere(keep), {MUNS});
    RunAppend(schema, db, muns, users);
    var after := Run(db, muns + users);
    ShrunkTransitive(schema, after, middle, db);
    forall t, id
      ensures !IsJunk(keep, after, t, id)
    {
      if t == MUNS && id in Matching(after, MUNS, MunsWhere(keep)) {
        SameVerdict(schema, after, middle, MUNS, MunsWhere(keep), id);
      }
    }
  }

  /** Executing the plan is exactly this: every statement leaves all foreign keys
      intact, precisely the doomed rows are gone, and in the rows that stay
      precisely the columns that pointed at a doomed row are null. */
  lemma ExecutionRemovesExactlyTheDoomed(schema: Schema, keep: set<Id>, db: Db)
    requires Supported(schema) && Integrity(schema, db) && BuildPlan(schema, keep).Success?
    ensures SafeRun(schema, db, BuildPlan(schema, keep).value)
    ensures var end := Run(db, BuildPlan(schema, keep).value);
            (forall t, id :: id in RowsOf(end, t) <==> id in RowsOf(db, t) && !Doomed(schema, keep, db, t, id)) &&
            (forall t, id, c :: id in RowsOf(end, t) ==>
              Cell(RowsOf(end, t)[id], c)
                == if PointsAtDoom(schema, keep, db, t, id, c) then None else Cell(RowsOf(db, t)[id], c))
  {
    PlanIsSafe(schema, keep, db);
    var ops := BuildPlan(schema, keep).value;
    RunSpares(schema, keep, db, db, ops);
    var end := Run(db, ops);
    forall t, id
      ensures id in RowsOf(end, t) <==> id in RowsOf(db, t) && !Doomed(schema, keep, db, t, id)
    {
      if n: nat :| DoomedIn(schema, keep, db, n, t, id) {
        DoomedAreGone(schema, keep, db, end, n, t, id);
      }
    }
    forall t, id, c | id in RowsOf(end, t) && PointsAtDoom(schema, keep, db, t, id, c)
      ensures Cell(RowsOf(end, t)[id], c) == None
    {
      var f, n: nat :| f in schema.foreignKeys && f.table == t && f.column == c && PointsAtDoomed(schema, keep, db, n, f, id);
      assert Holds(end, f) && RowShrunk(schema, t, RowsOf(end, t)[id], RowsOf(db, t)[id]);
      DoomedAreGone(schema, keep, db, end, n, f.parent, Cell(RowsOf(db, t)[id], c).value);
    }
  }

  /** When nothing but `muns.organizer_id` leaves `muns` and `users`, then precisely
      the users on the keep-list stay, precisely the muns whose organizer is on it (a
      NULL organizer is not "not in" a list), and all of them cell for cell. */
  lemma KeptRowsAreUntouched(schema: Schema, keep: set<Id>, db: Db)
    requires Supported(schema) && Integrity(schema, db) && BuildPlan(schema, keep).Success?
    requires forall f :: f in schema.foreignKeys ==> f.table != USERS
    ensures var end := Run(db, BuildPlan(schema, keep).value);
            (forall id :: id in RowsOf(end, "users") <==> id in RowsOf(db, "users") && id in keep) &&
            (forall id :: id in RowsOf(end, "muns") <==>
              id in RowsOf(db, "muns")
              && match Cell(RowsOf(db, "muns")[id], "organizer_id") case Some(user) => user in keep case None => true) &&
            (forall t, id, c :: (t == "users" || t == "muns") && id in RowsOf(end, t) ==>
              Cell(RowsOf(end, t)[id], c) == Cell(RowsOf(db, t)[id], c))
  {
    ExecutionRemovesExactlyTheDoomed(schema, keep, db);
    PlanIsSafe(schema, keep, db);
    forall t, id | (t == USERS || t == MUNS) && id in RowsOf(db, t)
      ensures Doomed(schema, keep, db, t, id) <==> IsJunk(keep, db, t, id)
      ensures !IsJunk(keep, db, t, id) ==> forall c :: !PointsAtDoom(schema, keep, db, t, id, c)
    {
      KeptIsNotDoomed(schema, keep, db, t, id);
    }
  }

  lemma KeptIsNotDoomed(schema: Schema, keep: set<Id>, db: Db, t: Table, id: Id)
    requires Supported(schema) && (t == USERS || t == MUNS) && id in RowsOf(db, t)
    requires forall f :: f in schema.foreignKeys ==> f.table != USERS
    ensures Doomed(schema, keep, db, t, id) <==> IsJunk(keep, db, t, id)
    ensures !IsJunk(keep, db, t, id) ==> forall c :: !PointsAtDoom(schema, keep, db, t, id, c)
  {
    if IsJunk(keep, db, t, id) {
      assert DoomedIn(schema, keep, db, 0, t, id);
    } else {
      forall n: nat, f | f in schema.foreignKeys && f.table == t
        ensures !PointsAtDoomed(schema, keep, db, n, f, id)
      {
        var user := Cell(RowsOf(db, MUNS)[id], ORGANIZER_ID);
        assert t == MUNS && f.parent == USERS;
        assert user.Some? ==> !DoomedIn(schema, keep, db, n, USERS, user.value);
      }
      assert forall n: nat :: !DoomedIn(schema, keep, db, n, t, id);
    }
  }

  // ---------------------------------------------------------------------------
  // The dry run
  // ---------------------------------------------------------------------------

  ghost predicate ClaimedBy(db: Db, prior: seq<Where>, t: Table, id: Id)
    requires id in RowsOf(db, t)
  {
    exists j :: 0 <= j < |prior| && Matches(db, prior[j], id, RowsOf(db, t)[id])
  }

  lemma {:induction false} SafePrefix(schema: Schema, db: Db, ops: seq<Op>, k: nat)
    requires Consistent(schema) && Integrity(schema, db) && SolidOps(schema, ops) && SafeRun(schema, db, ops) && k <= |ops|
    ensures Integrity(schema, Run(db, ops[..k])) && Shrunk(schema, Run(db, ops[..k]), db)
    decreases k
  {
    if k > 0 {
      var next := Apply(db, ops[0]);
      assert ops[..k][0] == ops[0] && ops[..k][1..] == ops[1..][..k - 1];
      SafePrefix(schema, next, ops[1..], k - 1);
      ApplyShrinks(schema, db, ops[0]);
      ShrunkTransitive(schema, Run(db, ops[..k]), next, db);
    }
  }

  /** At every point of the run the rows still there are those no earlier DELETE's
      condition matches on the untouched database. */
  lemma {:induction false} SurvivorsAreUnclaimed(schema: Schema, db: Db, ops: seq<Op>, k: nat, t: Table, id: Id)
    requires Consistent(schema) && Integrity(schema, db) && SolidOps(schema, ops) && SafeRun(schema, db, ops) && k <= |ops|
    requires id in RowsOf(db, t)
    ensures id in RowsOf(Run(db, ops[..k]), t) <==> !ClaimedBy(db, PriorDeletes(ops[..k], t), t, id)
    decreases k
  {
    if k == 0 {
      assert ops[..0] == [];
    } else {
      SurvivorsAreUnclaimed(schema, db, ops, k - 1, t, id);
      SafePrefix(schema, db, ops, k - 1);
      var op := ops[k - 1];
      assert ops[..k] == ops[..k - 1] + [op] && op in ops && SolidOp(schema, op);
      RunSnoc(db, ops[..k - 1], op);
      SurvivesOneMore(schema, db, Run(db, ops[..k - 1]), op, PriorDeletes(ops[..k - 1], t), t, id);
    }
  }

  lemma SurvivesOneMore(schema: Schema, db: Db, before: Db, op: Op, prior: seq<Where>, t: Table, id: Id)
    requires Consistent(schema) && Integrity(schema, before) && Shrunk(schema, before, db) && SolidOp(schema, op)
    requires id in RowsOf(db, t) && (id in RowsOf(before, t) <==> !ClaimedBy(db, prior, t, id))
    ensures id in RowsOf(Apply(before, op), t)
       <==> !ClaimedBy(db, if op.Delete? && op.table == t then prior + [op.where] else prior, t, id)
  {
    if op.Delete? && op.table == t {
      OneMoreClaim(db, prior, op.where, t, id);
      if id in RowsOf(before, t) { SameVerdict(schema, before, db, t, op.where, id); }
    }
  }

  lemma OneMoreClaim(db: Db, prior: seq<Where>, where: Where, t: Table, id: Id)
    requires id in RowsOf(db, t)
    ensures ClaimedBy(db, prior + [where], t, id)
       <==> ClaimedBy(db, prior, t, id) || Matches(db, where, id, RowsOf(db, t)[id])
  {
    var more := prior + [where];
    assert more[|prior|] == where;
    if ClaimedBy(db, prior, t, id) {
      var j :| 0 <= j < |prior| && Matches(db, prior[j], id, RowsOf(db, t)[id]);
      assert more[j] == prior[j];
    }
  }

  /** One row of one line of the report: whether the count on the untouched database
      includes it, and whether the statement will touch it. */
  lemma CountedRow(schema: Schema, db: Db, ops: seq<Op>, k: nat, id: Id)
    requires Consistent(schema) && Integrity(schema, db) && SolidOps(schema, ops) && SafeRun(schema, db, ops)
    requires k < |ops| && id in RowsOf(db, ops[k].table)
    ensures var op, touched := ops[k], Matching(Run(db, ops[..k]), ops[k].table, ops[k].where);
            var counted := Unclaimed(db, op, PriorDeletes(ops[..k], op.table));
            (id in touched ==> id in counted) && (op.Delete? && id in counted ==> id in touched)
  {
    var op, before := ops[k], Run(db, ops[..k]);
    assert op in ops && SolidOp(schema, op);
    SafePrefix(schema, db, ops, k);
    SurvivorsAreUnclaimed(schema, db, ops, k, op.table, id);
    if id in RowsOf(before, op.table) {
      if op.Delete? {
        SameVerdict(schema, before, db, op.table, op.where, id);
      } else if id in Matching(before, op.table, op.where) {
        assert RowShrunk(schema, op.table, RowsOf(before, op.table)[id], RowsOf(db, op.table)[id]);
        SameVerdict(schema, before, db, op.where.parent, op.where.condition, Cell(RowsOf(before, op.table)[id], op.column).value);
      }
    }
  }

  ghost predicate LineIsExact(db: Db, ops: seq<Op>, k: nat)
    requires k < |ops|
  {
    var before := Run(db, ops[..k]);
    Affected(before, ops[k]) <= Reported(db, ops, [], k) &&
    (ops[k].Delete? ==> Unclaimed(db, ops[k], PriorDeletes(ops[..k], ops[k].table))
                          == Matching(before, ops[k].table, ops[k].where)
                        && Reported(db, ops, [], k) == Affected(before, ops[k]))
  }

  lemma CountedLine(schema: Schema, db: Db, ops: seq<Op>, k: nat)
    requires Consistent(schema) && Integrity(schema, db) && SolidOps(schema, ops) && SafeRun(schema, db, ops) && k < |ops|
    ensures LineIsExact(db, ops, k)
  {
    var op := ops[k];
    var touched := Matching(Run(db, ops[..k]), op.table, op.where);
    var counted := Unclaimed(db, op, PriorDeletes(ops[..k], op.table));
    assert [] + ops[..k] == ops[..k];
    SafePrefix(schema, db, ops, k);
    forall id | id in RowsOf(db, op.table)
      ensures (id in touched ==> id in counted) && (op.Delete? && id in counted ==> id in touched)
    {
      CountedRow(schema, db, ops, k, id);
    }
    SubsetSize(touched, counted);
    if op.Delete? { assert counted == touched; }
  }

  /** A DELETE line of the report shows exactly the rows that statement will
      delete, although it is counted on the untouched database. A NULL line is at
      least that. */
  lemma ReportIsExact(schema: Schema, keep: set<Id>, db: Db, k: nat)
    requires Supported(schema) && Integrity(schema, db) && BuildPlan(schema, keep).Success?
    requires k < |BuildPlan(schema, keep).value|
    ensures var ops := BuildPlan(schema, keep).value;
            LineIsExact(db, ops, k)
  {
    PlanIsSafe(schema, keep, db);
    CountedLine(schema, db, BuildPlan(schema, keep).value, k);
  }

  /** The sum of a table's reported DELETE lines. */
  ghost function ReportedDeletes(db: Db, ops: seq<Op>, k: nat, t: Table): nat
    requires k <= |ops|
  {
    if k == 0 then 0
    else
      var line := if ops[k - 1].Delete? && ops[k - 1].table == t then Reported(db, ops, [], k - 1) else 0;
      ReportedDeletes(db, ops, k - 1, t) + line
  }

  lemma {:induction false} LinesAddUp(db: Db, ops: seq<Op>, k: nat, t: Table)
    requires k <= |ops| && forall i :: 0 <= i < |ops| ==> LineIsExact(db, ops, i)
    ensures |RowsOf(Run(db, ops[..k]), t)| + ReportedDeletes(db, ops, k, t) == |RowsOf(db, t)|
    decreases k
  {
    if k == 0 {
      assert ops[..0] == [];
    } else {
      LinesAddUp(db, ops, k - 1, t);
      assert LineIsExact(db, ops, k - 1) && ops[..k] == ops[..k - 1] + [ops[k - 1]];
      RunSnoc(db, ops[..k - 1], ops[k - 1]);
      ApplySize(Run(db, ops[..k - 1]), ops[k - 1], t);
    }
  }

  /** No row is counted twice and none is missed: for every table the DELETE lines
      of the report add up to the rows that execution removes from it. */
  lemma ReportAddsUp(schema: Schema, keep: set<Id>, db: Db, t: Table)
    requires Supported(schema) && Integrity(schema, db) && BuildPlan(schema, keep).Success?
    ensures var ops := BuildPlan(schema, keep).value;
            |RowsOf(Run(db, ops), t)| + ReportedDeletes(db, ops, |ops|, t) == |RowsOf(db, t)|
  {
    PlanIsSafe(schema, keep, db);
    var ops := BuildPlan(schema, keep).value;
    forall i | 0 <= i < |ops| ensures LineIsExact(db, ops, i) { CountedLine(schema, db, ops, i); }
    LinesAddUp(db, ops, |ops|, t);
    assert ops[..|ops|] == ops;
  }

  lemma ApplySize(db: Db, op: Op, t: Table)
    ensures |RowsOf(Apply(db, op), t)|
         == |RowsOf(db, t)| - (if op.Delete? && op.table == t then Affected(db, op) else 0)
  {
    var rows, after := RowsOf(db, t), RowsOf(Apply(db, op), t);
    if op.table == t {
      var hit := Matching(db, t, op.where);
      if op.Delete? {
        assert after.Keys == rows.Keys - hit && hit <= rows.Keys;
      } else {
        assert after.Keys == rows.Keys;
      }
      assert |after| == |after.Keys| && |rows| == |rows.Keys|;
    }
  }

  /** The script prints the second pass with the first pass's claims carried over;
      that is the report of the whole plan. */
  lemma ReportOfSecondPass(db: Db, first: seq<Op>, second: seq<Op>, k: nat)
    requires k < |second|
    ensures Reported(db, second, first, k) == Reported(db, first + second, [], |first| + k)
  {
    assert [] + (first + second)[..|first| + k] == first + second[..k];
  }
}
