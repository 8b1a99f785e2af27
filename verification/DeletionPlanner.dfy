/** The planner of scripts/cleanup-dev-db-test-pollution.ts: a walk of the NO
    ACTION foreign-key graph that emits DELETE and NULL operations, the loop that
    executes them, and the dry-run report that counts them beforehand. */
module DeletionPlanner {
  import opened Common

  type Table = string
  type Column = string
  type Id = string

  /** The columns of a row that hold foreign keys; the primary key is the map key. */
  type Row = map<Column, Option<Id>>
  type Rows = map<Id, Row>
  type Db = map<Table, Rows>

  /** One NO ACTION foreign key, pointing at the primary key of `parent`. */
  datatype ForeignKey = ForeignKey(table: Table, column: Column, nullable: bool, parent: Table)

  /** `foreignKeys` in the order `information_schema` lists them. */
  datatype Schema = Schema(tables: set<Table>, foreignKeys: seq<ForeignKey>)

  /** The predicates the script builds: a root condition, or a nested subquery. */
  datatype Where =
    | IdNotIn(keep: set<Id>)
    | ColumnNotIn(column: Column, keep: set<Id>)
    | References(column: Column, parent: Table, condition: Where)

  datatype Op =
    | Delete(table: Table, where: Where)
    | SetNull(table: Table, column: Column, where: Where)

  // ---------------------------------------------------------------------------
  // Data
  // ---------------------------------------------------------------------------

  function RowsOf(db: Db, table: Table): Rows {
    if table in db then db[table] else map[]
  }

  function Cell(row: Row, column: Column): Option<Id> {
    if column in row then row[column] else None
  }

  /** Whether a row satisfies a predicate in the database as it is now. */
  predicate Matches(db: Db, where: Where, id: Id, row: Row) {
    match where
    case IdNotIn(keep) => id !in keep
    case ColumnNotIn(column, keep) => Cell(row, column).Some? && Cell(row, column).value !in keep
    case References(column, parent, condition) =>
      var target := Cell(row, column);
      target.Some? && target.value in RowsOf(db, parent) &&
      Matches(db, condition, target.value, RowsOf(db, parent)[target.value])
  }

  function Matching(db: Db, table: Table, where: Where): (ids: set<Id>)
    ensures forall id :: id in ids <==> id in RowsOf(db, table) && Matches(db, where, id, RowsOf(db, table)[id])
  {
    set id | id in RowsOf(db, table) && Matches(db, where, id, RowsOf(db, table)[id])
  }

  function Cleared(row: Row, column: Column): Row {
    row[column := None]
  }

  /** One statement. */
  function Apply(db: Db, op: Op): Db {
    var hit := Matching(db, op.table, op.where);
    var rows := RowsOf(db, op.table);
    match op
    case Delete(table, _) => db[table := map id | id in rows && id !in hit :: rows[id]]
    case SetNull(table, column, _) =>
      db[table := map id | id in rows :: if id in hit then Cleared(rows[id], column) else rows[id]]
  }

  function Run(db: Db, ops: seq<Op>): Db
    decreases |ops|
  {
    if ops == [] then db else Run(Apply(db, ops[0]), ops[1..])
  }

  // ---------------------------------------------------------------------------
  // Planning
  // ---------------------------------------------------------------------------

  function ForeignKeysInto(foreignKeys: seq<ForeignKey>, parent: Table): (refs: seq<ForeignKey>)
    ensures forall f :: f in refs <==> f in foreignKeys && f.parent == parent
    ensures |refs| <= |foreignKeys|
  {
    if foreignKeys == [] then []
    else (if foreignKeys[0].parent == parent then [foreignKeys[0]] else []) + ForeignKeysInto(foreignKeys[1..], parent)
  }

  ghost predicate WellFormed(schema: Schema) {
    forall f :: f in schema.foreignKeys ==> f.table in schema.tables && f.parent in schema.tables
  }

  /** The tables on the walk, root first; no table twice. */
  ghost predicate IsPath(schema: Schema, path: seq<Table>) {
    (forall t :: t in path ==> t in schema.tables) && forall i, j :: 0 <= i < j < |path| ==> path[i] != path[j]
  }

  ghost function Unvisited(schema: Schema, path: seq<Table>): set<Table> {
    set t | t in schema.tables && t !in path
  }

  /** What the walk below `parent` emits, or the cyclic walk it refuses. */
  ghost function Plan(schema: Schema, parent: Table, where: Where, path: seq<Table>, skip: set<Table>)
    : Result<seq<Op>, seq<Table>>
    requires WellFormed(schema) && IsPath(schema, path)
    decreases Unvisited(schema, path), |schema.foreignKeys| + 1
  {
    PlanEach(schema, ForeignKeysInto(schema.foreignKeys, parent), where, path, skip)
  }

  ghost function PlanEach(schema: Schema, refs: seq<ForeignKey>, where: Where, path: seq<Table>, skip: set<Table>)
    : Result<seq<Op>, seq<Table>>
    requires WellFormed(schema) && IsPath(schema, path)
    requires forall f :: f in refs ==> f in schema.foreignKeys
    decreases Unvisited(schema, path), |refs|
  {
    if refs == [] then Success([])
    else
      var first := PlanOne(schema, refs[0], where, path, skip);
      if first.Failure? then first
      else
        var rest := PlanEach(schema, refs[1..], where, path, skip);
        Append(first.value, rest)
  }

  ghost function PlanOne(schema: Schema, ref: ForeignKey, where: Where, path: seq<Table>, skip: set<Table>)
    : Result<seq<Op>, seq<Table>>
    requires WellFormed(schema) && IsPath(schema, path)
    requires ref in schema.foreignKeys
    decreases Unvisited(schema, path), 0
  {
    var childWhere := References(ref.column, ref.parent, where);
    if ref.table in skip then Success([])
    else if ref.nullable then Success([SetNull(ref.table, ref.column, childWhere)])
    else if ref.table in path then Failure(path + [ref.table])
    else
      assert ref.table in Unvisited(schema, path) && ref.table !in Unvisited(schema, path + [ref.table]);
      var below := Plan(schema, ref.table, childWhere, path + [ref.table], skip);
      if below.Failure? then below else Success(below.value + [Delete(ref.table, childWhere)])
  }

  const MUNS: Table := "muns"
  const USERS: Table := "users"
  const ORGANIZER_ID: Column := "organizer_id"

  function MunsWhere(keep: set<Id>): Where { ColumnNotIn(ORGANIZER_ID, keep) }

  function UsersWhere(keep: set<Id>): Where { IdNotIn(keep) }

  /** Both passes; the users pass skips `muns`, which the first pass owns. */
  ghost function BuildPlan(schema: Schema, keep: set<Id>): Result<seq<Op>, seq<Table>>
    requires WellFormed(schema) && MUNS in schema.tables && USERS in schema.tables
  {
    var muns := Plan(schema, MUNS, MunsWhere(keep), [MUNS], {});
    if muns.Failure? then muns
    else
      var users := Plan(schema, USERS, UsersWhere(keep), [USERS], {MUNS});
      if users.Failure? then users
      else Success(muns.value + [Delete(MUNS, MunsWhere(keep))] + (users.value + [Delete(USERS, UsersWhere(keep))]))
  }

  ghost function Append(ops: seq<Op>, rest: Result<seq<Op>, seq<Table>>): Result<seq<Op>, seq<Table>> {
    if rest.Failure? then rest else Success(ops + rest.value)
  }

  lemma AppendTwice(a: seq<Op>, b: seq<Op>, rest: Result<seq<Op>, seq<Table>>)
    ensures Append(a, Append(b, rest)) == Append(a + b, rest)
  {
    if rest.Success? { assert a + (b + rest.value) == a + b + rest.value; }
  }

  /** The recursive walk as written: it appends to one shared list of operations
      and stops at the first cycle it meets. */
  class Planner {
    var ops: seq<Op>

    constructor ()
      ensures ops == []
    {
      ops := [];
    }

    method PlanDeletions(schema: Schema, parent: Table, where: Where, path: seq<Table>, skip: set<Table>)
      returns (thrown: Option<seq<Table>>)
      requires WellFormed(schema) && IsPath(schema, path)
      modifies this
      ensures Emits(Plan(schema, parent, where, path, skip), old(ops), ops, thrown)
      decreases Unvisited(schema, path), |schema.foreignKeys| + 2
    {
      var refs := ForeignKeysInto(schema.foreignKeys, parent);
      thrown := PlanReferences(schema, refs, where, path, skip);
    }

    /** The walk's loop over the foreign keys it found. */
    method PlanReferences(schema: Schema, refs: seq<ForeignKey>, where: Where, path: seq<Table>, skip: set<Table>)
      returns (thrown: Option<seq<Table>>)
      requires WellFormed(schema) && IsPath(schema, path) && Listed(schema, refs)
      modifies this
      ensures Emits(PlanEach(schema, refs, where, path, skip), old(ops), ops, thrown)
      decreases Unvisited(schema, path), 1
    {
      ghost var before, emitted := ops, [];
      ghost var all := PlanEach(schema, refs, where, path, skip);
      PlanStart(schema, refs, where, path, skip);
      for i := 0 to |refs|
        invariant ops == before + emitted
        invariant all == Continue(schema, refs, where, path, skip, emitted, i)
      {
        PlanStep(schema, refs, where, path, skip, emitted, i);
        thrown := PlanReference(schema, refs[i], where, path, skip);
        if thrown.Some? {
          return;
        }
        emitted := emitted + PlanOne(schema, refs[i], where, path, skip).value;
      }
      thrown := None;
      PlanEnd(schema, refs, where, path, skip, emitted);
    }

    /** The body of the walk's loop: one foreign key. */
    method PlanReference(schema: Schema, ref: ForeignKey, where: Where, path: seq<Table>, skip: set<Table>)
      returns (thrown: Option<seq<Table>>)
      requires WellFormed(schema) && IsPath(schema, path) && ref in schema.foreignKeys
      modifies this
      ensures Emits(PlanOne(schema, ref, where, path, skip), old(ops), ops, thrown)
      decreases Unvisited(schema, path), 0
    {
      var childWhere := References(ref.column, ref.parent, where);
      if ref.table in skip {
        thrown := None;
      } else if ref.nullable {
        ops := ops + [SetNull(ref.table, ref.column, childWhere)];
        thrown := None;
      } else if ref.table in path {
        thrown := Some(path + [ref.table]);
      } else {
        assert ref.table in Unvisited(schema, path) && ref.table !in Unvisited(schema, path + [ref.table]);
        thrown := PlanDeletions(schema, ref.table, childWhere, path + [ref.table], skip);
        if thrown == None {
          ops := ops + [Delete(ref.table, childWhere)];
        }
      }
    }
  }

  /** A walk either threw the cycle it found or appended exactly its operations. */
  ghost predicate Emits(planned: Result<seq<Op>, seq<Table>>, before: seq<Op>, after: seq<Op>, thrown: Option<seq<Table>>) {
    match planned
    case Success(ops) => thrown == None && after == before + ops
    case Failure(walk) => thrown == Some(walk)
  }

  ghost predicate Listed(schema: Schema, refs: seq<ForeignKey>) {
    forall f :: f in refs ==> f in schema.foreignKeys
  }

  /** The outcome of the loop when `emitted` is what it appended before step `i`. */
  ghost function Continue(schema: Schema, refs: seq<ForeignKey>, where: Where, path: seq<Table>, skip: set<Table>,
                          emitted: seq<Op>, i: nat): Result<seq<Op>, seq<Table>>
    requires WellFormed(schema) && IsPath(schema, path) && Listed(schema, refs) && i <= |refs|
  {
    Append(emitted, PlanEach(schema, refs[i..], where, path, skip))
  }

  lemma PlanStart(schema: Schema, refs: seq<ForeignKey>, where: Where, path: seq<Table>, skip: set<Table>)
    requires WellFormed(schema) && IsPath(schema, path) && Listed(schema, refs)
    ensures Continue(schema, refs, where, path, skip, [], 0) == PlanEach(schema, refs, where, path, skip)
  {
    assert refs[0..] == refs;
    var all := PlanEach(schema, refs, where, path, skip);
    if all.Success? { assert [] + all.value == all.value; }
  }

  lemma PlanStep(schema: Schema, refs: seq<ForeignKey>, where: Where, path: seq<Table>, skip: set<Table>,
                 emitted: seq<Op>, i: nat)
    requires WellFormed(schema) && IsPath(schema, path) && Listed(schema, refs) && i < |refs|
    ensures var one := PlanOne(schema, refs[i], where, path, skip);
            Continue(schema, refs, where, path, skip, emitted, i)
              == if one.Failure? then one else Continue(schema, refs, where, path, skip, emitted + one.value, i + 1)
  {
    var one := PlanOne(schema, refs[i], where, path, skip);
    assert refs[i..][1..] == refs[i + 1..];
    if one.Success? {
      AppendTwice(emitted, one.value, PlanEach(schema, refs[i + 1..], where, path, skip));
    }
  }

  lemma PlanEnd(schema: Schema, refs: seq<ForeignKey>, where: Where, path: seq<Table>, skip: set<Table>, emitted: seq<Op>)
    requires WellFormed(schema) && IsPath(schema, path) && Listed(schema, refs)
    ensures Continue(schema, refs, where, path, skip, emitted, |refs|) == Success(emitted)
  {
    assert emitted + [] == emitted;
  }

  /** Each pass walks with a planner of its own and ends with the root's DELETE. */
  method PlanBothPasses(schema: Schema, keep: set<Id>)
    returns (munsPlan: seq<Op>, usersPlan: seq<Op>, thrown: Option<seq<Table>>)
    requires WellFormed(schema) && MUNS in schema.tables && USERS in schema.tables
    ensures Emits(BuildPlan(schema, keep), [], munsPlan + usersPlan, thrown)
  {
    munsPlan, usersPlan := [], [];
    var walk := new Planner();
    thrown := walk.PlanDeletions(schema, MUNS, MunsWhere(keep), [MUNS], {});
    if thrown.Some? {
      return;
    }
    munsPlan := walk.ops + [Delete(MUNS, MunsWhere(keep))];
    walk := new Planner();
    thrown := walk.PlanDeletions(schema, USERS, UsersWhere(keep), [USERS], {MUNS});
    if thrown.Some? {
      return;
    }
    usersPlan := walk.ops + [Delete(USERS, UsersWhere(keep))];
  }

  // ---------------------------------------------------------------------------
  // Execution and the dry run
  // ---------------------------------------------------------------------------

  /** The database the script runs against, inside its one transaction. */
  class Database {
    var tables: Db

    constructor (tables: Db)
      ensures this.tables == tables
    {
      this.tables := tables;
    }

    /** The execute loop: one statement per operation, each seeing the effects of
        the ones before it. `affected` holds the row count of each statement. */
    method ExecutePlan(plan: seq<Op>) returns (affected: seq<nat>)
      modifies this
      ensures tables == Run(old(tables), plan)
      ensures |affected| == |plan|
      ensures forall k :: 0 <= k < |plan| ==> affected[k] == Affected(Run(old(tables), plan[..k]), plan[k])
    {
      affected := [];
      ghost var start := tables;
      for k := 0 to |plan|
        invariant tables == Run(start, plan[..k])
        invariant |affected| == k
        invariant forall j :: 0 <= j < k ==> affected[j] == Affected(Run(start, plan[..j]), plan[j])
      {
        RunSnoc(start, plan[..k], plan[k]);
        assert plan[..k + 1] == plan[..k] + [plan[k]];
        var op := plan[k];
        var hit := Matching(tables, op.table, op.where);
        var rows := RowsOf(tables, op.table);
        affected := affected + [|hit|];
        match op {
          case Delete(table, _) =>
            tables := tables[table := map id | id in rows && id !in hit :: rows[id]];
          case SetNull(table, column, _) =>
            tables := tables[table := map id | id in rows :: if id in hit then Cleared(rows[id], column) else rows[id]];
        }
      }
      assert plan[..|plan|] == plan;
    }
  }

  function Affected(db: Db, op: Op): nat {
    |Matching(db, op.table, op.where)|
  }

  lemma {:induction false} RunSnoc(db: Db, ops: seq<Op>, op: Op)
    ensures Run(db, ops + [op]) == Apply(Run(db, ops), op)
    decreases |ops|
  {
    if ops == [] {
      assert [] + [op] == [op];
    } else {
      assert (ops + [op])[1..] == ops[1..] + [op];
      RunSnoc(Apply(db, ops[0]), ops[1..], op);
    }
  }

  /** The conditions of the DELETEs on `table` among `ops`, in order. */
  function PriorDeletes(ops: seq<Op>, table: Table): seq<Where> {
    if ops == [] then []
    else
      var before, last := PriorDeletes(ops[..|ops| - 1], table), ops[|ops| - 1];
      if last.Delete? && last.table == table then before + [last.where] else before
  }

  /** Rows that satisfy a condition now, and none of the earlier DELETEs' conditions. */
  function Unclaimed(db: Db, op: Op, prior: seq<Where>): set<Id> {
    set id | id in Matching(db, op.table, op.where)
      && !exists j :: 0 <= j < |prior| && Matches(db, prior[j], id, RowsOf(db, op.table)[id])
  }

  function Claimed(prior: map<Table, seq<Where>>, table: Table): seq<Where> {
    if table in prior then prior[table] else []
  }

  ghost predicate Tracks(prior: map<Table, seq<Where>>, ops: seq<Op>) {
    forall t :: Claimed(prior, t) == PriorDeletes(ops, t)
  }

  lemma TracksStep(prior: map<Table, seq<Where>>, ops: seq<Op>, op: Op)
    requires Tracks(prior, ops)
    ensures Tracks(if op.Delete? then prior[op.table := Claimed(prior, op.table) + [op.where]] else prior, ops + [op])
  {
    var after := if op.Delete? then prior[op.table := Claimed(prior, op.table) + [op.where]] else prior;
    forall t
      ensures Claimed(after, t) == PriorDeletes(ops + [op], t)
    {
      assert (ops + [op])[..|ops|] == ops && Claimed(prior, t) == PriorDeletes(ops, t);
    }
  }

  /** The count the report prints for the k-th operation. */
  ghost function Reported(db: Db, plan: seq<Op>, earlier: seq<Op>, k: nat): nat
    requires k < |plan|
  {
    |Unclaimed(db, plan[k], PriorDeletes(earlier + plan[..k], plan[k].table))|
  }

  /** The dry-run report: only SELECTs on the untouched database, and a map of the
      conditions earlier DELETEs already claimed, carried over from pass to pass. */
  method ReportPlan(db: Db, plan: seq<Op>, preExcluded: map<Table, seq<Where>>, ghost earlier: seq<Op>)
    returns (counts: seq<nat>, priorDeletes: map<Table, seq<Where>>)
    requires Tracks(preExcluded, earlier)
    ensures |counts| == |plan|
    ensures forall k :: 0 <= k < |plan| ==> counts[k] == Reported(db, plan, earlier, k)
    ensures Tracks(priorDeletes, earlier + plan)
  {
    counts, priorDeletes := [], preExcluded;
    assert earlier + plan[..0] == earlier;
    for k := 0 to |plan|
      invariant |counts| == k
      invariant forall j :: 0 <= j < k ==> counts[j] == Reported(db, plan, earlier, j)
      invariant Tracks(priorDeletes, earlier + plan[..k])
    {
      var op := plan[k];
      var prior := Claimed(priorDeletes, op.table);
      counts := counts + [|Unclaimed(db, op, prior)|];
      TracksStep(priorDeletes, earlier + plan[..k], op);
      assert earlier + plan[..k + 1] == earlier + plan[..k] + [op];
      if op.Delete? {
        priorDeletes := priorDeletes[op.table := prior + [op.where]];
      }
    }
    assert plan[..|plan|] == plan;
  }
}
