/**
 What a valid certificate of every entry says about schema and access-control entries: they
 keep clear of each other, and only they change definitions, users and privileges (src/cas.rs).
 */
module SchemaWindows {
  import opened Options
  import opened Catalog
  import opened Footprints
  import opened CasPredicate
  import opened RaftLog
  import opened CasLeader
  import opened CasRuns

  ghost predicate IsSchemaEntry(e: Entry) {
    e.op.Some? && SchemaOp(e.op.value)
  }

  lemma MoreRangesConflict(op: Op, some: seq<Range>, all: seq<Range>, pending: Option<Ddl>)
    requires ConflictsAny(op, some, pending) && forall r :: r in some ==> r in all
    ensures ConflictsAny(op, all, pending)
  {
    var k :| 0 <= k < |some| && Conflicts(op, some[k], pending);
    assert some[k] in all;
    var l :| 0 <= l < |all| && all[l] == some[k];
    assert Conflicts(op, all[l], pending);
  }

  /** Between its predicate index and itself, a schema entry has no other schema entry. */
  lemma SchemaWindowIsQuiet(log: Log, j: nat, i: nat)
    requires j < |log| && Certified(log, j) && log[j].origin.Some? && IsSchemaEntry(log[j])
    requires log[j].origin.value.index <= i < j
    ensures !IsSchemaEntry(log[i])
  {
    var o, op := log[j].origin.value, log[j].op.value;
    var pending := Pending(Replay(log[..o.applied]));
    if IsSchemaEntry(log[i]) {
      SchemaOpsExclude(log[i].op.value, op, pending);
      MoreRangesConflict(log[i].op.value, ForOp(op), o.ranges, pending);
    }
  }

  /** DML that the leader let through does not reach the prohibited tables. */
  lemma AllowedDmlStaysOutside(c: Catalog, op: Op, cell: Cell, before: Option<Value>)
    requires AllowedBy(c, op) && cell.table in PROHIBITED_TABLES
    ensures op.DmlOp? ==> DmlAfter(op.dml, cell, before) == before
    ensures op.BatchDml? ==> BatchAfter(op.ops, cell, before) == before
  {
    if op.BatchDml? {
      forall i | 0 <= i < |op.ops|
        ensures Cell(op.ops[i].table, KeyOf(op.ops[i])) != cell && op.ops[i] != DeleteAll(cell.table)
      {
        assert DmlError(c, op.ops[i]).None?;
      }
      BatchStays(op.ops, cell, before);
    }
  }

  /** Only schema entries change the prohibited tables. */
  lemma OrdinaryEntryKeepsDefinitions(log: Log, i: nat, cell: Cell)
    requires i < |log| && Certified(log, i) && !IsSchemaEntry(log[i]) && cell.table in PROHIBITED_TABLES
    ensures Lookup(Replay(log[..i + 1]), cell) == Lookup(Replay(log[..i]), cell)
  {
    ReplayStep(log, i);
    if log[i].op.Some? {
      var c, op := Replay(log[..i]), log[i].op.value;
      ApplyIsAfter(c, op, cell);
      AllowedDmlStaysOutside(Replay(log[..log[i].origin.value.applied]), op, cell, Lookup(c, cell));
    }
  }

  /** Between two indexes without schema entries in between, the prohibited tables are the same. */
  lemma {:induction false} DefinitionsSteady(log: Log, a: nat, b: nat, cell: Cell)
    requires LogInv(log) && a <= b <= |log| && cell.table in PROHIBITED_TABLES
    requires forall i :: a <= i < b ==> !IsSchemaEntry(log[i])
    ensures Lookup(Replay(log[..a]), cell) == Lookup(Replay(log[..b]), cell)
    decreases b
  {
    if a < b {
      DefinitionsSteady(log, a, b - 1, cell);
      assert Certified(log, b - 1);
      OrdinaryEntryKeepsDefinitions(log, b - 1, cell);
    }
  }
}
