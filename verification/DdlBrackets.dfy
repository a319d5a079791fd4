/**
 Brackets of schema changes in the log: prepare only when nothing is open, commit or abort only
 when something is. Proposers check this by reading the row of the pending change, so it
 depends on what DML may do to that row; exactly which DML is harmless is proved here
 (src/schema.rs, src/cas.rs).
 */
module DdlBrackets {
  import opened Options
  import opened Catalog
  import opened RaftLog
  import opened CasLeader
  import opened CasRuns
  import opened SchemaWindows

  // ---- Brackets of schema changes ----------------------------------------------------------

  predicate IsPrepare(e: Entry) {
    e.op.Some? && e.op.value.DdlPrepare?
  }

  predicate IsFinaliser(e: Entry) {
    e.op.Some? && (e.op.value.DdlCommit? || e.op.value.DdlAbort?)
  }

  /** The raft index of the schema change that the log leaves unfinished. */
  function OpenDdl(log: Log): Option<nat> {
    if log == [] then None
    else if IsPrepare(log[|log| - 1]) then Some(|log|)
    else if IsFinaliser(log[|log| - 1]) then None
    else OpenDdl(log[..|log| - 1])
  }

  /** Prepare only when nothing is open, commit or abort only when something is. */
  predicate BracketedAt(log: Log, j: nat)
    requires j < |log|
  {
    && (IsPrepare(log[j]) ==> OpenDdl(log[..j]).None?)
    && (IsFinaliser(log[j]) ==> OpenDdl(log[..j]).Some?)
  }

  predicate WellBracketed(log: Log) {
    forall j :: 0 <= j < |log| ==> BracketedAt(log, j)
  }

  lemma OpenDdlStep(log: Log, i: nat)
    requires i < |log|
    ensures OpenDdl(log[..i + 1]) ==
            if IsPrepare(log[i]) then Some(i + 1) else if IsFinaliser(log[i]) then None else OpenDdl(log[..i])
  {
    assert log[..i + 1][..i] == log[..i];
  }

  lemma {:induction false} OpenDdlSteady(log: Log, a: nat, b: nat)
    requires a <= b <= |log| && forall i :: a <= i < b ==> !IsPrepare(log[i]) && !IsFinaliser(log[i])
    ensures OpenDdl(log[..a]) == OpenDdl(log[..b])
    decreases b
  {
    if a < b {
      OpenDdlSteady(log, a, b - 1);
      OpenDdlStep(log, b - 1);
    }
  }

  /** How schema changes are proposed: prepare after reading that nothing is pending, commit and
      abort after reading that something is, in a state not older than the predicate index. */
  ghost predicate DdlDiscipline(log: Log, j: nat)
    requires j < |log|
  {
    log[j].origin.Some? ==>
      var o := log[j].origin.value;
      && (IsPrepare(log[j]) ==> o.index <= o.readAt <= j && Pending(Replay(log[..o.readAt])).None?)
      && (IsFinaliser(log[j]) ==> o.index <= o.readAt <= j && Pending(Replay(log[..o.readAt])).Some?)
  }

  ghost predicate DdlDisciplined(log: Log) {
    forall j :: 0 <= j < |log| ==> DdlDiscipline(log, j)
  }

  // ---- DML on the row of the pending change -------------------------------------------------

  /** DML that writes the row of the pending schema change. */
  predicate WritesPending(d: Dml) {
    d.table == PROPERTIES && (d.DeleteAll? || KeyOf(d) == PENDING_SCHEMA_CHANGE)
  }

  predicate IsChange(v: Option<Value>) {
    v.Some? && v.value.Change?
  }

  // ---- What the trigger of `_pico_property` guarantees ----------------------------------------

  const PROPERTIES_FLAG: Cell := Cell(TABLES, [PROPERTIES])
  const GLOBAL_VERSION: Cell := Prop(GLOBAL_SCHEMA_VERSION)

  predicate IsFree(v: Option<Value>) {
    v.None? || IsChange(v)
  }

  /** The global schema version is there, and the row of the pending change holds a change if anything. */
  predicate Guarded(c: Catalog) {
    GLOBAL_VERSION in c.rows && IsFree(Lookup(c, PENDING))
  }

  predicate DropsGlobalVersion(d: Dml) {
    d == Delete(PROPERTIES, GLOBAL_SCHEMA_VERSION) || d == DeleteAll(PROPERTIES)
  }

  /** The dry run does not let a batch delete the global version. */
  lemma {:induction false} DryRunSparesVersion(c: Catalog, ds: seq<Dml>, i: nat)
    requires GLOBAL_VERSION in c.rows && DryRun(c, ds).Some? && i < |ds|
    ensures !DropsGlobalVersion(ds[i])
    decreases |ds|
  {
    assert GLOBAL_SCHEMA_VERSION in UNDELETABLE;
    if i > 0 {
      ApplyIsAfter(c, DmlOp(ds[0]), GLOBAL_VERSION);
      DryRunSparesVersion(Apply(c, DmlOp(ds[0])), ds[1..], i - 1);
    }
  }

  predicate SparesVersion(op: Op) {
    match op
    case DmlOp(d) => !DropsGlobalVersion(d)
    case BatchDml(ds) => forall i :: 0 <= i < |ds| ==> !DropsGlobalVersion(ds[i])
    case _ => true
  }

  lemma AllowedSparesVersion(c: Catalog, op: Op)
    requires GLOBAL_VERSION in c.rows && AllowedBy(c, op)
    ensures SparesVersion(op)
  {
    match op {
      case DmlOp(d) => DryRunSparesVersion(c, [d], 0);
      case BatchDml(ds) =>
        forall i | 0 <= i < |ds| ensures !DropsGlobalVersion(ds[i]) {
          DryRunSparesVersion(c, ds, i);
        }
      case _ =>
    }
  }

  lemma {:induction false} BatchStaysGuarded(ds: seq<Dml>, version: Option<Value>, row: Option<Value>)
    requires version.Some? && IsFree(row) && forall i :: 0 <= i < |ds| ==> !DropsGlobalVersion(ds[i])
    ensures BatchAfter(ds, GLOBAL_VERSION, version).Some? && IsFree(BatchAfter(ds, PENDING, row))
    decreases |ds|
  {
    if ds != [] {
      assert !DropsGlobalVersion(ds[0]);
      BatchStaysGuarded(ds[1..], DmlAfter(ds[0], GLOBAL_VERSION, version), DmlAfter(ds[0], PENDING, row));
    }
  }

  lemma OpStaysGuarded(c: Catalog, op: Op)
    requires Guarded(c) && SparesVersion(op)
    ensures Guarded(Apply(c, op))
  {
    ApplyIsAfter(c, op, GLOBAL_VERSION);
    ApplyIsAfter(c, op, PENDING);
    if op.BatchDml? {
      BatchStaysGuarded(op.ops, Lookup(c, GLOBAL_VERSION), Lookup(c, PENDING));
    }
  }

  lemma {:induction false} LogStaysGuarded(log: Log, k: nat)
    requires LogInv(log) && k <= |log|
    ensures Guarded(Replay(log[..k]))
    decreases k, 0
  {
    if k == 0 {
      assert log[..0] == [];
      InitialRows(PENDING);
      InitialRows(GLOBAL_VERSION);
    } else {
      LogStaysGuarded(log, k - 1);
      ReplayStep(log, k - 1);
      EntrySparesVersion(log, k - 1);
      if log[k - 1].op.Some? {
        OpStaysGuarded(Replay(log[..k - 1]), log[k - 1].op.value);
      }
    }
  }

  /** No accepted entry deletes the global version. */
  lemma EntrySparesVersion(log: Log, j: nat)
    requires LogInv(log) && j < |log|
    ensures log[j].op.Some? ==> SparesVersion(log[j].op.value)
    decreases j, 1
  {
    assert Certified(log, j);
    if log[j].op.Some? {
      var applied := log[j].origin.value.applied;
      LogStaysGuarded(log, applied);
      AllowedSparesVersion(Replay(log[..applied]), log[j].op.value);
    }
  }

  /** In every run, every state that a node can have has a global schema version, and its pending row
      holds a schema change or nothing. */
  lemma RunsStayGuarded(nodes: set<NodeId>, steps: seq<Step>, node: NodeId, k: nat)
    requires node in nodes && k <= |Exec(nodes, steps)[node]|
    ensures Guarded(Replay(Exec(nodes, steps)[node][..k]))
  {
    RunsKeepLogInv(nodes, steps);
    LogStaysGuarded(Exec(nodes, steps)[node], k);
  }

  // ---- Harmless DML keeps the brackets --------------------------------------------------------

  /** DML that makes a pending change appear, or one that is there disappear. */
  predicate Flips(d: Dml) {
    WritesPending(d) &&
    match d {
      case Insert(_, _, v, _) => v.Change?
      case Replace(_, _, v) => v.Change?
      case Delete(_, _) => true
      case _ => false
    }
  }

  predicate FlipsIn(c: Catalog, d: Dml) {
    !DmlFails(c, d) && Pending(Apply(c, DmlOp(d))).Some? != Pending(c).Some?
  }

  /** That is what it means: in some state that a node can have, it is not refused and changes whether a
      change is pending. */
  lemma FlipsIff(d: Dml)
    ensures Flips(d) <==> exists c :: Guarded(c) && FlipsIn(c, d)
  {
    if Flips(d) {
      var rows := map[GLOBAL_VERSION := Row(0), PROPERTIES_FLAG := BuiltIn(PROPERTIES)];
      var c := Catalog(if d.Delete? then rows[PENDING := Change(Backup(0))] else rows);
      ApplyIsAfter(c, DmlOp(d), PENDING);
      assert Guarded(c) && FlipsIn(c, d);
    }
    forall c | Guarded(c) && FlipsIn(c, d) ensures Flips(d) {
      ApplyIsAfter(c, DmlOp(d), PENDING);
      assert GLOBAL_SCHEMA_VERSION in UNDELETABLE;
    }
  }

  /** None of the operations changes whether a change is pending. */
  predicate Harmless(ds: set<Dml>) {
    forall d :: d in ds ==> !Flips(d)
  }

  predicate HasDml(e: Entry, d: Dml) {
    e.op.Some? && (e.op.value == DmlOp(d) || (e.op.value.BatchDml? && d in e.op.value.ops))
  }

  /** All DML of the log on the row of the pending change is among `ds`. */
  ghost predicate OnlyWrites(log: Log, ds: set<Dml>) {
    forall i, d :: 0 <= i < |log| && HasDml(log[i], d) && WritesPending(d) ==> d in ds
  }

  lemma DmlKeepsStatus(d: Dml, v: Option<Value>)
    requires !Flips(d) && !DropsGlobalVersion(d) && IsFree(v)
    ensures IsChange(DmlAfter(d, PENDING, v)) == IsChange(v) && IsFree(DmlAfter(d, PENDING, v))
  {
  }

  lemma {:induction false} BatchKeepsStatus(batch: seq<Dml>, v: Option<Value>)
    requires IsFree(v) && forall i :: 0 <= i < |batch| ==> !Flips(batch[i]) && !DropsGlobalVersion(batch[i])
    ensures IsChange(BatchAfter(batch, PENDING, v)) == IsChange(v)
    decreases |batch|
  {
    if batch != [] {
      DmlKeepsStatus(batch[0], v);
      BatchKeepsStatus(batch[1..], DmlAfter(batch[0], PENDING, v));
    }
  }

  lemma EntryKeepsStatus(c: Catalog, e: Entry)
    requires Guarded(c) && (e.op.Some? ==> SparesVersion(e.op.value)) && forall d :: HasDml(e, d) ==> !Flips(d)
    ensures Pending(ApplyEntry(c, e)).Some? == (IsPrepare(e) || (!IsFinaliser(e) && Pending(c).Some?))
  {
    if e.op.Some? {
      ApplyIsAfter(c, e.op.value, PENDING);
      match e.op.value {
        case DmlOp(d) =>
          assert HasDml(e, d);
          DmlKeepsStatus(d, Lookup(c, PENDING));
        case BatchDml(batch) =>
          assert forall d :: d in batch ==> HasDml(e, d);
          BatchKeepsStatus(batch, Lookup(c, PENDING));
        case _ =>
      }
    }
  }

  /** A change is pending in the replayed catalog exactly when the log leaves one open. */
  lemma {:induction false} StatusIsOpen(ds: set<Dml>, log: Log, k: nat)
    requires LogInv(log) && Harmless(ds) && OnlyWrites(log, ds) && k <= |log|
    ensures Pending(Replay(log[..k])).Some? <==> OpenDdl(log[..k]).Some?
  {
    if k == 0 {
      InitialRows(PENDING);
    } else {
      StatusIsOpen(ds, log, k - 1);
      ReplayStep(log, k - 1);
      OpenDdlStep(log, k - 1);
      LogStaysGuarded(log, k - 1);
      EntrySparesVersion(log, k - 1);
      forall d | HasDml(log[k - 1], d) ensures !Flips(d) {
        assert WritesPending(d) ==> d in ds;
      }
      EntryKeepsStatus(Replay(log[..k - 1]), log[k - 1]);
    }
  }

  lemma EntryIsBracketed(ds: set<Dml>, log: Log, j: nat)
    requires LogInv(log) && j < |log| && DdlDiscipline(log, j) && Harmless(ds) && OnlyWrites(log, ds)
    ensures BracketedAt(log, j)
  {
    assert Certified(log, j);
    if IsPrepare(log[j]) || IsFinaliser(log[j]) {
      var o := log[j].origin.value;
      forall i | o.readAt <= i < j ensures !IsPrepare(log[i]) && !IsFinaliser(log[i]) {
        SchemaWindowIsQuiet(log, j, i);
      }
      StatusIsOpen(ds, log, o.readAt);
      OpenDdlSteady(log, o.readAt, j);
    }
  }

  lemma HarmlessIsBracketed(ds: set<Dml>, log: Log)
    requires LogInv(log) && DdlDisciplined(log) && Harmless(ds) && OnlyWrites(log, ds)
    ensures WellBracketed(log)
  {
    forall j | 0 <= j < |log| ensures BracketedAt(log, j) {
      assert DdlDiscipline(log, j);
      EntryIsBracketed(ds, log, j);
    }
  }

  /** In every run whose DML on the row of the pending change is harmless, the schema changes of every
      log are properly bracketed. */
  lemma RunsKeepBrackets(ds: set<Dml>, nodes: set<NodeId>, steps: seq<Step>, node: NodeId)
    requires Harmless(ds) && DisciplinedRun(ds, nodes, steps, node)
    ensures WellBracketed(Exec(nodes, steps)[node])
  {
    RunsKeepLogInv(nodes, steps);
    HarmlessIsBracketed(ds, Exec(nodes, steps)[node]);
  }

  /** A run whose proposers keep to the rules, with no other DML on the row of the pending change. */
  ghost predicate DisciplinedRun(ds: set<Dml>, nodes: set<NodeId>, steps: seq<Step>, node: NodeId) {
    node in nodes && DdlDisciplined(Exec(nodes, steps)[node]) && OnlyWrites(Exec(nodes, steps)[node], ds)
  }

  /** Each prepare is followed by exactly one finaliser before the next prepare: among the prepare
      and finaliser entries of a log, the two kinds alternate. */
  lemma BracketsAlternate(log: Log, p: nat, q: nat)
    requires WellBracketed(log) && p < q < |log|
    requires (IsPrepare(log[p]) || IsFinaliser(log[p])) && (IsPrepare(log[q]) || IsFinaliser(log[q]))
    requires forall i :: p < i < q ==> !IsPrepare(log[i]) && !IsFinaliser(log[i])
    ensures IsPrepare(log[p]) <==> IsFinaliser(log[q])
    ensures IsFinaliser(log[q]) ==> OpenDdl(log[..q]) == Some(p + 1)
  {
    OpenDdlStep(log, p);
    OpenDdlSteady(log, p + 1, q);
    assert BracketedAt(log, q);
  }

  // ---- Any other DML breaks the brackets ------------------------------------------------------

  /** The table of properties is there, and the row of the pending change is as given. */
  predicate RowHolds(c: Catalog, row: Option<Value>) {
    Lookup(c, PENDING) == row && Lookup(c, PROPERTIES_FLAG) == Some(BuiltIn(PROPERTIES))
  }

  /** One more accepted entry on an up-to-date leader. */
  lemma ExtendRow(steps: seq<Step>, log: Log, op: Op) returns (steps': seq<Step>, log': Log)
    requires Exec({0}, steps)[0] == log && TermZero(log) && StorageAllows(Replay(log), op)
    ensures log' == log + [Asked(op, |log|, |log|)] && Exec({0}, steps')[0] == log' && TermZero(log')
    ensures Lookup(Replay(log'), PENDING) == After(Replay(log), op, PENDING)
    ensures Lookup(Replay(log'), PROPERTIES_FLAG) == After(Replay(log), op, PROPERTIES_FLAG)
  {
    assert log[..|log|] == log;
    steps' := ProposeNext(steps, log, op, |log|, |log|);
    log' := log + [Asked(op, |log|, |log|)];
    CellStep(log, Asked(op, |log|, |log|), PENDING);
    CellStep(log, Asked(op, |log|, |log|), PROPERTIES_FLAG);
  }

  /** Nothing keeps DML that flips the row away from it. */
  lemma RowIsFree(c: Catalog, d: Dml, row: Option<Value>)
    requires RowHolds(c, row) && Flips(d) && (d.Delete? || row.None?)
    ensures StorageAllows(c, DmlOp(d))
    ensures After(c, DmlOp(d), PENDING) == DmlAfter(d, PENDING, row)
    ensures After(c, DmlOp(d), PROPERTIES_FLAG) == Some(BuiltIn(PROPERTIES))
  {
    StorageIsFree(c, DmlOp(d));
  }

  /** The version of a pending change, put there by hand. */
  const PUT_VERSION: Dml := Replace(PROPERTIES, PENDING_SCHEMA_VERSION, Row(1))

  lemma VersionIsFree(c: Catalog)
    requires RowHolds(c, None)
    ensures StorageAllows(c, DmlOp(PUT_VERSION))
    ensures After(c, DmlOp(PUT_VERSION), PENDING) == None
    ensures After(c, DmlOp(PUT_VERSION), PROPERTIES_FLAG) == Some(BuiltIn(PROPERTIES))
  {
    StorageIsFree(c, DmlOp(PUT_VERSION));
  }

  lemma PrepareFills(c: Catalog, t: TableId, row: Option<Value>)
    requires RowHolds(c, row) && t != PROPERTIES
    ensures StorageAllows(c, Create(t))
    ensures After(c, Create(t), PENDING) == Some(Change(CreateTable(t, 0)))
    ensures After(c, Create(t), PROPERTIES_FLAG) == Some(BuiltIn(PROPERTIES))
  {
    StorageIsFree(c, Create(t));
  }

  lemma StartRow()
    ensures RowHolds(INITIAL, None)
  {
    InitialRows(PENDING);
    InitialRows(PROPERTIES_FLAG);
  }

  lemma VersionFirst() returns (steps: seq<Step>, log: Log)
    ensures Exec({0}, steps)[0] == log && TermZero(log) && log == [Asked(DmlOp(PUT_VERSION), 0, 0)]
    ensures RowHolds(Replay(log), None)
  {
    var none: Log := [];
    StartRow();
    VersionIsFree(INITIAL);
    steps, log := ExtendRow([], none, DmlOp(PUT_VERSION));
  }

  /** A change that nobody prepared. */
  lemma InventChange(d: Dml) returns (steps: seq<Step>, log: Log)
    requires Flips(d) && !d.Delete?
    ensures Exec({0}, steps)[0] == log && TermZero(log)
    ensures log == [Asked(DmlOp(PUT_VERSION), 0, 0), Asked(DmlOp(d), 1, 1)]
    ensures Pending(Replay(log)).Some?
  {
    var one;
    steps, one := VersionFirst();
    RowIsFree(Replay(one), d, None);
    steps, log := ExtendRow(steps, one, DmlOp(d));
  }

  /** A prepare, as the first entry. */
  lemma PrepareFirst() returns (steps: seq<Step>, log: Log)
    ensures Exec({0}, steps)[0] == log && TermZero(log) && log == [Asked(Create(TABLE), 0, 0)]
    ensures RowHolds(Replay(log), Some(Change(CreateTable(TABLE, 0))))
  {
    var none: Log := [];
    StartRow();
    PrepareFills(INITIAL, TABLE, None);
    steps, log := ExtendRow([], none, Create(TABLE));
  }

  const REMOVE: Dml := Delete(PROPERTIES, PENDING_SCHEMA_CHANGE)

  /** The change that was just prepared is removed. */
  lemma RemoveChange() returns (steps: seq<Step>, log: Log)
    ensures Exec({0}, steps)[0] == log && TermZero(log)
    ensures log == [Asked(Create(TABLE), 0, 0), Asked(DmlOp(REMOVE), 1, 1)]
    ensures RowHolds(Replay(log), None)
  {
    var first;
    steps, first := PrepareFirst();
    RowIsFree(Replay(first), REMOVE, Some(Change(CreateTable(TABLE, 0))));
    steps, log := ExtendRow(steps, first, DmlOp(REMOVE));
  }

  /** A change that DML removed is followed by a second prepare. */
  lemma RemovedChangeBreaks() returns (steps: seq<Step>)
    ensures DisciplinedRun({REMOVE}, {0}, steps, 0) && !WellBracketed(Exec({0}, steps)[0])
  {
    var two, log := [], [];
    steps, two := RemoveChange();
    PrepareFills(Replay(two), TABLE + 1, None);
    steps, log := ExtendRow(steps, two, Create(TABLE + 1));
    assert log[..2] == two;
    RemovedLogIsDisciplined(log);
    RemovedLogWrites(log);
    RemovedLogIsOpen(log);
  }

  predicate IsRemovedLog(log: Log) {
    log == [Asked(Create(TABLE), 0, 0), Asked(DmlOp(REMOVE), 1, 1), Asked(Create(TABLE + 1), 2, 2)]
  }

  lemma NothingPendingAtStart(log: Log)
    ensures Pending(Replay(log[..0])).None?
  {
    assert log[..0] == [];
    InitialRows(PENDING);
  }

  /** An entry of an up-to-date proposer keeps to the rules if what it read allowed it. */
  lemma AskedIsDisciplined(log: Log, j: nat, op: Op)
    requires j < |log| && log[j] == Asked(op, j, j)
    requires op.DdlPrepare? ==> Pending(Replay(log[..j])).None?
    requires op.DdlCommit? || op.DdlAbort? ==> Pending(Replay(log[..j])).Some?
    ensures DdlDiscipline(log, j)
  {
  }

  lemma RemovedLogIsDisciplined(log: Log)
    requires IsRemovedLog(log) && Pending(Replay(log[..2])).None?
    ensures DdlDisciplined(log)
  {
    NothingPendingAtStart(log);
    AskedIsDisciplined(log, 0, Create(TABLE));
    AskedIsDisciplined(log, 1, DmlOp(REMOVE));
    AskedIsDisciplined(log, 2, Create(TABLE + 1));
    forall j | 0 <= j < |log| ensures DdlDiscipline(log, j) {
      assert j == 0 || j == 1 || j == 2;
    }
  }

  lemma RemovedLogWrites(log: Log)
    requires IsRemovedLog(log)
    ensures OnlyWrites(log, {REMOVE})
  {
    forall i, x | 0 <= i < |log| && HasDml(log[i], x) && WritesPending(x) ensures x in {REMOVE} {
      assert i == 1;
    }
  }

  lemma RemovedLogIsOpen(log: Log)
    requires IsRemovedLog(log)
    ensures !WellBracketed(log)
  {
    OpenDdlStep(log, 0);
    OpenDdlStep(log, 1);
    assert IsPrepare(log[0]) && !IsPrepare(log[1]) && !IsFinaliser(log[1]);
    assert !BracketedAt(log, 2);
  }

  lemma CommitInvented(d: Dml) returns (steps: seq<Step>, log: Log)
    requires Flips(d) && !d.Delete?
    ensures Exec({0}, steps)[0] == log && IsInventedLog(log, [PUT_VERSION, d])
    ensures Pending(Replay(log[..2])).Some?
  {
    var two;
    steps, two := InventChange(d);
    StorageIsFree(Replay(two), DdlCommit);
    steps, log := ExtendRow(steps, two, DdlCommit);
    assert log[..2] == two;
  }

  /** A change that DML invented is committed. */
  lemma InventedChangeBreaks(d: Dml) returns (steps: seq<Step>)
    requires Flips(d) && !d.Delete?
    ensures DisciplinedRun({d}, {0}, steps, 0) && !WellBracketed(Exec({0}, steps)[0])
  {
    var log;
    steps, log := CommitInvented(d);
    InventedLog(log, [PUT_VERSION, d], {d});
  }

  /** A log of DML and a commit. */
  predicate IsInventedLog(log: Log, ds: seq<Dml>) {
    && |log| == |ds| + 1 && log[|ds|] == Asked(DdlCommit, |ds|, |ds|)
    && forall i :: 0 <= i < |ds| ==> log[i] == Asked(DmlOp(ds[i]), i, i)
  }

  lemma InventedLogWrites(log: Log, ds: seq<Dml>, all: set<Dml>)
    requires IsInventedLog(log, ds) && forall i :: 0 <= i < |ds| && WritesPending(ds[i]) ==> ds[i] in all
    ensures OnlyWrites(log, all)
  {
    forall i, x | 0 <= i < |log| && HasDml(log[i], x) && WritesPending(x) ensures x in all {
      assert i < |ds| ==> x == ds[i];
    }
  }

  lemma InventedLog(log: Log, ds: seq<Dml>, all: set<Dml>)
    requires IsInventedLog(log, ds) && Pending(Replay(log[..|ds|])).Some?
    requires forall i :: 0 <= i < |ds| && WritesPending(ds[i]) ==> ds[i] in all
    ensures DdlDisciplined(log) && OnlyWrites(log, all) && !WellBracketed(log)
  {
    forall j | 0 <= j < |log| ensures DdlDiscipline(log, j) {
      AskedIsDisciplined(log, j, if j < |ds| then DmlOp(ds[j]) else DdlCommit);
    }
    InventedLogWrites(log, ds, all);
    OpenDdlSteady(log, 0, |ds|);
    assert !BracketedAt(log, |ds|);
  }

  /** More DML allowed, more runs. */
  lemma MoreIsAllowed(some: set<Dml>, all: set<Dml>, nodes: set<NodeId>, steps: seq<Step>, node: NodeId)
    requires some <= all && DisciplinedRun(some, nodes, steps, node)
    ensures DisciplinedRun(all, nodes, steps, node)
  {
  }

  lemma FlipBreaks(d: Dml) returns (steps: seq<Step>)
    requires Flips(d)
    ensures DisciplinedRun({d}, {0}, steps, 0) && !WellBracketed(Exec({0}, steps)[0])
  {
    if d.Delete? {
      steps := RemovedChangeBreaks();
    } else {
      steps := InventedChangeBreaks(d);
    }
  }

  /** Exactly which DML on the row of the pending change is compatible with brackets: for any set of
      operations, all disciplined runs with no other DML on that row are bracketed if and only if
      the set is harmless. */
  lemma BracketsIffHarmless(ds: set<Dml>)
    ensures (forall nodes, steps, node ::
               DisciplinedRun(ds, nodes, steps, node) ==> WellBracketed(Exec(nodes, steps)[node]))
            <==> Harmless(ds)
  {
    if Harmless(ds) {
      forall nodes, steps, node | DisciplinedRun(ds, nodes, steps, node)
        ensures WellBracketed(Exec(nodes, steps)[node])
      {
        RunsKeepBrackets(ds, nodes, steps, node);
      }
    } else {
      var d :| d in ds && Flips(d);
      var steps := FlipBreaks(d);
      MoreIsAllowed({d}, ds, {0}, steps, 0);
    }
  }

  /** In particular, a single operation is compatible with brackets if and only if it cannot change
      whether a change is pending. */
  lemma BracketsIffNoFlip(d: Dml)
    ensures (forall nodes, steps, node ::
               DisciplinedRun({d}, nodes, steps, node) ==> WellBracketed(Exec(nodes, steps)[node]))
            <==> !Flips(d)
  {
    BracketsIffHarmless({d});
    if !Flips(d) {
      assert Harmless({d});
    } else {
      assert d in {d};
    }
  }

  // ---- Waiting for the end of a schema change -----------------------------------------------

  /** What one turn of the waiting loop finds: the compacted and the applied index. */
  datatype Poll = Poll(compacted: nat, applied: nat)

  datatype WaitResult = Committed(index: nat) | Aborted(index: nat) | LogCompacted | TimedOut | Broken

  /** No prepare or finaliser was applied yet at any of the turns. */
  predicate NothingSeen(log: Log, prepareIndex: nat, polls: seq<Poll>) {
    forall i, k :: 0 <= i < |polls| && prepareIndex <= k < polls[i].applied && k < |log| ==>
      !IsFinaliser(log[k]) && !IsPrepare(log[k])
  }

  /** `wait_for_ddl_commit` on a log whose applied prefix no longer changes; `polls` are the turns of
      the loop until the deadline. `Broken` is the source's `unreachable!`. */
  method WaitForDdlCommit(log: Log, prepareIndex: nat, polls: seq<Poll>) returns (r: WaitResult)
    requires 1 <= prepareIndex <= |log| && IsPrepare(log[prepareIndex - 1])
    requires forall i :: 0 <= i < |polls| ==> polls[i].applied <= |log|
    ensures WellBracketed(log) ==> r != Broken
    ensures r.Committed? || r.Aborted? ==>
              && prepareIndex < r.index <= |log|
              && log[r.index - 1].op == Some(if r.Committed? then DdlCommit else DdlAbort)
              && OpenDdl(log[..r.index - 1]) == Some(prepareIndex)
              && exists i :: 0 <= i < |polls| && r.index <= polls[i].applied && polls[i].compacted < prepareIndex
    ensures r.TimedOut? ==>
              forall i, k :: 0 <= i < |polls| && prepareIndex <= k < polls[i].applied ==> !IsFinaliser(log[k])
    ensures r.LogCompacted? <==>
              exists i :: 0 <= i < |polls| && prepareIndex <= polls[i].compacted
                          && NothingSeen(log, prepareIndex, polls[..i])
  {
    for t := 0 to |polls|
      invariant NothingSeen(log, prepareIndex, polls[..t])
      invariant forall i :: 0 <= i < t ==> polls[i].compacted < prepareIndex
    {
      if prepareIndex <= polls[t].compacted {
        return LogCompacted;
      }
      var applied := polls[t].applied;
      var i := prepareIndex;
      while i < applied
        invariant prepareIndex <= i
        invariant forall k :: prepareIndex <= k < i && k < applied ==> !IsFinaliser(log[k]) && !IsPrepare(log[k])
      {
        if log[i].op.Some? {
          OpenDdlStep(log, prepareIndex - 1);
          OpenDdlSteady(log, prepareIndex, i);
          match log[i].op.value {
            case DdlCommit => return Committed(i + 1);
            case DdlAbort => return Aborted(i + 1);
            case DdlPrepare(_, _, _) =>
              assert !BracketedAt(log, i);
              return Broken;
            case _ =>
          }
        }
        i := i + 1;
      }
    }
    r := TimedOut;
  }
}
