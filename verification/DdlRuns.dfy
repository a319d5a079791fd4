/**
 Schema changes and other entries over whole runs of compare-and-swap: DML keeps clear of schema
 changes of its table, and a commit stands unseen in a window only in known places (src/cas.rs).
 */
module DdlRuns {
  import opened Options
  import opened Catalog
  import opened Footprints
  import opened CasPredicate
  import opened RaftLog
  import opened CasLeader
  import opened CasRuns
  import opened SchemaWindows
  import opened DdlBrackets

  // ---- The pending change ---------------------------------------------------------------------

  predicate LeavesPendingRow(e: Entry) {
    e.op.Some? ==>
      match e.op.value
      case DmlOp(d) => !WritesPending(d)
      case BatchDml(ds) => forall i :: 0 <= i < |ds| ==> !WritesPending(ds[i])
      case _ => true
  }

  /** No entry is DML on the row of the pending change. */
  predicate PendingRowIsSafe(log: Log) {
    forall j :: 0 <= j < |log| ==> LeavesPendingRow(log[j])
  }

  /** The pending change after one entry. */
  lemma EntryPending(c: Catalog, e: Entry)
    requires LeavesPendingRow(e)
    ensures Pending(ApplyEntry(c, e)) ==
            if IsPrepare(e) then Some(e.op.value.ddl) else if IsFinaliser(e) then None else Pending(c)
  {
    var cell := Prop(PENDING_SCHEMA_CHANGE);
    if e.op.Some? {
      ApplyIsAfter(c, e.op.value, cell);
      if e.op.value.BatchDml? {
        forall i | 0 <= i < |e.op.value.ops|
          ensures Cell(e.op.value.ops[i].table, KeyOf(e.op.value.ops[i])) != cell
                  && e.op.value.ops[i] != DeleteAll(cell.table)
        {
          assert !WritesPending(e.op.value.ops[i]);
        }
        BatchStays(e.op.value.ops, cell, Lookup(c, cell));
      }
    }
  }

  /** The pending schema change of the replayed catalog is the one left open by the log. */
  ghost predicate PendingMatches(log: Log, k: nat)
    requires k <= |log|
  {
    match OpenDdl(log[..k])
    case None => Pending(Replay(log[..k])).None?
    case Some(p) => 1 <= p <= k && IsPrepare(log[p - 1]) && Pending(Replay(log[..k])) == Some(log[p - 1].op.value.ddl)
  }

  lemma PendingMatchesNext(log: Log, k: nat)
    requires k < |log| && LeavesPendingRow(log[k]) && PendingMatches(log, k)
    ensures PendingMatches(log, k + 1)
  {
    ReplayStep(log, k);
    OpenDdlStep(log, k);
    EntryPending(Replay(log[..k]), log[k]);
  }

  lemma {:induction false} PendingIsOpenDdl(log: Log, k: nat)
    requires k <= |log| && forall i :: 0 <= i < k ==> LeavesPendingRow(log[i])
    ensures PendingMatches(log, k)
  {
    if k == 0 {
      NothingPendingAtStart(log);
    } else {
      PendingIsOpenDdl(log, k - 1);
      PendingMatchesNext(log, k - 1);
    }
  }

  // ---- DML and schema changes of its table --------------------------------------------------

  lemma {:induction false} OpenIsEarlier(log: Log, a: nat)
    requires a <= |log|
    ensures match OpenDdl(log[..a])
            case None => true
            case Some(p) => 1 <= p <= a && IsPrepare(log[p - 1])
  {
    if a > 0 {
      OpenIsEarlier(log, a - 1);
      OpenDdlStep(log, a - 1);
    }
  }

  /** While a schema change is open, it has been open since its prepare. */
  lemma {:induction false} OpenSince(log: Log, p: nat, a: nat, q: nat)
    requires p < a <= q <= |log| && OpenDdl(log[..q]) == Some(p + 1)
    ensures OpenDdl(log[..a]) == Some(p + 1)
    decreases q
  {
    if a < q {
      OpenDdlStep(log, q - 1);
      OpenSince(log, p, a, q - 1);
    }
  }

  /** The schema change is about one table: a new one, or one that is registered. */
  predicate AboutTable(c: Catalog, ddl: Ddl, t: TableId) {
    && TableOf(ddl) == Some(t)
    && match Lookup(c, Cell(TABLES, [t])) {
      case None => ddl.CreateTable?
      case Some(Def(_, _)) => !ddl.CreateTable?
      case _ => false
    }
  }

  lemma PrepareClosesTable(c: Catalog, op: Op, t: TableId)
    requires op.DdlPrepare? && AboutTable(c, op.ddl, t)
    ensures !IsOperable(Apply(c, op), t)
  {
    ApplyIsAfter(c, op, Cell(TABLES, [t]));
  }

  /** Entries other than prepare and finalisers keep the flags of tables. */
  lemma FlagStays(log: Log, i: nat, t: TableId)
    requires i < |log| && Certified(log, i) && !IsPrepare(log[i]) && !IsFinaliser(log[i])
    ensures IsOperable(Replay(log[..i + 1]), t) == IsOperable(Replay(log[..i]), t)
  {
    var cell := Cell(TABLES, [t]);
    if IsSchemaEntry(log[i]) {
      ReplayStep(log, i);
      ApplyIsAfter(Replay(log[..i]), log[i].op.value, cell);
    } else {
      OrdinaryEntryKeepsDefinitions(log, i, cell);
    }
  }

  /** As long as a schema change is open, its table is not operable. */
  lemma {:induction false} OpenIsInoperable(log: Log, p: nat, q: nat, t: TableId)
    requires LogInv(log) && p < q <= |log| && IsPrepare(log[p]) && OpenDdl(log[..q]) == Some(p + 1)
    requires AboutTable(Replay(log[..p]), log[p].op.value.ddl, t)
    ensures !IsOperable(Replay(log[..q]), t)
    decreases q
  {
    if p < q - 1 {
      assert !IsPrepare(log[q - 1]) && !IsFinaliser(log[q - 1]) && OpenDdl(log[..q - 1]) == Some(p + 1) by {
        OpenDdlStep(log, q - 1);
      }
      OpenIsInoperable(log, p, q - 1, t);
      assert Certified(log, q - 1);
      FlagStays(log, q - 1, t);
    } else {
      ReplayStep(log, p);
      PrepareClosesTable(Replay(log[..p]), log[p].op.value, t);
    }
  }

  /** The operation changes a row of the table by DML. */
  predicate HasDmlOn(op: Op, t: TableId) {
    match op
    case DmlOp(d) => d.table == t
    case BatchDml(ds) => exists i :: 0 <= i < |ds| && ds[i].table == t
    case _ => false
  }

  /** The implicit ranges of such an operation conflict with every prepare of a change of the table. */
  lemma DmlExcludesPrepare(entry: Op, op: Op, t: TableId, pending: Option<Ddl>)
    requires HasDmlOn(op, t) && entry.DdlPrepare? && TableOf(entry.ddl) == Some(t)
    ensures ConflictsAny(entry, ForOp(op), pending)
  {
    var i := 0;
    if op.BatchDml? {
      i :| 0 <= i < |op.ops| && op.ops[i].table == t;
    }
    assert ForOp(op)[i].table == t;
    assert Conflicts(entry, ForOp(op)[i], pending);
  }

  lemma AllowedMeansOperable(c: Catalog, op: Op, t: TableId)
    requires AllowedBy(c, op) && HasDmlOn(op, t)
    ensures IsOperable(c, t)
  {
    if op.BatchDml? {
      var i :| 0 <= i < |op.ops| && op.ops[i].table == t;
      assert DmlError(c, op.ops[i]).None?;
    }
  }

  /** No DML entry stands between the prepare of a schema change of its table and the commit or abort,
      if the leader had applied the predicate index when it checked the DML. */
  lemma DmlIsIsolated(log: Log, p: nat, j: nat, t: TableId)
    requires LogInv(log) && p < j < |log| && log[j].origin.Some? && log[j].op.Some?
    requires HasDmlOn(log[j].op.value, t)
    requires log[j].origin.value.index <= log[j].origin.value.applied
    requires IsPrepare(log[p]) && AboutTable(Replay(log[..p]), log[p].op.value.ddl, t)
    ensures OpenDdl(log[..j]) != Some(p + 1)
  {
    assert Certified(log, j);
    var o, op := log[j].origin.value, log[j].op.value;
    if OpenDdl(log[..j]) == Some(p + 1) {
      var pending := Pending(Replay(log[..o.applied]));
      if o.applied <= p {
        DmlExcludesPrepare(log[p].op.value, op, t, pending);
        MoreRangesConflict(log[p].op.value, ForOp(op), o.ranges, pending);
      } else {
        AllowedMeansOperable(Replay(log[..o.applied]), op, t);
        OpenSince(log, p, o.applied, j);
        OpenIsInoperable(log, p, o.applied, t);
      }
    }
  }

  /** In every run, the same on every node's log. */
  lemma RunsIsolateDml(nodes: set<NodeId>, steps: seq<Step>, node: NodeId, p: nat, j: nat, t: TableId)
    requires node in nodes
    requires var log := Exec(nodes, steps)[node];
             && p < j < |log| && log[j].origin.Some? && log[j].op.Some? && HasDmlOn(log[j].op.value, t)
             && log[j].origin.value.index <= log[j].origin.value.applied
             && IsPrepare(log[p]) && AboutTable(Replay(log[..p]), log[p].op.value.ddl, t)
    ensures OpenDdl(Exec(nodes, steps)[node][..j]) != Some(p + 1)
  {
    RunsKeepLogInv(nodes, steps);
    DmlIsIsolated(Exec(nodes, steps)[node], p, j, t);
  }

  /** A leader whose log a run produced accepts DML on a table. */
  ghost predicate AcceptsDml(nodes: set<NodeId>, steps: seq<Step>, n: NodeState, req: Request, env: Environment,
                             t: TableId)
  {
    && n.id in nodes && n.log == Exec(nodes, steps)[n.id]
    && RaftContract(n) && req.readAt <= |n.log| && HasDmlOn(req.op, t) && Decide(n, req, env).Accepted?
  }

  /** The log leaves no schema change of the table open. */
  ghost predicate TableIsSettled(log: Log, t: TableId) {
    forall p :: 0 <= p < |log| && OpenDdl(log) == Some(p + 1) && IsPrepare(log[p]) ==>
      !AboutTable(Replay(log[..p]), log[p].op.value.ddl, t)
  }

  lemma UpToDateDmlIsIsolated(nodes: set<NodeId>, steps: seq<Step>, n: NodeState, req: Request, env: Environment,
                              t: TableId)
    requires AcceptsDml(nodes, steps, n, req, env, t) && req.pred.index <= n.applied
    ensures TableIsSettled(n.log, t)
  {
    RunsKeepLogInv(nodes, steps);
    var log, e := n.log, NewEntry(n, req);
    assert LogInv(log + [e]) by {
      AcceptedIsCertified(n, req, env);
      AppendKeepsInv(log, e);
    }
    assert (log + [e])[..|log|] == log && (log + [e])[|log|] == e;
    forall p | 0 <= p < |log| && OpenDdl(log) == Some(p + 1) && IsPrepare(log[p])
      ensures !AboutTable(Replay(log[..p]), log[p].op.value.ddl, t)
    {
      assert (log + [e])[..p] == log[..p] && (log + [e])[p] == log[p];
      if AboutTable(Replay(log[..p]), log[p].op.value.ddl, t) {
        DmlIsIsolated(log + [e], p, |log|, t);
      }
    }
  }

  // ---- Exactly when DML is isolated -----------------------------------------------------------

  function Truncate(t: TableId): Op {
    DdlPrepare(TruncateTable(t), 2, None)
  }

  /** Some DML on the table. */
  function Touch(t: TableId): Op {
    DmlOp(Replace(t, [100], Row(0)))
  }

  predicate IsReady(c: Catalog, t: TableId) {
    Lookup(c, Cell(TABLES, [t])).Some? && Lookup(c, Cell(TABLES, [t])).value.Def? && IsOperable(c, t)
  }

  lemma ReadyAllows(c: Catalog, t: TableId)
    requires IsReady(c, t)
    ensures StorageAllows(c, Truncate(t)) && AboutTable(c, TruncateTable(t), t)
    ensures t !in PROHIBITED_TABLES ==> StorageAllows(c, Touch(t))
  {
    StorageIsFree(c, Truncate(t));
    if t !in PROHIBITED_TABLES {
      StorageIsFree(c, Touch(t));
    }
  }

  /** A run that ends with the prepare of a truncation, at the given index, of a table that is ready from
      `since` on. */
  ghost predicate TruncatedAt(steps: seq<Step>, log: Log, t: TableId, since: nat, index: nat) {
    && Exec({0}, steps)[0] == log && TermZero(log) && since < index == |log|
    && log[index - 1] == Asked(Truncate(t), index - 1, index - 1)
    && forall k :: since <= k < index ==> IsReady(Replay(log[..k]), t)
  }

  /** Some time passes; the table stays ready. */
  lemma StayReady(steps: seq<Step>, log: Log, t: TableId, k: nat) returns (steps': seq<Step>, idle: Log)
    requires Exec({0}, steps)[0] == log && TermZero(log) && IsReady(Replay(log), t) && |log| <= k
    ensures Exec({0}, steps')[0] == idle && TermZero(idle) && |idle| == k
    ensures forall l :: |log| <= l <= k ==> IsReady(Replay(idle[..l]), t)
  {
    steps', idle := AppendEmpties(steps, log, k - |log|);
    assert idle[..|log|] == log;
    forall l | |log| <= l <= k ensures IsReady(Replay(idle[..l]), t) {
      EmptiesChangeNothing(idle, |log|, l);
    }
  }

  /** Such a run, from a run in which the table is ready in the end. */
  lemma TruncateLater(steps: seq<Step>, log: Log, t: TableId, index: nat) returns (steps': seq<Step>, log': Log)
    requires Exec({0}, steps)[0] == log && TermZero(log) && IsReady(Replay(log), t) && |log| < index
    ensures TruncatedAt(steps', log', t, |log|, index)
  {
    var idle, k := [], index - 1;
    steps', idle := StayReady(steps, log, t, k);
    ReadyAllows(Replay(idle[..k]), t);
    steps' := ProposeNext(steps', idle, Truncate(t), k, k);
    log' := idle + [Asked(Truncate(t), k, k)];
    forall l | |log| <= l < index ensures IsReady(Replay(log'[..l]), t) {
      assert log'[..l] == idle[..l];
    }
  }

  /** The first index at which a table can be ready: system tables are from the start, others need a
      prepare and a commit. */
  function ReadySince(t: TableId): nat {
    if IsSystemTable(t) then 0 else 2
  }

  lemma TruncateRunAt(t: TableId, index: nat) returns (steps: seq<Step>, log: Log)
    requires ReadySince(t) < index
    ensures TruncatedAt(steps, log, t, ReadySince(t), index)
  {
    if IsSystemTable(t) {
      InitialRows(Cell(TABLES, [t]));
      steps, log := TruncateLater([], [], t, index);
    } else {
      steps, log := CreateRun(t);
      steps, log := TruncateLater(steps, log, t, index);
    }
  }

  /** Whatever the two indexes and the table: a leader that has not applied the predicate index yet, but
      knows the table, can accept DML on a table that is being truncated. */
  lemma StaleLeaderAcceptsDml(t: TableId, index: nat, applied: nat)
    returns (steps: seq<Step>, n: NodeState, req: Request)
    requires ReadySince(t) <= applied < index && t !in PROHIBITED_TABLES
    ensures n.applied == applied && req.pred.index == index
    ensures AcceptsDml({0}, steps, n, req, PERMIT, t) && !TableIsSettled(n.log, t)
  {
    var log;
    steps, log := TruncateRunAt(t, index);
    ReadyAllows(Replay(log[..applied]), t);
    LeaderAccepts(log, Touch(t), index, applied);
    n, req := LeaderOf(log, applied), Ask(Touch(t), index);
    ReadyAllows(Replay(log[..index - 1]), t);
    assert IsPrepare(log[index - 1]) && OpenDdl(log) == Some(index);
  }

  /** A table that is not ready on the leader gets no DML, and neither do the prohibited tables. */
  lemma RefusesDml(n: NodeState, req: Request, env: Environment, t: TableId)
    requires HasDmlOn(req.op, t)
    requires t in PROHIBITED_TABLES || !TableKnown(n.storage, t) || !IsOperable(n.storage, t)
    ensures !Decide(n, req, env).Accepted?
  {
    if EarlyError(n, req, env).None? && req.op.BatchDml? {
      var i :| 0 <= i < |req.op.ops| && req.op.ops[i].table == t;
      BatchErrorFree(n.storage, req.op.ops, i);
    }
  }

  /** A schema entry without a pending change does not make a new table ready. */
  lemma SchemaEntryOnAbsent(c: Catalog, op: Op, cell: Cell)
    requires SchemaOp(op) && Pending(c).None? && cell.table == TABLES && Lookup(c, cell) == None
    ensures After(c, op, cell).None? || (After(c, op, cell).value.Def? && !After(c, op, cell).value.flag)
  {
  }

  lemma FirstEntryOnAbsent(log: Log, cell: Cell)
    requires log != [] && Certified(log, 0) && cell.table == TABLES
    requires Lookup(Replay(log[..0]), cell) == None && Pending(Replay(log[..0])).None?
    ensures var v := Lookup(Replay(log[..1]), cell); v.None? || (v.value.Def? && !v.value.flag)
  {
    if IsSchemaEntry(log[0]) {
      ReplayStep(log, 0);
      SchemaEntryOnAbsent(Replay(log[..0]), log[0].op.value, cell);
      ApplyIsAfter(Replay(log[..0]), log[0].op.value, cell);
    } else {
      OrdinaryEntryKeepsDefinitions(log, 0, cell);
    }
  }

  lemma AbsentAtStart(log: Log, t: TableId)
    requires !IsSystemTable(t)
    ensures Lookup(Replay(log[..0]), Cell(TABLES, [t])) == None
  {
    assert log[..0] == [];
    InitialRows(Cell(TABLES, [t]));
  }

  /** One entry cannot make a new table ready. */
  lemma NotReadyYet(log: Log, applied: nat, t: TableId)
    requires LogInv(log) && applied <= |log| && applied < 2 && !IsSystemTable(t)
    ensures !TableKnown(Replay(log[..applied]), t) || !IsOperable(Replay(log[..applied]), t)
  {
    AbsentAtStart(log, t);
    NothingPendingAtStart(log);
    if applied == 1 {
      assert Certified(log, 0);
      FirstEntryOnAbsent(log, Cell(TABLES, [t]));
    }
  }

  /** Exactly when accepted DML on a table keeps clear of schema changes of it: when the leader has applied
      the predicate index, or cannot know the table yet, or the table admits no DML at all. */
  lemma DmlIsIsolatedIff(t: TableId, index: nat, applied: nat)
    ensures (forall nodes, steps, n, req, env ::
               AcceptsDml(nodes, steps, n, req, env, t) && n.applied == applied && req.pred.index == index ==>
                 TableIsSettled(n.log, t))
            <==> index <= applied || applied < ReadySince(t) || t in PROHIBITED_TABLES
  {
    if index <= applied || applied < ReadySince(t) || t in PROHIBITED_TABLES {
      forall nodes, steps, n, req, env
        | AcceptsDml(nodes, steps, n, req, env, t) && n.applied == applied && req.pred.index == index
        ensures TableIsSettled(n.log, t)
      {
        if index <= applied {
          UpToDateDmlIsIsolated(nodes, steps, n, req, env, t);
        } else {
          RunsKeepLogInv(nodes, steps);
          if t !in PROHIBITED_TABLES {
            NotReadyYet(n.log, applied, t);
          }
          RefusesDml(n, req, env, t);
          assert false;
        }
      }
    } else {
      var steps, n, req := StaleLeaderAcceptsDml(t, index, applied);
    }
  }

  // ---- Operable flags and backups -----------------------------------------------------------

  /** An entry that does not conflict with a range of the table, and is no DML on `_pico_table`, keeps
      the table operable, unless it starts a backup, which makes all tables inoperable that do not have a
      built-in definition. */
  lemma OperableKeptIff(op: Op, range: Range, pending: Option<Ddl>)
    requires !Conflicts(op, range, pending) && !HasDmlOn(op, TABLES)
    ensures (forall c :: IsOperable(c, range.table) ==> IsOperable(Apply(c, op), range.table))
            <==> !(op.DdlPrepare? && op.ddl.Backup?)
  {
    var t := range.table;
    if op.DdlPrepare? && op.ddl.Backup? {
      var c := Catalog(map[Cell(TABLES, [t]) := Def(true, t + 1)]);
      ApplyIsAfter(c, op, Cell(TABLES, [t]));
      assert IsOperable(c, t) && !IsOperable(Apply(c, op), t);
    } else {
      forall c | IsOperable(c, t) ensures IsOperable(Apply(c, op), t) {
        OperableStays(c, op, range, pending);
      }
    }
  }

  lemma OperableStays(c: Catalog, op: Op, range: Range, pending: Option<Ddl>)
    requires !Conflicts(op, range, pending) && !HasDmlOn(op, TABLES) && IsOperable(c, range.table)
    requires !(op.DdlPrepare? && op.ddl.Backup?)
    ensures IsOperable(Apply(c, op), range.table)
  {
    var cell := Cell(TABLES, [range.table]);
    ApplyIsAfter(c, op, cell);
    match op {
      case BatchDml(ds) => BatchStays(ds, cell, Lookup(c, cell));
      case DdlPrepare(ddl, _, _) => assert TableOf(ddl) != Some(range.table);
      case _ =>
    }
  }

  lemma CertifiedDmlStaysOutside(log: Log, i: nat)
    requires i < |log| && Certified(log, i) && log[i].op.Some?
    ensures !HasDmlOn(log[i].op.value, TABLES)
  {
    var c, op := Replay(log[..log[i].origin.value.applied]), log[i].op.value;
    if op.BatchDml? {
      forall k | 0 <= k < |op.ops| ensures op.ops[k].table != TABLES {
        assert DmlError(c, op.ops[k]).None?;
      }
    }
  }

  lemma OwnRange(op: Op, t: TableId) returns (range: Range)
    requires HasDmlOn(op, t)
    ensures range in ForOp(op) && range.table == t
  {
    var i := 0;
    if op.BatchDml? {
      i :| 0 <= i < |op.ops| && op.ops[i].table == t;
    }
    range := ForOp(op)[i];
  }

  /** A DML entry is applied to an operable table, if the leader had applied the predicate index
      when it checked the request and no backup started since. */
  lemma {:induction false} DmlMeetsOperableTable(log: Log, j: nat, t: TableId, q: nat)
    requires LogInv(log) && j < |log| && log[j].origin.Some? && log[j].op.Some? && HasDmlOn(log[j].op.value, t)
    requires var o := log[j].origin.value; o.index <= o.applied <= q <= j
    requires forall i :: log[j].origin.value.applied <= i < q && IsPrepare(log[i]) ==> !log[i].op.value.ddl.Backup?
    ensures IsOperable(Replay(log[..q]), t)
    decreases q
  {
    assert Certified(log, j);
    var o, op := log[j].origin.value, log[j].op.value;
    if q == o.applied {
      AllowedMeansOperable(Replay(log[..q]), op, t);
    } else {
      DmlMeetsOperableTable(log, j, t, q - 1);
      ReplayStep(log, q - 1);
      var e, pending := log[q - 1], Pending(Replay(log[..o.applied]));
      if e.op.Some? {
        var range := OwnRange(op, t);
        assert !EntryConflicts(e, o.ranges, pending) && range in o.ranges;
        var l :| 0 <= l < |o.ranges| && o.ranges[l] == range;
        assert !Conflicts(e.op.value, o.ranges[l], pending);
        assert Certified(log, q - 1);
        CertifiedDmlStaysOutside(log, q - 1);
        OperableStays(Replay(log[..q - 1]), e.op.value, range, pending);
      }
    }
  }

  const BACKUP: Op := DdlPrepare(Backup(0), 2, None)

  lemma BackupClosesTable(c: Catalog)
    requires Lookup(c, FLAG) == Some(Def(true, 0))
    ensures StorageAllows(c, BACKUP) && After(c, BACKUP, FLAG) == Some(Def(false, 0))
  {
    StorageIsFree(c, BACKUP);
  }

  lemma BackupUnseen(pending: Option<Ddl>)
    ensures !EntryConflicts(Asked(BACKUP, 2, 2), ForOp(CHANGE), pending)
  {
  }

  /** A new table, and a backup in progress. */
  lemma BackupRun() returns (steps: seq<Step>, log: Log)
    ensures Exec({0}, steps)[0] == log && TermZero(log) && |log| == 3 && log[2] == Asked(BACKUP, 2, 2)
    ensures Lookup(Replay(log[..2]), FLAG) == Some(Def(true, 0)) && Lookup(Replay(log), FLAG) == Some(Def(false, 0))
  {
    var created;
    steps, created := CreateRun(TABLE);
    BackupClosesTable(Replay(created));
    steps, log := Extend(steps, created, BACKUP);
    assert log[..2] == created;
  }

  /** A run in which DML is accepted by an up-to-date leader, and meets a table that a backup has
      closed. */
  lemma BackupOvertakesDml() returns (steps: seq<Step>, log: Log)
    ensures Exec({0}, steps)[0] == log && |log| == 4 && log[3] == Asked(CHANGE, 2, 2)
    ensures !IsOperable(Replay(log[..3]), TABLE)
  {
    var backed;
    steps, backed := BackupRun();
    BackupUnseen(Pending(Replay(backed[..2])));
    steps := ChangePasses(steps, backed, 2, 2);
    log := backed + [Asked(CHANGE, 2, 2)];
    assert log[..3] == backed;
  }

  // ---- Where a commit stands unseen ---------------------------------------------------------

  /** The schema change that the log leaves open at `a` is about the table. */
  predicate OpenAbout(log: Log, a: nat, t: TableId)
    requires a <= |log|
  {
    match OpenDdl(log[..a])
    case None => false
    case Some(q) => 1 <= q <= |log| && IsPrepare(log[q - 1]) && TableOf(log[q - 1].op.value.ddl) == Some(t)
  }

  /** A schema change of the table of the range: prepared at `p` and finished at `i`. */
  predicate Finishes(log: Log, p: nat, i: nat, t: TableId) {
    && p < i < |log| && IsPrepare(log[p]) && TableOf(log[p].op.value.ddl) == Some(t)
    && IsFinaliser(log[i]) && OpenDdl(log[..i]) == Some(p + 1)
  }

  /** Neither end of a schema change in the window conflicts with the range. */
  predicate Unseen(log: Log, range: Range, index: nat, pending: Option<Ddl>, p: nat, i: nat)
    requires p < i < |log| && log[p].op.Some? && log[i].op.Some?
  {
    !Conflicts(log[i].op.value, range, pending) && (index <= p ==> !Conflicts(log[p].op.value, range, pending))
  }

  /** A finished schema change of the table goes unseen exactly when its prepare is not in the window and
      the change that was open at the leader's applied index is about something else. */
  lemma UnseenIff(log: Log, range: Range, index: nat, applied: nat, p: nat, i: nat)
    requires Finishes(log, p, i, range.table) && range.table != PROPERTIES && applied <= |log|
    requires PendingRowIsSafe(log)
    ensures Unseen(log, range, index, Pending(Replay(log[..applied])), p, i) <==>
            p < index && !OpenAbout(log, applied, range.table)
  {
    PendingIsOpenDdl(log, applied);
  }

  /** The open change at an index is the one prepared at `p` exactly between its two ends. */
  lemma OpenBetween(log: Log, p: nat, i: nat, a: nat, t: TableId)
    requires Finishes(log, p, i, t) && a <= |log|
    ensures OpenDdl(log[..a]) == Some(p + 1) <==> p < a <= i
  {
    OpenIsEarlier(log, a);
    if p < a <= i {
      OpenSince(log, p, a, i);
    } else if i < a && OpenDdl(log[..a]) == Some(p + 1) {
      OpenSince(log, p, i + 1, a);
      OpenDdlStep(log, i);
    }
  }

  /** By position: unless another change of the table was open at the applied index, a finished change
      goes unseen exactly when its prepare stands before the window and the leader had applied both
      ends of it or neither. */
  lemma UnseenByPosition(log: Log, range: Range, index: nat, applied: nat, p: nat, i: nat)
    requires Finishes(log, p, i, range.table) && range.table != PROPERTIES && applied <= |log|
    requires PendingRowIsSafe(log)
    requires OpenAbout(log, applied, range.table) ==> OpenDdl(log[..applied]) == Some(p + 1)
    ensures Unseen(log, range, index, Pending(Replay(log[..applied])), p, i) <==>
            p < index && (i < applied || applied <= p)
  {
    UnseenIff(log, range, index, applied, p, i);
    OpenBetween(log, p, i, applied, range.table);
  }

  /** On certified logs: in the window of an accepted entry, a finished change of one of its tables has
      its prepare before the window, and the leader had applied both ends or neither. */
  lemma UnseenInWindow(log: Log, j: nat, range: Range, p: nat, i: nat)
    requires LogInv(log) && j < |log| && log[j].origin.Some? && range in log[j].origin.value.ranges
    requires PendingRowIsSafe(log)
    requires Finishes(log, p, i, range.table) && range.table != PROPERTIES && log[j].origin.value.index <= i < j
    ensures p < log[j].origin.value.index && (i < log[j].origin.value.applied || log[j].origin.value.applied <= p)
  {
    assert Certified(log, j);
    var o := log[j].origin.value;
    var pending := Pending(Replay(log[..o.applied]));
    var l :| 0 <= l < |o.ranges| && o.ranges[l] == range;
    assert !EntryConflicts(log[i], o.ranges, pending) && !Conflicts(log[i].op.value, o.ranges[l], pending);
    if o.index <= p {
      assert !EntryConflicts(log[p], o.ranges, pending) && !Conflicts(log[p].op.value, o.ranges[l], pending);
    }
    UnseenIff(log, range, o.index, o.applied, p, i);
    OpenBetween(log, p, i, o.applied, range.table);
  }

  /** When the leader had applied exactly the predicate index, nothing about a user table is overlooked
      in the window of an accepted request but deletes without a filter. */
  lemma OnlyFullDeletesOverlooked(log: Log, j: nat, range: Range)
    requires LogInv(log) && j < |log| && log[j].origin.Some? && range in log[j].origin.value.ranges
    requires PendingRowIsSafe(log)
    requires log[j].origin.value.applied == log[j].origin.value.index <= j
    requires !IsSystemTable(range.table) && exists k :: Contains(range, k)
    ensures NothingOverlooked(log, range, log[j].origin.value.index, j) <==>
            forall i :: log[j].origin.value.index <= i < j && log[i].op.Some? ==>
              !DeletesAll(log[i].op.value, range.table)
  {
    var index := log[j].origin.value.index;
    forall i | index <= i < j && log[i].op.Some?
      ensures Overlooked(log[i].op.value, range, UnderwayIn(Replay(log[..i])))
              <==> DeletesAll(log[i].op.value, range.table)
    {
      OverlookedOnUserTable(log[i].op.value, range, UnderwayIn(Replay(log[..i])));
      if log[i].op.value.DdlCommit? {
        CommitIsSeen(log, j, range, i);
      }
    }
  }

  lemma CommitIsSeen(log: Log, j: nat, range: Range, i: nat)
    requires LogInv(log) && j < |log| && log[j].origin.Some? && range in log[j].origin.value.ranges
    requires PendingRowIsSafe(log)
    requires log[j].origin.value.applied == log[j].origin.value.index <= i < j
    requires !IsSystemTable(range.table) && log[i].op == Some(DdlCommit)
    ensures Pending(Replay(log[..i])).Some? ==> Cleared(Pending(Replay(log[..i])).value, true) != Some(range.table)
  {
    PendingIsOpenDdl(log, i);
    var open := OpenDdl(log[..i]);
    if open.Some? && Cleared(log[open.value - 1].op.value.ddl, true) == Some(range.table) {
      assert Finishes(log, open.value - 1, i, range.table);
      UnseenInWindow(log, j, range, open.value - 1, i);
    }
  }
}
