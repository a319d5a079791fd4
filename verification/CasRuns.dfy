/**
 Runs of compare-and-swap over a whole cluster, and what they guarantee of every log.

 Each node has a log. A node that raft made leader appends the entries of accepted
 requests; leaders also append entries of their own without effect; and any node may end up
 with a prefix of any other node's log, which is all that replication and truncation can do
 under the Log Matching Property (section 5.3 of the Raft paper, Ongaro and Ousterhout).
 */
module CasRuns {
  import opened Options
  import opened Catalog
  import opened Footprints
  import opened CasPredicate
  import opened RaftLog
  import opened RoleLoops
  import opened CasLeader

  type NodeId = nat

  type Cluster = map<NodeId, Log>

  datatype Step =
    | Propose(node: NodeId, state: NodeState, request: Request, env: Environment)
    | AppendEmpty(node: NodeId, term: nat)
    | Adopt(node: NodeId, source: NodeId, length: nat)

  ghost predicate Enabled(c: Cluster, step: Step) {
    && step.node in c
    && match step {
      case Propose(i, n, req, env) =>
        n.log == c[i] && RaftContract(n) && req.readAt <= |n.log| && Decide(n, req, env).Accepted?
      case AppendEmpty(i, term) => forall k :: 0 <= k < |c[i]| ==> c[i][k].term <= term
      case Adopt(_, j, k) => j in c && k <= |c[j]|
    }
  }

  ghost function Next(c: Cluster, step: Step): (c': Cluster)
    ensures c'.Keys == c.Keys
  {
    if !Enabled(c, step) then c
    else match step
      case Propose(i, n, req, _) => c[i := c[i] + [NewEntry(n, req)]]
      case AppendEmpty(i, term) => c[i := c[i] + [Entry(term, None, None)]]
      case Adopt(i, j, k) => c[i := c[j][..k]]
  }

  /** The logs after a run from empty logs. */
  ghost function Exec(nodes: set<NodeId>, steps: seq<Step>): (c: Cluster)
    ensures c.Keys == nodes
  {
    if steps == [] then map i | i in nodes :: []
    else Next(Exec(nodes, steps[..|steps| - 1]), steps[|steps| - 1])
  }

  // ---- Invariant of every log --------------------------------------------------------------

  /** What the leader's storage allowed when it checked the operation. */
  ghost predicate AllowedBy(c: Catalog, op: Op) {
    && Preliminary(c, op).Some?
    && (CheckedGrant(op).Some? ==> !Reaches(Grants(c), CheckedGrant(op).value.grantee, CheckedGrant(op).value.role))
    && match op {
      case DmlOp(d) => DmlError(c, d).None?
      case BatchDml(ds) => forall i :: 0 <= i < |ds| ==> DmlError(c, ds[i]).None?
      case _ => true
    }
  }

  /** The entry at position `j` went through the checks of compare-and-swap on this very log. */
  ghost predicate Certified(log: Log, j: nat)
    requires j < |log|
  {
    var e := log[j];
    if e.origin.None? then e.op.None?
    else
      var o := e.origin.value;
      && e.op.Some? && o.index <= j && o.applied <= j && o.readAt <= j
      && AllowedBy(Replay(log[..o.applied]), e.op.value)
      && (forall r :: r in ForOp(e.op.value) ==> r in o.ranges)
      && (forall i :: o.index <= i < j ==>
            log[i].term == e.term && !EntryConflicts(log[i], o.ranges, Pending(Replay(log[..o.applied]))))
  }

  ghost predicate LogInv(log: Log) {
    TermsGrow(log) && forall j :: 0 <= j < |log| ==> Certified(log, j)
  }

  lemma CertifiedInPrefix(log: Log, k: nat, j: nat)
    requires j < k <= |log|
    ensures Certified(log[..k], j) <==> Certified(log, j)
  {
    var e := log[j];
    if e.origin.Some? && e.origin.value.applied <= j {
      assert log[..k][..e.origin.value.applied] == log[..e.origin.value.applied];
    }
  }

  lemma PrefixKeepsInv(log: Log, k: nat)
    requires LogInv(log) && k <= |log|
    ensures LogInv(log[..k])
  {
    forall j | 0 <= j < k ensures Certified(log[..k], j) {
      CertifiedInPrefix(log, k, j);
    }
  }

  lemma AppendKeepsInv(log: Log, e: Entry)
    requires LogInv(log) && Certified(log + [e], |log|)
    requires forall k :: 0 <= k < |log| ==> log[k].term <= e.term
    ensures LogInv(log + [e])
  {
    assert (log + [e])[..|log|] == log;
    forall j | 0 <= j < |log| ensures Certified(log + [e], j) {
      CertifiedInPrefix(log + [e], |log|, j);
    }
  }

  lemma {:induction false} BatchErrorFree(c: Catalog, ds: seq<Dml>, i: nat)
    requires BatchError(c, ds).None? && i < |ds|
    ensures DmlError(c, ds[i]).None?
    decreases |ds|
  {
    if i > 0 {
      BatchErrorFree(c, ds[1..], i - 1);
    }
  }

  /** An accepted request is appended with a valid certificate. */
  lemma AcceptedIsCertified(n: NodeState, req: Request, env: Environment)
    requires RaftContract(n) && req.readAt <= |n.log| && Decide(n, req, env).Accepted?
    ensures Certified(n.log + [NewEntry(n, req)], |n.log|)
  {
    var log := n.log + [NewEntry(n, req)];
    assert log[..n.applied] == n.log[..n.applied];
    AcceptedWindow(n, req, env);
    if req.op.BatchDml? {
      forall i | 0 <= i < |req.op.ops| ensures DmlError(n.storage, req.op.ops[i]).None? {
        BatchErrorFree(n.storage, req.op.ops, i);
      }
    }
    assert AllowedBy(n.storage, req.op);
  }

  lemma {:induction false} RunsKeepLogInv(nodes: set<NodeId>, steps: seq<Step>)
    ensures forall i :: i in Exec(nodes, steps) ==> LogInv(Exec(nodes, steps)[i])
  {
    if steps != [] {
      var before, step := steps[..|steps| - 1], steps[|steps| - 1];
      RunsKeepLogInv(nodes, before);
      var c := Exec(nodes, before);
      if Enabled(c, step) {
        StepKeepsLogInv(c, step);
      }
    }
  }

  lemma StepKeepsLogInv(c: Cluster, step: Step)
    requires Enabled(c, step) && forall i :: i in c ==> LogInv(c[i])
    ensures forall i :: i in Next(c, step) ==> LogInv(Next(c, step)[i])
  {
    match step {
      case Propose(i, n, req, env) =>
        AcceptedIsCertified(n, req, env);
        AppendKeepsInv(n.log, NewEntry(n, req));
      case AppendEmpty(i, term) =>
        AppendKeepsInv(c[i], Entry(term, None, None));
      case Adopt(i, j, k) =>
        PrefixKeepsInv(c[j], k);
    }
  }

  // ---- Serialisability ---------------------------------------------------------------------

  /** No entry between the two indexes is of a kind that the conflict check overlooks for this
      range, given what is under way at the entry's own place in the log. */
  ghost predicate NothingOverlooked(log: Log, range: Range, from: nat, upTo: nat)
    requires from <= upTo <= |log|
  {
    forall i :: from <= i < upTo && log[i].op.Some? ==>
      !Overlooked(log[i].op.value, range, UnderwayIn(Replay(log[..i])))
  }

  lemma AgreeTransitive(a: Catalog, b: Catalog, c: Catalog, range: Range)
    requires AgreeOn(a, b, range) && AgreeOn(b, c, range)
    ensures AgreeOn(a, c, range)
  {
  }

  /** The rows of a checked range stay what they were at the predicate index, up to the entry. */
  lemma {:induction false} WindowKeepsRange(log: Log, j: nat, range: Range, q: nat)
    requires j < |log| && Certified(log, j) && log[j].origin.Some?
    requires var o := log[j].origin.value;
             range in o.ranges && o.index <= q <= j && NothingOverlooked(log, range, o.index, q)
    ensures AgreeOn(Replay(log[..log[j].origin.value.index]), Replay(log[..q]), range)
    decreases q
  {
    var o := log[j].origin.value;
    if o.index < q {
      WindowKeepsRange(log, j, range, q - 1);
      ReplayStep(log, q - 1);
      var e := log[q - 1];
      var pending := Pending(Replay(log[..o.applied]));
      assert !EntryConflicts(e, o.ranges, pending);
      if e.op.Some? {
        var k :| 0 <= k < |o.ranges| && o.ranges[k] == range;
        assert !Conflicts(e.op.value, range, pending);
        PassedEntryKeepsRange(Replay(log[..q - 1]), e.op.value, range, pending);
      }
      AgreeTransitive(Replay(log[..o.index]), Replay(log[..q - 1]), Replay(log[..q]), range);
    }
  }

  /** Rows that a DML entry writes, as they were at the predicate index and just before the entry. */
  lemma OwnRowsAreCurrent(log: Log, j: nat, cell: Cell)
    requires j < |log| && Certified(log, j) && log[j].origin.Some?
    requires log[j].op.value.DmlOp? || log[j].op.value.BatchDml?
    requires forall r :: r in log[j].origin.value.ranges ==> NothingOverlooked(log, r, log[j].origin.value.index, j)
    requires Lookup(Replay(log[..j]), cell) != Lookup(Replay(log[..j + 1]), cell)
    ensures Lookup(Replay(log[..log[j].origin.value.index]), cell) == Lookup(Replay(log[..j]), cell)
  {
    ReplayStep(log, j);
    var op, o := log[j].op.value, log[j].origin.value;
    OpChangesOwnRanges(Replay(log[..j]), op, cell);
    var i :| 0 <= i < |ForOp(op)| && InRange(ForOp(op)[i], cell);
    assert ForOp(op)[i] in o.ranges;
    WindowKeepsRange(log, j, ForOp(op)[i], j);
  }

  /** A DML operation does the same to a range in two states that agree on it. */
  lemma DmlDependsOnRange(a: Catalog, b: Catalog, op: Op, range: Range)
    requires op.DmlOp? || op.BatchDml?
    requires AgreeOn(a, b, range)
    ensures AgreeOn(Apply(a, op), Apply(b, op), range)
  {
    forall cell | InRange(range, cell) ensures Lookup(Apply(a, op), cell) == Lookup(Apply(b, op), cell) {
      ApplyIsAfter(a, op, cell);
      ApplyIsAfter(b, op, cell);
      assert Lookup(a, cell) == Lookup(b, cell);
    }
  }

  /** In every run, log order is a serial order in which each accepted request still sees what it
      read: at the predicate index, at every later state up to the entry, and in its own result,
      the rows of each of its ranges are the same. */
  lemma Serialisable(nodes: set<NodeId>, steps: seq<Step>, node: NodeId, j: nat, range: Range, q: nat)
    requires node in Exec(nodes, steps)
    requires var log := Exec(nodes, steps)[node];
             && j < |log| && log[j].origin.Some? && range in log[j].origin.value.ranges
             && log[j].origin.value.index <= q <= j
             && NothingOverlooked(log, range, log[j].origin.value.index, j)
    ensures var log := Exec(nodes, steps)[node]; var r := log[j].origin.value.index;
            && AgreeOn(Replay(log[..r]), Replay(log[..q]), range)
            && log[j].op.Some?
            && (log[j].op.value.DmlOp? || log[j].op.value.BatchDml? ==>
                  AgreeOn(Apply(Replay(log[..r]), log[j].op.value), Replay(log[..j + 1]), range))
  {
    RunsKeepLogInv(nodes, steps);
    var log := Exec(nodes, steps)[node];
    assert Certified(log, j);
    SerialInLog(log, j, range, q);
  }

  lemma SerialInLog(log: Log, j: nat, range: Range, q: nat)
    requires j < |log| && Certified(log, j) && log[j].origin.Some? && range in log[j].origin.value.ranges
    requires log[j].origin.value.index <= q <= j && NothingOverlooked(log, range, log[j].origin.value.index, j)
    ensures var r, op := log[j].origin.value.index, log[j].op.value;
            && AgreeOn(Replay(log[..r]), Replay(log[..q]), range)
            && (op.DmlOp? || op.BatchDml? ==> AgreeOn(Apply(Replay(log[..r]), op), Replay(log[..j + 1]), range))
  {
    WindowKeepsRange(log, j, range, q);
    WindowKeepsRange(log, j, range, j);
    ReplayStep(log, j);
    var op := log[j].op.value;
    if op.DmlOp? || op.BatchDml? {
      DmlDependsOnRange(Replay(log[..log[j].origin.value.index]), Replay(log[..j]), op, range);
    }
  }

  // ---- Building runs -----------------------------------------------------------------------

  /** Node 0 as leader of term 0 with everything persisted and the given entries applied. */
  function LeaderOf(log: Log, applied: nat): NodeState
    requires applied <= |log|
  {
    NodeState(0, 0, 0, Some(0), 1, log, log, applied, Replay(log[..applied]))
  }

  /** A request without ranges of its own, made from the state at its predicate index. */
  function Ask(op: Op, index: nat): Request {
    Request(0, Predicate(index, 0, []), op, index)
  }

  const PERMIT: Environment := Environment(true, true)

  predicate TermZero(log: Log) {
    forall i :: 0 <= i < |log| ==> log[i].term == 0
  }

  /** The checks that the leader makes on its storage succeed. */
  ghost predicate StorageAllows(c: Catalog, op: Op) {
    && AccessError(c, op).None? && OpError(c, op).None? && Preliminary(c, op).Some?
    && (CheckedGrant(op).Some? ==> !Reaches(Grants(c), CheckedGrant(op).value.grantee, CheckedGrant(op).value.role))
  }

  /** The entry that the leader appends for such a request. */
  function Asked(op: Op, index: nat, applied: nat): Entry {
    Entry(0, Some(op), Some(Origin(index, ForOp(op), applied, index)))
  }

  lemma {:induction false} NoConflictFrom(log: Log, from: nat, ranges: seq<Range>, pending: Option<Ddl>)
    requires from <= |log| && forall i :: from <= i < |log| ==> !EntryConflicts(log[i], ranges, pending)
    ensures FirstConflict(log, from, ranges, pending) == None
    decreases |log| - from
  {
    if from < |log| {
      NoConflictFrom(log, from + 1, ranges, pending);
    }
  }

  lemma LeaderIsEarlyFree(log: Log, op: Op, index: nat, applied: nat)
    requires TermZero(log) && index <= |log| && applied <= |log| && StorageAllows(Replay(log[..applied]), op)
    ensures RaftContract(LeaderOf(log, applied)) && EarlyError(LeaderOf(log, applied), Ask(op, index), PERMIT) == None
  {
    assert TermAt(log, index) == 0;
  }

  lemma LeaderAccepts(log: Log, op: Op, index: nat, applied: nat)
    requires TermZero(log) && index <= |log| && applied <= |log| && StorageAllows(Replay(log[..applied]), op)
    requires forall i :: index <= i < |log| ==> !EntryConflicts(log[i], ForOp(op), Pending(Replay(log[..applied])))
    ensures var n := LeaderOf(log, applied);
            && RaftContract(n) && Decide(n, Ask(op, index), PERMIT).Accepted?
            && NewEntry(n, Ask(op, index)) == Asked(op, index, applied)
  {
    LeaderIsEarlyFree(log, op, index, applied);
    assert AllRanges(Ask(op, index)) == ForOp(op);
    NoConflictFrom(log, index, ForOp(op), Pending(Replay(log[..applied])));
  }

  /** A run goes on with an accepted request to node 0. */
  lemma ProposeNext(steps: seq<Step>, log: Log, op: Op, index: nat, applied: nat) returns (steps': seq<Step>)
    requires Exec({0}, steps)[0] == log
    requires TermZero(log) && index <= |log| && applied <= |log| && StorageAllows(Replay(log[..applied]), op)
    requires forall i :: index <= i < |log| ==> !EntryConflicts(log[i], ForOp(op), Pending(Replay(log[..applied])))
    ensures Exec({0}, steps')[0] == log + [Asked(op, index, applied)] && TermZero(log + [Asked(op, index, applied)])
  {
    LeaderAccepts(log, op, index, applied);
    var step := Propose(0, LeaderOf(log, applied), Ask(op, index), PERMIT);
    steps' := steps + [step];
    assert steps'[..|steps|] == steps;
    assert Enabled(Exec({0}, steps), step);
  }

  const NO_OP: Entry := Entry(0, None, None)

  /** A run goes on with entries without an operation on node 0. */
  lemma {:induction false} AppendEmpties(steps: seq<Step>, log: Log, n: nat) returns (steps': seq<Step>, log': Log)
    requires Exec({0}, steps)[0] == log && TermZero(log)
    ensures Exec({0}, steps')[0] == log' && |log'| == |log| + n && log <= log' && TermZero(log')
    ensures forall i :: |log| <= i < |log'| ==> log'[i] == NO_OP
  {
    if n == 0 {
      steps', log' := steps, log;
    } else {
      var steps0, log0 := AppendEmpties(steps, log, n - 1);
      var step := AppendEmpty(0, 0);
      steps', log' := steps0 + [step], log0 + [NO_OP];
      assert steps'[..|steps0|] == steps0 && Enabled(Exec({0}, steps0), step);
    }
  }

  /** Entries without an operation change nothing. */
  lemma {:induction false} EmptiesChangeNothing(log: Log, a: nat, b: nat)
    requires a <= b <= |log| && forall i :: a <= i < b ==> log[i].op == None
    ensures Replay(log[..b]) == Replay(log[..a])
    decreases b
  {
    if a < b {
      EmptiesChangeNothing(log, a, b - 1);
      ReplayStep(log, b - 1);
    }
  }

  lemma CellStep(log: Log, e: Entry, cell: Cell)
    requires e.op.Some?
    ensures Lookup(Replay(log + [e]), cell) == After(Replay(log), e.op.value, cell)
  {
    assert (log + [e])[..|log|] == log;
    ApplyIsAfter(Replay(log), e.op.value, cell);
  }

  /** Nothing on storage stands in the way of a schema change of an object that is there, or of DML on an
      operable table that cannot fail. */
  lemma StorageIsFree(c: Catalog, op: Op)
    requires op.DdlCommit? || op.DdlAbort?
             || (op.DdlPrepare? && !DdlObjectMissing(c, op.ddl) && !NobodyMay(op))
             || (op.DmlOp? && DmlError(c, op.dml).None? && !DmlFails(c, op.dml))
    ensures StorageAllows(c, op)
  {
    if op.DmlOp? {
      var ds := [op.dml];
      assert ds[1..] == [] && DryRun(Apply(c, DmlOp(ds[0])), []) == Some(0);
      assert DryRun(c, ds).Some?;
    }
  }

  // ---- A new table ---------------------------------------------------------------------------

  function Create(t: TableId): Op {
    DdlPrepare(CreateTable(t, 0), 1, None)
  }

  const PENDING: Cell := Prop(PENDING_SCHEMA_CHANGE)

  /** A table is being created in a catalog that does not have it. */
  lemma CreateMarks(c: Catalog, t: TableId)
    requires Lookup(c, Cell(TABLES, [t])) == None
    ensures After(c, Create(t), Cell(TABLES, [t])) == Some(Def(false, 0))
    ensures After(c, Create(t), PENDING) == Some(Change(CreateTable(t, 0)))
  {
  }

  lemma CreateEnds(c: Catalog, t: TableId)
    requires Lookup(c, Cell(TABLES, [t])) == Some(Def(false, 0))
    requires Lookup(c, PENDING) == Some(Change(CreateTable(t, 0)))
    ensures After(c, DdlCommit, Cell(TABLES, [t])) == Some(Def(true, 0)) && After(c, DdlCommit, PENDING) == None
  {
  }

  /** The creation of the table is prepared. */
  lemma CreateStarts(t: TableId) returns (steps: seq<Step>, log: Log)
    requires !IsSystemTable(t)
    ensures Exec({0}, steps)[0] == log && TermZero(log) && log == [Asked(Create(t), 0, 0)]
    ensures Lookup(Replay(log), Cell(TABLES, [t])) == Some(Def(false, 0))
    ensures Lookup(Replay(log), PENDING) == Some(Change(CreateTable(t, 0)))
  {
    var none: Log := [];
    assert none[..0] == none;
    StorageIsFree(INITIAL, Create(t));
    steps := ProposeNext([], none, Create(t), 0, 0);
    log := none + [Asked(Create(t), 0, 0)];
    InitialRows(Cell(TABLES, [t]));
    CreateMarks(INITIAL, t);
    CellStep(none, Asked(Create(t), 0, 0), Cell(TABLES, [t]));
    CellStep(none, Asked(Create(t), 0, 0), PENDING);
  }

  lemma CommitCreates(first: Log, e: Entry, t: TableId)
    requires e.op == Some(DdlCommit)
    requires Lookup(Replay(first), Cell(TABLES, [t])) == Some(Def(false, 0))
    requires Lookup(Replay(first), PENDING) == Some(Change(CreateTable(t, 0)))
    ensures Lookup(Replay(first + [e]), Cell(TABLES, [t])) == Some(Def(true, 0))
    ensures Lookup(Replay(first + [e]), PENDING) == None
  {
    CreateEnds(Replay(first), t);
    CellStep(first, e, Cell(TABLES, [t]));
    CellStep(first, e, PENDING);
  }

  /** The table is created and ready. */
  lemma CreateRun(t: TableId) returns (steps: seq<Step>, log: Log)
    requires !IsSystemTable(t)
    ensures Exec({0}, steps)[0] == log && TermZero(log) && log == [Asked(Create(t), 0, 0), Asked(DdlCommit, 1, 1)]
    ensures Lookup(Replay(log), Cell(TABLES, [t])) == Some(Def(true, 0)) && Lookup(Replay(log), PENDING) == None
  {
    var first;
    steps, first := CreateStarts(t);
    assert first[..1] == first;
    StorageIsFree(Replay(first), DdlCommit);
    steps := ProposeNext(steps, first, DdlCommit, 1, 1);
    log := first + [Asked(DdlCommit, 1, 1)];
    CommitCreates(first, Asked(DdlCommit, 1, 1), t);
  }

  // ---- The overlooked kinds are real ----------------------------------------------------------

  const TABLE: TableId := 2000
  const ROW: Cell := Cell(TABLE, [5])
  const FLAG: Cell := Cell(TABLES, [TABLE])
  const PUT: Op := DmlOp(Replace(TABLE, [5], Row(1)))
  const CLEAR: Op := DmlOp(DeleteAll(TABLE))
  const CHANGE: Op := DmlOp(Update(TABLE, [5], Add(1)))
  const TRUNCATE: Op := DdlPrepare(TruncateTable(TABLE), 2, None)

  /** The entry was accepted although a row of its ranges is not what it was at the predicate index. */
  ghost predicate ReadIsStale(log: Log, j: nat) {
    && j < |log| && Certified(log, j) && log[j].origin.Some?
    && exists range :: range in log[j].origin.value.ranges
                       && !AgreeOn(Replay(log[..log[j].origin.value.index]), Replay(log[..j]), range)
  }

  /** The update of a row is stale when the row was there at the predicate index and is gone. */
  lemma GoneIsStale(steps: seq<Step>, log: Log, index: nat, applied: nat)
    requires Exec({0}, steps)[0] == log + [Asked(CHANGE, index, applied)] && index <= |log|
    requires Lookup(Replay(log[..index]), ROW) == Some(Row(1)) && Lookup(Replay(log), ROW) == None
    ensures ReadIsStale(Exec({0}, steps)[0], |log|)
  {
    RunsKeepLogInv({0}, steps);
    var log' := Exec({0}, steps)[0];
    assert log'[..index] == log[..index] && log'[..|log|] == log;
    CompareSelf([5]);
    var range := ForOp(CHANGE)[0];
    assert InRange(range, ROW);
    assert Certified(log', |log|) && range in log'[|log|].origin.value.ranges;
  }

  /** The row, the pending change and the flag of the table are as given. */
  predicate Holds(c: Catalog, row: Option<Value>, pending: Option<Value>, operable: bool) {
    Lookup(c, ROW) == row && Lookup(c, PENDING) == pending && Lookup(c, FLAG) == Some(Def(operable, 0))
  }

  lemma ChangePasses(steps: seq<Step>, log: Log, index: nat, applied: nat) returns (steps': seq<Step>)
    requires Exec({0}, steps)[0] == log && TermZero(log) && index <= |log| && applied <= |log|
    requires Lookup(Replay(log[..applied]), FLAG) == Some(Def(true, 0))
    requires forall i :: index <= i < |log| ==> !EntryConflicts(log[i], ForOp(CHANGE), Pending(Replay(log[..applied])))
    ensures Exec({0}, steps')[0] == log + [Asked(CHANGE, index, applied)]
  {
    StorageIsFree(Replay(log[..applied]), CHANGE);
    steps' := ProposeNext(steps, log, CHANGE, index, applied);
  }

  /** One more accepted entry on an up-to-date leader, and what it makes of the three cells. */
  lemma Extend(steps: seq<Step>, log: Log, op: Op) returns (steps': seq<Step>, log': Log)
    requires Exec({0}, steps)[0] == log && TermZero(log) && StorageAllows(Replay(log), op)
    ensures log' == log + [Asked(op, |log|, |log|)] && Exec({0}, steps')[0] == log' && TermZero(log')
    ensures Lookup(Replay(log'), ROW) == After(Replay(log), op, ROW)
    ensures Lookup(Replay(log'), PENDING) == After(Replay(log), op, PENDING)
    ensures Lookup(Replay(log'), FLAG) == After(Replay(log), op, FLAG)
  {
    assert log[..|log|] == log;
    steps' := ProposeNext(steps, log, op, |log|, |log|);
    log' := log + [Asked(op, |log|, |log|)];
    CellStep(log, Asked(op, |log|, |log|), ROW);
    CellStep(log, Asked(op, |log|, |log|), PENDING);
    CellStep(log, Asked(op, |log|, |log|), FLAG);
  }

  lemma PutPuts(c: Catalog)
    requires Lookup(c, FLAG) == Some(Def(true, 0)) && Lookup(c, PENDING) == None
    ensures StorageAllows(c, PUT)
    ensures After(c, PUT, ROW) == Some(Row(1)) && After(c, PUT, PENDING) == None
    ensures After(c, PUT, FLAG) == Lookup(c, FLAG)
  {
    StorageIsFree(c, PUT);
  }

  lemma ClearClears(c: Catalog)
    requires Holds(c, Some(Row(1)), None, true)
    ensures StorageAllows(c, CLEAR)
    ensures After(c, CLEAR, ROW) == None && After(c, CLEAR, PENDING) == None && After(c, CLEAR, FLAG) == Lookup(c, FLAG)
  {
    StorageIsFree(c, CLEAR);
  }

  lemma TruncateMarks(c: Catalog)
    requires Holds(c, Some(Row(1)), None, true)
    ensures StorageAllows(c, TRUNCATE)
    ensures After(c, TRUNCATE, ROW) == Some(Row(1)) && After(c, TRUNCATE, FLAG) == Some(Def(false, 0))
    ensures After(c, TRUNCATE, PENDING) == Some(Change(TruncateTable(TABLE)))
  {
    StorageIsFree(c, TRUNCATE);
  }

  lemma TruncateEnds(c: Catalog)
    requires Holds(c, Some(Row(1)), Some(Change(TruncateTable(TABLE))), false)
    ensures StorageAllows(c, DdlCommit)
    ensures After(c, DdlCommit, ROW) == None && After(c, DdlCommit, PENDING) == None
    ensures After(c, DdlCommit, FLAG) == Some(Def(true, 0))
  {
    StorageIsFree(c, DdlCommit);
  }

  /** A new table with one row. */
  lemma PutRow() returns (steps: seq<Step>, log: Log)
    ensures Exec({0}, steps)[0] == log && TermZero(log) && |log| == 3
    ensures Holds(Replay(log), Some(Row(1)), None, true)
  {
    var created;
    steps, created := CreateRun(TABLE);
    PutPuts(Replay(created));
    steps, log := Extend(steps, created, PUT);
  }

  /** The row is put, and everything deleted. */
  lemma ClearRun() returns (steps: seq<Step>, log: Log)
    ensures Exec({0}, steps)[0] == log && TermZero(log) && |log| == 4 && log[3] == Asked(CLEAR, 3, 3)
    ensures Holds(Replay(log[..3]), Some(Row(1)), None, true) && Holds(Replay(log), None, None, true)
  {
    var first;
    steps, first := PutRow();
    ClearClears(Replay(first));
    steps, log := Extend(steps, first, CLEAR);
    assert log[..3] == first;
  }

  /** A run in which an update passes although a delete without a filter removed its row. */
  lemma FullDeletePasses() returns (steps: seq<Step>)
    ensures ReadIsStale(Exec({0}, steps)[0], 4)
  {
    var log;
    steps, log := ClearRun();
    assert log[..4] == log;
    assert Compare([], [5]) == -1;
    assert !EntryConflicts(log[3], ForOp(CHANGE), Pending(Replay(log)));
    steps := ChangePasses(steps, log, 3, 4);
    GoneIsStale(steps, log, 3, 4);
  }

  /** The row is put, and the table truncated. */
  lemma TruncateRun() returns (steps: seq<Step>, log: Log)
    ensures Exec({0}, steps)[0] == log && TermZero(log) && |log| == 5 && log[4] == Asked(DdlCommit, 4, 4)
    ensures Holds(Replay(log[..3]), Some(Row(1)), None, true) && Holds(Replay(log), None, None, true)
    ensures Lookup(Replay(log[..4]), ROW) == Some(Row(1))
  {
    var first, second;
    steps, first := PutRow();
    TruncateMarks(Replay(first));
    steps, second := Extend(steps, first, TRUNCATE);
    TruncateEnds(Replay(second));
    steps, log := Extend(steps, second, DdlCommit);
    assert log[..4] == second && log[..3] == second[..3] == first;
  }

  lemma CommitUnseen(pending: Option<Ddl>)
    requires pending.None?
    ensures !EntryConflicts(Asked(DdlCommit, 4, 4), ForOp(CHANGE), pending)
  {
  }

  /** The update is accepted by a leader to whom no change is pending, and is stale. */
  lemma StaleUpdate(steps: seq<Step>, log: Log, applied: nat) returns (steps': seq<Step>)
    requires Exec({0}, steps)[0] == log && TermZero(log) && |log| == 5 && log[4] == Asked(DdlCommit, 4, 4)
    requires Lookup(Replay(log[..4]), ROW) == Some(Row(1)) && Lookup(Replay(log), ROW) == None
    requires applied <= 5 && exists row :: Holds(Replay(log[..applied]), row, None, true)
    ensures ReadIsStale(Exec({0}, steps')[0], 5)
  {
    CommitUnseen(Pending(Replay(log[..applied])));
    steps' := ChangePasses(steps, log, 4, applied);
    GoneIsStale(steps', log, 4, applied);
  }

  /** A run in which an update passes although a truncation removed its row, and the leader had
      already applied the commit. */
  lemma AppliedCommitPasses() returns (steps: seq<Step>)
    ensures ReadIsStale(Exec({0}, steps)[0], 5)
  {
    var log;
    steps, log := TruncateRun();
    assert log[..5] == log;
    steps := StaleUpdate(steps, log, 5);
  }

  /** The same when the leader had applied neither the commit nor the prepare. */
  lemma UnappliedCommitPasses() returns (steps: seq<Step>)
    ensures ReadIsStale(Exec({0}, steps)[0], 5)
  {
    var log;
    steps, log := TruncateRun();
    steps := StaleUpdate(steps, log, 3);
  }
}
