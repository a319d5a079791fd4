/**
 Compare-and-swap on the raft leader: the order of the checks of `proc_cas_v2_local`, the two
 loops over the persisted and the unstable part of the log, and the append (src/cas.rs).
 */
module CasLeader {
  import opened Options
  import opened Naturals
  import opened Catalog
  import opened CasPredicate
  import opened RaftLog
  import opened RoleLoops

  datatype Predicate = Predicate(index: nat, term: nat, ranges: seq<Range>)

  /** `readAt` is only recorded in the entry's origin; no check reads it. */
  datatype Request = Request(cluster: int, pred: Predicate, op: Op, readAt: nat)

  /** Outcome of the checks made outside this model: the privileges of the sender, and the formats and
      constraints that the dry run on local storage enforces besides primary keys. */
  datatype Environment = Environment(permitted: bool, constraintsHold: bool)

  datatype Error =
    | ClusterNameMismatch
    | TermMismatch
    | LeaderUnknown
    | NotALeader
    | NoSuchIndex
    | Compacted
    | EntryTermMismatch
    | AccessDenied
    | NoSuchObject
    | RoleLoop
    | TableNotOperable
    | TableNotAllowed
    | ConfigNotAllowed
    | LimitReached
    | StorageUnavailable
    | ConflictFound(index: nat)
    | DryRunFailed

  datatype Verdict = Accepted(index: nat, term: nat, rowCount: nat) | Rejected(error: Error)

  datatype NodeState = NodeState(
    cluster: int, id: nat, term: nat, leaderId: Option<nat>,
    first: nat, log: Log, stored: Log, applied: nat, storage: Catalog)

  /** First part of the key of the configuration parameter that is fixed at bootstrap. */
  const SHREDDING: int := 0

  /** `check_table_operable` and `check_dml_prohibited`; a configuration key that does not decode, such
      as the empty key, is an error there too. */
  function DmlError(c: Catalog, d: Dml): Option<Error> {
    if !IsOperable(c, d.table) then Some(TableNotOperable)
    else if d.table in PROHIBITED_TABLES then Some(TableNotAllowed)
    else if d.table == DB_CONFIG && (KeyOf(d) == [] || KeyOf(d)[0] == SHREDDING) then Some(ConfigNotAllowed)
    else None
  }

  function BatchError(c: Catalog, ds: seq<Dml>): (r: Option<Error>)
    ensures r.Some? ==> !r.value.ConflictFound?
    decreases |ds|
  {
    if ds == [] then None
    else if DmlError(c, ds[0]).Some? then DmlError(c, ds[0])
    else BatchError(c, ds[1..])
  }

  // ---- Objects that an operation is about ----------------------------------------------------

  predicate DdlObjectMissing(c: Catalog, ddl: Ddl) {
    match ddl
    case DropTable(id) => !TableKnown(c, id)
    case TruncateTable(id) => !TableKnown(c, id)
    case ChangeFormat(id, _, _, _, _) => !TableKnown(c, id)
    case CreateIndex(t, _, _) => !TableKnown(c, t)
    case DropIndex(t, _) => !TableKnown(c, t)
    case DropProcedure(id) => !RoutineKnown(c, id)
    case _ => false
  }

  /** A negative object id stands for all objects of the type, and nothing is looked up. */
  predicate PrivilegeObjectMissing(c: Catalog, p: Privilege) {
    p.objectId >= 0 &&
    (|| (p.objectType == ON_TABLE && !TableKnown(c, p.objectId))
     || (p.objectType == ON_ROLE && !(UserKnown(c, p.objectId) && UserKnown(c, p.grantee)))
     || (p.objectType == ON_USER && !IsUser(c, p.objectId))
     || (p.objectType == ON_ROUTINE && !RoutineKnown(c, p.objectId))
     || (p.objectType == ON_UNIVERSE && !IsUser(c, p.grantee)))
  }

  predicate AclObjectMissing(c: Catalog, acl: Acl) {
    match acl
    case RenameUser(u, _) => !UserKnown(c, u)
    case ChangeAuth(u, _) => !UserKnown(c, u)
    case AuditPolicy(u, _, _) => !UserKnown(c, u)
    case GrantPrivilege(p) => PrivilegeObjectMissing(c, p)
    case RevokePrivilege(p) => PrivilegeObjectMissing(c, p)
    case _ => false
  }

  predicate ObjectMissing(c: Catalog, op: Op) {
    match op
    case DmlOp(d) => !TableKnown(c, d.table)
    case BatchDml(ds) => exists i :: 0 <= i < |ds| && !TableKnown(c, ds[i].table)
    case DdlPrepare(ddl, _, _) => DdlObjectMissing(c, ddl)
    case AclOp(acl, _) => AclObjectMissing(c, acl)
    case _ => false
  }

  /** Privileges that nobody may grant or revoke: to drop a system table, and anything but login on the
      universe. */
  predicate NobodyMayPass(p: Privilege) {
    p.objectId >= 0 &&
    (|| (p.objectType == ON_TABLE && p.privilege == DROP && p.objectId <= SPACE_ID_INTERNAL_MAX)
     || (p.objectType == ON_UNIVERSE && p.privilege != LOGIN))
  }

  /** What nobody may do: besides that, drop system tables or their indexes, revoke from the two service
      users, and revoke the role `public`. */
  predicate NobodyMay(op: Op) {
    match op
    case DdlPrepare(DropTable(id), _, _) => id <= SPACE_ID_INTERNAL_MAX
    case DdlPrepare(DropIndex(t, _), _, _) => t <= SPACE_ID_INTERNAL_MAX
    case AclOp(GrantPrivilege(p), _) => NobodyMayPass(p)
    case AclOp(RevokePrivilege(p), _) =>
      || NobodyMayPass(p)
      || (p.objectId >= 0 && (p.grantee in {ADMIN, PICO_SERVICE} || (p.objectType == ON_ROLE && p.objectId == PUBLIC)))
    case _ => false
  }

  /** `access_check_op` as far as it does not depend on the sender. */
  function AccessError(c: Catalog, op: Op): (r: Option<Error>)
    ensures r.Some? ==> !r.value.ConflictFound?
  {
    if NobodyMay(op) then Some(AccessDenied)
    else if ObjectMissing(c, op) then Some(NoSuchObject)
    else None
  }

  const MAX_USERS := 128

  function UserRows(c: Catalog): set<Cell> {
    set cell | cell in c.rows && cell.table == USERS
  }

  /** `check_acl_limits`. */
  predicate OverLimit(c: Catalog, acl: Acl) {
    (acl.CreateUser? || acl.CreateRole?) && |UserRows(c)| >= MAX_USERS
  }

  function OpError(c: Catalog, op: Op): (r: Option<Error>)
    ensures r.Some? ==> !r.value.ConflictFound?
  {
    match op
    case DmlOp(d) => DmlError(c, d)
    case BatchDml(ds) => BatchError(c, ds)
    case AclOp(acl, _) => if OverLimit(c, acl) then Some(LimitReached) else None
    case _ => None
  }

  /** The role and grantee of a privilege on a role, which the loop check looks at. */
  function OnRole(p: Privilege): Option<Grant> {
    if p.objectType == ON_ROLE && p.objectId >= 0 then Some(Grant(p.objectId, p.grantee)) else None
  }

  /** The grant whose loop check decides an operation, if any. */
  function CheckedGrant(op: Op): Option<Grant> {
    match op
    case AclOp(GrantPrivilege(p), _) => OnRole(p)
    case AclOp(RevokePrivilege(p), _) => OnRole(p)
    case _ => None
  }

  // ---- The dry run on local storage --------------------------------------------------------

  /** `do_dml` fails on a missing table, on the primary key, or in the trigger of `_pico_property`. */
  predicate DmlFails(c: Catalog, d: Dml) {
    var cell := Cell(d.table, KeyOf(d));
    !TableKnown(c, d.table) ||
    match d {
      case Insert(_, _, v, strategy) =>
        if cell in c.rows && !strategy.DoReplace? then strategy.DoFail? else !Admits(cell, v)
      case Replace(_, _, v) => !Admits(cell, v)
      case Update(_, _, update) => cell in c.rows && !Admits(cell, Updated(c.rows[cell], update))
      case Delete(t, k) => t == PROPERTIES && k in UNDELETABLE && cell in c.rows
      case DeleteAll(t) => t == PROPERTIES && exists k :: k in UNDELETABLE && Prop(k) in c.rows
    }
  }

  /** `do_dml` returns a new tuple. */
  predicate Yields(c: Catalog, d: Dml) {
    match d
    case Insert(t, k, _, strategy) => !strategy.DoNothing? || Cell(t, k) !in c.rows
    case Replace(_, _, _) => true
    case Update(t, k, _) => Cell(t, k) in c.rows
    case _ => false
  }

  /** The number of new tuples of the operations done one after the other, unless one fails. */
  function DryRun(c: Catalog, ds: seq<Dml>): Option<nat>
    decreases |ds|
  {
    if ds == [] then Some(0)
    else if DmlFails(c, ds[0]) then None
    else
      match DryRun(Apply(c, DmlOp(ds[0])), ds[1..])
      case None => None
      case Some(n) => Some(n + if Yields(c, ds[0]) then 1 else 0)
  }

  /** `Acl::validate` without dependent objects. */
  predicate AclInvalid(c: Catalog, acl: Acl) {
    match acl
    case ChangeAuth(u, _) => u == GUEST
    case DropUser(u) => u in {GUEST, ADMIN, PICO_SERVICE} || Cell(USERS, [u]) !in c.rows
    case DropRole(r) => r in {PUBLIC, SUPER, ROLE_REPLICATION}
    case _ => false
  }

  /** The row count of the response, unless the preliminary checks fail. */
  function Preliminary(c: Catalog, op: Op): Option<nat> {
    match op
    case DmlOp(d) => DryRun(c, [d])
    case BatchDml(ds) => DryRun(c, ds)
    case AclOp(acl, _) => if AclInvalid(c, acl) then None else Some(0)
    case _ => Some(0)
  }

  // ---- The decision ------------------------------------------------------------------------

  /** The first raft index above `from` whose entry conflicts. */
  function FirstConflict(log: Log, from: nat, ranges: seq<Range>, pending: Option<Ddl>): Option<nat>
    decreases |log| - from
  {
    if from >= |log| then None
    else if EntryConflicts(log[from], ranges, pending) then Some(from + 1)
    else FirstConflict(log, from + 1, ranges, pending)
  }

  function AllRanges(req: Request): seq<Range> {
    req.pred.ranges + ForOp(req.op)
  }

  function LastPersisted(n: NodeState): nat {
    Min(|n.stored|, |n.log|)
  }

  /** The checks made before the log is looked at, in the source's order. */
  ghost function EarlyError(n: NodeState, req: Request, env: Environment): (r: Option<Error>)
    ensures r.Some? ==> !r.value.ConflictFound?
  {
    var requested := req.pred.index;
    var grant := CheckedGrant(req.op);
    if req.cluster != n.cluster then Some(ClusterNameMismatch)
    else if req.pred.term != n.term then Some(TermMismatch)
    else if n.leaderId.None? then Some(LeaderUnknown)
    else if n.leaderId.value != n.id then Some(NotALeader)
    else if requested > |n.log| then Some(NoSuchIndex)
    else if requested + 1 < n.first then Some(Compacted)
    else if TermAt(n.log, requested) != n.term then Some(EntryTermMismatch)
    else if !env.permitted then Some(AccessDenied)
    else if AccessError(n.storage, req.op).Some? then AccessError(n.storage, req.op)
    else if grant.Some? && Reaches(Grants(n.storage), grant.value.grantee, grant.value.role) then Some(RoleLoop)
    else OpError(n.storage, req.op)
  }

  /** The decision on a request. */
  ghost function Decide(n: NodeState, req: Request, env: Environment): Verdict {
    if EarlyError(n, req, env).Some? then Rejected(EarlyError(n, req, env).value)
    else
      var from := Min(req.pred.index, LastPersisted(n));
      var conflict := FirstConflict(n.log, from, AllRanges(req), Pending(n.storage));
      if conflict.Some? then Rejected(ConflictFound(conflict.value))
      else if Preliminary(n.storage, req.op).None? || !env.constraintsHold then Rejected(DryRunFailed)
      else Accepted(|n.log| + 1, n.term, Preliminary(n.storage, req.op).value)
  }

  /** The entry appended for an accepted request. */
  function NewEntry(n: NodeState, req: Request): Entry {
    Entry(n.term, Some(req.op), Some(Origin(req.pred.index, AllRanges(req), n.applied, req.readAt)))
  }

  /** What raft guarantees of a node: persisted and in-memory log agree where they overlap, terms
      grow along the log and are at most the current one, compaction stays within the persisted
      part, and the storage is the replayed applied prefix. */
  ghost predicate RaftContract(n: NodeState) {
    && 1 <= n.first && n.first <= LastPersisted(n) + 1
    && (forall i :: 0 <= i < LastPersisted(n) ==> n.stored[i] == n.log[i])
    && TermsGrow(n.log) && (forall i :: 0 <= i < |n.log| ==> n.log[i].term <= n.term)
    && n.applied <= |n.log| && n.storage == Replay(n.log[..n.applied])
  }

  class Node {
    const cluster: int
    const id: nat
    var term: nat
    var leaderId: Option<nat>
    var first: nat
    var log: Log
    var stored: Log
    var applied: nat
    var storage: Catalog

    function State(): NodeState
      reads this
    {
      NodeState(cluster, id, term, leaderId, first, log, stored, applied, storage)
    }

    ghost predicate Valid()
      reads this
    {
      RaftContract(State()) && Acyclic(Grants(storage))
    }

    /** Rows of the persisted log with `low <= index < high`; compacted rows are gone. */
    function StoredEntries(low: nat, high: nat): seq<Entry>
      requires 1 <= low <= high && 1 <= first
      reads this
    {
      var from := if low < first then first else low;
      if from - 1 <= Min(high - 1, |stored|) then stored[from - 1..Min(high - 1, |stored|)] else []
    }

    method CheckEntries(entries: seq<Entry>, from: nat, ranges: seq<Range>) returns (conflict: Option<nat>)
      requires from + |entries| <= |log| && entries == log[from..from + |entries|]
      ensures conflict.Some? ==>
                && from < conflict.value <= from + |entries|
                && FirstConflict(log, from, ranges, Pending(storage)) == conflict
      ensures conflict.None? ==>
                forall i :: from <= i < from + |entries| ==> !EntryConflicts(log[i], ranges, Pending(storage))
    {
      for i := 0 to |entries|
        invariant forall k :: from <= k < from + i ==> !EntryConflicts(log[k], ranges, Pending(storage))
      {
        assert entries[i] == log[from + i];
        match entries[i].op {
          case None =>
          case Some(op) =>
            var found := CheckPredicate(op, ranges, Pending(storage));
            if found {
              FirstConflictIs(log, from, ranges, Pending(storage), from + i);
              return Some(from + i + 1);
            }
        }
      }
      conflict := None;
    }

    method CheckAccess(op: Op) returns (error: Option<Error>)
      ensures error == AccessError(storage, op)
    {
      if NobodyMay(op) {
        return Some(AccessDenied);
      }
      match op {
        case DmlOp(d) => error := if TableKnown(storage, d.table) then None else Some(NoSuchObject);
        case BatchDml(ds) =>
          for i := 0 to |ds|
            invariant forall k :: 0 <= k < i ==> TableKnown(storage, ds[k].table)
          {
            if !TableKnown(storage, ds[i].table) {
              return Some(NoSuchObject);
            }
          }
          error := None;
        case DdlPrepare(ddl, _, _) => error := if DdlObjectMissing(storage, ddl) then Some(NoSuchObject) else None;
        case AclOp(acl, _) => error := if AclObjectMissing(storage, acl) then Some(NoSuchObject) else None;
        case _ => error := None;
      }
    }

    method CheckOp(op: Op) returns (error: Option<Error>)
      ensures error == OpError(storage, op)
    {
      match op {
        case DmlOp(d) => error := DmlError(storage, d);
        case BatchDml(ds) =>
          for i := 0 to |ds|
            invariant BatchError(storage, ds) == BatchError(storage, ds[i..])
          {
            error := DmlError(storage, ds[i]);
            assert ds[i..][1..] == ds[i + 1..];
            if error.Some? {
              return error;
            }
          }
          error := None;
        case AclOp(acl, _) =>
          error := None;
          if acl.CreateUser? || acl.CreateRole? {
            if |UserRows(storage)| >= MAX_USERS {
              error := Some(LimitReached);
            }
          }
        case _ => error := None;
      }
    }

    /** The first loop of the window check, over persisted entries. */
    method CheckPersisted(requested: nat, lastPersisted: nat, ranges: seq<Range>) returns (error: Option<Error>)
      requires Valid() && requested < lastPersisted == LastPersisted(State()) && first <= requested + 1
      ensures error.Some? ==>
                && error.value.ConflictFound?
                && FirstConflict(log, requested, ranges, Pending(storage)) == Some(error.value.index)
      ensures error.None? ==>
                FirstConflict(log, requested, ranges, Pending(storage))
                == FirstConflict(log, lastPersisted, ranges, Pending(storage))
    {
      var persisted := StoredEntries(requested + 1, lastPersisted + 1);
      assert persisted == log[requested..lastPersisted];
      if |persisted| < lastPersisted - requested {
        return Some(StorageUnavailable);
      }
      var conflict := CheckEntries(persisted, requested, ranges);
      if conflict.Some? {
        return Some(ConflictFound(conflict.value));
      }
      FirstConflictSkips(log, requested, lastPersisted, ranges, Pending(storage));
      error := None;
    }

    /** The second loop, over the rest of the log. */
    method CheckUnstable(lastPersisted: nat, ranges: seq<Range>) returns (error: Option<Error>)
      requires lastPersisted <= |log|
      ensures var conflict := FirstConflict(log, lastPersisted, ranges, Pending(storage));
              error == if conflict.Some? then Some(ConflictFound(conflict.value)) else None
    {
      var unstable := log[lastPersisted..];
      assert unstable == log[lastPersisted..lastPersisted + |unstable|];
      var conflict := CheckEntries(unstable, lastPersisted, ranges);
      if conflict.Some? {
        return Some(ConflictFound(conflict.value));
      }
      FirstConflictSkips(log, lastPersisted, |log|, ranges, Pending(storage));
      error := None;
    }

    /** The window check: persisted entries first, then the unstable ones. */
    method CheckWindow(requested: nat, ranges: seq<Range>) returns (error: Option<Error>)
      requires Valid() && requested <= |log| && first <= requested + 1
      ensures var conflict := FirstConflict(log, Min(requested, LastPersisted(State())), ranges, Pending(storage));
              error == if conflict.Some? then Some(ConflictFound(conflict.value)) else None
    {
      var lastPersisted := |stored|;
      if lastPersisted > |log| {
        lastPersisted := |log|;
      }
      if requested < lastPersisted {
        error := CheckPersisted(requested, lastPersisted, ranges);
        if error.Some? {
          return;
        }
      }
      error := CheckUnstable(lastPersisted, ranges);
    }

    method EarlyChecks(req: Request, env: Environment) returns (error: Option<Error>)
      requires Valid()
      ensures error == EarlyError(State(), req, env)
    {
      if req.cluster != cluster {
        return Some(ClusterNameMismatch);
      }
      var requested := req.pred.index;
      if req.pred.term != term {
        return Some(TermMismatch);
      }
      if leaderId.None? {
        return Some(LeaderUnknown);
      }
      if leaderId.value != id {
        return Some(NotALeader);
      }
      if requested > |log| {
        return Some(NoSuchIndex);
      } else if requested + 1 < first {
        return Some(Compacted);
      }
      if TermAt(log, requested) != term {
        return Some(EntryTermMismatch);
      }
      if !env.permitted {
        return Some(AccessDenied);
      }
      error := CheckAccess(req.op);
      if error.Some? {
        return;
      }
      var grant := CheckedGrant(req.op);
      if grant.Some? {
        NoLoopAhead(Grants(storage), grant.value.grantee);
        var privileges := ScanPrivileges(storage);
        var loop := DetectRoleGrantCycles(grant.value.role, grant.value.grantee, privileges);
        if loop {
          return Some(RoleLoop);
        }
      }
      error := CheckOp(req.op);
    }

    /** The preliminary checks: a batch is done in a transaction that is rolled back. */
    method DoPreliminary(op: Op) returns (rowCount: Option<nat>)
      ensures rowCount == Preliminary(storage, op)
    {
      match op {
        case DmlOp(d) => rowCount := DoBatch([d]);
        case BatchDml(ds) => rowCount := DoBatch(ds);
        case AclOp(acl, _) => rowCount := if AclInvalid(storage, acl) then None else Some(0);
        case _ => rowCount := Some(0);
      }
    }

    method DoBatch(ds: seq<Dml>) returns (rowCount: Option<nat>)
      ensures rowCount == DryRun(storage, ds)
    {
      var trial, count := storage, 0;
      for i := 0 to |ds|
        invariant DryRun(storage, ds) ==
                  match DryRun(trial, ds[i..]) { case None => None case Some(n) => Some(count + n) }
      {
        assert ds[i..][1..] == ds[i + 1..];
        if DmlFails(trial, ds[i]) {
          return None;
        }
        if Yields(trial, ds[i]) {
          count := count + 1;
        }
        trial := Apply(trial, DmlOp(ds[i]));
      }
      rowCount := Some(count);
    }

    /** `proc_cas_v2_local`. The contract with raft survives the append unless a stale persisted tail
        reaches beyond the log; raft truncates that tail when it persists the new entry. */
    method CompareAndSwap(req: Request, env: Environment) returns (verdict: Verdict)
      requires Valid()
      modifies this`log
      ensures verdict == Decide(old(State()), req, env)
      ensures log == if verdict.Accepted? then old(log) + [NewEntry(old(State()), req)] else old(log)
      ensures |stored| <= |old(log)| ==> Valid()
    {
      var early := EarlyChecks(req, env);
      if early.Some? {
        return Rejected(early.value);
      }
      var ranges := req.pred.ranges + ForOp(req.op);
      var error := CheckWindow(req.pred.index, ranges);
      if error.Some? {
        return Rejected(error.value);
      }
      var rowCount := DoPreliminary(req.op);
      if rowCount.None? || !env.constraintsHold {
        return Rejected(DryRunFailed);
      }
      verdict := Accepted(|log| + 1, term, rowCount.value);
      ghost var n := State();
      log := log + [Entry(term, Some(req.op), Some(Origin(req.pred.index, ranges, applied, req.readAt)))];
      if |stored| <= |n.log| {
        AppendKeepsContract(n, NewEntry(n, req));
      }
    }
  }

  lemma AppendKeepsContract(n: NodeState, e: Entry)
    requires RaftContract(n) && e.term == n.term && |n.stored| <= |n.log|
    ensures RaftContract(n.(log := n.log + [e]))
  {
    assert (n.log + [e])[..n.applied] == n.log[..n.applied];
  }

  lemma NoLoopAhead(g: set<Grant>, a: UserId)
    requires Acyclic(g)
    ensures !LoopAhead(g, a)
  {
  }

  lemma {:induction false} FirstConflictIs(log: Log, from: nat, ranges: seq<Range>, pending: Option<Ddl>, at: nat)
    requires from <= at < |log| && EntryConflicts(log[at], ranges, pending)
    requires forall i :: from <= i < at ==> !EntryConflicts(log[i], ranges, pending)
    ensures FirstConflict(log, from, ranges, pending) == Some(at + 1)
    decreases at - from
  {
    if from < at {
      FirstConflictIs(log, from + 1, ranges, pending, at);
    }
  }

  lemma {:induction false} FirstConflictSkips(log: Log, from: nat, upTo: nat, ranges: seq<Range>, pending: Option<Ddl>)
    requires from <= upTo <= |log|
    requires forall i :: from <= i < upTo ==> !EntryConflicts(log[i], ranges, pending)
    ensures FirstConflict(log, from, ranges, pending) == FirstConflict(log, upTo, ranges, pending)
    decreases upTo - from
  {
    if from < upTo {
      FirstConflictSkips(log, from + 1, upTo, ranges, pending);
    }
  }

  // ---- What acceptance means ---------------------------------------------------------------

  lemma {:induction false} FirstConflictMeaning(log: Log, from: nat, ranges: seq<Range>, pending: Option<Ddl>)
    ensures var r := FirstConflict(log, from, ranges, pending);
            && (r.Some? ==> from < r.value <= |log| && EntryConflicts(log[r.value - 1], ranges, pending))
            && forall i :: from <= i < (if r.Some? then r.value - 1 else |log|) ==>
                 !EntryConflicts(log[i], ranges, pending)
    decreases |log| - from
  {
    if from < |log| && !EntryConflicts(log[from], ranges, pending) {
      FirstConflictMeaning(log, from + 1, ranges, pending);
    }
  }

  /** On acceptance every entry after the predicate index has been checked, none of them had been
      compacted, and all of them are of the current term. */
  lemma AcceptedWindow(n: NodeState, req: Request, env: Environment)
    requires RaftContract(n) && Decide(n, req, env).Accepted?
    ensures req.pred.index <= |n.log| && n.first <= req.pred.index + 1
    ensures forall i :: req.pred.index <= i < |n.log| ==>
              !EntryConflicts(n.log[i], AllRanges(req), Pending(n.storage)) && n.log[i].term == n.term
    ensures TermAt(n.log, req.pred.index) == n.term
  {
    FirstConflictMeaning(n.log, Min(req.pred.index, LastPersisted(n)), AllRanges(req), Pending(n.storage));
    forall i | req.pred.index <= i < |n.log| ensures n.log[i].term == n.term {
      if req.pred.index > 0 {
        assert n.log[req.pred.index - 1].term <= n.log[i].term;
      }
    }
  }

  /** Where the loops over the log start. */
  function WindowStart(n: NodeState, req: Request): nat {
    Min(req.pred.index, LastPersisted(n))
  }

  /** What the debug assertions of both loops say: every entry they visit is of the current term. */
  ghost predicate VisitsCurrentTerm(n: NodeState, req: Request) {
    forall i :: WindowStart(n, req) <= i < |n.log| ==> n.log[i].term == n.term
  }

  /** The debug assertions hold exactly when the first entry visited, if any, is of the current term. */
  lemma DebugAssertsHoldIff(n: NodeState, req: Request, env: Environment)
    requires RaftContract(n) && EarlyError(n, req, env).None?
    ensures VisitsCurrentTerm(n, req) <==>
            WindowStart(n, req) == |n.log| || n.log[WindowStart(n, req)].term == n.term
    ensures req.pred.index <= LastPersisted(n) ==> VisitsCurrentTerm(n, req)
  {
    var start := WindowStart(n, req);
    if start < |n.log| && n.log[start].term == n.term {
      forall i | start <= i < |n.log| ensures n.log[i].term == n.term {
        assert n.log[start].term <= n.log[i].term;
      }
    }
    if req.pred.index <= LastPersisted(n) && req.pred.index < |n.log| && req.pred.index > 0 {
      assert n.log[req.pred.index - 1].term <= n.log[req.pred.index].term;
    }
  }

  lemma NoRangesNoConflict(log: Log, from: nat, pending: Option<Ddl>)
    ensures FirstConflict(log, from, [], pending) == None
  {
    FirstConflictMeaning(log, from, [], pending);
  }

  /** A leader with an entry of an older term, and nothing persisted. */
  const MIXED: Log := [Entry(1, None, None), Entry(2, None, None)]

  lemma OldTermIsVisited(c: Catalog)
    ensures var n := NodeState(0, 0, 2, Some(0), 1, MIXED, [], 0, c);
            var req := Request(0, Predicate(2, 2, []), Nop, 0);
            Decide(n, req, Environment(true, true)).Accepted? && !VisitsCurrentTerm(n, req)
  {
    var n := NodeState(0, 0, 2, Some(0), 1, MIXED, [], 0, c);
    var req := Request(0, Predicate(2, 2, []), Nop, 0);
    NoRangesNoConflict(MIXED, 0, Pending(c));
    assert AllRanges(req) == [] && WindowStart(n, req) == 0;
    assert n.log[0].term != n.term;
  }

  /** When the predicate index is not persisted yet, the second loop starts before it and can meet an
      entry of an older term. */
  lemma UnpersistedPredicateVisitsOldTerm()
    ensures var n := NodeState(0, 0, 2, Some(0), 1, MIXED, [], 0, INITIAL);
            var req := Request(0, Predicate(2, 2, []), Nop, 0);
            && RaftContract(n) && Decide(n, req, Environment(true, true)).Accepted?
            && !VisitsCurrentTerm(n, req)
  {
    OldTermIsVisited(INITIAL);
    assert MIXED[..0] == [];
  }

  /** A conflict is reported for the first conflicting entry of the window; when the predicate
      index is persisted, that entry lies after the index. */
  lemma ReportedConflict(n: NodeState, req: Request, env: Environment, index: nat)
    requires RaftContract(n) && Decide(n, req, env) == Rejected(ConflictFound(index))
    ensures 1 <= index <= |n.log| && EntryConflicts(n.log[index - 1], AllRanges(req), Pending(n.storage))
    ensures req.pred.index <= LastPersisted(n) ==>
              req.pred.index < index
              && forall i :: req.pred.index <= i < index - 1 ==>
                   !EntryConflicts(n.log[i], AllRanges(req), Pending(n.storage))
  {
    FirstConflictMeaning(n.log, Min(req.pred.index, LastPersisted(n)), AllRanges(req), Pending(n.storage));
  }
}
