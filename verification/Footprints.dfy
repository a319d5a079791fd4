/**
 The rows that a schema, access-control or plugin operation can change, besides the properties
 by which compare-and-swap keeps track of such operations.
 */
module Footprints {
  import opened Options
  import opened Catalog

  /** What the catalog says is under way where an entry stands in the log. */
  datatype Underway = Underway(change: Option<Ddl>, governorOp: Option<int>)

  function UnderwayIn(c: Catalog): Underway {
    Underway(Pending(c), PendingGovernorOp(c))
  }

  const SCHEMA_RELATED_PROPERTIES: seq<Key> :=
    [PENDING_SCHEMA_CHANGE, PENDING_SCHEMA_VERSION, GLOBAL_SCHEMA_VERSION, NEXT_SCHEMA_VERSION,
     PENDING_GOVERNOR_OP, PENDING_CATALOG_VERSION]

  predicate SchemaOp(op: Op) {
    op.DdlPrepare? || op.DdlCommit? || op.DdlAbort? || op.AclOp?
  }

  /** The properties that stand for the operation in the conflict check. */
  predicate Tracked(op: Op, cell: Cell) {
    || (SchemaOp(op) && cell.table == PROPERTIES && cell.key in SCHEMA_RELATED_PROPERTIES)
    || (op.Plugin? && cell == Prop(PENDING_PLUGIN_OPERATION))
  }

  // ---- Definitions -------------------------------------------------------------------------

  predicate PrepareTouches(ddl: Ddl, cell: Cell) {
    || (cell.table == TABLES && TableTouchedByPrepare(ddl, cell.key))
    || (cell.table == INDEXES && IndexTouchedByPrepare(ddl, cell.key))
    || (cell.table == ROUTINES && RoutineTouched(ddl, cell.key))
  }

  predicate TableTouchedByPrepare(ddl: Ddl, key: Key) {
    || (TableOf(ddl).Some? && key == [TableOf(ddl).value])
    || (ddl.Backup? && |key| == 1)
  }

  predicate IndexTouchedByPrepare(ddl: Ddl, key: Key) {
    match ddl
    case CreateTable(id, _) => key == [id, 0]
    case DropTable(id) => OfTable(key, id)
    case TruncateTable(id) => OfTable(key, id)
    case ChangeFormat(id, _, _, renames, _) => OfTable(key, id) && exists k :: k in renames && renames[k] != k
    case Backup(_) => key != []
    case CreateIndex(t, i, _) => key == [t, i]
    case DropIndex(t, i) => key == [t, i]
    case RenameIndex(t, i, _, _) => key == [t, i]
    case _ => false
  }

  predicate RoutineTouched(ddl: Ddl, key: Key) {
    match ddl
    case CreateProcedure(id, _) => key == [id]
    case DropProcedure(id) => key == [id]
    case RenameProcedure(id, _, _) => key == [id]
    case _ => false
  }

  predicate TableTouchedByFinish(ddl: Ddl, commit: bool, key: Key) {
    || (TableOf(ddl).Some? && key == [TableOf(ddl).value] && (ddl.TruncateTable? ==> commit))
    || (ddl.Backup? && |key| == 1)
  }

  predicate IndexTouchedByFinish(ddl: Ddl, commit: bool, key: Key) {
    match ddl
    case CreateTable(id, _) => OfTable(key, id)
    case DropTable(id) => OfTable(key, id)
    case TruncateTable(id) => OfTable(key, id) && commit
    case ChangeFormat(id, _, _, _, _) => OfTable(key, id)
    case Backup(_) => key != []
    case CreateIndex(t, i, _) => key == [t, i]
    case DropIndex(t, i) => key == [t, i]
    case RenameIndex(t, i, _, _) => key == [t, i]
    case _ => false
  }

  /** Besides definitions: the table that is emptied, the privileges on an object that goes away, the
      time stamp of a backup, and the status in the governor queue. */
  predicate FinishTouches(ddl: Ddl, commit: bool, governorOp: Option<int>, cell: Cell) {
    || Cleared(ddl, commit) == Some(cell.table)
    || (cell == Prop(LAST_BACKUP_TIMESTAMP) && commit && ddl.Backup?)
    || (cell.table == GOVERNOR_QUEUE && governorOp.Some? && cell.key == [governorOp.value])
    || (cell.table == TABLES && TableTouchedByFinish(ddl, commit, cell.key))
    || (cell.table == INDEXES && IndexTouchedByFinish(ddl, commit, cell.key))
    || (cell.table == ROUTINES && RoutineTouched(ddl, cell.key))
    || (cell.table == PRIVILEGES && IsAboutObject(cell.key, ObjectRemoved(ddl, commit)))
  }

  // ---- Users, privileges, audit settings and plugins ---------------------------------------

  predicate UserTouched(acl: Acl, key: Key) {
    match acl
    case CreateUser(u, _) => key == [u]
    case CreateRole(r, _) => key == [r]
    case RenameUser(u, _) => key == [u]
    case ChangeAuth(u, _) => key == [u]
    case DropUser(u) => key == [u]
    case DropRole(r) => key == [r]
    case _ => false
  }

  predicate PrivilegeTouched(acl: Acl, cell: Cell) {
    match acl
    case CreateUser(u, _) => IsDefaultPrivilege(cell.key, u)
    case DropUser(u) => [u] <= cell.key
    case DropRole(r) => [r] <= cell.key || (RowGrant(cell).Some? && RowGrant(cell).value.role == r)
    case GrantPrivilege(p) => cell == PrivilegeCell(p)
    case RevokePrivilege(p) => cell == PrivilegeCell(p)
    case _ => false
  }

  predicate AuditTouched(acl: Acl, key: Key) {
    match acl
    case DropUser(u) => [u] <= key
    case AuditPolicy(u, policy, _) => key == [u, policy]
    case _ => false
  }

  predicate AclTouches(acl: Acl, cell: Cell) {
    || (cell.table == USERS && UserTouched(acl, cell.key))
    || (cell.table == PRIVILEGES && PrivilegeTouched(acl, cell))
    || (cell.table == USER_AUDIT_POLICY && AuditTouched(acl, cell.key))
  }

  predicate PluginTouches(op: PluginOp, cell: Cell) {
    match op
    case DisablePlugin(name, version, _) =>
      cell == Cell(PLUGINS, [name, version]) || (cell.table == SERVICE_ROUTES && [name, version] <= cell.key)
    case DropPlugin(name, version) =>
      || cell == Cell(PLUGINS, [name, version])
      || (cell.table == SERVICES && IsService(cell.key, name, version))
      || (cell.table == PLUGIN_CONFIG && IsConfig(cell.key, name, version))
    case UpdateConfig(name, version, updates) =>
      cell.table == PLUGIN_CONFIG && IsConfig(cell.key, name, version) && cell.key[2..] in updates
    case AbortPlugin => false
  }

  /** The cells that an operation other than DML can change where `at` is under way. */
  predicate Touches(op: Op, at: Underway, cell: Cell) {
    match op
    case DdlPrepare(ddl, _, _) => PrepareTouches(ddl, cell)
    case DdlCommit => at.change.Some? && FinishTouches(at.change.value, true, at.governorOp, cell)
    case DdlAbort => at.change.Some? && FinishTouches(at.change.value, false, at.governorOp, cell)
    case AclOp(acl, _) => AclTouches(acl, cell)
    case Plugin(p) => PluginTouches(p, cell)
    case _ => false
  }

  // ---- Nothing else changes ----------------------------------------------------------------

  lemma TrackedKeys()
    ensures PENDING_SCHEMA_CHANGE in SCHEMA_RELATED_PROPERTIES && PENDING_SCHEMA_VERSION in SCHEMA_RELATED_PROPERTIES
    ensures GLOBAL_SCHEMA_VERSION in SCHEMA_RELATED_PROPERTIES && NEXT_SCHEMA_VERSION in SCHEMA_RELATED_PROPERTIES
    ensures PENDING_GOVERNOR_OP in SCHEMA_RELATED_PROPERTIES
  {
    var s := SCHEMA_RELATED_PROPERTIES;
    assert s[0] in s && s[1] in s && s[2] in s && s[3] in s && s[4] in s;
  }

  lemma UntouchedByPrepare(c: Catalog, ddl: Ddl, version: int, governorOp: Option<int>, cell: Cell)
    requires !(cell.table == PROPERTIES && cell.key in SCHEMA_RELATED_PROPERTIES) && !PrepareTouches(ddl, cell)
    ensures AfterPrepare(c, ddl, version, governorOp, cell) == Lookup(c, cell)
  {
    TrackedKeys();
  }

  lemma UntouchedByFinish(c: Catalog, ddl: Ddl, commit: bool, cell: Cell)
    requires !(cell.table == PROPERTIES && cell.key in SCHEMA_RELATED_PROPERTIES)
    requires !FinishTouches(ddl, commit, PendingGovernorOp(c), cell)
    ensures AfterFinish(c, ddl, commit, cell) == Lookup(c, cell)
  {
    TrackedKeys();
  }

  lemma UntouchedByAcl(c: Catalog, acl: Acl, version: int, cell: Cell)
    requires !(cell.table == PROPERTIES && cell.key in SCHEMA_RELATED_PROPERTIES) && !AclTouches(acl, cell)
    ensures AfterAcl(c, acl, version, cell) == Lookup(c, cell)
  {
    TrackedKeys();
  }

  lemma UntouchedStays(c: Catalog, op: Op, cell: Cell)
    requires SchemaOp(op) || op.Plugin?
    requires !Tracked(op, cell) && !Touches(op, UnderwayIn(c), cell)
    ensures After(c, op, cell) == Lookup(c, cell)
  {
    match op {
      case DdlPrepare(ddl, version, governorOp) => UntouchedByPrepare(c, ddl, version, governorOp, cell);
      case DdlCommit => if Pending(c).Some? { UntouchedByFinish(c, Pending(c).value, true, cell); }
      case DdlAbort => if Pending(c).Some? { UntouchedByFinish(c, Pending(c).value, false, cell); }
      case AclOp(acl, version) => UntouchedByAcl(c, acl, version, cell);
      case Plugin(_) =>
    }
  }

  // ---- All of it can change ----------------------------------------------------------------

  /** A catalog in which the given things are under way, `cell` holds the given value, and the rows of
      `more` are there. */
  lemma WitnessOf(at: Underway, cell: Cell, value: Option<Value>, more: map<Cell, Value>) returns (c: Catalog)
    requires cell != Prop(PENDING_SCHEMA_CHANGE) && cell != Prop(PENDING_GOVERNOR_OP) && cell !in more
    requires Prop(PENDING_SCHEMA_CHANGE) !in more && Prop(PENDING_GOVERNOR_OP) !in more
    ensures UnderwayIn(c) == at && Lookup(c, cell) == value
    ensures forall k :: k in more ==> Lookup(c, k) == Some(more[k])
  {
    var change: map<Cell, Value> :=
      if at.change.Some? then more[Prop(PENDING_SCHEMA_CHANGE) := Change(at.change.value)] else more;
    var base := if at.governorOp.Some? then change[Prop(PENDING_GOVERNOR_OP) := Row(at.governorOp.value)] else change;
    c := Catalog(if value.Some? then base[cell := value.value] else base);
  }

  /** The same for the rows of these things themselves: some value can be there. */
  lemma WitnessRow(at: Underway, cell: Cell) returns (c: Catalog)
    ensures UnderwayIn(c) == at && Lookup(c, cell).Some?
  {
    if cell == Prop(PENDING_SCHEMA_CHANGE) {
      c := WitnessOf(at, Cell(DB_CONFIG, []), None, map[]);
      if at.change.None? {
        c := Catalog(c.rows[cell := Row(0)]);
      }
    } else if cell == Prop(PENDING_GOVERNOR_OP) {
      c := WitnessOf(at, Cell(DB_CONFIG, []), None, map[]);
      if at.governorOp.None? {
        c := Catalog(c.rows[cell := Def(true, 0)]);
      }
    } else {
      c := WitnessOf(at, cell, Some(Row(0)), map[]);
    }
  }

  /** The row of `_pico_table` for the table of an index. */
  function ParentRow(cell: Cell): map<Cell, Value> {
    if cell.table == INDEXES && cell.key != [] then map[Cell(TABLES, [cell.key[0]]) := Row(0)] else map[]
  }

  /** A value that prepare changes. */
  function BeforePrepare(ddl: Ddl, cell: Cell): Option<Value> {
    match ddl
    case CreateTable(_, _) => None
    case CreateIndex(_, _, _) => None
    case CreateProcedure(_, _) => None
    case Backup(_) => Some(Def(true, if cell.key == [] then 0 else cell.key[0] + 1))
    case _ => Some(Def(true, 0))
  }

  lemma PrepareChanges(ddl: Ddl, version: int, governorOp: Option<int>, at: Underway, cell: Cell) returns (c: Catalog)
    requires PrepareTouches(ddl, cell)
    ensures UnderwayIn(c) == at && AfterPrepare(c, ddl, version, governorOp, cell) != Lookup(c, cell)
  {
    if ddl.ChangeFormat? && cell.table == INDEXES {
      var k :| k in ddl.renames && ddl.renames[k] != k;
      c := WitnessOf(at, cell, Some(Def(true, k)), map[]);
    } else {
      c := WitnessOf(at, cell, BeforePrepare(ddl, cell), ParentRow(cell));
      assert cell.table == INDEXES && cell.key != [] ==> Lookup(c, Cell(TABLES, [cell.key[0]])) == Some(Row(0));
    }
  }

  lemma FinishChanges(ddl: Ddl, commit: bool, at: Underway, cell: Cell) returns (c: Catalog)
    requires !(cell.table == PROPERTIES && cell.key in SCHEMA_RELATED_PROPERTIES)
    requires FinishTouches(ddl, commit, at.governorOp, cell)
    ensures UnderwayIn(c) == at && AfterFinish(c, ddl, commit, cell) != Lookup(c, cell)
  {
    TrackedKeys();
    if cell == Prop(LAST_BACKUP_TIMESTAMP) && commit && ddl.Backup? {
      c := WitnessOf(at, cell, None, map[]);
    } else {
      c := WitnessOf(at, cell, Some(Def(false, 0)), ParentRow(cell));
      assert cell.table == INDEXES && cell.key != [] ==> Lookup(c, Cell(TABLES, [cell.key[0]])).Some?;
    }
  }

  lemma AclChanges(acl: Acl, version: int, at: Underway, cell: Cell) returns (c: Catalog)
    requires AclTouches(acl, cell)
    ensures UnderwayIn(c) == at && AfterAcl(c, acl, version, cell) != Lookup(c, cell)
  {
    var creates := acl.CreateUser? || acl.CreateRole? || acl.GrantPrivilege? || (acl.AuditPolicy? && acl.enable);
    var content := if acl.RenameUser? || acl.ChangeAuth? then acl.profile + 1 else 0;
    c := WitnessOf(at, cell, if creates then None else Some(Def(true, content)), map[]);
  }

  lemma PluginChanges(op: PluginOp, at: Underway, cell: Cell) returns (c: Catalog)
    requires PluginTouches(op, cell)
    ensures UnderwayIn(c) == at && AfterPlugin(c, op, cell) != Lookup(c, cell)
  {
    var plugin := Cell(PLUGINS, [op.name, op.version]);
    if cell == plugin {
      c := WitnessOf(at, cell, Some(Def(op.DisablePlugin?, 0)), map[]);
    } else if cell.table == PLUGIN_CONFIG {
      var service := Cell(SERVICES, [op.name, cell.key[2], op.version]);
      c := WitnessOf(at, cell, Some(Def(true, 0)), map[plugin := Def(false, 0), service := Row(0)]);
      assert Lookup(c, service) == Some(Row(0)) && Lookup(c, plugin) == Some(Def(false, 0));
    } else {
      c := WitnessOf(at, cell, Some(Row(0)), map[plugin := Def(false, 0)]);
      assert Lookup(c, plugin) == Some(Def(false, 0));
    }
  }

  /** The footprint is exact: an operation other than DML changes a cell in some catalog if and only if
      it touches the cell, for all cells but the tracked properties. */
  lemma FootprintIsExact(op: Op, at: Underway, cell: Cell)
    requires (SchemaOp(op) || op.Plugin?) && !Tracked(op, cell)
    ensures (exists c :: UnderwayIn(c) == at && After(c, op, cell) != Lookup(c, cell)) <==> Touches(op, at, cell)
  {
    if Touches(op, at, cell) {
      var c := TouchedCanChange(op, at, cell);
    } else {
      forall c | UnderwayIn(c) == at ensures After(c, op, cell) == Lookup(c, cell) {
        UntouchedStays(c, op, cell);
      }
    }
  }

  lemma TouchedCanChange(op: Op, at: Underway, cell: Cell) returns (c: Catalog)
    requires (SchemaOp(op) || op.Plugin?) && !Tracked(op, cell) && Touches(op, at, cell)
    ensures UnderwayIn(c) == at && After(c, op, cell) != Lookup(c, cell)
  {
    match op {
      case DdlPrepare(ddl, version, governorOp) => c := PrepareChanges(ddl, version, governorOp, at, cell);
      case DdlCommit => c := FinishChanges(at.change.value, true, at, cell);
      case DdlAbort => c := FinishChanges(at.change.value, false, at, cell);
      case AclOp(acl, version) => c := AclChanges(acl, version, at, cell);
      case Plugin(p) => c := PluginChanges(p, at, cell);
    }
  }
}
