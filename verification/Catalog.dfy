/**
 Raft operations and their effect on the replicated catalog when an entry is applied
 (src/traft/op.rs, src/traft/node.rs, src/storage.rs, src/storage/schema.rs).

 The catalog is the rows of all tables. What each operation does is given row by row: `After`
 is the new value of any one cell. The flags that make tables operable and the role grants
 are read off the rows of `_pico_table` and `_pico_privilege`.
 */
module Catalog {
  import opened Options

  type TableId = int

  /** A key is the sequence of its parts; each part is its rank in the order of its type. */
  type Key = seq<int>

  datatype Cell = Cell(table: TableId, key: Key)

  /** `content` and `oldContent` are the definition apart from its flag, after a rename or a change of
      format and before it. `renames` and `restores` say how the definitions of the table's indexes
      follow its columns there and back. */
  datatype Ddl =
    | CreateTable(id: TableId, content: int)
    | DropTable(id: TableId)
    | TruncateTable(id: TableId)
    | ChangeFormat(id: TableId, content: int, oldContent: int, renames: map<int, int>, restores: map<int, int>)
    | RenameTable(id: TableId, content: int, oldContent: int)
    | Backup(timestamp: int)
    | CreateIndex(table: TableId, index: int, content: int)
    | DropIndex(table: TableId, index: int)
    | RenameIndex(table: TableId, index: int, content: int, oldContent: int)
    | CreateProcedure(routine: int, content: int)
    | DropProcedure(routine: int)
    | RenameProcedure(routine: int, content: int, oldContent: int)

  /** A `Def` is the definition of a table, index or procedure with its `operable` flag, of a plugin
      with its `enabled` flag, or of a user with a flag that says whether it is a role. */
  datatype Value = Row(n: int) | Change(ddl: Ddl) | Def(flag: bool, content: int)

  datatype ConflictStrategy = DoFail | DoReplace | DoNothing

  /** What the operations of an update make of a row: they add to it, or assign it anew. */
  datatype RowUpdate = Add(amount: int) | Assign(value: Value)

  /** `DeleteAll` is the delete without a filter: `Dml::Delete` with an empty key and plan info. */
  datatype Dml =
    | Insert(table: TableId, key: Key, value: Value, strategy: ConflictStrategy)
    | Replace(table: TableId, key: Key, value: Value)
    | Update(table: TableId, key: Key, update: RowUpdate)
    | Delete(table: TableId, key: Key)
    | DeleteAll(table: TableId)

  type UserId = int

  /** The primary key of `_pico_privilege`; object types and privileges are ranks of their names. */
  datatype Privilege = Privilege(grantee: UserId, objectType: int, objectId: int, privilege: int)

  datatype Acl =
    | CreateUser(user: UserId, profile: int)
    | RenameUser(user: UserId, profile: int)
    | ChangeAuth(user: UserId, profile: int)
    | DropUser(user: UserId)
    | CreateRole(role: UserId, profile: int)
    | DropRole(role: UserId)
    | GrantPrivilege(privilege: Privilege)
    | RevokePrivilege(privilege: Privilege)
    | AuditPolicy(user: UserId, policy: int, enable: bool)

  /** `updates` maps service and parameter to the new value. */
  datatype PluginOp =
    | DisablePlugin(name: int, version: int, afterError: bool)
    | DropPlugin(name: int, version: int)
    | UpdateConfig(name: int, version: int, updates: map<Key, int>)
    | AbortPlugin

  datatype Op =
    | Nop
    | DmlOp(dml: Dml)
    | BatchDml(ops: seq<Dml>)
    | DdlPrepare(ddl: Ddl, schemaVersion: int, governorOp: Option<int>)
    | DdlCommit
    | DdlAbort
    | AclOp(acl: Acl, aclVersion: int)
    | Plugin(plugin: PluginOp)

  datatype Catalog = Catalog(rows: map<Cell, Value>)

  const TABLES: TableId := 512
  const INDEXES: TableId := 513
  const PROPERTIES: TableId := 516
  const USERS: TableId := 520
  const PRIVILEGES: TableId := 521
  const GOVERNOR_QUEUE: TableId := 522
  const ROUTINES: TableId := 524
  const USER_AUDIT_POLICY: TableId := 525
  const PLUGINS: TableId := 526
  const SERVICES: TableId := 527
  const SERVICE_ROUTES: TableId := 528
  const PLUGIN_CONFIG: TableId := 530
  const DB_CONFIG: TableId := 531
  const PROHIBITED_TABLES: set<TableId> := {TABLES, INDEXES, USERS, PRIVILEGES, ROUTINES}
  const SPACE_ID_INTERNAL_MAX: TableId := 1024

  /** The tables of `system_table_definitions`. */
  predicate IsSystemTable(t: TableId) {
    512 <= t <= 517 || 520 <= t <= 531 || 533 <= t <= 534
  }

  /** The built-in definition of a system table. */
  function BuiltIn(t: TableId): Value {
    Def(true, t)
  }

  const GUEST: UserId := 0
  const ADMIN: UserId := 1
  const PUBLIC: UserId := 2
  const ROLE_REPLICATION: UserId := 3
  const SUPER: UserId := 31
  const PICO_SERVICE: UserId := 32

  // Object types and privileges of `_pico_privilege`, ranked by name.
  const ON_ROLE := 0
  const ON_ROUTINE := 1
  const ON_TABLE := 2
  const ON_UNIVERSE := 3
  const ON_USER := 4
  const ALTER := 0
  const DROP := 2
  const EXECUTE := 3
  const LOGIN := 4
  const UNIVERSE_ID := 0

  // Keys of `_pico_property`, numbered.
  const PENDING_SCHEMA_CHANGE: Key := [1]
  const PENDING_SCHEMA_VERSION: Key := [2]
  const GLOBAL_SCHEMA_VERSION: Key := [3]
  const NEXT_SCHEMA_VERSION: Key := [4]
  const PENDING_GOVERNOR_OP: Key := [5]
  const PENDING_CATALOG_VERSION: Key := [6]
  const PENDING_PLUGIN_OPERATION: Key := [7]
  const LAST_BACKUP_TIMESTAMP: Key := [8]
  const CLUSTER_VERSION: Key := [9]

  // Statuses in `_pico_governor_queue`.
  const DONE: Value := Row(1)
  const FAILED: Value := Row(2)

  /** The entity that holds a plugin's migration context in `_pico_plugin_config`. */
  const CONTEXT_ENTITY := 0

  function Prop(key: Key): Cell {
    Cell(PROPERTIES, key)
  }

  function Lookup(c: Catalog, cell: Cell): Option<Value> {
    if cell in c.rows then Some(c.rows[cell]) else None
  }

  /** The pending schema change, as read from `_pico_property`. */
  function Pending(c: Catalog): Option<Ddl> {
    match Lookup(c, Prop(PENDING_SCHEMA_CHANGE))
    case Some(Change(ddl)) => Some(ddl)
    case _ => None
  }

  /** The entry of the governor queue that the pending schema change carries out, if any. */
  function PendingGovernorOp(c: Catalog): Option<int> {
    match Lookup(c, Prop(PENDING_GOVERNOR_OP))
    case Some(Row(n)) => Some(n)
    case _ => None
  }

  predicate TableKnown(c: Catalog, t: TableId) {
    Cell(TABLES, [t]) in c.rows
  }

  predicate UserKnown(c: Catalog, u: UserId) {
    Cell(USERS, [u]) in c.rows
  }

  /** A user in the narrow sense, not a role. */
  predicate IsUser(c: Catalog, u: UserId) {
    var row := Lookup(c, Cell(USERS, [u]));
    row.Some? && row.value.Def? && !row.value.flag
  }

  predicate RoutineKnown(c: Catalog, id: int) {
    Cell(ROUTINES, [id]) in c.rows
  }

  /** The table is not registered, or its `operable` flag is set. */
  predicate IsOperable(c: Catalog, t: TableId) {
    match Lookup(c, Cell(TABLES, [t]))
    case Some(Def(flag, _)) => flag
    case _ => true
  }

  // ---- Role grants -------------------------------------------------------------------------

  /** `grantee` may execute, that is, has been given, `role`. */
  datatype Grant = Grant(role: UserId, grantee: UserId)

  function PrivilegeCell(p: Privilege): Cell {
    Cell(PRIVILEGES, [p.grantee, p.objectType, p.objectId, p.privilege])
  }

  /** The row that makes `grantee` hold `role`. */
  function RoleCell(g: Grant): Cell {
    PrivilegeCell(Privilege(g.grantee, ON_ROLE, g.role, EXECUTE))
  }

  /** A negative object id stands for all objects of the type. */
  predicate IsRoleGrant(p: Privilege) {
    p.objectType == ON_ROLE && p.privilege == EXECUTE && p.objectId >= 0
  }

  function RowGrant(cell: Cell): Option<Grant> {
    if cell.table == PRIVILEGES && |cell.key| == 4
       && IsRoleGrant(Privilege(cell.key[0], cell.key[1], cell.key[2], cell.key[3]))
    then Some(Grant(cell.key[2], cell.key[0]))
    else None
  }

  function Grants(c: Catalog): set<Grant> {
    set cell | cell in c.rows && RowGrant(cell).Some? :: RowGrant(cell).value
  }

  lemma GrantIsRow(c: Catalog, g: Grant)
    ensures g in Grants(c) <==> g.role >= 0 && Lookup(c, RoleCell(g)).Some?
  {
    if g in Grants(c) {
      var cell :| cell in c.rows && RowGrant(cell) == Some(g);
      assert cell.key == [cell.key[0], cell.key[1], cell.key[2], cell.key[3]];
      assert cell == RoleCell(g);
    }
    if g.role >= 0 && RoleCell(g) in c.rows {
      assert RowGrant(RoleCell(g)) == Some(g);
    }
  }

  // ---- DML ---------------------------------------------------------------------------------

  /** The key under which a DML operation is checked; a delete without a filter has none. */
  function KeyOf(d: Dml): Key {
    match d
    case Insert(_, k, _, _) => k
    case Replace(_, k, _) => k
    case Update(_, k, _) => k
    case Delete(_, k) => k
    case DeleteAll(_) => []
  }

  /** The new value of a row under an update. */
  function Updated(before: Value, update: RowUpdate): Value {
    match update
    case Assign(v) => v
    case Add(amount) =>
      match before
      case Row(n) => Row(n + amount)
      case Change(_) => before
      case Def(flag, content) => Def(flag, content + amount)
  }

  /** `verify_new_tuple`: the values that the trigger of `_pico_property` lets into a row. */
  predicate Admits(cell: Cell, v: Value) {
    if cell.table != PROPERTIES then true
    else if cell.key == PENDING_SCHEMA_CHANGE then v.Change?
    else if cell.key == LAST_BACKUP_TIMESTAMP then v.Row?
    else cell.key in {NEXT_SCHEMA_VERSION, PENDING_SCHEMA_VERSION, GLOBAL_SCHEMA_VERSION, PENDING_GOVERNOR_OP} ==>
           v.Row? && v.n >= 0
  }

  /** `must_not_delete`: the properties that the trigger does not let go. */
  const UNDELETABLE: set<Key> := {GLOBAL_SCHEMA_VERSION, NEXT_SCHEMA_VERSION, CLUSTER_VERSION}

  function Written(cell: Cell, before: Option<Value>, v: Value): Option<Value> {
    if Admits(cell, v) then Some(v) else before
  }

  /** What a DML operation makes of one cell. A value that the trigger refuses is not written; the source
      stops when it applies such an operation. */
  function DmlAfter(d: Dml, cell: Cell, before: Option<Value>): Option<Value> {
    if d.table != cell.table then before
    else if d.DeleteAll? then None
    else if KeyOf(d) != cell.key then before
    else
      match d
      case Insert(_, _, v, strategy) => if strategy.DoReplace? || before.None? then Written(cell, before, v) else before
      case Replace(_, _, v) => Written(cell, before, v)
      case Update(_, _, update) => if before.Some? then Written(cell, before, Updated(before.value, update)) else None
      case _ => None
  }

  function BatchAfter(ds: seq<Dml>, cell: Cell, before: Option<Value>): Option<Value>
    decreases |ds|
  {
    if ds == [] then before else BatchAfter(ds[1..], cell, DmlAfter(ds[0], cell, before))
  }

  // ---- Definitions of tables, indexes and procedures ---------------------------------------

  /** The table whose `operable` flag a schema change switches, if it is a single one. */
  function TableOf(ddl: Ddl): Option<TableId> {
    match ddl
    case CreateTable(id, _) => Some(id)
    case DropTable(id) => Some(id)
    case TruncateTable(id) => Some(id)
    case ChangeFormat(id, _, _, _, _) => Some(id)
    case RenameTable(id, _, _) => Some(id)
    case _ => None
  }

  function InsertDef(before: Option<Value>, content: int): Option<Value> {
    if before.None? then Some(Def(false, content)) else before
  }

  function SetFlag(before: Option<Value>, flag: bool): Option<Value> {
    match before
    case Some(Def(_, content)) => Some(Def(flag, content))
    case _ => before
  }

  function SetDef(before: Option<Value>, flag: bool, content: int): Option<Value> {
    match before
    case Some(Def(_, _)) => Some(Def(flag, content))
    case _ => before
  }

  function SetContent(before: Option<Value>, content: int): Option<Value> {
    match before
    case Some(Def(flag, _)) => Some(Def(flag, content))
    case _ => before
  }

  function Rewrite(before: Option<Value>, renames: map<int, int>): Option<Value> {
    match before
    case Some(Def(flag, content)) => Some(Def(flag, if content in renames then renames[content] else content))
    case _ => before
  }

  /** Rows whose key starts with the id of a table. */
  predicate OfTable(key: Key, t: TableId) {
    [t] <= key
  }

  /** The row of `_pico_table` is the built-in definition of its table. */
  predicate IsBuiltIn(t: TableId, row: Option<Value>) {
    IsSystemTable(t) && row == Some(BuiltIn(t))
  }

  /** The row of `_pico_table` to which an index definition belongs is there. */
  predicate TableExists(c: Catalog, key: Key) {
    key != [] && Cell(TABLES, [key[0]]) in c.rows
  }

  /** Backups close all tables but those with a built-in definition. */
  predicate ClosedByBackup(c: Catalog, key: Key) {
    TableExists(c, key) && !IsBuiltIn(key[0], Lookup(c, Cell(TABLES, [key[0]])))
  }

  function TableAfterPrepare(ddl: Ddl, key: Key, before: Option<Value>): Option<Value> {
    match ddl
    case CreateTable(id, content) => if key == [id] then InsertDef(before, content) else before
    case DropTable(id) => if key == [id] then SetFlag(before, false) else before
    case TruncateTable(id) => if key == [id] then SetFlag(before, false) else before
    case ChangeFormat(id, content, _, _, _) => if key == [id] then SetDef(before, false, content) else before
    case RenameTable(id, content, _) => if key == [id] then SetDef(before, false, content) else before
    case Backup(_) => if |key| == 1 && !IsBuiltIn(key[0], before) then SetFlag(before, false) else before
    case _ => before
  }

  function IndexAfterPrepare(c: Catalog, ddl: Ddl, key: Key, before: Option<Value>): Option<Value> {
    match ddl
    case CreateTable(id, content) => if key == [id, 0] then InsertDef(before, content) else before
    case DropTable(id) => if OfTable(key, id) then SetFlag(before, false) else before
    case TruncateTable(id) => if OfTable(key, id) then SetFlag(before, false) else before
    case ChangeFormat(id, _, _, renames, _) => if OfTable(key, id) then Rewrite(before, renames) else before
    case Backup(_) => if ClosedByBackup(c, key) then SetFlag(before, false) else before
    case CreateIndex(t, i, content) => if key == [t, i] then InsertDef(before, content) else before
    case DropIndex(t, i) => if key == [t, i] then SetFlag(before, false) else before
    case RenameIndex(t, i, content, _) => if key == [t, i] then SetDef(before, false, content) else before
    case _ => before
  }

  function RoutineAfterPrepare(ddl: Ddl, key: Key, before: Option<Value>): Option<Value> {
    match ddl
    case CreateProcedure(id, content) => if key == [id] then Some(Def(false, content)) else before
    case DropProcedure(id) => if key == [id] then SetFlag(before, false) else before
    case RenameProcedure(id, content, _) => if key == [id] then SetDef(before, false, content) else before
    case _ => before
  }

  function AfterPrepare(c: Catalog, ddl: Ddl, version: int, governorOp: Option<int>, cell: Cell): Option<Value> {
    var before := Lookup(c, cell);
    if cell == Prop(PENDING_SCHEMA_CHANGE) then Some(Change(ddl))
    else if cell == Prop(PENDING_SCHEMA_VERSION) then Some(Row(version))
    else if cell == Prop(NEXT_SCHEMA_VERSION) then Some(Row(version + 1))
    else if cell == Prop(PENDING_GOVERNOR_OP) && governorOp.Some? then Some(Row(governorOp.value))
    else if cell.table == TABLES then TableAfterPrepare(ddl, cell.key, before)
    else if cell.table == INDEXES then IndexAfterPrepare(c, ddl, cell.key, before)
    else if cell.table == ROUTINES then RoutineAfterPrepare(ddl, cell.key, before)
    else before
  }

  // ---- The end of a schema change ----------------------------------------------------------

  function TableAfterFinish(ddl: Ddl, commit: bool, key: Key, before: Option<Value>): Option<Value> {
    match ddl
    case CreateTable(id, _) => if key != [id] then before else if commit then SetFlag(before, true) else None
    case DropTable(id) => if key != [id] then before else if commit then None else SetFlag(before, true)
    case TruncateTable(id) => if key == [id] && commit then SetFlag(before, true) else before
    case ChangeFormat(id, _, old_, _, _) =>
      if key != [id] then before else if commit then SetFlag(before, true) else SetDef(before, true, old_)
    case RenameTable(id, _, old_) =>
      if key != [id] then before else if commit then SetFlag(before, true) else SetDef(before, true, old_)
    case Backup(_) => if |key| == 1 then SetFlag(before, true) else before
    case _ => before
  }

  function IndexAfterFinish(c: Catalog, ddl: Ddl, commit: bool, key: Key, before: Option<Value>): Option<Value> {
    match ddl
    case CreateTable(id, _) => if !OfTable(key, id) then before else if commit then SetFlag(before, true) else None
    case DropTable(id) => if !OfTable(key, id) then before else if commit then None else SetFlag(before, true)
    case TruncateTable(id) => if OfTable(key, id) && commit then SetFlag(before, true) else before
    case ChangeFormat(id, _, _, _, restores) =>
      if !OfTable(key, id) then before
      else if commit then SetFlag(before, true) else Rewrite(SetFlag(before, true), restores)
    case Backup(_) => if TableExists(c, key) then SetFlag(before, true) else before
    case CreateIndex(t, i, _) => if key != [t, i] then before else if commit then SetFlag(before, true) else None
    case DropIndex(t, i) => if key != [t, i] then before else if commit then None else SetFlag(before, true)
    case RenameIndex(t, i, _, old_) =>
      if key != [t, i] then before else if commit then SetFlag(before, true) else SetDef(before, true, old_)
    case _ => before
  }

  function RoutineAfterFinish(ddl: Ddl, commit: bool, key: Key, before: Option<Value>): Option<Value> {
    match ddl
    case CreateProcedure(id, _) => if key != [id] then before else if commit then SetFlag(before, true) else None
    case DropProcedure(id) => if key != [id] then before else if commit then None else SetFlag(before, true)
    case RenameProcedure(id, _, old_) =>
      if key != [id] then before else if commit then SetFlag(before, true) else SetDef(before, true, old_)
    case _ => before
  }

  /** The object whose privileges go away at the end of a schema change, as type and id. */
  function ObjectRemoved(ddl: Ddl, commit: bool): Option<Key> {
    match ddl
    case CreateTable(id, _) => if commit then None else Some([ON_TABLE, id])
    case DropTable(id) => if commit then Some([ON_TABLE, id]) else None
    case CreateProcedure(id, _) => if commit then None else Some([ON_ROUTINE, id])
    case DropProcedure(id) => if commit then Some([ON_ROUTINE, id]) else None
    case _ => None
  }

  predicate IsAboutObject(key: Key, removed: Option<Key>) {
    removed.Some? && |key| == 4 && key[1..3] == removed.value
  }

  /** The table that a commit empties. */
  function Cleared(ddl: Ddl, commit: bool): Option<TableId> {
    match ddl
    case DropTable(id) => if commit then Some(id) else None
    case TruncateTable(id) => if commit then Some(id) else None
    case _ => None
  }

  function AfterFinish(c: Catalog, ddl: Ddl, commit: bool, cell: Cell): Option<Value> {
    var before := Lookup(c, cell);
    var version := Lookup(c, Prop(PENDING_SCHEMA_VERSION));
    if cell in {Prop(PENDING_SCHEMA_CHANGE), Prop(PENDING_SCHEMA_VERSION), Prop(PENDING_GOVERNOR_OP)} then None
    else if cell == Prop(GLOBAL_SCHEMA_VERSION) && commit then (if version.Some? then version else before)
    else if cell == Prop(LAST_BACKUP_TIMESTAMP) && commit && ddl.Backup? then Some(Row(ddl.timestamp))
    else if Cleared(ddl, commit) == Some(cell.table) then None
    else if cell.table == GOVERNOR_QUEUE && PendingGovernorOp(c).Some? && cell.key == [PendingGovernorOp(c).value]
    then (if before.Some? then Some(if commit then DONE else FAILED) else None)
    else if cell.table == TABLES then TableAfterFinish(ddl, commit, cell.key, before)
    else if cell.table == INDEXES then IndexAfterFinish(c, ddl, commit, cell.key, before)
    else if cell.table == ROUTINES then RoutineAfterFinish(ddl, commit, cell.key, before)
    else if cell.table == PRIVILEGES && IsAboutObject(cell.key, ObjectRemoved(ddl, commit)) then None
    else before
  }

  // ---- Access control ----------------------------------------------------------------------

  /** What every new user is granted: the role `public`, login, and altering itself. */
  predicate IsDefaultPrivilege(key: Key, u: UserId) {
    || key == [u, ON_ROLE, PUBLIC, EXECUTE]
    || key == [u, ON_UNIVERSE, UNIVERSE_ID, LOGIN]
    || key == [u, ON_USER, u, ALTER]
  }

  function UserAfterAcl(acl: Acl, key: Key, before: Option<Value>): Option<Value> {
    match acl
    case CreateUser(u, profile) => if key == [u] && before.None? then Some(Def(false, profile)) else before
    case CreateRole(r, profile) => if key == [r] && before.None? then Some(Def(true, profile)) else before
    case RenameUser(u, profile) => if key == [u] then SetContent(before, profile) else before
    case ChangeAuth(u, profile) => if key == [u] then SetContent(before, profile) else before
    case DropUser(u) => if key == [u] then None else before
    case DropRole(r) => if key == [r] then None else before
    case _ => before
  }

  function PrivilegeAfterAcl(acl: Acl, cell: Cell, before: Option<Value>): Option<Value> {
    match acl
    case CreateUser(u, _) => if IsDefaultPrivilege(cell.key, u) && before.None? then Some(Row(0)) else before
    case DropUser(u) => if [u] <= cell.key then None else before
    case DropRole(r) =>
      if [r] <= cell.key || (RowGrant(cell).Some? && RowGrant(cell).value.role == r) then None else before
    case GrantPrivilege(p) => if cell == PrivilegeCell(p) && before.None? then Some(Row(0)) else before
    case RevokePrivilege(p) => if cell == PrivilegeCell(p) then None else before
    case _ => before
  }

  /** Audit settings are rows (user, policy); they go away with their user. */
  function AuditAfterAcl(acl: Acl, key: Key, before: Option<Value>): Option<Value> {
    match acl
    case DropUser(u) => if [u] <= key then None else before
    case AuditPolicy(u, policy, enable) =>
      if key != [u, policy] then before else if enable then Some(Row(0)) else None
    case _ => before
  }

  function AfterAcl(c: Catalog, acl: Acl, version: int, cell: Cell): Option<Value> {
    var before := Lookup(c, cell);
    if cell == Prop(GLOBAL_SCHEMA_VERSION) then Some(Row(version))
    else if cell == Prop(NEXT_SCHEMA_VERSION) then Some(Row(version + 1))
    else if cell.table == USERS then UserAfterAcl(acl, cell.key, before)
    else if cell.table == PRIVILEGES then PrivilegeAfterAcl(acl, cell, before)
    else if cell.table == USER_AUDIT_POLICY then AuditAfterAcl(acl, cell.key, before)
    else before
  }

  // ---- Plugins -----------------------------------------------------------------------------

  /** Whether the plugin is enabled, if it is known. */
  function PluginEnabled(c: Catalog, name: int, version: int): Option<bool> {
    match Lookup(c, Cell(PLUGINS, [name, version]))
    case Some(Def(enabled, _)) => Some(enabled)
    case _ => None
  }

  predicate ServiceExists(c: Catalog, name: int, service: int, version: int) {
    Cell(SERVICES, [name, service, version]) in c.rows
  }

  predicate IsService(key: Key, name: int, version: int) {
    |key| == 3 && key[0] == name && key[2] == version
  }

  predicate IsConfig(key: Key, name: int, version: int) {
    |key| == 4 && key[0] == name && key[1] == version
  }

  function AfterPlugin(c: Catalog, op: PluginOp, cell: Cell): Option<Value> {
    var before := Lookup(c, cell);
    match op
    case AbortPlugin => if cell == Prop(PENDING_PLUGIN_OPERATION) then None else before
    case DisablePlugin(name, version, afterError) =>
      if PluginEnabled(c, name, version).None? then before
      else if cell == Cell(PLUGINS, [name, version]) then SetFlag(before, false)
      else if cell.table == SERVICE_ROUTES && [name, version] <= cell.key then None
      else if cell == Prop(PENDING_PLUGIN_OPERATION) && afterError then None
      else before
    case DropPlugin(name, version) =>
      if PluginEnabled(c, name, version) != Some(false) then before
      else if cell == Cell(PLUGINS, [name, version]) then None
      else if cell.table == SERVICES && IsService(cell.key, name, version) then None
      else if cell.table == PLUGIN_CONFIG && IsConfig(cell.key, name, version)
              && ServiceExists(c, name, cell.key[2], version) then None
      else before
    case UpdateConfig(name, version, updates) =>
      if cell.table == PLUGIN_CONFIG && IsConfig(cell.key, name, version) && cell.key[2..] in updates
         && (cell.key[2] == CONTEXT_ENTITY || ServiceExists(c, name, cell.key[2], version))
      then Some(Row(updates[cell.key[2..]]))
      else before
  }

  // ---- Applying an entry -------------------------------------------------------------------

  /** The value of one cell after an entry is applied. A finaliser without a pending change, on which
      the source panics, changes nothing. One without a pending version, on which the source panics too,
      finishes the change and keeps the global version. */
  function After(c: Catalog, op: Op, cell: Cell): Option<Value> {
    match op
    case Nop => Lookup(c, cell)
    case DmlOp(d) => DmlAfter(d, cell, Lookup(c, cell))
    case BatchDml(ds) => BatchAfter(ds, cell, Lookup(c, cell))
    case DdlPrepare(ddl, version, governorOp) => AfterPrepare(c, ddl, version, governorOp, cell)
    case DdlCommit => if Pending(c).Some? then AfterFinish(c, Pending(c).value, true, cell) else Lookup(c, cell)
    case DdlAbort => if Pending(c).Some? then AfterFinish(c, Pending(c).value, false, cell) else Lookup(c, cell)
    case AclOp(acl, version) => AfterAcl(c, acl, version, cell)
    case Plugin(p) => AfterPlugin(c, p, cell)
  }

  /** The cells at which an operation may leave a new row. */
  function Inserts(op: Op): set<Cell> {
    match op
    case Nop => {}
    case DmlOp(d) => {Cell(d.table, KeyOf(d))}
    case BatchDml(ds) => set i | 0 <= i < |ds| :: Cell(ds[i].table, KeyOf(ds[i]))
    case DdlPrepare(ddl, _, _) =>
      {Prop(PENDING_SCHEMA_CHANGE), Prop(PENDING_SCHEMA_VERSION), Prop(NEXT_SCHEMA_VERSION), Prop(PENDING_GOVERNOR_OP)}
      + (match ddl
         case CreateTable(id, _) => {Cell(TABLES, [id]), Cell(INDEXES, [id, 0])}
         case CreateIndex(t, i, _) => {Cell(INDEXES, [t, i])}
         case CreateProcedure(id, _) => {Cell(ROUTINES, [id])}
         case _ => {})
    case DdlCommit => {Prop(GLOBAL_SCHEMA_VERSION), Prop(LAST_BACKUP_TIMESTAMP)}
    case DdlAbort => {}
    case AclOp(acl, _) =>
      {Prop(GLOBAL_SCHEMA_VERSION), Prop(NEXT_SCHEMA_VERSION)}
      + (match acl
         case CreateUser(u, _) =>
           {Cell(USERS, [u]), Cell(PRIVILEGES, [u, ON_ROLE, PUBLIC, EXECUTE]),
            Cell(PRIVILEGES, [u, ON_UNIVERSE, UNIVERSE_ID, LOGIN]), Cell(PRIVILEGES, [u, ON_USER, u, ALTER])}
         case CreateRole(r, _) => {Cell(USERS, [r])}
         case GrantPrivilege(p) => {PrivilegeCell(p)}
         case AuditPolicy(u, policy, _) => {Cell(USER_AUDIT_POLICY, [u, policy])}
         case _ => {})
    case Plugin(p) =>
      if p.UpdateConfig? then set k | k in p.updates :: Cell(PLUGIN_CONFIG, [p.name, p.version] + k) else {}
  }

  /** Effect of one committed entry. */
  function Apply(c: Catalog, op: Op): Catalog {
    Catalog(map cell | cell in c.rows.Keys + Inserts(op) && After(c, op, cell).Some? :: After(c, op, cell).value)
  }

  /** Applying an entry gives every cell the value that `After` says. */
  lemma ApplyIsAfter(c: Catalog, op: Op, cell: Cell)
    ensures Lookup(Apply(c, op), cell) == After(c, op, cell)
  {
    if cell !in c.rows && cell !in Inserts(op) {
      NothingFromNothing(c, op, cell);
    }
  }

  lemma NothingFromNothing(c: Catalog, op: Op, cell: Cell)
    requires cell !in c.rows && cell !in Inserts(op)
    ensures After(c, op, cell) == None
  {
    match op {
      case BatchDml(ds) => BatchFromNothing(ds, cell);
      case Plugin(UpdateConfig(name, version, updates)) =>
        if cell.table == PLUGIN_CONFIG && IsConfig(cell.key, name, version) {
          assert cell.key == [name, version] + cell.key[2..];
        }
      case _ =>
    }
  }

  lemma {:induction false} BatchFromNothing(ds: seq<Dml>, cell: Cell)
    requires forall i :: 0 <= i < |ds| ==> Cell(ds[i].table, KeyOf(ds[i])) != cell
    ensures BatchAfter(ds, cell, None) == None
    decreases |ds|
  {
    if ds != [] {
      assert Cell(ds[0].table, KeyOf(ds[0])) != cell;
      BatchFromNothing(ds[1..], cell);
    }
  }

  // ---- The catalog after bootstrap -----------------------------------------------------------

  predicate IsSystemUser(u: UserId) {
    u in {GUEST, ADMIN, PUBLIC, ROLE_REPLICATION, SUPER, PICO_SERVICE}
  }

  predicate IsSystemRole(u: UserId) {
    u in {PUBLIC, ROLE_REPLICATION, SUPER}
  }

  /** The role grants among the built-in privileges. */
  predicate IsInitialGrant(g: Grant) {
    g == Grant(PUBLIC, GUEST) || g == Grant(ROLE_REPLICATION, PICO_SERVICE)
  }

  const INITIAL_CELLS: set<Cell> :=
    (set t | 512 <= t <= 534 && IsSystemTable(t) :: Cell(TABLES, [t]))
    + (set u | 0 <= u <= 32 && IsSystemUser(u) :: Cell(USERS, [u]))
    + {RoleCell(Grant(PUBLIC, GUEST)), RoleCell(Grant(ROLE_REPLICATION, PICO_SERVICE)),
       Prop(GLOBAL_SCHEMA_VERSION), Prop(NEXT_SCHEMA_VERSION), Prop(CLUSTER_VERSION)}

  function InitialValue(cell: Cell): Value {
    if cell.table == TABLES && cell.key != [] then BuiltIn(cell.key[0])
    else if cell.table == USERS && cell.key != [] then Def(IsSystemRole(cell.key[0]), cell.key[0])
    else if cell == Prop(NEXT_SCHEMA_VERSION) then Row(1)
    else Row(0)
  }

  /** What a new cluster starts with, as far as any check looks at it: the definitions of the system
      tables, the built-in users and roles, their role grants, and the versions. */
  const INITIAL: Catalog := Catalog(map cell | cell in INITIAL_CELLS :: InitialValue(cell))

  lemma InitialRows(cell: Cell)
    ensures cell.table == TABLES ==>
              Lookup(INITIAL, cell) ==
              if |cell.key| == 1 && IsSystemTable(cell.key[0]) then Some(BuiltIn(cell.key[0])) else None
    ensures cell.table == USERS ==>
              Lookup(INITIAL, cell) ==
              if |cell.key| == 1 && IsSystemUser(cell.key[0])
              then Some(Def(IsSystemRole(cell.key[0]), cell.key[0])) else None
    ensures cell.table == PRIVILEGES ==>
              (cell in INITIAL.rows <==> RowGrant(cell).Some? && IsInitialGrant(RowGrant(cell).value))
    ensures cell.table !in {TABLES, USERS, PRIVILEGES, PROPERTIES} ==> cell !in INITIAL.rows
    ensures cell.table == PROPERTIES ==> (cell in INITIAL.rows <==> cell.key in UNDELETABLE)
  {
    assert |cell.key| == 1 ==> cell.key == [cell.key[0]];
    assert |cell.key| == 4 ==> cell.key == [cell.key[0], cell.key[1], cell.key[2], cell.key[3]];
  }

  /** Only these role grants are there at the start. */
  lemma InitialGrants(g: Grant)
    ensures g in Grants(INITIAL) <==> IsInitialGrant(g)
  {
    GrantIsRow(INITIAL, g);
    InitialRows(RoleCell(g));
    var key := RoleCell(g).key;
    assert key[0] == g.grantee && key[2] == g.role;
  }
}
