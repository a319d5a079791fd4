/**
 What a whole schema change does to the catalog: prepare followed by commit, and prepare
 followed by abort (src/traft/node.rs, src/storage/schema.rs).
 */
module DdlEffects {
  import opened Options
  import opened Catalog

  /** The two steps of a schema change, one right after the other. */
  function Changed(c: Catalog, ddl: Ddl, version: int, governorOp: Option<int>, end: Op): Catalog {
    Apply(Apply(c, DdlPrepare(ddl, version, governorOp)), end)
  }

  lemma PreparedIsPending(c: Catalog, ddl: Ddl, version: int, governorOp: Option<int>)
    ensures Pending(Apply(c, DdlPrepare(ddl, version, governorOp))) == Some(ddl)
  {
    ApplyIsAfter(c, DdlPrepare(ddl, version, governorOp), Prop(PENDING_SCHEMA_CHANGE));
  }

  lemma FinishPending(p: Catalog, ddl: Ddl, commit: bool, cell: Cell)
    requires Pending(p) == Some(ddl)
    ensures Lookup(Apply(p, if commit then DdlCommit else DdlAbort), cell) == AfterFinish(p, ddl, commit, cell)
  {
    ApplyIsAfter(p, if commit then DdlCommit else DdlAbort, cell);
  }

  /** The two steps, for one cell. */
  lemma StepByStep(c: Catalog, ddl: Ddl, version: int, governorOp: Option<int>, commit: bool, cell: Cell)
    ensures var p := Apply(c, DdlPrepare(ddl, version, governorOp));
            && Lookup(p, cell) == AfterPrepare(c, ddl, version, governorOp, cell)
            && Lookup(Changed(c, ddl, version, governorOp, if commit then DdlCommit else DdlAbort), cell)
               == AfterFinish(p, ddl, commit, cell)
  {
    ApplyIsAfter(c, DdlPrepare(ddl, version, governorOp), cell);
    PreparedIsPending(c, ddl, version, governorOp);
    FinishPending(Apply(c, DdlPrepare(ddl, version, governorOp)), ddl, commit, cell);
  }

  // ---- The properties ----------------------------------------------------------------------

  /** After either end nothing is pending; a commit makes the prepared version the global one, an abort
      leaves the global version alone, and the next version has moved on in both cases. */
  lemma SchemaVersions(c: Catalog, ddl: Ddl, version: int, governorOp: Option<int>, commit: bool)
    requires Cleared(ddl, commit) != Some(PROPERTIES)
    ensures var r := Changed(c, ddl, version, governorOp, if commit then DdlCommit else DdlAbort);
            && Pending(r) == None && PendingGovernorOp(r) == None
            && Lookup(r, Prop(GLOBAL_SCHEMA_VERSION)) ==
               (if commit then Some(Row(version)) else Lookup(c, Prop(GLOBAL_SCHEMA_VERSION)))
            && Lookup(r, Prop(NEXT_SCHEMA_VERSION)) == Some(Row(version + 1))
  {
    StepByStep(c, ddl, version, governorOp, commit, Prop(PENDING_SCHEMA_CHANGE));
    StepByStep(c, ddl, version, governorOp, commit, Prop(PENDING_GOVERNOR_OP));
    StepByStep(c, ddl, version, governorOp, commit, Prop(PENDING_SCHEMA_VERSION));
    StepByStep(c, ddl, version, governorOp, commit, Prop(GLOBAL_SCHEMA_VERSION));
    StepByStep(c, ddl, version, governorOp, commit, Prop(NEXT_SCHEMA_VERSION));
  }

  // ---- Abort undoes prepare ----------------------------------------------------------------

  predicate NotOff(v: Option<Value>) {
    v.Some? && v.value.Def? ==> v.value.flag
  }

  predicate NotOn(v: Option<Value>) {
    v.Some? && v.value.Def? ==> !v.value.flag
  }

  predicate OnWith(v: Option<Value>, content: int) {
    v.Some? && v.value.Def? ==> v.value == Def(true, content)
  }

  function Renamed(renames: map<int, int>, n: int): int {
    if n in renames then renames[n] else n
  }

  /** A definition that is on and that `restores` brings back. */
  predicate OnAndRestored(v: Option<Value>, renames: map<int, int>, restores: map<int, int>) {
    v.Some? && v.value.Def? ==> v.value.flag && Renamed(restores, Renamed(renames, v.value.content)) == v.value.content
  }

  predicate TableUndoable(ddl: Ddl, key: Key, v: Option<Value>) {
    match ddl
    case CreateTable(id, _) => key == [id] ==> v.None?
    case DropTable(id) => key == [id] ==> NotOff(v)
    case TruncateTable(id) => key == [id] ==> NotOn(v)
    case ChangeFormat(id, _, old_, _, _) => key == [id] ==> OnWith(v, old_)
    case RenameTable(id, _, old_) => key == [id] ==> OnWith(v, old_)
    case Backup(_) => |key| == 1 ==> NotOff(v)
    case _ => true
  }

  predicate IndexUndoable(c: Catalog, ddl: Ddl, key: Key, v: Option<Value>) {
    match ddl
    case CreateTable(id, _) => OfTable(key, id) ==> v.None?
    case DropTable(id) => OfTable(key, id) ==> NotOff(v)
    case TruncateTable(id) => OfTable(key, id) ==> NotOn(v)
    case ChangeFormat(id, _, _, renames, restores) => OfTable(key, id) ==> OnAndRestored(v, renames, restores)
    case Backup(_) => TableExists(c, key) ==> NotOff(v)
    case CreateIndex(t, i, _) => key == [t, i] ==> v.None?
    case DropIndex(t, i) => key == [t, i] ==> NotOff(v)
    case RenameIndex(t, i, _, old_) => key == [t, i] ==> OnWith(v, old_)
    case _ => true
  }

  predicate RoutineUndoable(ddl: Ddl, key: Key, v: Option<Value>) {
    match ddl
    case CreateProcedure(id, _) => key == [id] ==> v.None?
    case DropProcedure(id) => key == [id] ==> NotOff(v)
    case RenameProcedure(id, _, old_) => key == [id] ==> OnWith(v, old_)
    case _ => true
  }

  /** What must be true of a row before the schema change for an abort to bring it back: a new object
      has no row, no index and no privilege yet, an existing one is operable and has the content
      that the change remembers. A truncation, which the source never aborts, is not undone. */
  predicate Undoable(c: Catalog, ddl: Ddl, cell: Cell) {
    var v := Lookup(c, cell);
    && (cell.table == TABLES ==> TableUndoable(ddl, cell.key, v))
    && (cell.table == INDEXES ==> IndexUndoable(c, ddl, cell.key, v))
    && (cell.table == ROUTINES ==> RoutineUndoable(ddl, cell.key, v))
    && (cell.table == PRIVILEGES && IsAboutObject(cell.key, ObjectRemoved(ddl, false)) ==> v.None?)
  }

  lemma TableExistsThroughPrepare(c: Catalog, ddl: Ddl, version: int, governorOp: Option<int>, key: Key)
    requires ddl.Backup?
    ensures TableExists(Apply(c, DdlPrepare(ddl, version, governorOp)), key) == TableExists(c, key)
  {
    if key != [] {
      ApplyIsAfter(c, DdlPrepare(ddl, version, governorOp), Cell(TABLES, [key[0]]));
    }
  }

  lemma TableUndone(ddl: Ddl, key: Key, v: Option<Value>)
    ensures TableAfterFinish(ddl, false, key, TableAfterPrepare(ddl, key, v)) == v <==> TableUndoable(ddl, key, v)
  {
  }

  lemma IndexUndone(c: Catalog, p: Catalog, ddl: Ddl, key: Key, v: Option<Value>)
    requires ddl.Backup? ==> TableExists(p, key) == TableExists(c, key)
    ensures IndexAfterFinish(p, ddl, false, key, IndexAfterPrepare(c, ddl, key, v)) == v
            <==> IndexUndoable(c, ddl, key, v)
  {
  }

  lemma RoutineUndone(ddl: Ddl, key: Key, v: Option<Value>)
    ensures RoutineAfterFinish(ddl, false, key, RoutineAfterPrepare(ddl, key, v)) == v <==> RoutineUndoable(ddl, key, v)
  {
  }

  /** Abort undoes prepare, definition by definition, exactly when the definition was undoable. */
  lemma AbortUndoesPrepareIff(c: Catalog, ddl: Ddl, version: int, governorOp: Option<int>, cell: Cell)
    requires cell.table in PROHIBITED_TABLES
    ensures Lookup(Changed(c, ddl, version, governorOp, DdlAbort), cell) == Lookup(c, cell) <==> Undoable(c, ddl, cell)
  {
    StepByStep(c, ddl, version, governorOp, false, cell);
    var p, v := Apply(c, DdlPrepare(ddl, version, governorOp)), Lookup(c, cell);
    if cell.table == TABLES {
      TableUndone(ddl, cell.key, v);
    } else if cell.table == INDEXES {
      if ddl.Backup? {
        TableExistsThroughPrepare(c, ddl, version, governorOp, cell.key);
      }
      IndexUndone(c, p, ddl, cell.key, v);
    } else if cell.table == ROUTINES {
      RoutineUndone(ddl, cell.key, v);
    }
  }

  // ---- Commit completes the change ---------------------------------------------------------

  function TableOutcome(ddl: Ddl, key: Key, v: Option<Value>): Option<Value> {
    if ddl.Backup? then (if |key| == 1 then SetFlag(v, true) else v)
    else if TableOf(ddl).None? || key != [TableOf(ddl).value] then v
    else
      match ddl
      case CreateTable(_, content) => if v.None? then Some(Def(true, content)) else SetFlag(v, true)
      case DropTable(_) => None
      case TruncateTable(_) => SetFlag(v, true)
      case ChangeFormat(_, content, _, _, _) => SetDef(v, true, content)
      case RenameTable(_, content, _) => SetDef(v, true, content)
  }

  function IndexOutcome(c: Catalog, ddl: Ddl, key: Key, v: Option<Value>): Option<Value> {
    match ddl
    case CreateTable(id, content) =>
      if !OfTable(key, id) then v
      else if key == [id, 0] && v.None? then Some(Def(true, content)) else SetFlag(v, true)
    case DropTable(id) => if OfTable(key, id) then None else v
    case TruncateTable(id) => if OfTable(key, id) then SetFlag(v, true) else v
    case ChangeFormat(id, _, _, renames, _) => if OfTable(key, id) then Rewrite(SetFlag(v, true), renames) else v
    case Backup(_) => if TableExists(c, key) then SetFlag(v, true) else v
    case CreateIndex(t, i, content) =>
      if key != [t, i] then v else if v.None? then Some(Def(true, content)) else SetFlag(v, true)
    case DropIndex(t, i) => if key == [t, i] then None else v
    case RenameIndex(t, i, content, _) => if key == [t, i] then SetDef(v, true, content) else v
    case _ => v
  }

  function RoutineOutcome(ddl: Ddl, key: Key, v: Option<Value>): Option<Value> {
    match ddl
    case CreateProcedure(id, content) => if key == [id] then Some(Def(true, content)) else v
    case DropProcedure(id) => if key == [id] then None else v
    case RenameProcedure(id, content, _) => if key == [id] then SetDef(v, true, content) else v
    case _ => v
  }

  /** What a committed schema change leaves of a row: the table, index or procedure is operable with its
      new content, or gone together with the privileges on it; a dropped or truncated table is empty; the
      operation of the governor that it carries out is done. */
  function Outcome(c: Catalog, ddl: Ddl, governorOp: Option<int>, cell: Cell): Option<Value> {
    var v := Lookup(c, cell);
    var operation := if governorOp.Some? then governorOp else PendingGovernorOp(c);
    if Cleared(ddl, true) == Some(cell.table) then None
    else if cell.table == GOVERNOR_QUEUE && operation.Some? && cell.key == [operation.value]
    then (if v.Some? then Some(DONE) else None)
    else if cell.table == INDEXES then IndexOutcome(c, ddl, cell.key, v)
    else if cell.table == TABLES then TableOutcome(ddl, cell.key, v)
    else if cell.table == ROUTINES then RoutineOutcome(ddl, cell.key, v)
    else if cell.table == PRIVILEGES && IsAboutObject(cell.key, ObjectRemoved(ddl, true)) then None
    else v
  }

  lemma IndexCompleted(c: Catalog, p: Catalog, ddl: Ddl, key: Key, v: Option<Value>)
    requires ddl.Backup? ==> TableExists(p, key) == TableExists(c, key)
    ensures IndexAfterFinish(p, ddl, true, key, IndexAfterPrepare(c, ddl, key, v)) == IndexOutcome(c, ddl, key, v)
  {
  }

  lemma RoutineCompleted(ddl: Ddl, key: Key, v: Option<Value>)
    ensures RoutineAfterFinish(ddl, true, key, RoutineAfterPrepare(ddl, key, v)) == RoutineOutcome(ddl, key, v)
  {
  }

  lemma TableCompleted(ddl: Ddl, key: Key, v: Option<Value>)
    ensures TableAfterFinish(ddl, true, key, TableAfterPrepare(ddl, key, v)) == TableOutcome(ddl, key, v)
  {
  }

  /** The operation of the governor that is pending right after prepare. */
  lemma PreparedOperation(c: Catalog, ddl: Ddl, version: int, governorOp: Option<int>)
    ensures PendingGovernorOp(Apply(c, DdlPrepare(ddl, version, governorOp)))
            == if governorOp.Some? then governorOp else PendingGovernorOp(c)
  {
    ApplyIsAfter(c, DdlPrepare(ddl, version, governorOp), Prop(PENDING_GOVERNOR_OP));
  }

  /** Commit completes the change, for the rows of all tables; `SchemaVersions` is about the properties. */
  lemma CommitCompletes(c: Catalog, ddl: Ddl, version: int, governorOp: Option<int>, cell: Cell)
    requires cell.table != PROPERTIES
    ensures Lookup(Changed(c, ddl, version, governorOp, DdlCommit), cell) == Outcome(c, ddl, governorOp, cell)
  {
    StepByStep(c, ddl, version, governorOp, true, cell);
    PreparedOperation(c, ddl, version, governorOp);
    var p, v := Apply(c, DdlPrepare(ddl, version, governorOp)), Lookup(c, cell);
    if cell.table == TABLES {
      TableCompleted(ddl, cell.key, v);
    } else if cell.table == INDEXES {
      if ddl.Backup? {
        TableExistsThroughPrepare(c, ddl, version, governorOp, cell.key);
      }
      IndexCompleted(c, p, ddl, cell.key, v);
    } else if cell.table == ROUTINES {
      RoutineCompleted(ddl, cell.key, v);
    }
  }

  // ---- Plugins -----------------------------------------------------------------------------

  /** Dropping a disabled plugin leaves neither the plugin nor its services, and of its configuration
      only what belonged to no service. */
  lemma DroppedPluginIsGone(c: Catalog, name: int, version: int, cell: Cell)
    requires PluginEnabled(c, name, version) == Some(false)
    ensures var r := Apply(c, Plugin(DropPlugin(name, version)));
            && PluginEnabled(r, name, version) == None
            && (cell.table == SERVICES && IsService(cell.key, name, version) ==> Lookup(r, cell) == None)
            && (cell.table == PLUGIN_CONFIG && IsConfig(cell.key, name, version) ==>
                  Lookup(r, cell) == if ServiceExists(c, name, cell.key[2], version) then None else Lookup(c, cell))
  {
    var op := Plugin(DropPlugin(name, version));
    ApplyIsAfter(c, op, Cell(PLUGINS, [name, version]));
    ApplyIsAfter(c, op, cell);
  }
}
