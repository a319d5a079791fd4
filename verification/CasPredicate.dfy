/**
 The predicate of a compare-and-swap request: key ranges and the conflict check
 (src/cas.rs), and exactly which log entries the check lets through although they change
 something in a range.
 */
module CasPredicate {
  import opened Options
  import opened Catalog
  import opened Footprints

  datatype RangeBounds =
    | Eq(key: Key)
    | Between(minIncluded: bool, min: Option<Key>, maxIncluded: bool, max: Option<Key>)

  datatype Range = Range(table: TableId, bounds: Option<RangeBounds>)

  /** Tarantool's `compare_with_key`: only the parts present in `bound` are compared. That a part
      missing from `key` is below any other is an assumption. */
  function Compare(key: Key, bound: Key): int
    decreases |bound|
  {
    if bound == [] then 0
    else if key == [] then -1
    else if key[0] < bound[0] then -1
    else if key[0] > bound[0] then 1
    else Compare(key[1..], bound[1..])
  }

  predicate InBounds(key: Key, minIncluded: bool, min: Option<Key>, maxIncluded: bool, max: Option<Key>) {
    && (min.Some? ==> Compare(key, min.value) > 0 || (minIncluded && Compare(key, min.value) == 0))
    && (max.Some? ==> Compare(key, max.value) < 0 || (maxIncluded && Compare(key, max.value) == 0))
  }

  /** Checks the bounds one after the other, as the source does. */
  predicate Contains(range: Range, key: Key) {
    match range.bounds
    case None => true
    case Some(Eq(k)) => Compare(key, k) == 0
    case Some(Between(minIncluded, min, maxIncluded, max)) =>
      if min.Some? && (Compare(key, min.value) < 0 || (!minIncluded && Compare(key, min.value) == 0)) then false
      else if max.Some? && (Compare(key, max.value) > 0 || (!maxIncluded && Compare(key, max.value) == 0)) then false
      else true
  }

  function FromParts(table: TableId, min: Option<Key>, minIncluded: bool, max: Option<Key>, maxIncluded: bool): Range {
    Range(table, if min == max then (if min.Some? then Some(Eq(min.value)) else None)
                 else Some(Between(minIncluded, min, maxIncluded, max)))
  }

  /** The first `i` parts of the two keys are the same and the next one of `key` is lower or missing. */
  predicate LowerAt(key: Key, bound: Key, i: int) {
    0 <= i < |bound| && i <= |key| && key[..i] == bound[..i] && (i == |key| || key[i] < bound[i])
  }

  /** The first `i` parts of the two keys are the same and the next one of `key` is higher. */
  predicate HigherAt(key: Key, bound: Key, i: int) {
    0 <= i < |bound| && i < |key| && key[..i] == bound[..i] && key[i] > bound[i]
  }

  /** What the comparison means: equality is having `bound` as a prefix, and otherwise the first
      part that differs decides. */
  lemma {:induction false} CompareMeaning(key: Key, bound: Key)
    ensures Compare(key, bound) == 0 <==> bound <= key
    ensures Compare(key, bound) < 0 <==> exists i :: LowerAt(key, bound, i)
    ensures Compare(key, bound) > 0 <==> exists i :: HigherAt(key, bound, i)
    decreases |bound|
  {
    if bound != [] && key != [] {
      SameStart(key, bound);
      if key[0] == bound[0] {
        CompareMeaning(key[1..], bound[1..]);
        assert bound == [bound[0]] + bound[1..] && key == [key[0]] + key[1..];
        forall i ensures LowerAt(key, bound, i) <==> LowerAt(key[1..], bound[1..], i - 1) {
          ShiftedAt(key, bound, i);
        }
        forall i ensures HigherAt(key, bound, i) <==> HigherAt(key[1..], bound[1..], i - 1) {
          ShiftedAt(key, bound, i);
        }
        forall i | LowerAt(key[1..], bound[1..], i) ensures LowerAt(key, bound, i + 1) {
          ShiftedAt(key, bound, i + 1);
        }
        forall i | HigherAt(key[1..], bound[1..], i) ensures HigherAt(key, bound, i + 1) {
          ShiftedAt(key, bound, i + 1);
        }
      } else {
        assert LowerAt(key, bound, 0) || HigherAt(key, bound, 0);
      }
    } else if bound != [] {
      assert LowerAt(key, bound, 0);
    }
  }

  lemma SameStart(key: Key, bound: Key)
    requires bound != [] && key != []
    ensures forall i :: 0 < i <= |key| && i <= |bound| && key[..i] == bound[..i] ==> key[0] == bound[0]
  {
    forall i | 0 < i <= |key| && i <= |bound| && key[..i] == bound[..i] ensures key[0] == bound[0] {
      assert key[..i][0] == bound[..i][0];
    }
  }

  lemma ShiftedAt(key: Key, bound: Key, i: int)
    requires bound != [] && key != [] && key[0] == bound[0]
    ensures LowerAt(key, bound, i) <==> LowerAt(key[1..], bound[1..], i - 1)
    ensures HigherAt(key, bound, i) <==> HigherAt(key[1..], bound[1..], i - 1)
  {
    if 0 < i <= |key| && i <= |bound| {
      assert key[..i] == [key[0]] + key[1..][..i - 1] && bound[..i] == [bound[0]] + bound[1..][..i - 1];
      assert key[1..][..i - 1] == key[..i][1..] && bound[1..][..i - 1] == bound[..i][1..];
      assert key[..i] == bound[..i] <==> key[1..][..i - 1] == bound[1..][..i - 1];
    }
  }

  lemma {:induction false} CompareSelf(key: Key)
    ensures Compare(key, key) == 0
  {
    if key != [] {
      CompareSelf(key[1..]);
    }
  }

  /** A range built from bounds holds every key within them, and no other key unless both bounds
      are the same key and one of them is excluded. */
  lemma FromPartsMeaning(table: TableId, min: Option<Key>, minIncluded: bool, max: Option<Key>, maxIncluded: bool)
    ensures var r := FromParts(table, min, minIncluded, max, maxIncluded);
            && r.table == table
            && (forall k :: InBounds(k, minIncluded, min, maxIncluded, max) ==> Contains(r, k))
            && ((forall k :: Contains(r, k) ==> InBounds(k, minIncluded, min, maxIncluded, max))
                <==> !(min.Some? && min == max && !(minIncluded && maxIncluded)))
  {
    if min.Some? && min == max {
      CompareSelf(min.value);
      var r := FromParts(table, min, minIncluded, max, maxIncluded);
      assert Contains(r, min.value);
      assert InBounds(min.value, minIncluded, min, maxIncluded, max) <==> minIncluded && maxIncluded;
    }
  }

  // ---- The conflict check ------------------------------------------------------------------

  /** `pending` is the pending schema change in the storage of the leader at the time of the check,
      not at the entry's place in the log. */
  predicate ModifiesOperable(op: Op, table: TableId, pending: Option<Ddl>) {
    match op
    case DdlPrepare(ddl, _, _) => TableOf(ddl) == Some(table)
    case DdlCommit => pending.Some? && TableOf(pending.value) == Some(table)
    case DdlAbort => pending.Some? && TableOf(pending.value) == Some(table)
    case _ => false
  }

  predicate DmlConflicts(d: Dml, range: Range) {
    d.table == range.table && Contains(range, KeyOf(d))
  }

  /** `check_predicate` for one range: does the entry conflict with it? */
  predicate Conflicts(op: Op, range: Range, pending: Option<Ddl>) {
    || ModifiesOperable(op, range.table, pending)
    || match op {
      case Nop => false
      case DmlOp(d) => DmlConflicts(d, range)
      case BatchDml(ds) => exists i :: 0 <= i < |ds| && DmlConflicts(ds[i], range)
      case Plugin(_) => range.table == PROPERTIES && Contains(range, PENDING_PLUGIN_OPERATION)
      case _ => range.table == PROPERTIES && exists k :: k in SCHEMA_RELATED_PROPERTIES && Contains(range, k)
    }
  }

  predicate ConflictsAny(op: Op, ranges: seq<Range>, pending: Option<Ddl>) {
    exists i :: 0 <= i < |ranges| && Conflicts(op, ranges[i], pending)
  }

  /** `check_predicate`: true when a conflict with some range is found. */
  method CheckPredicate(op: Op, ranges: seq<Range>, pending: Option<Ddl>) returns (conflict: bool)
    ensures conflict == ConflictsAny(op, ranges, pending)
  {
    for i := 0 to |ranges|
      invariant forall k :: 0 <= k < i ==> !Conflicts(op, ranges[k], pending)
    {
      var range := ranges[i];
      if ModifiesOperable(op, range.table, pending) {
        return true;
      }
      match op {
        case Nop =>
        case DmlOp(d) =>
          if d.table == range.table && Contains(range, KeyOf(d)) {
            return true;
          }
        case BatchDml(ds) =>
          for j := 0 to |ds|
            invariant forall k :: 0 <= k < j ==> !DmlConflicts(ds[k], range)
          {
            if ds[j].table == range.table && Contains(range, KeyOf(ds[j])) {
              return true;
            }
          }
        case Plugin(_) =>
          if range.table == PROPERTIES && Contains(range, PENDING_PLUGIN_OPERATION) {
            return true;
          }
        case _ =>
          if range.table == PROPERTIES {
            for j := 0 to |SCHEMA_RELATED_PROPERTIES|
              invariant forall k :: 0 <= k < j ==> !Contains(range, SCHEMA_RELATED_PROPERTIES[k])
            {
              if Contains(range, SCHEMA_RELATED_PROPERTIES[j]) {
                return true;
              }
            }
          }
      }
    }
    conflict := false;
  }

  /** The range of one DML operation; a delete without a filter covers the whole table. */
  function ForDml(d: Dml): Range {
    Range(d.table, Some(Eq(KeyOf(d))))
  }

  /** The ranges added to every request for its own operation. */
  function ForOp(op: Op): seq<Range> {
    match op
    case Nop => []
    case DmlOp(d) => [ForDml(d)]
    case BatchDml(ds) => seq(|ds|, i requires 0 <= i < |ds| => ForDml(ds[i]))
    case Plugin(_) => [Range(PROPERTIES, Some(Eq(PENDING_PLUGIN_OPERATION)))]
    case _ => [Range(PROPERTIES, Some(Eq(GLOBAL_SCHEMA_VERSION)))]
  }

  /** No schema operation passes the check of another one: their ranges always conflict. */
  lemma SchemaOpsExclude(entry: Op, op: Op, pending: Option<Ddl>)
    requires SchemaOp(entry) && SchemaOp(op)
    ensures ConflictsAny(entry, ForOp(op), pending)
  {
    CompareSelf(GLOBAL_SCHEMA_VERSION);
    TrackedKeys();
    assert Conflicts(entry, ForOp(op)[0], pending);
  }

  // ---- What an entry that passed the check can still change ---------------------------------

  predicate InRange(range: Range, cell: Cell) {
    cell.table == range.table && Contains(range, cell.key)
  }

  /** The two catalogs agree on every row in the range. */
  ghost predicate AgreeOn(c: Catalog, c': Catalog, range: Range) {
    forall cell :: InRange(range, cell) ==> Lookup(c, cell) == Lookup(c', cell)
  }

  predicate DeletesAll(op: Op, t: TableId) {
    match op
    case DmlOp(d) => d == DeleteAll(t)
    case BatchDml(ds) => DeleteAll(t) in ds
    case _ => false
  }

  /** Entries that change a row of the range without conflicting with it, besides which there are
      none: a delete without a filter on the range's table, and entries whose footprint meets the
      range. */
  ghost predicate Overlooked(op: Op, range: Range, at: Underway) {
    || (DeletesAll(op, range.table) && exists k :: Contains(range, k))
    || (exists cell :: InRange(range, cell) && Touches(op, at, cell))
  }

  lemma {:induction false} BatchStays(ds: seq<Dml>, cell: Cell, before: Option<Value>)
    requires forall i :: 0 <= i < |ds| ==> Cell(ds[i].table, KeyOf(ds[i])) != cell && ds[i] != DeleteAll(cell.table)
    ensures BatchAfter(ds, cell, before) == before
    decreases |ds|
  {
    if ds != [] {
      assert Cell(ds[0].table, KeyOf(ds[0])) != cell && ds[0] != DeleteAll(cell.table);
      BatchStays(ds[1..], cell, before);
    }
  }

  /** A schema or plugin entry that conflicts with no range has no tracked property in it. */
  lemma PassedIsUntracked(op: Op, range: Range, pending: Option<Ddl>, cell: Cell)
    requires !Conflicts(op, range, pending) && InRange(range, cell)
    ensures !Tracked(op, cell)
  {
  }

  lemma PassedEntryKeepsCell(c: Catalog, op: Op, range: Range, pending: Option<Ddl>, cell: Cell)
    requires !Conflicts(op, range, pending) && !Overlooked(op, range, UnderwayIn(c)) && InRange(range, cell)
    ensures After(c, op, cell) == Lookup(c, cell)
  {
    assert Contains(range, cell.key);
    match op {
      case Nop =>
      case DmlOp(d) =>
      case BatchDml(ds) =>
        forall i | 0 <= i < |ds| ensures Cell(ds[i].table, KeyOf(ds[i])) != cell && ds[i] != DeleteAll(cell.table) {
          assert !DmlConflicts(ds[i], range);
        }
        BatchStays(ds, cell, Lookup(c, cell));
      case _ =>
        PassedIsUntracked(op, range, pending, cell);
        UntouchedStays(c, op, cell);
    }
  }

  /** An entry that passed the check and is not one of the overlooked kinds leaves every row of
      the range as it was. */
  lemma PassedEntryKeepsRange(c: Catalog, op: Op, range: Range, pending: Option<Ddl>)
    requires !Conflicts(op, range, pending)
    requires !Overlooked(op, range, UnderwayIn(c))
    ensures AgreeOn(c, Apply(c, op), range)
  {
    forall cell | InRange(range, cell) ensures Lookup(c, cell) == Lookup(Apply(c, op), cell) {
      ApplyIsAfter(c, op, cell);
      PassedEntryKeepsCell(c, op, range, pending, cell);
    }
  }

  lemma {:induction false} BatchClears(ds: seq<Dml>, cell: Cell, before: Option<Value>)
    requires DeleteAll(cell.table) in ds
    requires forall i :: 0 <= i < |ds| ==> Cell(ds[i].table, KeyOf(ds[i])) != cell
    ensures BatchAfter(ds, cell, before) == None
    decreases |ds|
  {
    assert Cell(ds[0].table, KeyOf(ds[0])) != cell;
    if ds[0] == DeleteAll(cell.table) {
      BatchFromNothing(ds[1..], cell);
    } else {
      BatchClears(ds[1..], cell, before);
    }
  }

  /** Some row of the range changes when `op` is applied where `at` is under way. */
  ghost predicate ChangesSomewhere(op: Op, range: Range, at: Underway) {
    exists c :: UnderwayIn(c) == at && !AgreeOn(c, Apply(c, op), range)
  }

  lemma Changes(c: Catalog, op: Op, range: Range, cell: Cell)
    requires InRange(range, cell) && After(c, op, cell) != Lookup(c, cell)
    ensures ChangesSomewhere(op, range, UnderwayIn(c))
  {
    ApplyIsAfter(c, op, cell);
    assert !AgreeOn(c, Apply(c, op), range);
  }

  lemma DeleteAllChanges(op: Op, range: Range, pending: Option<Ddl>, at: Underway, k: Key)
    requires !Conflicts(op, range, pending) && DeletesAll(op, range.table) && Contains(range, k)
    ensures ChangesSomewhere(op, range, at)
  {
    var cell := Cell(range.table, k);
    var c := WitnessRow(at, cell);
    if op.BatchDml? {
      forall i | 0 <= i < |op.ops| ensures Cell(op.ops[i].table, KeyOf(op.ops[i])) != cell {
        assert !DmlConflicts(op.ops[i], range);
      }
      BatchClears(op.ops, cell, Lookup(c, cell));
    }
    Changes(c, op, range, cell);
  }

  /** Exactly when passing the check means that a range keeps its rows: the entry is not one of
      the overlooked kinds. */
  lemma CheckIsExactUpToOverlooked(op: Op, range: Range, pending: Option<Ddl>, at: Underway)
    requires !Conflicts(op, range, pending)
    ensures ChangesSomewhere(op, range, at) <==> Overlooked(op, range, at)
  {
    if DeletesAll(op, range.table) && exists k :: Contains(range, k) {
      var k :| Contains(range, k);
      DeleteAllChanges(op, range, pending, at, k);
    } else if Overlooked(op, range, at) {
      var cell :| InRange(range, cell) && Touches(op, at, cell);
      PassedIsUntracked(op, range, pending, cell);
      var c := TouchedCanChange(op, at, cell);
      Changes(c, op, range, cell);
    } else {
      forall c | UnderwayIn(c) == at ensures AgreeOn(c, Apply(c, op), range) {
        PassedEntryKeepsRange(c, op, range, pending);
      }
    }
  }

  /** For a range of a user table, only a delete without a filter and the commit of a drop or
      truncation of that table are overlooked. */
  lemma OverlookedOnUserTable(op: Op, range: Range, at: Underway)
    requires !IsSystemTable(range.table)
    ensures Overlooked(op, range, at) <==>
            (exists k :: Contains(range, k)) &&
            (DeletesAll(op, range.table)
             || (op.DdlCommit? && at.change.Some? && Cleared(at.change.value, true) == Some(range.table)))
  {
    if op.DdlCommit? && at.change.Some? && Cleared(at.change.value, true) == Some(range.table) {
      forall k | Contains(range, k) ensures Overlooked(op, range, at) {
        assert InRange(range, Cell(range.table, k)) && Touches(op, at, Cell(range.table, k));
      }
    }
  }

  /** Every row that a DML operation changes lies in its implicit range. */
  lemma DmlChangesOwnRange(d: Dml, cell: Cell, before: Option<Value>)
    requires DmlAfter(d, cell, before) != before
    ensures InRange(ForDml(d), cell)
  {
    CompareSelf(cell.key);
  }

  lemma OpChangesOwnRanges(c: Catalog, op: Op, cell: Cell)
    requires op.DmlOp? || op.BatchDml?
    requires Lookup(c, cell) != Lookup(Apply(c, op), cell)
    ensures exists i :: 0 <= i < |ForOp(op)| && InRange(ForOp(op)[i], cell)
  {
    ApplyIsAfter(c, op, cell);
    match op {
      case DmlOp(d) =>
        DmlChangesOwnRange(d, cell, Lookup(c, cell));
        assert InRange(ForOp(op)[0], cell);
      case BatchDml(ds) =>
        if forall i :: 0 <= i < |ds| ==> !InRange(ForOp(op)[i], cell) {
          forall i | 0 <= i < |ds| ensures Cell(ds[i].table, KeyOf(ds[i])) != cell && ds[i] != DeleteAll(cell.table) {
            CompareSelf(cell.key);
            assert !InRange(ForOp(op)[i], cell);
          }
          BatchStays(ds, cell, Lookup(c, cell));
        }
    }
  }
}
