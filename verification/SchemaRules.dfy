/**
 Two rules of schema changes (src/schema.rs): the choice of an id for a new table, and the
 columns that a unique index of a sharded table must have.
 */
module SchemaRules {
  import opened Options

  // ---- Table ids ---------------------------------------------------------------------------

  const ID_RANGE_MIN: nat := 1025
  const ID_RANGE_MAX: nat := 0x4000_0000

  /** The ids of `_space` in the order of its primary index. */
  predicate IsIndex(ids: seq<nat>) {
    forall i, j :: 0 <= i < j < |ids| ==> ids[i] < ids[j]
  }

  /** Everything from `from` up to `id` is used, and `id` is not. */
  predicate LeastUnused(ids: seq<nat>, from: nat, id: nat) {
    from <= id && id !in ids && forall k :: from <= k < id ==> k in ids
  }

  /** The closure `find_next_unused_id`: walks the ids that are at least `start`. */
  method FindNextUnusedId(ids: seq<nat>, start: nat) returns (next: nat)
    requires IsIndex(ids)
    ensures LeastUnused(ids, start, next)
  {
    var first := 0;
    while first < |ids| && ids[first] < start
      invariant first <= |ids| && forall k :: 0 <= k < first ==> ids[k] < start
    {
      first := first + 1;
    }
    next := start;
    for i := first to |ids|
      invariant start <= next
      invariant forall k :: 0 <= k < i ==> ids[k] < next
      invariant forall k :: i <= k < |ids| ==> next <= ids[k]
      invariant forall k :: start <= k < next ==> k in ids
    {
      if ids[i] != next {
        return;
      }
      next := next + 1;
    }
  }

  /** The greatest used id below the range of temporary tables. */
  method MaxIdBelow(ids: seq<nat>, bound: nat) returns (id: nat)
    requires IsIndex(ids) && exists k :: 0 <= k < |ids| && ids[k] < bound
    ensures id in ids && id < bound && forall k :: k in ids && k < bound ==> k <= id
  {
    var i := |ids| - 1;
    while ids[i] >= bound
      invariant 0 <= i < |ids|
      invariant forall k :: i < k < |ids| ==> ids[k] >= bound
      invariant exists k :: 0 <= k <= i && ids[k] < bound
      decreases i
    {
      i := i - 1;
    }
    id := ids[i];
  }

  /** `choose_table_id` without a governor operation. There is always some system table, which the
      source relies on. The result is the first free id at or after the greatest used one; when there
      is none before the temporary range, the first free id of the whole range; and `None`, the
      limit error, exactly when the range is full. */
  method ChooseTableId(ids: seq<nat>) returns (r: Option<nat>)
    requires IsIndex(ids) && exists k :: 0 <= k < |ids| && ids[k] < ID_RANGE_MAX
    ensures r.Some? ==> ID_RANGE_MIN <= r.value < ID_RANGE_MAX && r.value !in ids
    ensures r.None? <==> forall k :: ID_RANGE_MIN <= k < ID_RANGE_MAX ==> k in ids
    ensures r.Some? && (exists k :: ID_RANGE_MIN <= k < ID_RANGE_MAX && k !in ids
                                    && forall u :: u in ids && u < ID_RANGE_MAX ==> u < k) ==>
              forall u :: u in ids && u < ID_RANGE_MAX ==> u < r.value
  {
    var maxId := MaxIdBelow(ids, ID_RANGE_MAX);
    ghost var greatest := maxId;
    if maxId < ID_RANGE_MIN {
      maxId := ID_RANGE_MIN;
    }
    var id := FindNextUnusedId(ids, maxId);
    if id >= ID_RANGE_MAX {
      id := FindNextUnusedId(ids, ID_RANGE_MIN);
      if id >= ID_RANGE_MAX {
        return None;
      }
    } else {
      assert id != greatest;
    }
    r := Some(id);
  }

  // ---- Unique indexes of sharded tables -------------------------------------------------------

  type Column = string

  /** A row of values, where `None` is NULL. */
  type Row = map<Column, Option<int>>

  /** The check of `CreateIndexParams::validate` for an explicit `Unique(true)` on an implicitly sharded
      table: the sharding key is a prefix of the index columns. */
  method UniqueIndexAllowed(shardingKey: seq<Column>, columns: seq<Column>) returns (ok: bool)
    ensures ok <==> shardingKey <= columns
  {
    if |shardingKey| > |columns| {
      return false;
    }
    for i := 0 to |shardingKey|
      invariant shardingKey[..i] == columns[..i]
    {
      if shardingKey[i] != columns[i] {
        assert shardingKey[i] != columns[..|shardingKey|][i];
        return false;
      }
      assert shardingKey[..i + 1] == shardingKey[..i] + [shardingKey[i]];
      assert columns[..i + 1] == columns[..i] + [columns[i]];
    }
    assert shardingKey[..|shardingKey|] == shardingKey;
    ok := true;
  }

  ghost predicate HasColumns(rows: seq<Row>, columns: seq<Column>) {
    forall i, c :: 0 <= i < |rows| && c in columns ==> c in rows[i]
  }

  function Project(row: Row, columns: seq<Column>): seq<Option<int>>
    requires forall c :: c in columns ==> c in row
  {
    seq(|columns|, i requires 0 <= i < |columns| => row[columns[i]])
  }

  /** A unique index rejects two rows with the same values, unless one of the values is NULL. */
  predicate Clash(row: Row, row': Row, columns: seq<Column>)
    requires forall c :: c in columns ==> c in row && c in row'
  {
    Project(row, columns) == Project(row', columns) && forall i :: 0 <= i < |columns| ==> row[columns[i]].Some?
  }

  /** Rows in the same replicaset do not clash on the index columns; `place` maps the values of the sharding
      key to a replicaset, through whatever bucket. */
  ghost predicate LocallyUnique(place: seq<Option<int>> -> nat, shardingKey: seq<Column>, columns: seq<Column>,
                                rows: seq<Row>)
  {
    && HasColumns(rows, shardingKey) && HasColumns(rows, columns)
    && forall i, j :: 0 <= i < j < |rows| ==>
         place(Project(rows[i], shardingKey)) == place(Project(rows[j], shardingKey)) ==>
           !Clash(rows[i], rows[j], columns)
  }

  ghost predicate GloballyUnique(columns: seq<Column>, rows: seq<Row>)
    requires HasColumns(rows, columns)
  {
    forall i, j :: 0 <= i < j < |rows| ==> !Clash(rows[i], rows[j], columns)
  }

  /** Whatever the sharding function, the placement and the rows: uniqueness within each replicaset
      means uniqueness in the whole table. */
  ghost predicate LocalMeansGlobal(shardingKey: seq<Column>, columns: seq<Column>) {
    forall place, rows :: LocallyUnique(place, shardingKey, columns, rows) ==> GloballyUnique(columns, rows)
  }

  ghost predicate Covers(columns: seq<Column>, shardingKey: seq<Column>) {
    forall c :: c in shardingKey ==> c in columns
  }

  lemma SameColumnsSameShard(row: Row, row': Row, shardingKey: seq<Column>, columns: seq<Column>)
    requires Covers(columns, shardingKey)
    requires forall c :: c in columns ==> c in row && c in row'
    requires Project(row, columns) == Project(row', columns)
    ensures Project(row, shardingKey) == Project(row', shardingKey)
  {
    forall k | 0 <= k < |shardingKey| ensures row[shardingKey[k]] == row'[shardingKey[k]] {
      assert shardingKey[k] in columns;
      var l :| 0 <= l < |columns| && columns[l] == shardingKey[k];
      assert Project(row, columns)[l] == Project(row', columns)[l];
    }
  }

  lemma CoveredIsGlobal(shardingKey: seq<Column>, columns: seq<Column>)
    requires Covers(columns, shardingKey)
    ensures LocalMeansGlobal(shardingKey, columns)
  {
    forall place, rows | LocallyUnique(place, shardingKey, columns, rows) ensures GloballyUnique(columns, rows) {
      forall i, j | 0 <= i < j < |rows| ensures !Clash(rows[i], rows[j], columns) {
        if Clash(rows[i], rows[j], columns) {
          SameColumnsSameShard(rows[i], rows[j], shardingKey, columns);
        }
      }
    }
  }

  /** The row with every listed column zero, except that `special` is `value`. */
  function Sample(all: seq<Column>, special: Column, value: int): Row {
    map c | c in all :: Some(if c == special then value else 0)
  }

  lemma UncoveredIsNotGlobal(shardingKey: seq<Column>, columns: seq<Column>, special: Column)
    requires special in shardingKey && special !in columns
    ensures !LocalMeansGlobal(shardingKey, columns)
  {
    var all := shardingKey + columns;
    var a, b := Sample(all, special, 0), Sample(all, special, 1);
    var rows := [a, b];
    var k :| 0 <= k < |shardingKey| && shardingKey[k] == special;
    var place: seq<Option<int>> -> nat := s => if k < |s| && s[k] == Some(0) then 0 else 1;
    assert Project(a, columns) == Project(b, columns) && Clash(a, b, columns);
    assert place(Project(a, shardingKey)) != place(Project(b, shardingKey));
    assert LocallyUnique(place, shardingKey, columns, rows);
    assert !GloballyUnique(columns, rows) by {
      assert rows[0] == a && rows[1] == b;
    }
  }

  /** Uniqueness in every replicaset implies uniqueness of the table exactly when the index columns
      include the sharding key. */
  lemma LocalMeansGlobalIff(shardingKey: seq<Column>, columns: seq<Column>)
    ensures LocalMeansGlobal(shardingKey, columns) <==> Covers(columns, shardingKey)
  {
    if Covers(columns, shardingKey) {
      CoveredIsGlobal(shardingKey, columns);
    } else {
      var special :| special in shardingKey && special !in columns;
      UncoveredIsNotGlobal(shardingKey, columns, special);
    }
  }

  /** Every unique index that the check allows is unique in the whole table. */
  lemma AllowedUniqueIndexIsGlobal(shardingKey: seq<Column>, columns: seq<Column>)
    requires shardingKey <= columns
    ensures LocalMeansGlobal(shardingKey, columns)
  {
    forall c | c in shardingKey ensures c in columns {
      var k :| 0 <= k < |shardingKey| && shardingKey[k] == c;
      assert columns[k] == c;
    }
    CoveredIsGlobal(shardingKey, columns);
  }
}
