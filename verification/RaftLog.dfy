/**
 The raft log and the catalog replayed from it, beginning with the catalog that bootstrap leaves.
 The entry with raft index `i` is `log[i - 1]`, so `log[..i]` is the log up to and including
 index `i`. Indexes count from the end of bootstrap.
 */
module RaftLog {
  import opened Options
  import opened Catalog
  import opened CasPredicate

  /** How an entry came to be proposed; not part of the entry in the source.
      `index` and `ranges` are the request's predicate with the implicit ranges added, `applied`
      the leader's applied index when it checked the request, and `readAt` the index of the state
      from which the proposer computed the operation. */
  datatype Origin = Origin(index: nat, ranges: seq<Range>, applied: nat, readAt: nat)

  /** An entry without an operation is a configuration change or an empty entry of a new leader. */
  datatype Entry = Entry(term: nat, op: Option<Op>, origin: Option<Origin>)

  type Log = seq<Entry>

  function ApplyEntry(c: Catalog, e: Entry): Catalog {
    if e.op.Some? then Apply(c, e.op.value) else c
  }

  function Replay(log: Log): Catalog {
    if log == [] then INITIAL else ApplyEntry(Replay(log[..|log| - 1]), log[|log| - 1])
  }

  lemma ReplayStep(log: Log, i: nat)
    requires i < |log|
    ensures Replay(log[..i + 1]) == ApplyEntry(Replay(log[..i]), log[i])
  {
    assert log[..i + 1][..i] == log[..i];
  }

  predicate EntryConflicts(e: Entry, ranges: seq<Range>, pending: Option<Ddl>) {
    e.op.Some? && ConflictsAny(e.op.value, ranges, pending)
  }

  predicate TermsGrow(log: Log) {
    forall i, j :: 0 <= i <= j < |log| ==> log[i].term <= log[j].term
  }

  /** The term of the entry at a raft index, 0 when there is none. */
  function TermAt(log: Log, index: nat): nat {
    if 1 <= index <= |log| then log[index - 1].term else 0
  }
}
