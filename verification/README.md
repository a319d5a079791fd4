# Coordination core of Picodata, modelled in Dafny

Picodata is a cluster of Tarantool instances that share a catalog through a raft log. This
project models how such a cluster comes up, how its members change the shared catalog
without overwriting each other, and how they notice that one of them has failed. It proves
what these mechanisms guarantee over whole runs, and where they fall short of it.

| file | what it models |
|---|---|
| `Discovery.dfy` | one instance during bootstrap discovery: the class with the source's fields and its handlers |
| `DiscoveryProtocol.dfy` | all instances and the network; the invariant of every run |
| `DiscoveryAgreement.dfy` | leaders and their electorates; conditions for one leader |
| `DiscoveryKnowledge.dfy` | how addresses spread in a run, and what two leaders say about the configuration |
| `DiscoveryTours.dfy` | construction of runs: an instance tours an electorate and wins |
| `DiscoveryScouting.dfy` | construction of runs: an instance tours before it hears of its own address |
| `DiscoverySplit.dfy` | runs with two leaders, and the exact condition for one leader |
| `Catalog.dfy` | raft operations, what each makes of every row of the replicated catalog, and the rows of a new cluster |
| `DdlEffects.dfy` | whole schema changes: commit completes them, abort undoes them |
| `Footprints.dfy` | exactly which rows an operation other than DML can change |
| `CasPredicate.dfy` | key ranges, the conflict check, and exactly what the check overlooks |
| `RaftLog.dfy` | the log and the catalog replayed from it |
| `CasLeader.dfy` | compare-and-swap on the raft leader |
| `CasRuns.dfy` | runs of a cluster; serialisability |
| `SchemaWindows.dfy` | windows between a predicate index and a schema entry |
| `RoleLoops.dfy` | the loop check on role grants |
| `RoleRuns.dfy` | the role graph over whole runs |
| `DdlBrackets.dfy` | brackets of schema changes over whole runs, and exactly which DML breaks them |
| `DdlRuns.dfy` | DML against schema changes, and unseen commits, over whole runs |
| `SchemaRules.dfy` | choice of table ids, and the rule for unique indexes of sharded tables |
| `Reachability.dfy` | failure detector: history, verdict, heartbeat backoff |
| `Sentinel.dfy` | retry control of an instance that wants to be online again |
| `Addresses.dfy` | parsing and printing of listen addresses |
| `Options.dfy` | `Option`, facts about sets, minimum and powers of two |

`dafny verify dfyconfig.toml` checks everything.

## Reading the model

**Runs.** A run is a sequence of steps folded over a start state; a step that is not enabled
does nothing. Theorems about runs quantify over all such sequences.

**Discovery.** Messages are only added to the network and may be handled at any time, any
number of times, or never. This covers delay, reordering, duplication and loss. An address
is its rank in byte order. The history variable `last` keeps the election data that `Done`
drops; no step reads it.

**Catalog.** The catalog is the rows of all tables, system tables included. Operable flags and
role grants are read off the rows of `_pico_table` and `_pico_privilege`, so that what keeps
DML away from them is the check of prohibited tables and nothing else. A log is replayed from the
catalog of a new cluster: the definitions of the system tables, the built-in users and roles, and their
role grants. Log indexes count from the end of bootstrap. A table, user, role or procedure exists on a node
when its catalog row does; requests about objects that do not exist there are refused. Of the triggers
that Tarantool fires for DML, that of `_pico_property` is modelled: it checks the type of built-in
properties and keeps some of them from being deleted.

**Compare-and-swap.** Keys are sequences of parts, each its rank in the order of its type.
It is an assumption about Tarantool that a part missing from a key compares below any other part.
The comparison of an empty key, as which a delete without a filter is checked, depends on it.
Every entry records its `Origin`: the predicate it was accepted with, the applied index
of the leader that checked it, and the index of the state that its proposer read. The source
does not store it; it only lets theorems talk about the request behind an entry.
Between leaders, the model relies on the Log Matching Property (section 5.3 of the Raft paper
by Ongaro and Ousterhout): replication and truncation leave a node with a prefix of some log.

**Panics.** The panic on an instance with two addresses, and the `unreachable!` of
`wait_for_ddl_commit`, are result values that are proved not to occur. A commit or abort
without a pending change, on which the source panics when applying it, changes nothing. One without a
pending version, on which it panics too, finishes the change and keeps the global version. DML whose new
value the trigger of `_pico_property` refuses when it is applied, where the source stops, does not write it.

**Time.** Clock readings are parameters, in nanoseconds.

## What does not hold

The lemmas named give a run or an input for which the property fails, the exact condition under
which it holds, or both.

- *One leader.* Two instances can both become bootstrap leader although all their peer lists
  overlap (`UnlistedVoterSplits`). `AgreementIffUndivided` gives the exact condition, for every configuration:
  there are two leaders in some run if and only if there are two closed sets of addresses, each with
  a first voter that is on a list within it, the second of which is not in the first set, such that each of
  the two voters could know part of what the sets share before hearing of its own address, and
  these parts cover it. What could be known is decided by peer lists alone (`Scouts`). When every listed
  voter finds itself by following peer lists from its own, this means that two electorates have no
  address in common (`AgreementIffElectoratesMeet`).
- *Conflict check.* Some entries change rows of a range without conflicting with it, and
  `CheckIsExactUpToOverlooked` says exactly which: a delete without a filter, which is checked under the
  empty key; and every schema, access-control or plugin entry whose footprint meets the range. The
  footprint is the definitions of tables, indexes and procedures, users, privileges, audit settings,
  the governor queue, the plugin tables, the time stamp of a backup, and the whole table
  when a drop or truncation is committed. For ranges of user tables only the first and the last of these
  remain (`OverlookedOnUserTable`). `FullDeletePasses` is a run in which an accepted request reads a row that is
  gone.
- *Unseen commits.* A commit is checked against the change pending in the leader's storage, not
  at its place in the log. A finished change goes unseen exactly when its prepare stands before the
  window and the change open at the applied index, if any, is about another table (`UnseenIff`). Unless that one is
  another change of the same table, this means that the leader has applied both ends or neither (`UnseenByPosition`). `AppliedCommitPasses` and `UnappliedCommitPasses` are runs of either kind. A
  leader that has applied exactly the predicate index misses none (`OnlyFullDeletesOverlooked`).
- *Debug assertions.* That every entry visited is of the current term fails when the predicate index
  is not persisted yet and the loop starts at an older term (`UnpersistedPredicateVisitsOldTerm`,
  `DebugAssertsHoldIff`).
- *Role loops.* Accepted grants are safe exactly when the leader has applied the predicate index
  (`GrantsAreSafeIff`). For any smaller applied index there is a run that ends in a loop.
- *DML against schema changes.* Accepted DML keeps clear of schema changes of its table exactly when
  the leader has applied the predicate index, or has applied too little to know the table, or the table admits no
  DML (`DmlIsIsolatedIff`). A table that is not built in is known after two entries at the earliest, its
  prepare and its commit.
- *Operable tables.* Preparing a backup makes all tables without a built-in definition inoperable, without
  conflicting with DML on them (`OperableKeptIff`, and the run `BackupOvertakesDml`).
- *Brackets.* `_pico_property` admits DML, also on the row of the pending change. Its trigger only lets
  schema changes into that row, and does not let all properties be deleted (`RunsStayGuarded`). But a
  delete of the row lets a second change be prepared while the first is open (`RemovedChangeBreaks`), and an
  insert or replace of a change lets one be committed that was never prepared (`InventedChangeBreaks`).
  These are all: for any set of operations on that row, all runs are bracketed exactly when the set has
  none of these kinds (`BracketsIffHarmless`, and for single operations `BracketsIffNoFlip`).
- *Ranges.* A range built from two equal bounds of which one is excluded contains the key
  (`FromPartsMeaning`).
- *History.* While the clock is below the timeout, the pruned history may answer differently from the
  full one: exactly when more than two entries were applied and the first of them at clock zero
  (`PruningIsInvisibleIff`, and the run `PruningShowsAtClockZero`).
- *Unique indexes.* The rule asks for the sharding key as a prefix of the index columns; what is
  needed is only that the columns include it (`LocalMeansGlobalIff`).

## Model

| member | source | states |
|---|---|---|
| Discovery.Discovery.constructor | src/discovery.rs:71-89 | a new instance knows its configured peers, has visited nobody, knows no voter and not its own address |
| Discovery.Discovery.HandleRequest | src/discovery.rs:91-122 | the in-place update has the effect that the run theorems are about, the reply is the state after it, and the only other outcome is the panic on a second address |
| Discovery.Discovery.HandleResponse | src/discovery.rs:124-163 | the in-place update has the effect that the run theorems are about, for all combinations of own and received state |
| Discovery.Discovery.NextOrRolePeers | src/discovery.rs:165-200 | whoever knows a peer always gets somebody to visit, a finished instance gets its role, and the snapshot sent is the current election data |
| Discovery.ProgressMeasure | src/discovery.rs:100-104 | no message increases the pair of unknown and unvisited addresses while electing, and an election answer from an unvisited peer decreases it |
| Discovery.ResetsAreBounded | src/discovery.rs:125-140 | over any sequence of messages the visited set is cleared for new peers at most as often as there are addresses not known at the start |
| DiscoveryProtocol.RunsKeepInv | src/discovery.rs:91-163 | every state of every run satisfies the invariant: every visited peer answered while electing and its answer is contained in what is known, answers of one instance are comparable, voters are known and can vote, named leaders exist |
| DiscoveryProtocol.SendKeepsInv | src/discovery.rs:229-245 | a snapshot put on the network by the message loop keeps the invariant |
| DiscoveryProtocol.DeliverKeepsInv | src/discovery.rs:278-281 | a request handled at its addressee, and the reply put on the network, keep the invariant |
| DiscoveryProtocol.ReceiveKeepsInv | src/discovery.rs:246-249 | an answer handled by the instance that asked keeps the invariant, also when it makes that instance finish |
| DiscoveryAgreement.RunsAreValid | src/discovery.rs:142-160 | in every run: voters are known peers that can vote, there is always a peer to visit, a leader can vote and names its own address, and every other finished instance names one that is leader already |
| DiscoveryAgreement.RunsNeverPanic | src/discovery.rs:110-118 | in every run no request that can arrive reaches the panic about a second address |
| DiscoveryAgreement.LeaderHasElectorate | src/discovery.rs:142-152 | the peers known to a leader are closed under peer lists, all of them answered it, and its own address is among them |
| DiscoveryAgreement.KnownVoterIsNotSmaller | src/discovery.rs:143-145 | a leader that knows another leader has the smaller address |
| DiscoveryAgreement.SharedPeerTells | src/discovery.rs:100-108 | if two leaders share a peer, each has heard of the other |
| DiscoveryAgreement.SplitNeedsStrayLeader | src/discovery.rs:91-163 | in every run two leaders have disjoint electorates, or one of them is a stray with respect to the electorate of the other |
| DiscoveryAgreement.AtMostOneLeader | src/discovery.rs:91-163 | if any two electorates meet and no listed voter is a stray, no run has two leaders |
| DiscoveryAgreement.FinishedInstancesAgree | src/discovery.rs:154-160 | under the same condition all finished instances of a run name the same leader |
| DiscoveryAgreement.CommonSeedMeets | src/discovery.rs:351-385 | one address in every peer list is enough for any two electorates to meet |
| DiscoveryKnowledge.RunsKeepKnowledge | src/discovery.rs:91-163 | in every run, what an instance knows, sends or answers can be built up from any part of it by peer lists within it, and every answer contains such knowledge of the instance that asked |
| DiscoveryKnowledge.LeaderIsContender | src/discovery.rs:142-152 | a leader is the first voter of a closed set and on a peer list within the set |
| DiscoveryKnowledge.FirstAsker | src/discovery.rs:91-108 | of two leaders that share a peer, one asked it knowing only addresses that both ended up with |
| DiscoveryKnowledge.TwoLeadersDivide | src/discovery.rs:91-163 | a run with two leaders means that the configuration is divided |
| DiscoveryTours.DriveToLeader | src/discovery.rs:229-261 | from any state in which an electorate has kept to itself, some continuation makes its first voter leader, if that voter has heard of its address, and leaves everybody outside untouched, and also those whose answers the voter holds already |
| DiscoveryScouting.Spread | src/discovery.rs:91-122 | by requests alone, the peer lists within a closed set come to everybody in it to whom they can come |
| DiscoveryScouting.Scout | src/discovery.rs:124-163 | an instance can get answers from all it can scout without hearing of its own address |
| DiscoverySplit.RivalsSplit | src/discovery.rs:91-163 | in a divided configuration both rivals become leader in some run |
| DiscoverySplit.AgreementIffUndivided | src/discovery.rs:91-163 | for every configuration, all runs have at most one leader if and only if the configuration is not divided |
| DiscoverySplit.FinishedAgreeIffUndivided | src/discovery.rs:154-160 | for every configuration, all finished instances of all runs name the same leader if and only if the configuration is not divided |
| DiscoverySplit.DisjointElectoratesSplit | src/discovery.rs:91-163 | two electorates without a common address elect two leaders in some run |
| DiscoverySplit.AgreementIffElectoratesMeet | src/discovery.rs:91-163 | when listed voters find themselves, all runs have at most one leader if and only if any two electorates meet |
| DiscoverySplit.StraySplits | src/discovery.rs:91-163 | such a stray and the first voter of the other electorate both become leader in some run, when the electorates share only what the stray reaches from its peer list |
| DiscoverySplit.UnlistedVoterSplits | src/discovery.rs:91-163 | a configuration of three instances whose electorates all meet, and a run of it with two leaders |
| Catalog.InitialRows | src/schema.rs:188-247 | a new cluster has exactly the built-in tables, users, roles and role grants, all tables operable, and of the properties those that cannot be deleted |
| Catalog.GrantIsRow | src/access_control.rs:411-426 | a role grant is exactly a row of the privilege table with the right type, a non-negative id and the execute privilege |
| DdlEffects.SchemaVersions | src/traft/node.rs:1740-1760 | after a commit or abort nothing is pending, only a commit moves the global schema version, and both move the next one |
| DdlEffects.AbortUndoesPrepareIff | src/traft/node.rs:1793-1928 | prepare followed by abort restores a definition or privilege if and only if it was undoable: absent for a new object, operable with the remembered content for an existing one |
| DdlEffects.CommitCompletes | src/traft/node.rs:1462-1738 | prepare followed by commit leaves tables, indexes and procedures operable with their new content, or gone with their indexes and privileges, dropped and truncated tables empty, the queued governor operation done, and all other rows as they were |
| DdlEffects.DroppedPluginIsGone | src/traft/node.rs:2005-2031 | dropping a disabled plugin leaves no plugin, no service, and only configuration that belonged to no service |
| Footprints.FootprintIsExact | src/traft/node.rs:1383-2245 | a schema, access-control or plugin operation changes a row in some catalog if and only if the row is in its footprint, tracked properties aside |
| CasPredicate.CompareMeaning | src/cas.rs:1120-1142 | comparison with a bound is equality exactly when the bound is a prefix of the key, and otherwise decided by the first part that differs, a missing part being lowest |
| CasPredicate.FromPartsMeaning | src/cas.rs:1048-1069 | a range built from bounds contains every key within them, and no other key unless the bounds are equal and one is excluded |
| CasPredicate.CheckPredicate | src/cas.rs:782-859 | the loops over ranges, batched operations and property keys report a conflict exactly when some range conflicts with the entry |
| CasPredicate.SchemaOpsExclude | src/cas.rs:830-841 | any schema or access-control entry conflicts with the implicit range of any other one |
| CasPredicate.PassedEntryKeepsRange | src/cas.rs:782-859 | an entry that conflicts with no range and is not overlooked leaves every row of the range as it was |
| CasPredicate.DeleteAllChanges | src/cas.rs:788-796 | a delete without a filter that passed the check of a range with keys changes a row of it in some catalog |
| CasPredicate.CheckIsExactUpToOverlooked | src/cas.rs:782-859 | for ranges of every table: an entry that passed the check changes a row of the range in some catalog if and only if it is a delete without a filter or its footprint meets the range |
| CasPredicate.OverlookedOnUserTable | src/cas.rs:788-810 | for a range of a table that is not a system table the overlooked entries are exactly deletes without a filter and commits of a drop or truncation of that table |
| CasPredicate.DmlChangesOwnRange | src/cas.rs:1003-1017 | every row that a DML operation changes lies in its implicit range |
| CasPredicate.OpChangesOwnRanges | src/cas.rs:1019-1045 | every row that a single or batched DML operation changes lies in one of its implicit ranges |
| CasLeader.Node.CheckEntries | src/cas.rs:466-471 | a loop over part of the log reports its first conflicting entry, or none of them conflicts |
| CasLeader.Node.CheckOp | src/cas.rs:412-427 | the first prohibited or inoperable table of the operation decides the error |
| CasLeader.Node.CheckAccess | src/access_control.rs:214-794 | whoever asks, the operation is refused exactly when it is about a system table, a service user, the role `public` or the universe in a way open to nobody, or when a table, index, user, role or procedure it is about does not exist on the leader, or a role is where a user should be |
| CasLeader.Node.CheckPersisted | src/cas.rs:459-472 | the loop over persisted entries reports the first conflict after the predicate index, or there is none in that part, and the part is never incomplete |
| CasLeader.Node.CheckUnstable | src/cas.rs:474-490 | the loop over the rest of the log reports the first conflict in it, or there is none |
| CasLeader.Node.CheckWindow | src/cas.rs:405-490 | the two loops together find the first conflict after the predicate index, wherever persistence ends |
| CasLeader.Node.EarlyChecks | src/cas.rs:329-427 | the error that comes first in the order of the checks is returned, with the loop check standing for reachability in the role graph |
| CasLeader.Node.DoBatch | src/cas.rs:517-530 | the dry run does the operations one after the other on a copy, fails at the first duplicate key, missing table or refusal of the trigger of `_pico_property`, and counts the new tuples |
| CasLeader.Node.DoPreliminary | src/cas.rs:492-536 | the row count of the response, unless an operation of the dry run fails or a rule about system users and roles is violated |
| CasLeader.Node.CompareAndSwap | src/cas.rs:323-559 | the request is appended at the end of the log in the current term exactly when every check passes and nothing in the window conflicts, the log is otherwise unchanged, and the node's contract with raft survives |
| CasLeader.AcceptedWindow | src/cas.rs:359-490 | on acceptance every entry after the predicate index was checked, none had been compacted, and all are of the current term |
| CasLeader.DebugAssertsHoldIff | src/cas.rs:466-481 | the debug assertions of both loops hold if and only if the first entry visited is of the current term, which is so whenever the predicate index is persisted |
| CasLeader.UnpersistedPredicateVisitsOldTerm | src/cas.rs:474-481 | an accepted request with an unpersisted predicate index for which the assertion fails |
| CasLeader.ReportedConflict | src/cas.rs:459-490 | the reported index is the first conflicting entry after the predicate index when that index is persisted |
| CasRuns.AcceptedIsCertified | src/cas.rs:429-541 | an accepted entry carries a certificate: its storage checks held at the leader's applied index, and nothing between the predicate index and it conflicts |
| CasRuns.RunsKeepLogInv | src/cas.rs:429-541 | in every run every entry of every node's log has a valid certificate on that log |
| CasRuns.WindowKeepsRange | src/cas.rs:459-490 | from the predicate index up to the entry the rows of each checked range do not change, overlooked entries aside |
| CasRuns.OwnRowsAreCurrent | src/cas.rs:429-431 | every row that a DML entry changes was the same at the predicate index and just before the entry |
| CasRuns.Serialisable | src/cas.rs:429-541 | in every run and log, each accepted request finds in its ranges at its own place what it read at its predicate index, and its DML has the same result there |
| CasRuns.FullDeletePasses | src/cas.rs:788-806 | a run on a created table in which an update of a row is accepted although a delete without a filter removed the row after the predicate index |
| CasRuns.AppliedCommitPasses | src/cas.rs:1249-1259 | a run on a created table in which an update is accepted although a truncation removed its row, and the leader had applied the commit |
| CasRuns.UnappliedCommitPasses | src/cas.rs:1249-1259 | the same with a leader that had applied neither the prepare nor the commit |
| RoleLoops.NewEdgeClosesLoopIff | src/access_control.rs:431-459 | in a graph without loops a new grant closes one exactly when the role is reachable from the grantee |
| RoleLoops.ExistingGrantIsNoLoop | src/access_control.rs:589 | revoking a grant that exists is never rejected as a loop |
| RoleLoops.WalksAreShort | src/access_control.rs:431-448 | without a loop ahead no walk from the grantee is longer than the number of grants |
| RoleLoops.SearchEndsIffNoLoopAhead | src/access_control.rs:436-448 | the search without a visited filter reaches an empty layer exactly when no loop is reachable from the grantee |
| RoleLoops.ScanPrivileges | src/access_control.rs:411-416 | the scan of the privilege table yields exactly the role grants of the catalog |
| RoleLoops.BuildGrantees | src/access_control.rs:411-429 | the map built from the privilege rows holds exactly the role grants |
| RoleLoops.Search | src/access_control.rs:431-448 | the search ends and has visited exactly the nodes reachable from the grantee |
| RoleLoops.DetectRoleGrantCycles | src/access_control.rs:400-462 | a loop is reported exactly when the role is reachable from the grantee |
| SchemaWindows.SchemaWindowIsQuiet | src/cas.rs:1034-1037 | between the predicate index of a schema or access-control entry and the entry there is no other one |
| SchemaWindows.OrdinaryEntryKeepsDefinitions | src/cas.rs:44-76 | on certified logs only schema and access-control entries change the prohibited tables, because DML on them is refused |
| RoleRuns.AclChangesGraph | src/storage/schema.rs:1022-1237 | row by row, access-control operations change the role graph by the edges they are about and no others |
| RoleRuns.AclKeepsAcyclic | src/access_control.rs:450-459 | every access-control operation that passed its check keeps the role graph without loops |
| RoleRuns.RunsKeepRolesAcyclic | src/access_control.rs:400-462 | in every run the role graph replayed from any log has no loop, however the grants were interleaved, if leaders had applied the predicate index |
| RoleRuns.UpToDateGrantIsSafe | src/cas.rs:397-403 | a grant accepted by a leader that has applied the predicate index closes no loop, on every log that a disciplined run produces |
| RoleRuns.InitialIsAcyclic | src/schema.rs:1406-1585 | the role graph of a new cluster is exactly two grants and has no loop |
| RoleRuns.StaleLeaderClosesLoop | src/cas.rs:397-403 | for every applied index below the predicate index, a disciplined run and a leader that accepts a grant between two built-in roles that closes a loop |
| RoleRuns.GrantsAreSafeIff | src/cas.rs:397-403 | for given indexes, all accepted grants of all disciplined runs are safe if and only if the predicate index is applied |
| DdlBrackets.RunsStayGuarded | src/storage.rs:1001-1056 | in every run, every replayed state has a global schema version, and its row of the pending change holds a schema change or nothing |
| DdlBrackets.RunsKeepBrackets | src/schema.rs:2683-2714 | in every run whose DML on the row of the pending change is harmless, schema changes are bracketed in every log: prepare only when none is open, commit or abort only when one is |
| DdlBrackets.BracketsAlternate | src/schema.rs:2666-2671 | prepare and finaliser entries alternate, and each finaliser finishes the prepare before it |
| DdlBrackets.FlipsIff | src/storage.rs:1407-1446 | the kinds of DML singled out are exactly those that in some guarded state are not refused and change whether a change is pending |
| DdlBrackets.RemovedChangeBreaks | src/cas.rs:66-105 | a run in which the row of the pending change is deleted, all proposers keep to the rules, and the log has a prepare inside an open change |
| DdlBrackets.InventedChangeBreaks | src/cas.rs:66-105 | for any insert or replace of a change in that row, such a run with a commit that finishes nothing |
| DdlBrackets.BracketsIffHarmless | src/schema.rs:2683-2714 | for any set of DML operations on the row of the pending change, all runs with no others on it are bracketed if and only if the set is harmless |
| DdlBrackets.BracketsIffNoFlip | src/schema.rs:2683-2714 | for a single operation: if and only if it cannot change whether a change is pending |
| DdlBrackets.WaitForDdlCommit | src/schema.rs:2636-2676 | on a bracketed log the unreachable branch is not reached, the index returned is that of the finaliser of the given prepare, a timeout means none was applied, and compaction is reported exactly when it came first |
| DdlRuns.PendingIsOpenDdl | src/traft/node.rs:1740-1748 | the pending change in the replayed catalog is that of the prepare entry which the log leaves unfinished |
| DdlRuns.OpenIsInoperable | src/traft/node.rs:2257-2560 | on certified logs the table of an open schema change is not operable from prepare to commit or abort |
| DdlRuns.RunsIsolateDml | src/cas.rs:808-810 | in every run no DML entry stands between the prepare of a schema change of its table and the commit or abort, if the leader had applied the predicate index |
| DdlRuns.StaleLeaderAcceptsDml | src/cas.rs:412-422 | for every table that admits DML, and every applied index below the predicate index at which the leader can know the table, a run and a leader that accepts DML on the table while it is being truncated |
| DdlRuns.DmlIsIsolatedIff | src/cas.rs:412-422 | for a given table and given indexes, all accepted DML of all runs keeps clear of open changes of the table if and only if the predicate index is applied, or the applied index is too small to know the table, or the table admits no DML |
| DdlRuns.OperableKeptIff | src/cas.rs:1232-1262 | an entry that conflicts with no range of a table keeps the table operable in all catalogs if and only if it does not start a backup |
| DdlRuns.DmlMeetsOperableTable | src/cas.rs:412-422 | from the leader's check up to its own place in the log, a DML entry has its tables operable, backups aside |
| DdlRuns.BackupOvertakesDml | src/cas.rs:1239 | a run in which an up-to-date leader accepts DML that meets a table closed by a backup |
| DdlRuns.UnseenIff | src/cas.rs:1247-1260 | neither end of a finished change in the window conflicts if and only if its prepare is before the window and the change open at the applied index is about another table |
| DdlRuns.UnseenByPosition | src/cas.rs:1247-1260 | the same by position: if and only if the prepare is before the window and the leader had applied both ends or neither, unless another change of the table was open |
| DdlRuns.UnseenInWindow | src/cas.rs:1247-1260 | on certified logs every finished change in the window of an accepted entry stands in such a place |
| DdlRuns.OnlyFullDeletesOverlooked | src/cas.rs:1247-1260 | when the leader had applied exactly the predicate index, only deletes without a filter are overlooked for ranges of tables that are not system tables |
| SchemaRules.FindNextUnusedId | src/schema.rs:2571-2586 | the least unused id at or after the start |
| SchemaRules.MaxIdBelow | src/schema.rs:2564-2569 | the greatest used id below the temporary range |
| SchemaRules.ChooseTableId | src/schema.rs:2560-2601 | an unused id of the range, above all used ones where there is such an id, and the limit error exactly when the whole range is used |
| SchemaRules.UniqueIndexAllowed | src/schema.rs:2157-2166 | the loop accepts exactly the indexes that have the sharding key as a prefix |
| SchemaRules.AllowedUniqueIndexIsGlobal | src/schema.rs:2156-2166 | for an accepted index, uniqueness in each replicaset means uniqueness of the table, for every sharding function, placement and rows, NULLs included |
| SchemaRules.LocalMeansGlobalIff | src/schema.rs:2156-2166 | that implication holds if and only if the index columns include the sharding key |
| Reachability.InstanceReachabilityManager.constructor | src/reachability.rs:48-55 | a new manager knows no instance and has no history |
| Reachability.InstanceReachabilityManager.CleanupAppliedIndexHistory | src/reachability.rs:434-455 | the loop drops what the pruning of the history theorems drops, and nothing else changes |
| Reachability.InstanceReachabilityManager.OnApplied | src/reachability.rs:390-403 | the applied index is the new one, and the history is the old one with it at the end, pruned |
| Reachability.InstanceReachabilityManager.SinceWeAppliedThis | src/reachability.rs:410-432 | the loop finds the time of the first entry with the index, and tells apart no history, too old and unknown |
| Reachability.InstanceReachabilityManager.CheckReachabilityViaRpc | src/reachability.rs:274-314 | the early returns give the verdict whose meaning `UnreachableIff` states |
| Reachability.InstanceReachabilityManager.CheckReachability | src/reachability.rs:193-268 | the early returns give the verdict whose meaning `UnreachableIff` states |
| Reachability.InstanceReachabilityManager.TakeUnreachablesToReport | src/reachability.rs:151-169 | exactly the unreachable instances that were not reported are returned, and exactly these are marked as reported |
| Reachability.InstanceReachabilityManager.ShouldSendHeartbeatThisTick | src/reachability.rs:324-384 | the decision is the one whose spacing `BackoffDoubles` and `BackoffLevelsOff` state, and the last attempt is always set where it is read |
| Reachability.InstanceReachabilityManager.ReportCommunicationResult | src/reachability.rs:105-147 | only the entry of the instance changes, its streak and applied index follow the result, and entries stay consistent |
| Reachability.ReportKeepsInfoOk | src/reachability.rs:124-135 | a streak always has a start and a last attempt, and the last success is not after the last attempt |
| Reachability.DequeStaysSorted | src/reachability.rs:396-402 | after any events the history is sorted by index and time and its indexes are consecutive |
| Reachability.AppliedIndexIsKnown | src/reachability.rs:423-431 | for an index within the history the age is the exact one, so the fallback for unknown indexes is not taken |
| Reachability.PruningIsInvisibleIff | src/reachability.rs:434-455 | the pruned history answers whether an index is older than the timeout as the full one does, for all indexes, if and only if the clock has reached the timeout, at most two entries were applied, or the first of them at a positive clock |
| Reachability.PruningShowsAtClockZero | src/reachability.rs:434-455 | a run of three applications at clock zero for which the answers differ |
| Reachability.VerdictRefinesFullHistory | src/reachability.rs:242-251 | after any events at positive times the verdict on any instance is that of the full history |
| Reachability.UnreachableIff | src/reachability.rs:193-314 | after any events at positive times an instance is unreachable if and only if it was silent for longer than the timeout, or its replication is broken, or it is stuck at an index whose successor we applied at least a timeout ago |
| Reachability.NextGap | src/reachability.rs:375-381 | after a failed attempt the next permitted one waits longer than the time since the last success, up to five seconds |
| Reachability.BackoffDoubles | src/reachability.rs:360-381 | as long as attempts fail, the distance of the k-th from the last success has grown by two to the k, until five seconds |
| Reachability.BackoffLevelsOff | src/reachability.rs:377-381 | beyond five seconds after the last success, attempts are more than five seconds apart |
| Sentinel.ContinuityTracker.constructor | src/sentinel.rs:449-464 | a new tracker has no action, no success and no streak |
| Sentinel.ContinuityTracker.SetActionKind | src/sentinel.rs:478-499 | a different action drops the streak, the same one keeps it, and before the first action there is neither success nor streak, as the debug assertions say |
| Sentinel.ContinuityTracker.RegisterSuccessfulConnection | src/sentinel.rs:501-505 | a success ends the streak and is remembered with its index and time |
| Sentinel.ContinuityTracker.RegisterFailedAttempt | src/sentinel.rs:507-528 | a failure starts a streak, or continues it if the code is the same |
| Sentinel.StreakClosedForm | src/sentinel.rs:507-528 | after n failures with the same code the multiplier is two to the power n - 1, saturated at 32 bits |
| Sentinel.TimeoutAfterFailures | src/sentinel.rs:575-582 | the timeout after n failures is that of the closed form |
| Sentinel.SaturationInvisibleIff | src/sentinel.rs:575-582 | for a given base, the saturation never shows in a timeout if and only if the base is zero or reaches ten minutes at the saturated multiplier |
| Sentinel.ShortRetryIsIdeal | src/sentinel.rs:37-49 | with the base in use, timeouts follow the doubling sequence up to ten minutes |
| Sentinel.LastSuccessOfRun | src/sentinel.rs:249-312 | in every run the tracker remembers the last registered connection, and nothing before the first action |
| Sentinel.RunRemembers | src/sentinel.rs:249-312 | in every run the streak of the tracker is the longest run of failures with the same code at the end of the requests sent |
| Sentinel.RetriesAreSpaced | src/sentinel.rs:553-573 | in every run the request after n failures in a row with the same code is sent more than the doubled timeout after the last of them |
| Sentinel.BrokenReplicationWaits | src/sentinel.rs:584-592 | in every run requests sent while replication is broken are at least ten minutes after the one before |
| Sentinel.SuccessesAreSpaced | src/sentinel.rs:532-551 | in every run consecutive registered connections have increasing applied indexes or are more than an hour apart |
| Sentinel.BarrierBoundsRequests | src/sentinel.rs:249-312 | in every run the registered connections are at most one more than the growth of the applied index plus the full hours between the first and the last |
| Addresses.SplitLast | src/address.rs:12-16 | splits at the last occurrence of the character, if there is one |
| Addresses.HostPortRoundTrip | src/address.rs:188-202 | what parses prints back to the same text, and exactly the addresses in the parser's image survive printing and parsing |
| Addresses.IprotoRoundTrip | src/address.rs:81-115 | the same for addresses with an optional user |

## Left out

- Raft itself, snapshots and `wait_index`: the contract assumed of the raft library is `RaftContract` and the Log Matching Property.
- `proc_discover` on an initialised node: it answers from later raft leadership, not from the election.
- AgreementIffElectoratesMeet: has the hypothesis that listed voters find themselves; AgreementIffUndivided is the exact condition without it.
- CompareMeaning: that a missing key part compares lowest is an assumption about Tarantool.
- FullDeletePasses: rests on that assumption.
- Serialisable: leaves out overlooked entries by a condition on the log, because the source does let them through; CheckIsExactUpToOverlooked shows that the condition names no entry too many.
- FootprintIsExact: the content of a renamed or reformatted definition is a parameter of the operation; schema versions inside definitions are not modelled.
- RunsKeepRolesAcyclic: assumes that leaders had applied the predicate index when they checked a grant, which GrantsAreSafeIff shows to be needed, and that the id of a new user was not granted as a role before.
- RunsKeepBrackets: assumes that prepare, commit and abort are proposed after reading whether a change is pending in a state not older than the predicate index, and that DML on the row of the pending change is harmless, which BracketsIffHarmless shows to be needed.
- UnseenIff: assumes that no DML writes the row of the pending change, because the conflict check reads the content of that row.
- UnseenByPosition: has the same assumption, and the exception that no other change of the table is open at the applied index, which UnseenIff does without.
- UnseenInWindow: has the assumption of UnseenIff.
- OnlyFullDeletesOverlooked: has the assumption of UnseenIff.
- DmlMeetsOperableTable: assumes that the leader had applied the predicate index, and excludes backups, which make tables inoperable without a conflict (OperableKeptIff).
- RunsIsolateDml: assumes that the leader had applied the predicate index, which DmlIsIsolatedIff shows to be needed for every table that admits DML once the leader can know it.
- CasLeader.Node.CompareAndSwap: after an append over a stale persisted tail the contract with raft is only restored when raft truncates that tail, which is not modelled; formats, constraints, secondary keys and dependent objects in the dry run are a parameter, and so are the privileges of the sender.
- CasLeader.Node.DoBatch: the primary key, missing tables and the trigger of `_pico_property` are modelled; formats, other constraints and secondary keys are a parameter of CompareAndSwap.
- CasLeader.Node.DoPreliminary: the same, and dependent objects of a user that is dropped.
- CasLeader.Node.CheckAccess: models what does not depend on the sender. The source looks objects up partly in Tarantool's own tables, which the model takes to agree with the catalog rows.
- Catalog.InitialRows: index definitions, privileges that are not role grants, and other properties are not among the rows of a new cluster; the checks that are modelled do not depend on them.
- CasLeader.Node.EarlyChecks: the privileges of the sender are a parameter; the loop check needs a role graph without loops to end, so `Valid` demands one, and RunsKeepRolesAcyclic provides it.
- Errors while decoding keys and tuples, and `KeyTypeMismatch`.
- `RangeBounds` setters, which narrow a range bound by bound.
- `abort_ddl`: the retry loop around compare-and-swap; its proposals are covered by RunsKeepBrackets.
- `choose_table_id` for an operation of the governor, which takes the id of the catalog table.
- VerdictRefinesFullHistory: has a fixed timeout and an applied index that advances by one with every entry.
- Overflow of `fail_streak` and of the failure count, the reason texts, the rate limit of log messages, and replication errors being set and reset.
- The sentinel on the leader and during shutdown: only the branch of an instance that wants to be online again is modelled.
- `pico.raft_propose` and other internal calls that bypass compare-and-swap.
- `src/backoff.rs`: a timeout that each failure multiplies by a floating-point factor, at random if so configured; the deterministic retry control of the sentinel is modelled instead.
- `src/resharding_loop.rs`: a background task whose planning step decides nothing yet.
- `src/limiter.rs`, `src/mailbox.rs`, `src/kvcell.rs`: a counter of tickets per owner, a growable queue between fibers, and a cell for one key and value.
- `src/failure_domain.rs` and `src/compatibility.rs`: comparison of domain maps key by key, and of version numbers part by part.
- Lua, HTTP, metrics, configuration and the SQL front end.
