/**
 Role grants over whole runs of compare-and-swap: however grants and revocations are
 interleaved, the role graph never gets a loop, as long as the leaders that check grants have
 applied the predicate index (src/cas.rs, src/access_control.rs).
 */
module RoleRuns {
  import opened Options
  import opened Catalog
  import opened RaftLog
  import opened RoleLoops
  import opened CasLeader
  import opened CasRuns
  import opened SchemaWindows

  // ---- What each entry does to the role graph ----------------------------------------------

  /** The role graph after an access-control operation. */
  function GraphAfter(g: set<Grant>, acl: Acl): set<Grant> {
    match acl
    case CreateUser(u, _) => g + {Grant(PUBLIC, u)}
    case DropUser(u) => set e | e in g && e.grantee != u
    case DropRole(r) => set e | e in g && e.grantee != r && e.role != r
    case GrantPrivilege(p) => if IsRoleGrant(p) then g + {Grant(p.objectId, p.grantee)} else g
    case RevokePrivilege(p) => if IsRoleGrant(p) then g - {Grant(p.objectId, p.grantee)} else g
    case _ => g
  }

  /** Row by row, access-control operations change the role graph as they should. */
  lemma AclChangesGraph(c: Catalog, acl: Acl, version: int)
    ensures Grants(Apply(c, AclOp(acl, version))) == GraphAfter(Grants(c), acl)
  {
    forall g: Grant ensures g in Grants(Apply(c, AclOp(acl, version))) <==> g in GraphAfter(Grants(c), acl) {
      GrantIsRow(c, g);
      GrantIsRow(Apply(c, AclOp(acl, version)), g);
      ApplyIsAfter(c, AclOp(acl, version), RoleCell(g));
      AclChangesGrant(acl, g, Lookup(c, RoleCell(g)), Grants(c));
    }
  }

  lemma AclChangesGrant(acl: Acl, g: Grant, before: Option<Value>, graph: set<Grant>)
    requires g in graph <==> g.role >= 0 && before.Some?
    ensures g in GraphAfter(graph, acl) <==> g.role >= 0 && PrivilegeAfterAcl(acl, RoleCell(g), before).Some?
  {
    var key := RoleCell(g).key;
    assert key[0] == g.grantee && key[1] == ON_ROLE && key[2] == g.role && key[3] == EXECUTE;
    match acl {
      case CreateUser(u, _) =>
        assert IsDefaultPrivilege(key, u) <==> g == Grant(PUBLIC, u);
      case GrantPrivilege(p) => SamePrivilege(p, g);
      case RevokePrivilege(p) => SamePrivilege(p, g);
      case _ =>
    }
  }

  lemma SamePrivilege(p: Privilege, g: Grant)
    ensures RoleCell(g) == PrivilegeCell(p) && g.role >= 0 <==> IsRoleGrant(p) && g == Grant(p.objectId, p.grantee)
  {
    var a, b := RoleCell(g).key, PrivilegeCell(p).key;
    assert a == b ==> a[0] == b[0] && a[1] == b[1] && a[2] == b[2] && a[3] == b[3];
  }

  /** Schema changes and plugin operations never add to the role graph. */
  lemma OtherEntriesAddNoGrant(c: Catalog, op: Op)
    requires op.DdlPrepare? || op.DdlCommit? || op.DdlAbort? || op.Plugin? || op.Nop?
    ensures Grants(Apply(c, op)) <= Grants(c)
  {
    forall g | g in Grants(Apply(c, op)) ensures g in Grants(c) {
      GrantIsRow(c, g);
      GrantIsRow(Apply(c, op), g);
      ApplyIsAfter(c, op, RoleCell(g));
    }
  }

  // ---- Windows without grants --------------------------------------------------------------

  lemma GrantsSteady(log: Log, a: nat, b: nat)
    requires LogInv(log) && a <= b <= |log| && forall i :: a <= i < b ==> !IsSchemaEntry(log[i])
    ensures Grants(Replay(log[..a])) == Grants(Replay(log[..b]))
  {
    forall g: Grant ensures g in Grants(Replay(log[..a])) <==> g in Grants(Replay(log[..b])) {
      DefinitionsSteady(log, a, b, RoleCell(g));
      GrantIsRow(Replay(log[..a]), g);
      GrantIsRow(Replay(log[..b]), g);
    }
  }

  lemma GrantsSteadyInWindow(log: Log, j: nat, a: nat)
    requires LogInv(log) && j < |log| && log[j].origin.Some? && IsSchemaEntry(log[j])
    requires log[j].origin.value.index <= a <= j
    ensures Grants(Replay(log[..a])) == Grants(Replay(log[..j]))
  {
    assert Certified(log, j);
    forall i | a <= i < j ensures !IsSchemaEntry(log[i]) {
      SchemaWindowIsQuiet(log, j, i);
    }
    GrantsSteady(log, a, j);
  }

  // ---- The invariant -----------------------------------------------------------------------

  predicate GrantsRole(op: Op) {
    op.AclOp? && op.acl.GrantPrivilege? && IsRoleGrant(op.acl.privilege)
  }

  /** The hypothesis on leaders and proposers under which the role graph is safe: the leader had
      applied the predicate index when it checked a grant, and a new user's id had not been
      granted as a role in the state from which its creation was proposed. */
  ghost predicate GrantDiscipline(log: Log, j: nat)
    requires j < |log|
  {
    log[j].origin.Some? && log[j].op.Some? ==>
      var o := log[j].origin.value;
      && (GrantsRole(log[j].op.value) ==> o.index <= o.applied)
      && match log[j].op.value {
        case AclOp(CreateUser(u, _), _) =>
          o.index <= o.readAt <= j && u != PUBLIC && forall e :: e in Grants(Replay(log[..o.readAt])) ==> e.role != u
        case _ => true
      }
  }

  lemma AclKeepsAcyclic(g: set<Grant>, acl: Acl)
    requires Acyclic(g)
    requires acl.GrantPrivilege? && IsRoleGrant(acl.privilege) ==>
               !Reaches(g, acl.privilege.grantee, acl.privilege.objectId)
    requires acl.CreateUser? ==> !Reaches(g, acl.user, PUBLIC)
    ensures Acyclic(GraphAfter(g, acl))
  {
    match acl {
      case CreateUser(u, _) => NewEdgeClosesLoopIff(g, Grant(PUBLIC, u));
      case GrantPrivilege(p) =>
        if IsRoleGrant(p) {
          NewEdgeClosesLoopIff(g, Grant(p.objectId, p.grantee));
        }
      case _ => SubgraphAcyclic(GraphAfter(g, acl), g);
    }
  }

  /** One more entry keeps the graph without loops. */
  lemma EntryKeepsAcyclic(log: Log, j: nat)
    requires LogInv(log) && j < |log| && GrantDiscipline(log, j) && Acyclic(Grants(Replay(log[..j])))
    ensures Acyclic(Grants(Replay(log[..j + 1])))
  {
    assert Certified(log, j);
    ReplayStep(log, j);
    var c := Replay(log[..j]);
    if !IsSchemaEntry(log[j]) {
      GrantsSteady(log, j, j + 1);
    } else if log[j].op.value.AclOp? {
      var o, acl := log[j].origin.value, log[j].op.value.acl;
      AclChangesGraph(c, acl, log[j].op.value.aclVersion);
      if acl.GrantPrivilege? && IsRoleGrant(acl.privilege) {
        GrantsSteadyInWindow(log, j, o.applied);
      } else if acl.CreateUser? {
        GrantsSteadyInWindow(log, j, o.readAt);
        SinkReachesNothing(Grants(c), acl.user, PUBLIC);
      }
      AclKeepsAcyclic(Grants(c), acl);
    } else {
      OtherEntriesAddNoGrant(c, log[j].op.value);
      SubgraphAcyclic(Grants(Apply(c, log[j].op.value)), Grants(c));
    }
  }

  lemma {:induction false} LogIsAcyclic(log: Log, k: nat)
    requires LogInv(log) && k <= |log| && forall j :: 0 <= j < k ==> GrantDiscipline(log, j)
    ensures Acyclic(Grants(Replay(log[..k])))
  {
    if k == 0 {
      InitialIsAcyclic();
    } else {
      LogIsAcyclic(log, k - 1);
      EntryKeepsAcyclic(log, k - 1);
    }
  }

  const PUBLIC_TO_GUEST: Grant := Grant(PUBLIC, GUEST)
  const REPLICATION_TO_SERVICE: Grant := Grant(ROLE_REPLICATION, PICO_SERVICE)

  /** The role graph of a new cluster has no loop. */
  lemma InitialIsAcyclic()
    ensures Grants(INITIAL) == {PUBLIC_TO_GUEST, REPLICATION_TO_SERVICE} && Acyclic(Grants(INITIAL))
  {
    forall g: Grant ensures g in Grants(INITIAL) <==> g in {PUBLIC_TO_GUEST, REPLICATION_TO_SERVICE} {
      InitialGrants(g);
    }
    var none: set<Grant> := {};
    SinkReachesNothing(none, GUEST, PUBLIC);
    NewEdgeClosesLoopIff(none, PUBLIC_TO_GUEST);
    var one := none + {PUBLIC_TO_GUEST};
    SinkReachesNothing(one, PICO_SERVICE, ROLE_REPLICATION);
    NewEdgeClosesLoopIff(one, REPLICATION_TO_SERVICE);
    assert one + {REPLICATION_TO_SERVICE} == Grants(INITIAL);
  }

  ghost predicate Disciplined(log: Log) {
    forall j :: 0 <= j < |log| ==> GrantDiscipline(log, j)
  }

  /** Concurrent grants never close a loop: in every run, the role graph replayed from any node's
      whole log has none. */
  lemma RunsKeepRolesAcyclic(nodes: set<NodeId>, steps: seq<Step>, node: NodeId)
    requires node in nodes && Disciplined(Exec(nodes, steps)[node])
    ensures Acyclic(Grants(Replay(Exec(nodes, steps)[node])))
  {
    RunsKeepLogInv(nodes, steps);
    var log := Exec(nodes, steps)[node];
    LogIsAcyclic(log, |log|);
    assert log[..|log|] == log;
  }

  // ---- Exactly when a grant is safe --------------------------------------------------------

  /** A leader whose log a run produced accepts a grant of a role. */
  ghost predicate AcceptsGrant(nodes: set<NodeId>, steps: seq<Step>, n: NodeState, req: Request, env: Environment) {
    && n.id in nodes && n.log == Exec(nodes, steps)[n.id] && Disciplined(n.log)
    && RaftContract(n) && req.readAt <= |n.log| && GrantsRole(req.op) && Decide(n, req, env).Accepted?
  }

  ghost predicate LoopFree(n: NodeState, req: Request) {
    Acyclic(Grants(Replay(n.log + [NewEntry(n, req)])))
  }

  lemma DisciplineInPrefix(log: Log, e: Entry, j: nat)
    requires j < |log| && GrantDiscipline(log, j)
    ensures GrantDiscipline(log + [e], j)
  {
    if log[j].origin.Some? && log[j].origin.value.readAt <= j {
      assert (log + [e])[..log[j].origin.value.readAt] == log[..log[j].origin.value.readAt];
    }
  }

  lemma AppendedGrantIsSafe(log: Log, e: Entry)
    requires LogInv(log + [e]) && Disciplined(log) && GrantDiscipline(log + [e], |log|)
    ensures Acyclic(Grants(Replay(log + [e])))
  {
    forall j | 0 <= j < |log| ensures GrantDiscipline(log + [e], j) {
      DisciplineInPrefix(log, e, j);
    }
    LogIsAcyclic(log + [e], |log| + 1);
    assert (log + [e])[..|log| + 1] == log + [e];
  }

  lemma UpToDateGrantIsSafe(nodes: set<NodeId>, steps: seq<Step>, n: NodeState, req: Request, env: Environment)
    requires AcceptsGrant(nodes, steps, n, req, env) && req.pred.index <= n.applied
    ensures LoopFree(n, req)
  {
    RunsKeepLogInv(nodes, steps);
    var log, e := n.log, NewEntry(n, req);
    assert LogInv(log + [e]) by {
      AcceptedIsCertified(n, req, env);
      AppendKeepsInv(log, e);
    }
    assert (log + [e])[|log|] == e;
    AppendedGrantIsSafe(log, e);
  }

  /** The role `public` for the role `super`, and the other way round. */
  const FORTH: Privilege := Privilege(SUPER, ON_ROLE, PUBLIC, EXECUTE)
  const BACK: Privilege := Privilege(PUBLIC, ON_ROLE, SUPER, EXECUTE)

  lemma BuiltInRolesAreApart(g: set<Grant>)
    requires g == {PUBLIC_TO_GUEST, REPLICATION_TO_SERVICE}
    ensures !Reaches(g, SUPER, PUBLIC) && !Reaches(g, PUBLIC, SUPER)
  {
    SinkReachesNothing(g, SUPER, PUBLIC);
    ReachesWithin(g, PUBLIC, SUPER, {PUBLIC, GUEST});
  }

  lemma BuiltInRolesExist()
    ensures UserKnown(INITIAL, SUPER) && UserKnown(INITIAL, PUBLIC)
  {
    InitialRows(Cell(USERS, [SUPER]));
    InitialRows(Cell(USERS, [PUBLIC]));
  }

  lemma GraphAllows(c: Catalog, p: Privilege)
    requires p.objectType == ON_ROLE && p.objectId >= 0 && UserKnown(c, p.objectId) && UserKnown(c, p.grantee)
    requires !Reaches(Grants(c), p.grantee, p.objectId)
    ensures StorageAllows(c, AclOp(GrantPrivilege(p), 1))
  {
  }

  lemma InitialAllows(p: Privilege)
    requires p == FORTH || p == BACK
    ensures StorageAllows(INITIAL, AclOp(GrantPrivilege(p), 1))
  {
    InitialIsAcyclic();
    BuiltInRolesAreApart(Grants(INITIAL));
    BuiltInRolesExist();
    GraphAllows(INITIAL, p);
  }

  lemma BothWaysIsLoop(g: set<Grant>)
    requires Grant(PUBLIC, SUPER) in g && Grant(SUPER, PUBLIC) in g
    ensures !Acyclic(g)
  {
    ReachesSelf(g, PUBLIC);
    ReachesStep(g, SUPER, PUBLIC, PUBLIC);
    assert OnLoop(g, PUBLIC);
  }

  const GRANT: Op := AclOp(GrantPrivilege(FORTH), 1)

  lemma GrantLogIsDisciplined(before: Log, k: nat)
    requires forall i :: 0 <= i < |before| ==> before[i] == NO_OP
    ensures Disciplined(before + [Asked(GRANT, k, k)])
  {
    var log := before + [Asked(GRANT, k, k)];
    forall j | 0 <= j < |log| ensures GrantDiscipline(log, j) {
      if j < |before| {
        assert log[j] == before[j];
      }
    }
  }

  lemma GrantLogReplays(before: Log, k: nat)
    requires |before| == k && forall i :: 0 <= i < k ==> before[i] == NO_OP
    ensures var log := before + [Asked(GRANT, k, k)];
            && (forall l: nat :: l <= k ==> Replay(log[..l]) == INITIAL)
            && Replay(log) == Apply(INITIAL, GRANT)
  {
    var log := before + [Asked(GRANT, k, k)];
    forall l: nat | l <= k ensures Replay(log[..l]) == INITIAL {
      EmptiesChangeNothing(log, 0, l);
    }
    ReplayStep(log, k);
    assert log[..k + 1] == log;
  }

  lemma GrantTakesEffect(c: Catalog)
    ensures Grant(PUBLIC, SUPER) in Grants(Apply(c, GRANT))
  {
    AclChangesGraph(c, GRANT.acl, 1);
  }

  /** A run that ends with the grant of `public`, and nothing before it. */
  lemma GrantAt(index: nat) returns (steps: seq<Step>, log: Log)
    requires index > 0
    ensures Exec({0}, steps)[0] == log && |log| == index && TermZero(log) && Disciplined(log)
    ensures forall k: nat :: k < index ==> Replay(log[..k]) == INITIAL
    ensures Grant(PUBLIC, SUPER) in Grants(Replay(log))
  {
    var before, k := [], index - 1;
    steps, before := AppendEmpties([], [], k);
    GrantLogReplays(before, k);
    GrantLogIsDisciplined(before, k);
    GrantTakesEffect(INITIAL);
    log := before + [Asked(GRANT, k, k)];
    assert log[..k] == before == before[..k];
    InitialAllows(FORTH);
    steps := ProposeNext(steps, before, GRANT, k, k);
  }

  /** Whatever the two indexes: a leader that has not applied the predicate index yet can accept a
      grant that closes a loop, on a log that a disciplined run produces. */
  lemma StaleLeaderClosesLoop(index: nat, applied: nat)
    returns (steps: seq<Step>, n: NodeState, req: Request)
    requires applied < index
    ensures n.applied == applied && req.pred.index == index
    ensures AcceptsGrant({0}, steps, n, req, PERMIT) && !LoopFree(n, req)
  {
    var op := AclOp(GrantPrivilege(BACK), 1);
    var log;
    steps, log := GrantAt(index);
    InitialAllows(BACK);
    LeaderAccepts(log, op, index, applied);
    n, req := LeaderOf(log, applied), Ask(op, index);
    var e := NewEntry(n, req);
    assert (log + [e])[..index] == log;
    AclChangesGraph(Replay(log), op.acl, 1);
    BothWaysIsLoop(Grants(Replay(log + [e])));
  }

  /** Exactly when accepted grants are safe: when the leader has applied the predicate index. */
  lemma GrantsAreSafeIff(index: nat, applied: nat)
    ensures (forall nodes, steps, n, req, env ::
               AcceptsGrant(nodes, steps, n, req, env) && n.applied == applied && req.pred.index == index ==>
                 LoopFree(n, req))
            <==> index <= applied
  {
    if index <= applied {
      forall nodes, steps, n, req, env
        | AcceptsGrant(nodes, steps, n, req, env) && n.applied == applied && req.pred.index == index
        ensures LoopFree(n, req)
      {
        UpToDateGrantIsSafe(nodes, steps, n, req, env);
      }
    } else {
      var steps, n, req := StaleLeaderClosesLoop(index, applied);
    }
  }
}
