/**
 The discovery protocol run by all instances together: the message loop of
 `wait_global_async` and `proc_discover` (src/discovery.rs).

 Messages are only ever added to the network and any message may be handled at any time,
 any number of times or never, which covers delay, reordering, duplication and loss.
 A run is a sequence of steps; a step that is not enabled does nothing.
 */
module DiscoveryProtocol {
  import opened Options
  import opened Discovery

  /** One configured instance: the address at which it is reached, its tier's `can_vote`, and
      the peer list it starts with. */
  datatype Member = Member(address: Address, canVote: bool, seeds: set<Address>)

  type Config = map<TmpId, Member>

  datatype Envelope = Envelope(request: LeaderElection, to: Address)

  datatype Reply = Reply(from: Address, to: TmpId, state: State)

  /** `last` is a history variable that no step reads: the election data an instance held last,
      which `Done` drops. */
  datatype Cluster = Cluster(peers: map<TmpId, Peer>, last: map<TmpId, LeaderElection>,
                             requests: set<Envelope>, replies: set<Reply>)

  datatype Step =
    | Send(sender: TmpId, target: Address)
    | Deliver(receiver: TmpId, envelope: Envelope)
    | Receive(reply: Reply)

  /** Instances have distinct addresses and non-empty peer lists (as `Discovery::new` asserts). */
  predicate ValidConfig(cfg: Config) {
    && (forall i :: i in cfg ==> cfg[i].seeds != {})
    && (forall i, j :: i in cfg && j in cfg && cfg[i].address == cfg[j].address ==> i == j)
  }

  predicate Owns(cfg: Config, i: TmpId, a: Address) {
    i in cfg && cfg[i].address == a
  }

  ghost predicate Listed(cfg: Config, a: Address) {
    exists i :: i in cfg && a in cfg[i].seeds
  }

  ghost predicate IsVoter(cfg: Config, a: Address) {
    exists i :: Owns(cfg, i, a) && cfg[i].canVote
  }

  predicate Shaped(cfg: Config, s: Cluster) {
    s.peers.Keys == cfg.Keys && s.last.Keys == cfg.Keys
  }

  function Start(cfg: Config): (s: Cluster)
    ensures Shaped(cfg, s)
  {
    Cluster(map i | i in cfg :: NewPeer(i, cfg[i].seeds, cfg[i].canVote),
            map i | i in cfg :: LeaderElection(i, cfg[i].canVote, cfg[i].seeds, {}),
            {}, {})
  }

  /** One step of the cluster. */
  function Apply(cfg: Config, s: Cluster, step: Step): (s': Cluster)
    requires Shaped(cfg, s)
    ensures Shaped(cfg, s')
  {
    match step
    case Send(i, a) =>
      if i in cfg && NextOrRole(s.peers[i]).Visit? && a in NextOrRole(s.peers[i]).targets
      then s.(requests := s.requests + {Envelope(NextOrRole(s.peers[i]).request, a)})
      else s
    case Deliver(k, env) =>
      if Owns(cfg, k, env.to) && env in s.requests && OnRequest(s.peers[k], env.request, env.to).Some?
      then
        var p := OnRequest(s.peers[k], env.request, env.to).value;
        Cluster(s.peers[k := p],
                if p.state.Electing? then s.last[k := p.state.election] else s.last,
                s.requests,
                s.replies + {Reply(env.to, env.request.tmpId, p.state)})
      else s
    case Receive(r) =>
      if r in s.replies && r.to in cfg
      then
        var p := s.peers[r.to];
        s.(peers := s.peers[r.to := OnResponse(p, r.from, r.state)],
           last := if p.state.Electing? && r.state.Electing?
                   then s.last[r.to := MergeResponse(p.state.election, r.state.election)] else s.last)
      else s
  }

  /** The state after a run. */
  function Exec(cfg: Config, steps: seq<Step>): (s: Cluster)
    ensures Shaped(cfg, s)
  {
    if steps == [] then Start(cfg)
    else Apply(cfg, Exec(cfg, steps[..|steps| - 1]), steps[|steps| - 1])
  }

  predicate IsLeader(s: Cluster, i: TmpId) {
    i in s.peers && s.peers[i].state.Done? && s.peers[i].state.role.Leader?
  }

  ghost predicate LeaderAt(s: Cluster, a: Address) {
    exists i :: IsLeader(s, i) && s.peers[i].state.role.address == a
  }

  // ---- Invariant ---------------------------------------------------------------------------

  /** Election data that instance `i` may hold or send. */
  ghost predicate ElectionOk(cfg: Config, i: TmpId, e: LeaderElection) {
    && i in cfg
    && e.tmpId == i
    && e.canVote == cfg[i].canVote
    && cfg[i].seeds <= e.peers
    && (forall a :: a in e.peers ==> Listed(cfg, a))
    && e.votable <= e.peers
    && (forall v :: v in e.votable ==> IsVoter(cfg, v))
  }

  /** `a` answered instance `i` while electing, and `e` covers the answer. */
  ghost predicate AnswerCovered(s: Cluster, i: TmpId, a: Address, e: LeaderElection) {
    exists r :: r in s.replies && Covers(r, i, a, e)
  }

  predicate Covers(r: Reply, i: TmpId, a: Address, e: LeaderElection) {
    r.from == a && r.to == i && r.state.Electing?
    && r.state.election.peers <= e.peers && r.state.election.votable <= e.votable
  }

  ghost predicate PeerInv(cfg: Config, s: Cluster, i: TmpId)
    requires Shaped(cfg, s) && i in cfg
  {
    var p, e := s.peers[i], s.last[i];
    && ElectionOk(cfg, i, e)
    && match p.state {
      case Electing(e') =>
        && e' == e
        && (p.address.Some? ==> p.address.value == cfg[i].address)
        && (forall a :: a in p.visited ==> AnswerCovered(s, i, a, e))
      case Done(Leader(x)) =>
        && x == cfg[i].address && IsFirst(x, e.votable)
        && (forall a :: a in e.peers ==> AnswerCovered(s, i, a, e))
      case Done(NonLeader(x)) => LeaderAt(s, x)
    }
  }

  /** `r` was sent by `k`, after `k` merged a request of `r.to`. */
  ghost predicate ReplyFrom(cfg: Config, s: Cluster, r: Reply, k: TmpId)
    requires Shaped(cfg, s)
  {
    && Owns(cfg, k, r.from)
    && r.to in cfg
    && match r.state {
      case Electing(e) =>
        && ElectionOk(cfg, k, e)
        && e.peers <= s.last[k].peers
        && cfg[r.to].seeds <= e.peers
        && (cfg[k].canVote ==> r.from in e.votable)
        && (k == r.to && s.peers[k].state.Electing? ==> s.peers[k].address == Some(cfg[k].address))
      case Done(role) => LeaderAt(s, role.LeaderAddress())
    }
  }

  ghost predicate ReplyInv(cfg: Config, s: Cluster, r: Reply)
    requires Shaped(cfg, s)
  {
    exists k :: ReplyFrom(cfg, s, r, k)
  }

  ghost predicate RequestInv(cfg: Config, env: Envelope) {
    ElectionOk(cfg, env.request.tmpId, env.request) && env.to in env.request.peers
  }

  /** Answers given by one instance while electing hold comparable peer sets. */
  predicate Comparable(r: Reply, q: Reply) {
    r.from == q.from && r.state.Electing? && q.state.Electing? ==>
      r.state.election.peers <= q.state.election.peers || q.state.election.peers <= r.state.election.peers
  }

  ghost predicate Inv(cfg: Config, s: Cluster) {
    && Shaped(cfg, s)
    && (forall i :: i in cfg ==> PeerInv(cfg, s, i))
    && (forall r :: r in s.replies ==> ReplyInv(cfg, s, r))
    && (forall env :: env in s.requests ==> RequestInv(cfg, env))
    && (forall r, q :: r in s.replies && q in s.replies ==> Comparable(r, q))
  }

  /** What a step may do to the rest of the cluster. */
  ghost predicate Grows(cfg: Config, s: Cluster, s': Cluster, k: TmpId)
    requires Shaped(cfg, s) && Shaped(cfg, s')
  {
    && k in cfg
    && s.replies <= s'.replies
    && s.last[k].peers <= s'.last[k].peers
    && (forall i :: i in cfg && i != k ==> s'.peers[i] == s.peers[i] && s'.last[i] == s.last[i])
    && (s.peers[k].state.Done? ==> s'.peers[k].state == s.peers[k].state && s'.last[k] == s.last[k])
    && (s.peers[k].address.Some? && s'.peers[k].state.Electing? ==> s'.peers[k].address == s.peers[k].address)
  }

  lemma LeadersStay(cfg: Config, s: Cluster, s': Cluster, k: TmpId, x: Address)
    requires Shaped(cfg, s) && Shaped(cfg, s') && Grows(cfg, s, s', k)
    requires LeaderAt(s, x)
    ensures LeaderAt(s', x)
  {
    var i :| IsLeader(s, i) && s.peers[i].state.role.address == x;
    assert IsLeader(s', i) && s'.peers[i].state.role.address == x;
  }

  lemma AnswersStay(s: Cluster, s': Cluster, i: TmpId, a: Address, e: LeaderElection, e': LeaderElection)
    requires s.replies <= s'.replies && e.peers <= e'.peers && e.votable <= e'.votable
    requires AnswerCovered(s, i, a, e)
    ensures AnswerCovered(s', i, a, e')
  {
    var r :| r in s.replies && Covers(r, i, a, e);
    assert r in s'.replies && Covers(r, i, a, e');
  }

  lemma OthersKeepInv(cfg: Config, s: Cluster, s': Cluster, k: TmpId, i: TmpId)
    requires Shaped(cfg, s) && Shaped(cfg, s') && Grows(cfg, s, s', k)
    requires i in cfg && PeerInv(cfg, s, i)
    requires s'.peers[i].state == s.peers[i].state && s'.last[i] == s.last[i]
    requires s'.peers[i].state.Electing? ==> s'.peers[i] == s.peers[i]
    ensures PeerInv(cfg, s', i)
  {
    var e := s.last[i];
    match s.peers[i].state {
      case Electing(_) =>
        forall a | a in s.peers[i].visited ensures AnswerCovered(s', i, a, e) {
          AnswersStay(s, s', i, a, e, e);
        }
      case Done(Leader(x)) =>
        forall a | a in e.peers ensures AnswerCovered(s', i, a, e) {
          AnswersStay(s, s', i, a, e, e);
        }
      case Done(NonLeader(x)) => LeadersStay(cfg, s, s', k, x);
    }
  }

  lemma RepliesKeepInv(cfg: Config, s: Cluster, s': Cluster, k: TmpId, r: Reply)
    requires Shaped(cfg, s) && Shaped(cfg, s') && Grows(cfg, s, s', k)
    requires ReplyInv(cfg, s, r)
    ensures ReplyInv(cfg, s', r)
  {
    var j :| ReplyFrom(cfg, s, r, j);
    if r.state.Done? {
      LeadersStay(cfg, s, s', k, r.state.role.LeaderAddress());
    }
    assert ReplyFrom(cfg, s', r, j);
  }

  lemma SendKeepsInv(cfg: Config, s: Cluster, i: TmpId, a: Address)
    requires Inv(cfg, s)
    ensures Inv(cfg, Apply(cfg, s, Send(i, a)))
  {
    var s' := Apply(cfg, s, Send(i, a));
    if s' != s {
      assert PeerInv(cfg, s, i);
      assert Grows(cfg, s, s', i);
      forall j | j in cfg ensures PeerInv(cfg, s', j) {
        OthersKeepInv(cfg, s, s', i, j);
      }
      forall r | r in s'.replies ensures ReplyInv(cfg, s', r) {
        RepliesKeepInv(cfg, s, s', i, r);
      }
      assert RequestInv(cfg, Envelope(NextOrRole(s.peers[i]).request, a));
    }
  }

  lemma MergedRequestOk(cfg: Config, k: TmpId, e: LeaderElection, env: Envelope)
    requires Owns(cfg, k, env.to) && ElectionOk(cfg, k, e) && RequestInv(cfg, env)
    ensures ElectionOk(cfg, k, MergeRequest(e, env.request, env.to))
  {
    var e' := MergeRequest(e, env.request, env.to);
    forall v | v in e'.votable ensures IsVoter(cfg, v) {
      assert v == env.to && e.canVote ==> Owns(cfg, k, v) && cfg[k].canVote;
    }
  }

  ghost predicate Delivers(cfg: Config, s: Cluster, k: TmpId, env: Envelope)
    requires Shaped(cfg, s)
  {
    Owns(cfg, k, env.to) && env in s.requests && OnRequest(s.peers[k], env.request, env.to).Some?
  }

  lemma ReceiverKeepsInv(cfg: Config, s: Cluster, k: TmpId, env: Envelope)
    requires ValidConfig(cfg) && Inv(cfg, s) && Delivers(cfg, s, k, env)
    ensures PeerInv(cfg, Apply(cfg, s, Deliver(k, env)), k)
  {
    var s' := Apply(cfg, s, Deliver(k, env));
    assert PeerInv(cfg, s, k) && RequestInv(cfg, env);
    var p, p', e, e' := s.peers[k], s'.peers[k], s.last[k], s'.last[k];
    if p.state.Electing? {
      MergedRequestOk(cfg, k, e, env);
      forall a | a in p'.visited ensures AnswerCovered(s', k, a, e') {
        AnswersStay(s, s', k, a, e, e');
      }
    } else {
      OthersKeepInv(cfg, s, s', k, k);
    }
  }

  lemma NewReplyInv(cfg: Config, s: Cluster, k: TmpId, env: Envelope)
    requires ValidConfig(cfg) && Inv(cfg, s) && Delivers(cfg, s, k, env)
    ensures var s' := Apply(cfg, s, Deliver(k, env));
            ReplyFrom(cfg, s', Reply(env.to, env.request.tmpId, s'.peers[k].state), k)
  {
    var s' := Apply(cfg, s, Deliver(k, env));
    assert PeerInv(cfg, s, k) && RequestInv(cfg, env);
    ReceiverKeepsInv(cfg, s, k, env);
    if IsLeader(s', k) {
      assert LeaderAt(s', s'.peers[k].state.role.address);
    }
  }

  lemma DeliverGrows(cfg: Config, s: Cluster, k: TmpId, env: Envelope)
    requires Inv(cfg, s) && Delivers(cfg, s, k, env)
    ensures Grows(cfg, s, Apply(cfg, s, Deliver(k, env)), k)
  {
    assert PeerInv(cfg, s, k);
  }

  lemma DeliverKeepsReplies(cfg: Config, s: Cluster, k: TmpId, env: Envelope, q: Reply)
    requires ValidConfig(cfg) && Inv(cfg, s) && Delivers(cfg, s, k, env)
    requires q in Apply(cfg, s, Deliver(k, env)).replies
    ensures ReplyInv(cfg, Apply(cfg, s, Deliver(k, env)), q)
  {
    NewReplyInv(cfg, s, k, env);
    DeliverGrows(cfg, s, k, env);
    if q in s.replies {
      RepliesKeepInv(cfg, s, Apply(cfg, s, Deliver(k, env)), k, q);
    }
  }

  lemma DeliverKeepsComparable(cfg: Config, s: Cluster, k: TmpId, env: Envelope, q: Reply, r: Reply)
    requires ValidConfig(cfg) && Inv(cfg, s) && Delivers(cfg, s, k, env)
    requires q in Apply(cfg, s, Deliver(k, env)).replies && r in Apply(cfg, s, Deliver(k, env)).replies
    ensures Comparable(q, r)
  {
    if q in s.replies {
      NewReplyIsLargest(cfg, s, k, env, q);
    }
    if r in s.replies {
      NewReplyIsLargest(cfg, s, k, env, r);
    }
  }

  lemma DeliverKeepsInv(cfg: Config, s: Cluster, k: TmpId, env: Envelope)
    requires ValidConfig(cfg) && Inv(cfg, s)
    ensures Inv(cfg, Apply(cfg, s, Deliver(k, env)))
  {
    if Delivers(cfg, s, k, env) {
      var s' := Apply(cfg, s, Deliver(k, env));
      DeliverGrows(cfg, s, k, env);
      forall j | j in cfg ensures PeerInv(cfg, s', j) {
        if j == k {
          ReceiverKeepsInv(cfg, s, k, env);
        } else {
          OthersKeepInv(cfg, s, s', k, j);
        }
      }
      forall q | q in s'.replies ensures ReplyInv(cfg, s', q) {
        DeliverKeepsReplies(cfg, s, k, env, q);
      }
      forall q, r | q in s'.replies && r in s'.replies ensures Comparable(q, r) {
        DeliverKeepsComparable(cfg, s, k, env, q, r);
      }
    }
  }

  lemma NewReplyIsLargest(cfg: Config, s: Cluster, k: TmpId, env: Envelope, q: Reply)
    requires ValidConfig(cfg) && Inv(cfg, s) && Delivers(cfg, s, k, env) && q in s.replies
    ensures var p := Apply(cfg, s, Deliver(k, env)).peers[k];
            q.from == env.to && q.state.Electing? && p.state.Electing? ==>
              q.state.election.peers <= p.state.election.peers
  {
    assert PeerInv(cfg, s, k) && ReplyInv(cfg, s, q);
    var j :| ReplyFrom(cfg, s, q, j);
  }

  lemma MergedResponseOk(cfg: Config, i: TmpId, e: LeaderElection, k: TmpId, f: LeaderElection)
    requires ElectionOk(cfg, i, e) && ElectionOk(cfg, k, f)
    ensures ElectionOk(cfg, i, MergeResponse(e, f))
  {
  }

  lemma HearerKeepsInv(cfg: Config, s: Cluster, r: Reply)
    requires ValidConfig(cfg) && Inv(cfg, s) && r in s.replies && r.to in cfg
    ensures PeerInv(cfg, Apply(cfg, s, Receive(r)), r.to)
    ensures Grows(cfg, s, Apply(cfg, s, Receive(r)), r.to)
  {
    var s', i := Apply(cfg, s, Receive(r)), r.to;
    assert PeerInv(cfg, s, i) && ReplyInv(cfg, s, r);
    var k :| ReplyFrom(cfg, s, r, k);
    assert Grows(cfg, s, s', i);
    var p, e, e' := s.peers[i], s.last[i], s'.last[i];
    match (p.state, r.state) {
      case (Electing(_), Electing(f)) =>
        MergedResponseOk(cfg, i, e, k, f);
        assert Covers(r, i, r.from, e');
        forall a | a in p.visited + {r.from} ensures AnswerCovered(s', i, a, e') {
          if a != r.from {
            AnswersStay(s, s', i, a, e, e');
          }
        }
      case (Electing(_), Done(role)) => LeadersStay(cfg, s, s', i, role.LeaderAddress());
      case (Done(_), _) => OthersKeepInv(cfg, s, s', i, i);
    }
  }

  lemma ReceiveKeepsInv(cfg: Config, s: Cluster, r: Reply)
    requires ValidConfig(cfg) && Inv(cfg, s)
    ensures Inv(cfg, Apply(cfg, s, Receive(r)))
  {
    if r in s.replies && r.to in cfg {
      var s', i := Apply(cfg, s, Receive(r)), r.to;
      HearerKeepsInv(cfg, s, r);
      forall j | j in cfg && j != i ensures PeerInv(cfg, s', j) {
        OthersKeepInv(cfg, s, s', i, j);
      }
      forall q | q in s'.replies ensures ReplyInv(cfg, s', q) {
        RepliesKeepInv(cfg, s, s', i, q);
      }
    }
  }

  /** The invariant holds after every run. */
  lemma {:induction false} RunsKeepInv(cfg: Config, steps: seq<Step>)
    requires ValidConfig(cfg)
    ensures Inv(cfg, Exec(cfg, steps))
  {
    if steps != [] {
      var before, step := steps[..|steps| - 1], steps[|steps| - 1];
      RunsKeepInv(cfg, before);
      var s := Exec(cfg, before);
      match step {
        case Send(i, a) => SendKeepsInv(cfg, s, i, a);
        case Deliver(k, env) => DeliverKeepsInv(cfg, s, k, env);
        case Receive(r) => ReceiveKeepsInv(cfg, s, r);
      }
    }
  }
}
