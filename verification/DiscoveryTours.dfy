/**
 Runs of bootstrap discovery, constructed visit by visit: how instances ask each other, and how
 the first voter of a closed set is driven to leadership.
 */
module DiscoveryTours {
  import opened Options
  import opened Sets
  import opened Discovery
  import opened DiscoveryProtocol
  import opened DiscoveryAgreement
  import opened DiscoveryKnowledge

  /** The instance is electing and knows nothing outside `e`. */
  ghost predicate Inside(s: Cluster, k: TmpId, e: set<Address>)
    requires k in s.peers && k in s.last
  {
    s.peers[k].state.Electing? && s.last[k].peers <= e
  }

  /** All instances with addresses in `d`, `m` aside, are inside `e`. */
  ghost predicate Confined(cfg: Config, s: Cluster, d: set<Address>, e: set<Address>, m: TmpId)
    requires Shaped(cfg, s)
  {
    forall k :: k in cfg && k != m && cfg[k].address in d ==> Inside(s, k, e)
  }

  /** The instances with addresses outside `e` are as before. */
  ghost predicate SameOutside(cfg: Config, s: Cluster, s': Cluster, e: set<Address>)
    requires Shaped(cfg, s) && Shaped(cfg, s')
  {
    forall k :: k in cfg && cfg[k].address !in e ==> s'.peers[k] == s.peers[k] && s'.last[k] == s.last[k]
  }

  lemma ExecAppend(cfg: Config, steps: seq<Step>, step: Step)
    ensures Exec(cfg, steps + [step]) == Apply(cfg, Exec(cfg, steps), step)
  {
    assert (steps + [step])[..|steps|] == steps;
  }

  lemma SeedsWithin(cfg: Config, e: set<Address>, k: TmpId)
    requires ValidConfig(cfg) && Closed(cfg, e) && k in cfg && cfg[k].address in e
    ensures cfg[k].seeds <= e
  {
    assert ListsWithin(cfg, cfg[k].address, e);
    var i :| Owns(cfg, i, cfg[k].address) && cfg[i].seeds <= e;
    assert i == k;
  }

  // ---- Asking and hearing --------------------------------------------------------------------

  ghost predicate MayAsk(cfg: Config, s: Cluster, m: TmpId, k: TmpId)
    requires Shaped(cfg, s)
  {
    m in cfg && k in cfg && s.peers[m].state.Electing? && cfg[k].address in NextOrRole(s.peers[m]).targets
  }

  /** The cluster after `k` got a request of `m`. */
  ghost function AfterAsking(cfg: Config, s: Cluster, m: TmpId, k: TmpId): (s': Cluster)
    requires Shaped(cfg, s) && m in cfg && k in cfg
    ensures Shaped(cfg, s')
  {
    var a := cfg[k].address;
    Apply(cfg, Apply(cfg, s, Send(m, a)), Deliver(k, Envelope(s.last[m], a)))
  }

  lemma AskSteps(cfg: Config, steps: seq<Step>, m: TmpId, k: TmpId) returns (steps': seq<Step>)
    requires ValidConfig(cfg) && MayAsk(cfg, Exec(cfg, steps), m, k)
    ensures var s := Exec(cfg, steps);
            && Inv(cfg, s) && Inv(cfg, Exec(cfg, steps')) && Exec(cfg, steps') == AfterAsking(cfg, s, m, k)
            && OnRequest(s.peers[k], s.last[m], cfg[k].address).Some?
  {
    var s, a := Exec(cfg, steps), cfg[k].address;
    RunsKeepInv(cfg, steps);
    assert PeerInv(cfg, s, m);
    var env := Envelope(s.last[m], a);
    var asked := steps + [Send(m, a)];
    ExecAppend(cfg, steps, Send(m, a));
    RunsNeverPanic(cfg, asked, k, env);
    steps' := asked + [Deliver(k, env)];
    ExecAppend(cfg, asked, Deliver(k, env));
    RunsKeepInv(cfg, steps');
  }

  /** What asking does: `k` merges what `m` knows and answers, and everybody else is as before. */
  ghost predicate HasAsked(cfg: Config, s: Cluster, s': Cluster, m: TmpId, k: TmpId)
    requires Shaped(cfg, s) && Shaped(cfg, s') && m in cfg && k in cfg
  {
    var a := cfg[k].address;
    && s'.last == s.last[k := MergeRequest(s.last[k], s.last[m], a)]
    && (forall i :: i in cfg && i != k ==> s'.peers[i] == s.peers[i])
    && s'.peers[k].state == Electing(s'.last[k])
    && s'.peers[k].visited == Revisit(s.peers[k].visited, s.last[k].peers, s.last[m].peers)
    && s'.peers[k].address == (if m == k then Some(a) else s.peers[k].address)
    && s'.replies == s.replies + {Reply(a, m, s'.peers[k].state)}
  }

  lemma AskEffect(cfg: Config, s: Cluster, m: TmpId, k: TmpId)
    requires ValidConfig(cfg) && Inv(cfg, s) && MayAsk(cfg, s, m, k) && s.peers[k].state.Electing?
    requires OnRequest(s.peers[k], s.last[m], cfg[k].address).Some?
    ensures HasAsked(cfg, s, AfterAsking(cfg, s, m, k), m, k)
  {
    assert PeerInv(cfg, s, m) && PeerInv(cfg, s, k);
  }

  ghost function Touring(s: Cluster, m: TmpId): set<Address>
    requires m in s.peers && m in s.last
  {
    s.last[m].peers - s.peers[m].visited
  }

  /** Measure of the tour of `m` inside `e`, for lexicographic comparison. */
  ghost predicate TourShrinks(s: Cluster, s': Cluster, e: set<Address>, m: TmpId)
    requires m in s.peers && m in s.last && m in s'.peers && m in s'.last
  {
    LexLess(|e - s'.last[m].peers|, |Touring(s', m)|, |e - s.last[m].peers|, |Touring(s, m)|)
  }

  /** An answer that `m` has not handled yet, from somebody inside `e`. */
  ghost predicate Unhandled(s: Cluster, m: TmpId, r: Reply, e: set<Address>)
    requires m in s.peers && m in s.last
  {
    r in s.replies && r.to == m && r.from in Touring(s, m) && r.state.Electing? && r.state.election.peers <= e
  }

  /** Handling an answer touches nobody else. */
  lemma HearEffect(cfg: Config, s: Cluster, s': Cluster, m: TmpId, r: Reply, e: set<Address>)
    requires ValidConfig(cfg) && Inv(cfg, s) && m in cfg && Inside(s, m, e) && Unhandled(s, m, r, e)
    requires s' == Apply(cfg, s, Receive(r))
    ensures s'.peers == s.peers[m := OnResponse(s.peers[m], r.from, r.state)] && s'.replies == s.replies
    ensures s'.last == s.last[m := MergeResponse(s.last[m], r.state.election)]
    ensures s'.last[m].peers <= e
  {
    assert PeerInv(cfg, s, m);
  }

  /** An answer that does not end the tour makes progress. */
  lemma HearOne(cfg: Config, s: Cluster, s': Cluster, e: set<Address>, m: TmpId, r: Reply)
    requires ValidConfig(cfg) && Inv(cfg, s) && Inv(cfg, s') && m in cfg && Inside(s, m, e) && Unhandled(s, m, r, e)
    requires s' == Apply(cfg, s, Receive(r))
    ensures SameOutside(cfg, s, s', {cfg[m].address}) && s'.replies == s.replies
    ensures s.last[m].peers <= s'.last[m].peers
    ensures IsLeader(s', m) || (Inside(s', m, e) && TourShrinks(s, s', e, m))
  {
    HearEffect(cfg, s, s', m, r, e);
    assert PeerInv(cfg, s, m) && PeerInv(cfg, s', m);
    if s'.peers[m].state.Electing? {
      ProgressMeasure(s.peers[m], Answered(r.from, r.state), s'.peers[m], e);
    }
  }

  // ---- Touring an electorate -----------------------------------------------------------------

  /** Answers from all of `r` that mention nothing outside `r` are on the network. */
  ghost predicate Held(s: Cluster, m: TmpId, r: set<Address>) {
    forall a :: a in r ==> HeldFrom(s, m, a, r)
  }

  ghost predicate HeldFrom(s: Cluster, m: TmpId, a: Address, r: set<Address>) {
    exists reply :: reply in s.replies && reply.from == a && reply.to == m && reply.state.Electing?
                    && reply.state.election.peers <= r
  }

  lemma HeldStays(s: Cluster, s': Cluster, m: TmpId, r: set<Address>)
    requires Held(s, m, r) && s.replies <= s'.replies
    ensures Held(s', m, r)
  {
    forall a | a in r ensures HeldFrom(s', m, a, r) {
      assert HeldFrom(s, m, a, r);
    }
  }

  /** The candidate tours `e` and knows itself; it holds the answers of `r`, and the others keep to `e`. */
  ghost predicate OnTour(cfg: Config, s: Cluster, e: set<Address>, r: set<Address>, m: TmpId)
    requires Shaped(cfg, s) && m in cfg
  {
    && Inside(s, m, e) && cfg[m].address in s.last[m].peers
    && Held(s, m, r) && Confined(cfg, s, e - r, e, m)
  }

  /** From `s` to `s'`, `m` got an answer to handle, and its tour is where it was. */
  ghost predicate GotAnswer(cfg: Config, s: Cluster, s': Cluster, e: set<Address>, r: set<Address>, m: TmpId,
                            reply: Reply)
    requires Shaped(cfg, s) && Shaped(cfg, s') && m in cfg
  {
    && SameOutside(cfg, s, s', e - r) && s.replies <= s'.replies
    && OnTour(cfg, s', e, r, m) && Unhandled(s', m, reply, e)
    && s'.last[m].peers == s.last[m].peers && s'.peers[m].visited == s.peers[m].visited
  }

  lemma NewAnswer(cfg: Config, s: Cluster, s': Cluster, e: set<Address>, r: set<Address>, m: TmpId, k: TmpId)
    requires ValidConfig(cfg) && Shaped(cfg, s) && Shaped(cfg, s') && m in cfg && k in cfg && HasAsked(cfg, s, s', m, k)
    requires OnTour(cfg, s, e, r, m) && cfg[k].address in Touring(s, m) && cfg[k].address !in r
    ensures GotAnswer(cfg, s, s', e, r, m, Reply(cfg[k].address, m, s'.peers[k].state))
  {
    HeldStays(s, s', m, r);
    assert Inside(s, k, e) by {
      assert k == m || Confined(cfg, s, e - r, e, m);
    }
    if k == m {
      assert s.last[m].peers + s.last[m].peers == s.last[m].peers;
    }
    forall i | i in cfg && i != m && cfg[i].address in e - r ensures Inside(s', i, e) {
      assert Inside(s, i, e);
    }
  }

  lemma OldAnswer(cfg: Config, s: Cluster, e: set<Address>, r: set<Address>, m: TmpId, a: Address)
    returns (reply: Reply)
    requires Shaped(cfg, s) && m in cfg && r <= e && OnTour(cfg, s, e, r, m) && a in Touring(s, m) && a in r
    ensures GotAnswer(cfg, s, s, e, r, m, reply)
  {
    assert HeldFrom(s, m, a, r);
    reply :| reply in s.replies && reply.from == a && reply.to == m && reply.state.Electing?
             && reply.state.election.peers <= r;
  }

  /** An answer from `a` for `m` to handle next: one that is there already if `a` is in `r`, and else the
      answer to a new request. */
  lemma GetAnswer(cfg: Config, steps: seq<Step>, e: set<Address>, r: set<Address>, m: TmpId, a: Address)
    returns (steps': seq<Step>, reply: Reply)
    requires ValidConfig(cfg) && Closed(cfg, e) && r <= e && m in cfg
    requires OnTour(cfg, Exec(cfg, steps), e, r, m) && a in Touring(Exec(cfg, steps), m)
    ensures GotAnswer(cfg, Exec(cfg, steps), Exec(cfg, steps'), e, r, m, reply)
  {
    var s := Exec(cfg, steps);
    if a in r {
      steps' := steps;
      reply := OldAnswer(cfg, s, e, r, m, a);
    } else {
      assert ListsWithin(cfg, a, e);
      var k :| Owns(cfg, k, a) && cfg[k].seeds <= e;
      TourIsTarget(cfg, steps, m, k);
      assert k == m || Inside(s, k, e);
      steps' := AskSteps(cfg, steps, m, k);
      AskEffect(cfg, s, m, k);
      NewAnswer(cfg, s, Exec(cfg, steps'), e, r, m, k);
      reply := Reply(a, m, Exec(cfg, steps').peers[k].state);
    }
  }

  lemma TourIsTarget(cfg: Config, steps: seq<Step>, m: TmpId, k: TmpId)
    requires ValidConfig(cfg) && m in cfg && k in cfg
    requires var s := Exec(cfg, steps); s.peers[m].state.Electing? && cfg[k].address in Touring(s, m)
    ensures MayAsk(cfg, Exec(cfg, steps), m, k)
  {
    RunsKeepInv(cfg, steps);
    assert PeerInv(cfg, Exec(cfg, steps), m);
  }

  /** One stop later the candidate is leader or goes on, and nobody outside `e - r` noticed. */
  ghost predicate Stopped(cfg: Config, s: Cluster, s': Cluster, e: set<Address>, r: set<Address>, m: TmpId)
    requires Shaped(cfg, s) && Shaped(cfg, s') && m in cfg
  {
    && SameOutside(cfg, s, s', e - r) && s.replies <= s'.replies
    && (IsLeader(s', m) || (OnTour(cfg, s', e, r, m) && Touring(s', m) != {} && TourShrinks(s, s', e, m)))
  }

  /** Once the candidate has visited everyone it knows, the leader test succeeds. */
  lemma FullTourWins(cfg: Config, s: Cluster, e: set<Address>, m: TmpId)
    requires ValidConfig(cfg) && Inv(cfg, s) && Candidate(cfg, e, m) && cfg[m].address in s.last[m].peers
    requires s.peers[m].state.Electing? && s.last[m].peers <= e && s.last[m].peers <= s.peers[m].visited
    ensures Wins(s.peers[m].visited, s.peers[m].address, s.last[m])
  {
    assert PeerInv(cfg, s, m);
    var k, r := AnswerShows(cfg, s, m, cfg[m].address);
    assert k == m;
  }

  /** A candidate that did not win with an answer has somebody left to visit. */
  lemma StillTouring(cfg: Config, s: Cluster, s': Cluster, e: set<Address>, m: TmpId, r: Reply)
    requires ValidConfig(cfg) && Inv(cfg, s) && Inv(cfg, s') && Candidate(cfg, e, m)
    requires cfg[m].address in s'.last[m].peers
    requires Inside(s, m, e) && Unhandled(s, m, r, e) && s' == Apply(cfg, s, Receive(r)) && !IsLeader(s', m)
    ensures Touring(s', m) != {}
  {
    HearEffect(cfg, s, s', m, r, e);
    assert PeerInv(cfg, s, m) && PeerInv(cfg, s', m);
    if s'.last[m].peers <= s'.peers[m].visited {
      FullTourWins(cfg, s', e, m);
      assert false;
    }
  }

  lemma HearOnTour(cfg: Config, s: Cluster, s': Cluster, e: set<Address>, r: set<Address>, m: TmpId, reply: Reply)
    requires ValidConfig(cfg) && Inv(cfg, s) && Inv(cfg, s') && Candidate(cfg, e, m) && cfg[m].address !in r
    requires OnTour(cfg, s, e, r, m) && Unhandled(s, m, reply, e) && s' == Apply(cfg, s, Receive(reply))
    ensures Stopped(cfg, s, s', e, r, m)
  {
    HearOne(cfg, s, s', e, m, reply);
    if !IsLeader(s', m) {
      StillTouring(cfg, s, s', e, m, reply);
      HeldStays(s, s', m, r);
      forall i | i in cfg && i != m && cfg[i].address in e - r ensures Inside(s', i, e) {
        assert Inside(s, i, e);
      }
    }
  }

  lemma StopAddsUp(cfg: Config, s: Cluster, t: Cluster, s': Cluster, e: set<Address>, r: set<Address>, m: TmpId,
                   reply: Reply)
    requires Shaped(cfg, s) && Shaped(cfg, t) && Shaped(cfg, s') && m in cfg
    requires GotAnswer(cfg, s, t, e, r, m, reply) && Stopped(cfg, t, s', e, r, m)
    ensures Stopped(cfg, s, s', e, r, m)
  {
  }

  /** One stop of the candidate's tour. */
  lemma VisitOne(cfg: Config, steps: seq<Step>, e: set<Address>, r: set<Address>, m: TmpId, a: Address)
    returns (steps': seq<Step>)
    requires ValidConfig(cfg) && Closed(cfg, e) && Candidate(cfg, e, m) && r <= e && cfg[m].address !in r
    requires OnTour(cfg, Exec(cfg, steps), e, r, m) && a in Touring(Exec(cfg, steps), m)
    ensures Stopped(cfg, Exec(cfg, steps), Exec(cfg, steps'), e, r, m)
  {
    var asked, reply := GetAnswer(cfg, steps, e, r, m, a);
    steps' := asked + [Receive(reply)];
    ExecAppend(cfg, asked, Receive(reply));
    RunsKeepInv(cfg, asked);
    RunsKeepInv(cfg, steps');
    HearOnTour(cfg, Exec(cfg, asked), Exec(cfg, steps'), e, r, m, reply);
    StopAddsUp(cfg, Exec(cfg, steps), Exec(cfg, asked), Exec(cfg, steps'), e, r, m, reply);
  }

  /** A candidate on tour can be driven to leadership inside `e`, without another request to those whose
      answers it holds. */
  lemma {:induction false} DriveToLeader(cfg: Config, steps: seq<Step>, e: set<Address>, r: set<Address>, m: TmpId)
    returns (steps': seq<Step>)
    requires ValidConfig(cfg) && Closed(cfg, e) && Candidate(cfg, e, m) && r <= e && cfg[m].address !in r
    requires OnTour(cfg, Exec(cfg, steps), e, r, m) && Touring(Exec(cfg, steps), m) != {}
    ensures var s, s' := Exec(cfg, steps), Exec(cfg, steps');
            IsLeader(s', m) && SameOutside(cfg, s, s', e - r) && s.replies <= s'.replies
    decreases var s := Exec(cfg, steps); |e - s.last[m].peers|, var s := Exec(cfg, steps); |Touring(s, m)|
  {
    var a := Pick(Touring(Exec(cfg, steps), m));
    steps' := VisitOne(cfg, steps, e, r, m, a);
    if !IsLeader(Exec(cfg, steps'), m) {
      steps' := DriveToLeader(cfg, steps', e, r, m);
    }
  }
}
