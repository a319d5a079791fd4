/**
 When bootstrap discovery elects one leader.

 What every run guarantees of a leader, and conditions under which there is at most one: a run
 with two leaders whose electorates meet has a stray leader, whose peer list lies in the other's
 electorate while its address does not. The exact condition is in `DiscoverySplit`.
 */
module DiscoveryAgreement {
  import opened Sets
  import opened Discovery
  import opened DiscoveryProtocol

  /** A set of addresses, all of them running, that contains the peer list of each of its members. */
  ghost predicate Closed(cfg: Config, e: set<Address>) {
    forall a :: a in e ==> ListsWithin(cfg, a, e)
  }

  ghost predicate ListsWithin(cfg: Config, a: Address, e: set<Address>) {
    exists i :: Owns(cfg, i, a) && cfg[i].seeds <= e
  }

  /** Following peer lists from its own, every voter that somebody lists comes to its own address.
      In particular this holds when voters list themselves. */
  ghost predicate VotersFindThemselves(cfg: Config) {
    forall i, e :: i in cfg && cfg[i].canVote && Listed(cfg, cfg[i].address) && Closed(cfg, e) && cfg[i].seeds <= e ==>
      cfg[i].address in e
  }

  /** A closed set of listed addresses with a voter. */
  ghost predicate Electorate(cfg: Config, e: set<Address>) {
    && (forall a :: a in e ==> Listed(cfg, a))
    && Closed(cfg, e)
    && (exists a :: a in e && IsVoter(cfg, a))
  }

  /** A listed voter that is not in the electorate although its peer list is. */
  ghost predicate Stray(cfg: Config, k: TmpId, e: set<Address>) {
    && k in cfg && cfg[k].canVote && Listed(cfg, cfg[k].address)
    && Electorate(cfg, e) && cfg[k].seeds <= e && cfg[k].address !in e
  }

  ghost predicate NoStrays(cfg: Config) {
    forall k, e :: !Stray(cfg, k, e)
  }

  lemma FoundIsNotStray(cfg: Config)
    requires VotersFindThemselves(cfg)
    ensures NoStrays(cfg)
  {
  }

  ghost predicate ElectoratesMeet(cfg: Config) {
    forall e, f :: Electorate(cfg, e) && Electorate(cfg, f) ==> e * f != {}
  }

  ghost predicate SingleLeader(s: Cluster) {
    forall i, j :: IsLeader(s, i) && IsLeader(s, j) ==> i == j
  }

  // ---- Validity ----------------------------------------------------------------------------

  /** What every run guarantees of every instance. */
  lemma RunsAreValid(cfg: Config, steps: seq<Step>, i: TmpId)
    requires ValidConfig(cfg) && i in cfg
    ensures var s := Exec(cfg, steps); var p := s.peers[i];
            match p.state
            case Electing(e) =>
              && e.votable <= e.peers && (forall v :: v in e.votable ==> IsVoter(cfg, v))
              && NextOrRole(p).targets != {}
            case Done(Leader(x)) => x == cfg[i].address && cfg[i].canVote
            case Done(NonLeader(x)) => LeaderAt(s, x)
  {
    RunsKeepInv(cfg, steps);
    var s := Exec(cfg, steps);
    assert PeerInv(cfg, s, i);
    if IsLeader(s, i) {
      var x := cfg[i].address;
      assert IsVoter(cfg, x);
      var j :| Owns(cfg, j, x) && cfg[j].canVote;
      assert j == i;
    }
  }

  /** No request that can arrive makes an instance panic about a second address. */
  lemma RunsNeverPanic(cfg: Config, steps: seq<Step>, k: TmpId, env: Envelope)
    requires ValidConfig(cfg)
    requires env in Exec(cfg, steps).requests && Owns(cfg, k, env.to)
    ensures OnRequest(Exec(cfg, steps).peers[k], env.request, env.to).Some?
  {
    RunsKeepInv(cfg, steps);
    assert PeerInv(cfg, Exec(cfg, steps), k);
  }

  // ---- Agreement ---------------------------------------------------------------------------

  /** Instance `i` holds an answer from everyone it knows. */
  ghost predicate AllAnswered(s: Cluster, i: TmpId)
    requires i in s.last
  {
    forall a :: a in s.last[i].peers ==> AnswerCovered(s, i, a, s.last[i])
  }

  /** The answer of `a`, and who gave it. */
  lemma AnswerShows(cfg: Config, s: Cluster, i: TmpId, a: Address) returns (k: TmpId, r: Reply)
    requires ValidConfig(cfg) && Inv(cfg, s)
    requires i in cfg && AllAnswered(s, i) && a in s.last[i].peers
    ensures r in s.replies && Covers(r, i, a, s.last[i]) && ReplyFrom(cfg, s, r, k)
  {
    assert AnswerCovered(s, i, a, s.last[i]);
    r :| r in s.replies && Covers(r, i, a, s.last[i]);
    assert ReplyInv(cfg, s, r);
    k :| ReplyFrom(cfg, s, r, k);
  }

  /** The peers of an instance that holds all answers are closed under peer lists. */
  lemma AllAnsweredIsClosed(cfg: Config, s: Cluster, i: TmpId)
    requires ValidConfig(cfg) && Inv(cfg, s) && i in cfg && AllAnswered(s, i)
    ensures Closed(cfg, s.last[i].peers)
  {
    var e := s.last[i].peers;
    forall a | a in e ensures ListsWithin(cfg, a, e) {
      var k, r := AnswerShows(cfg, s, i, a);
      assert Owns(cfg, k, a) && cfg[k].seeds <= e;
    }
  }

  /** The peers a leader ended up with form an electorate that contains its own address. */
  lemma LeaderHasElectorate(cfg: Config, s: Cluster, i: TmpId)
    requires ValidConfig(cfg) && Inv(cfg, s) && i in cfg && IsLeader(s, i)
    ensures AllAnswered(s, i) && Electorate(cfg, s.last[i].peers)
    ensures cfg[i].address in s.last[i].peers && cfg[i].canVote
  {
    assert PeerInv(cfg, s, i);
    AllAnsweredIsClosed(cfg, s, i);
    var x, e := cfg[i].address, s.last[i].peers;
    assert x in e && IsVoter(cfg, x);
    var j :| Owns(cfg, j, x) && cfg[j].canVote;
    assert j == i;
  }

  /** If leader `j` knows leader `i` as a peer, then `j`'s address comes first. */
  lemma KnownVoterIsNotSmaller(cfg: Config, s: Cluster, i: TmpId, j: TmpId)
    requires ValidConfig(cfg) && Inv(cfg, s)
    requires i in cfg && j in cfg && IsLeader(s, i) && IsLeader(s, j)
    requires cfg[i].address in s.last[j].peers
    ensures cfg[j].address <= cfg[i].address
  {
    LeaderHasElectorate(cfg, s, i);
    LeaderHasElectorate(cfg, s, j);
    var k, r := AnswerShows(cfg, s, j, cfg[i].address);
    assert k == i;
    assert PeerInv(cfg, s, j);
  }

  /** A leader whose peer list is known to another leader is itself known to it. */
  lemma KnownSeedsTell(cfg: Config, s: Cluster, i: TmpId, j: TmpId)
    requires ValidConfig(cfg) && Inv(cfg, s)
    requires i in cfg && j in cfg && IsLeader(s, i) && IsLeader(s, j) && !Stray(cfg, i, s.last[j].peers)
    requires cfg[i].seeds <= s.last[j].peers
    ensures cfg[i].address in s.last[j].peers
  {
    LeaderHasElectorate(cfg, s, i);
    LeaderHasElectorate(cfg, s, j);
  }

  /** If the peers of two leaders meet, each is known to the other. */
  lemma SharedPeerTells(cfg: Config, s: Cluster, i: TmpId, j: TmpId, c: Address)
    requires ValidConfig(cfg) && Inv(cfg, s)
    requires i in cfg && j in cfg && IsLeader(s, i) && IsLeader(s, j)
    requires !Stray(cfg, i, s.last[j].peers) && !Stray(cfg, j, s.last[i].peers)
    requires c in s.last[i].peers && c in s.last[j].peers
    ensures cfg[i].address in s.last[j].peers
  {
    LeaderHasElectorate(cfg, s, i);
    LeaderHasElectorate(cfg, s, j);
    var k, r := AnswerShows(cfg, s, i, c);
    var l, q := AnswerShows(cfg, s, j, c);
    assert Comparable(r, q);
    if !(r.state.election.peers <= q.state.election.peers) {
      // `c` told `i` about the peers of `j`, so `i` visited `j`, and `j` learned of `i` from that visit
      KnownSeedsTell(cfg, s, j, i);
      var m, t := AnswerShows(cfg, s, i, cfg[j].address);
      assert m == j;
    }
    KnownSeedsTell(cfg, s, i, j);
  }

  lemma MeetingLeadersAreOne(cfg: Config, s: Cluster, i: TmpId, j: TmpId)
    requires ValidConfig(cfg) && Inv(cfg, s)
    requires i in cfg && j in cfg && IsLeader(s, i) && IsLeader(s, j)
    requires s.last[i].peers * s.last[j].peers != {}
    requires !Stray(cfg, i, s.last[j].peers) && !Stray(cfg, j, s.last[i].peers)
    ensures i == j
  {
    var c := Pick(s.last[i].peers * s.last[j].peers);
    SharedPeerTells(cfg, s, i, j, c);
    SharedPeerTells(cfg, s, j, i, c);
    KnownVoterIsNotSmaller(cfg, s, i, j);
    KnownVoterIsNotSmaller(cfg, s, j, i);
  }

  /** In every run with two leaders, their electorates are disjoint, or one of them is stray with respect
      to the electorate of the other. */
  lemma SplitNeedsStrayLeader(cfg: Config, steps: seq<Step>, i: TmpId, j: TmpId)
    requires ValidConfig(cfg) && i in cfg && j in cfg && i != j
    requires IsLeader(Exec(cfg, steps), i) && IsLeader(Exec(cfg, steps), j)
    ensures var s := Exec(cfg, steps);
            && Electorate(cfg, s.last[i].peers) && Electorate(cfg, s.last[j].peers)
            && (s.last[i].peers * s.last[j].peers == {}
                || Stray(cfg, i, s.last[j].peers) || Stray(cfg, j, s.last[i].peers))
  {
    RunsKeepInv(cfg, steps);
    var s := Exec(cfg, steps);
    LeaderHasElectorate(cfg, s, i);
    LeaderHasElectorate(cfg, s, j);
    if s.last[i].peers * s.last[j].peers != {}
       && !Stray(cfg, i, s.last[j].peers) && !Stray(cfg, j, s.last[i].peers) {
      MeetingLeadersAreOne(cfg, s, i, j);
    }
  }

  lemma AtMostOneLeader(cfg: Config, steps: seq<Step>)
    requires ValidConfig(cfg) && NoStrays(cfg) && ElectoratesMeet(cfg)
    ensures SingleLeader(Exec(cfg, steps))
  {
    var s := Exec(cfg, steps);
    forall i, j | IsLeader(s, i) && IsLeader(s, j) ensures i == j {
      if i != j {
        SplitNeedsStrayLeader(cfg, steps, i, j);
      }
    }
  }

  /** All finished instances name the same leader. */
  lemma FinishedInstancesAgree(cfg: Config, steps: seq<Step>, i: TmpId, j: TmpId)
    requires ValidConfig(cfg) && NoStrays(cfg) && ElectoratesMeet(cfg)
    requires i in cfg && j in cfg
    requires var s := Exec(cfg, steps); s.peers[i].state.Done? && s.peers[j].state.Done?
    ensures var s := Exec(cfg, steps);
            s.peers[i].state.role.LeaderAddress() == s.peers[j].state.role.LeaderAddress()
  {
    var s := Exec(cfg, steps);
    AtMostOneLeader(cfg, steps);
    var a := NamedLeader(cfg, steps, i);
    var b := NamedLeader(cfg, steps, j);
  }

  /** A finished instance names an instance that is leader already. */
  lemma NamedLeader(cfg: Config, steps: seq<Step>, i: TmpId) returns (l: TmpId)
    requires ValidConfig(cfg) && i in cfg && Exec(cfg, steps).peers[i].state.Done?
    ensures var s := Exec(cfg, steps);
            IsLeader(s, l) && s.peers[l].state.role.address == s.peers[i].state.role.LeaderAddress()
  {
    var s := Exec(cfg, steps);
    RunsAreValid(cfg, steps, i);
    if s.peers[i].state.role.Leader? {
      l := i;
    } else {
      l :| IsLeader(s, l) && s.peers[l].state.role.address == s.peers[i].state.role.leader;
    }
  }

  /** A seed address present in every peer list is enough for agreement. */
  lemma CommonSeedMeets(cfg: Config, seed: Address)
    requires ValidConfig(cfg)
    requires forall i :: i in cfg ==> seed in cfg[i].seeds
    ensures ElectoratesMeet(cfg)
  {
    forall e, f | Electorate(cfg, e) && Electorate(cfg, f) ensures e * f != {} {
      var a :| a in e && IsVoter(cfg, a);
      var b :| b in f && IsVoter(cfg, b);
      assert ListsWithin(cfg, a, e) && ListsWithin(cfg, b, f);
      var i :| Owns(cfg, i, a) && cfg[i].seeds <= e;
      var j :| Owns(cfg, j, b) && cfg[j].seeds <= f;
      assert seed in e * f;
    }
  }
}
