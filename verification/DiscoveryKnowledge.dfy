/**
 How addresses spread during bootstrap discovery, and what that means for two leaders.

 What an instance knows is always linked: it can be built up list by list from any part of it.
 From this, the electorates of two leaders of one run satisfy a condition on the configuration
 alone (`Divided`). `DiscoverySplit` shows that it is exact.
 */
module DiscoveryKnowledge {
  import opened Sets
  import opened Discovery
  import opened DiscoveryProtocol
  import opened DiscoveryAgreement

  // ---- How lists spread --------------------------------------------------------------------

  /** `w` can ask `y`, and `y` can then ask somebody in `z`. */
  predicate Relays(cfg: Config, y: TmpId, w: TmpId, z: set<Address>) {
    y in cfg && w in cfg && cfg[y].address in cfg[w].seeds && cfg[y].seeds * z != {}
  }

  /** The peer list of `w` can come to somebody in `z`: it is the list of one of them, or `w` can ask one of
      them, or ask somebody who then asks one of them. */
  ghost predicate Spreads(cfg: Config, w: TmpId, z: set<Address>) {
    w in cfg && (cfg[w].address in z || cfg[w].seeds * z != {} || exists y :: Relays(cfg, y, w, z))
  }

  ghost predicate Extends(cfg: Config, w: TmpId, z: set<Address>, x: set<Address>) {
    Spreads(cfg, w, z) && cfg[w].seeds <= x && !(cfg[w].seeds <= z)
  }

  /** Some peer list within `x` leads out of `z`. */
  ghost predicate Open(cfg: Config, z: set<Address>, x: set<Address>) {
    exists w :: Extends(cfg, w, z, x)
  }

  predicate Part(z: set<Address>, x: set<Address>) {
    z != {} && z < x
  }

  /** Peer lists within `x` lead from any part of it to all of it. */
  ghost predicate Linked(cfg: Config, x: set<Address>) {
    forall z :: Part(z, x) ==> Open(cfg, z, x)
  }

  /** Peer lists within `x` lead from the list of `i` to all of it. */
  ghost predicate Grown(cfg: Config, i: TmpId, x: set<Address>)
    requires i in cfg
  {
    forall z :: Part(z, x) && cfg[i].seeds <= z ==> Open(cfg, z, x)
  }

  lemma SpreadsFromMore(cfg: Config, w: TmpId, z: set<Address>, z': set<Address>)
    requires Spreads(cfg, w, z) && z <= z'
    ensures Spreads(cfg, w, z')
  {
    if cfg[w].seeds * z != {} {
      var a := Pick(cfg[w].seeds * z);
      assert a in cfg[w].seeds * z';
    } else if cfg[w].address !in z {
      var y :| Relays(cfg, y, w, z);
      var a := Pick(cfg[y].seeds * z);
      assert a in cfg[y].seeds * z';
      assert Relays(cfg, y, w, z');
    }
  }

  /** What leads out of the part of `z` in `x` leads out of `z` in anything larger. */
  lemma OpenInMore(cfg: Config, z: set<Address>, x: set<Address>, x': set<Address>)
    requires Open(cfg, z * x, x) && x <= x'
    ensures Open(cfg, z, x')
  {
    var w :| Extends(cfg, w, z * x, x);
    SpreadsFromMore(cfg, w, z * x, z);
    assert Extends(cfg, w, z, x');
  }

  lemma SeedsAreLinked(cfg: Config, i: TmpId)
    requires i in cfg
    ensures Linked(cfg, cfg[i].seeds)
  {
    forall z | Part(z, cfg[i].seeds) ensures Open(cfg, z, cfg[i].seeds) {
      assert cfg[i].seeds * z == z;
      assert Extends(cfg, i, z, cfg[i].seeds);
    }
  }

  /** Where a part of a union is a proper part of one side, that side leads out of it. */
  lemma PartOfSide(cfg: Config, z: set<Address>, x: set<Address>, x': set<Address>)
    requires Linked(cfg, x) && x <= x' && z * x != {} && !(x <= z)
    ensures Open(cfg, z, x')
  {
    var a := Outside(x, z);
    assert a !in z * x;
    assert Part(z * x, x);
    OpenInMore(cfg, z, x, x');
  }

  lemma LinkedUnion(cfg: Config, x: set<Address>, y: set<Address>)
    requires Linked(cfg, x) && Linked(cfg, y) && x * y != {}
    ensures Linked(cfg, x + y)
  {
    var c := Pick(x * y);
    forall z | Part(z, x + y) ensures Open(cfg, z, x + y) {
      var a := Outside(x + y, z);
      var b := Pick(z);
      if a in x && z * x != {} {
        PartOfSide(cfg, z, x, x + y);
      } else if a in y && z * y != {} {
        PartOfSide(cfg, z, y, x + y);
      } else if a in x {
        assert c !in z * x && b !in z * x && b in z * y;
        PartOfSide(cfg, z, y, x + y);
      } else {
        assert c !in z * y && b !in z * y && b in z * x;
        PartOfSide(cfg, z, x, x + y);
      }
    }
  }

  /** In what can be known, everybody is on a list that can be known. */
  lemma HasLister(cfg: Config, x: set<Address>, i: TmpId, a: Address) returns (w: TmpId)
    requires ValidConfig(cfg) && i in cfg && Linked(cfg, x) && cfg[i].seeds <= x && a in x
    ensures w in cfg && a in cfg[w].seeds && cfg[w].seeds <= x
  {
    var z := x - {a};
    if z == {} {
      w := i;
      var b := Pick(cfg[i].seeds);
      assert b !in z;
    } else {
      assert a !in z && Part(z, x);
      assert Open(cfg, z, x);
      w :| Extends(cfg, w, z, x);
    }
  }

  /** A request reaches `j` from somebody who knows `x`, and `j` among it. */
  lemma LinkedRequest(cfg: Config, j: TmpId, known: set<Address>, x: set<Address>, w: TmpId)
    requires ValidConfig(cfg) && j in cfg && Linked(cfg, known) && Linked(cfg, x) && cfg[j].seeds <= known
    requires w in cfg && cfg[j].address in cfg[w].seeds && cfg[w].seeds <= x
    ensures Linked(cfg, known + x)
  {
    var both := known + x;
    forall z | Part(z, both) ensures Open(cfg, z, both) {
      if z * known != {} && !(known <= z) {
        PartOfSide(cfg, z, known, both);
      } else if z * x != {} && !(x <= z) {
        PartOfSide(cfg, z, x, both);
      } else if known <= z {
        OutOfReceiver(cfg, j, known, x, w, z);
      } else {
        OutOfSender(cfg, j, known, x, w, z);
      }
    }
  }

  lemma OutOfReceiver(cfg: Config, j: TmpId, known: set<Address>, x: set<Address>, w: TmpId, z: set<Address>)
    requires ValidConfig(cfg) && j in cfg && cfg[j].seeds <= known
    requires w in cfg && cfg[j].address in cfg[w].seeds && cfg[w].seeds <= x
    requires Part(z, known + x) && known <= z && (z * x == {} || x <= z)
    ensures Open(cfg, z, known + x)
  {
    var a := Outside(known + x, z);
    assert a in x && z * x == {};
    var b := Pick(cfg[j].seeds);
    assert b in cfg[j].seeds * z;
    assert Relays(cfg, j, w, z);
    assert cfg[j].address !in z by {
      assert cfg[j].address !in z * x;
    }
    assert Extends(cfg, w, z, known + x);
  }

  lemma OutOfSender(cfg: Config, j: TmpId, known: set<Address>, x: set<Address>, w: TmpId, z: set<Address>)
    requires ValidConfig(cfg) && j in cfg && cfg[j].seeds <= known
    requires w in cfg && cfg[j].address in cfg[w].seeds && cfg[w].seeds <= x
    requires Part(z, known + x) && z * known == {} && (z * x == {} || x <= z)
    ensures Open(cfg, z, known + x)
  {
    var a := Pick(z);
    assert a !in z * known && a in z * x;
    assert cfg[j].address in z;
    var b := Pick(cfg[j].seeds);
    assert b !in z * known;
    assert Extends(cfg, j, z, known + x);
  }

  // ---- What instances know in a run ----------------------------------------------------------

  /** What an instance may have known when it asked for the answer `r`. */
  ghost predicate KnownToAsker(cfg: Config, r: Reply, x: set<Address>) {
    && r.to in cfg && r.state.Electing? && r.from in x && x <= r.state.election.peers
    && Linked(cfg, x) && cfg[r.to].seeds <= x
  }

  ghost predicate AnswerIsLinked(cfg: Config, r: Reply) {
    r.state.Electing? ==> Linked(cfg, r.state.election.peers) && exists x :: KnownToAsker(cfg, r, x)
  }

  ghost predicate KnowledgeInv(cfg: Config, s: Cluster)
    requires Shaped(cfg, s)
  {
    && (forall i :: i in cfg ==> Linked(cfg, s.last[i].peers))
    && (forall env :: env in s.requests ==> Linked(cfg, env.request.peers))
    && (forall r :: r in s.replies ==> AnswerIsLinked(cfg, r))
  }

  lemma DeliverKeepsKnowledge(cfg: Config, s: Cluster, k: TmpId, env: Envelope)
    requires ValidConfig(cfg) && Inv(cfg, s) && KnowledgeInv(cfg, s) && Delivers(cfg, s, k, env)
    ensures KnowledgeInv(cfg, Apply(cfg, s, Deliver(k, env)))
  {
    var s', i := Apply(cfg, s, Deliver(k, env)), env.request.tmpId;
    assert PeerInv(cfg, s, k) && RequestInv(cfg, env);
    if s.peers[k].state.Electing? {
      var w := HasLister(cfg, env.request.peers, i, env.to);
      LinkedRequest(cfg, k, s.last[k].peers, env.request.peers, w);
      var r := Reply(env.to, i, s'.peers[k].state);
      assert KnownToAsker(cfg, r, env.request.peers);
      assert AnswerIsLinked(cfg, r);
    }
  }

  lemma ReceiveKeepsKnowledge(cfg: Config, s: Cluster, r: Reply)
    requires ValidConfig(cfg) && Inv(cfg, s) && KnowledgeInv(cfg, s) && r in s.replies && r.to in cfg
    ensures KnowledgeInv(cfg, Apply(cfg, s, Receive(r)))
  {
    assert PeerInv(cfg, s, r.to) && ReplyInv(cfg, s, r) && AnswerIsLinked(cfg, r);
    var k :| ReplyFrom(cfg, s, r, k);
    if s.peers[r.to].state.Electing? && r.state.Electing? {
      var b := Pick(cfg[r.to].seeds);
      assert b in s.last[r.to].peers * r.state.election.peers;
      LinkedUnion(cfg, s.last[r.to].peers, r.state.election.peers);
    }
  }

  lemma StepKeepsKnowledge(cfg: Config, s: Cluster, step: Step)
    requires ValidConfig(cfg) && Inv(cfg, s) && KnowledgeInv(cfg, s)
    ensures KnowledgeInv(cfg, Apply(cfg, s, step))
  {
    match step {
      case Send(i, a) => if i in cfg { assert PeerInv(cfg, s, i); }
      case Deliver(k, env) => if Delivers(cfg, s, k, env) { DeliverKeepsKnowledge(cfg, s, k, env); }
      case Receive(r) => if r in s.replies && r.to in cfg { ReceiveKeepsKnowledge(cfg, s, r); }
    }
  }

  /** In every run, what instances know, ask and answer is linked. */
  lemma {:induction false} RunsKeepKnowledge(cfg: Config, steps: seq<Step>)
    requires ValidConfig(cfg)
    ensures KnowledgeInv(cfg, Exec(cfg, steps))
  {
    if steps == [] {
      forall i | i in cfg ensures Linked(cfg, Start(cfg).last[i].peers) {
        SeedsAreLinked(cfg, i);
      }
    } else {
      var before := steps[..|steps| - 1];
      RunsKeepInv(cfg, before);
      RunsKeepKnowledge(cfg, before);
      StepKeepsKnowledge(cfg, Exec(cfg, before), steps[|steps| - 1]);
    }
  }

  // ---- Closures ------------------------------------------------------------------------------

  /** The least closed set around `x`, for `x` within the closed set `u`. */
  ghost function Closure(cfg: Config, x: set<Address>, u: set<Address>): set<Address> {
    set a | a in u && forall c :: Closed(cfg, c) && x <= c ==> a in c
  }

  lemma ClosureIsClosed(cfg: Config, x: set<Address>, u: set<Address>)
    requires ValidConfig(cfg) && Closed(cfg, u) && x <= u
    ensures Closed(cfg, Closure(cfg, x, u)) && x <= Closure(cfg, x, u) <= u
  {
    var y := Closure(cfg, x, u);
    forall a | a in y ensures ListsWithin(cfg, a, y) {
      assert ListsWithin(cfg, a, u);
      var i :| Owns(cfg, i, a) && cfg[i].seeds <= u;
      forall b, c | b in cfg[i].seeds && Closed(cfg, c) && x <= c ensures b in c {
        assert ListsWithin(cfg, a, c);
        var j :| Owns(cfg, j, a) && cfg[j].seeds <= c;
        assert i == j;
      }
      assert cfg[i].seeds <= y;
    }
  }

  lemma ClosureIsGrown(cfg: Config, i: TmpId, x: set<Address>, u: set<Address>)
    requires ValidConfig(cfg) && Closed(cfg, u) && x <= u && i in cfg && cfg[i].seeds <= x && Linked(cfg, x)
    ensures Grown(cfg, i, Closure(cfg, x, u))
  {
    var y := Closure(cfg, x, u);
    ClosureIsClosed(cfg, x, u);
    forall z | Part(z, y) && cfg[i].seeds <= z ensures Open(cfg, z, y) {
      if x <= z {
        var a := Outside(y, z);
        assert !Closed(cfg, z);
        var b :| b in z && !ListsWithin(cfg, b, z);
        assert ListsWithin(cfg, b, y);
        var w :| Owns(cfg, w, b) && cfg[w].seeds <= y;
        assert Extends(cfg, w, z, y);
      } else {
        var b := Pick(cfg[i].seeds);
        assert b in z * x;
        PartOfSide(cfg, z, x, y);
      }
    }
  }

  // ---- Configurations that can split ---------------------------------------------------------

  /** `m` is the instance with the first voter's address in `e`. */
  ghost predicate Candidate(cfg: Config, e: set<Address>, m: TmpId) {
    && m in cfg && cfg[m].address in e && cfg[m].canVote && Listed(cfg, cfg[m].address)
    && forall v :: v in e && IsVoter(cfg, v) ==> cfg[m].address <= v
  }

  predicate Introduces(cfg: Config, w: TmpId, m: TmpId, e: set<Address>) {
    w in cfg && m in cfg && cfg[m].address in cfg[w].seeds && cfg[w].seeds <= e
  }

  /** `m` is the first voter of the closed set `e`, and on a peer list within it. */
  ghost predicate Contender(cfg: Config, e: set<Address>, m: TmpId) {
    Closed(cfg, e) && Candidate(cfg, e, m) && exists w :: Introduces(cfg, w, m, e)
  }

  /** `g` is a part of `u` that `i` can know all of before it hears of its own address. */
  ghost predicate Scouts(cfg: Config, i: TmpId, g: set<Address>, u: set<Address>) {
    i in cfg && Closed(cfg, g) && cfg[i].seeds <= g <= u && cfg[i].address !in g && Grown(cfg, i, g)
  }

  ghost predicate Scouted(cfg: Config, i: TmpId, a: Address, u: set<Address>) {
    exists g :: Scouts(cfg, i, g, u) && a in g
  }

  /** `k` can become leader with `e` and `n` with `f`: `n` is not in `e`, and everybody in both of them is
      scouted by one of the two. */
  ghost predicate Rivals(cfg: Config, k: TmpId, e: set<Address>, n: TmpId, f: set<Address>) {
    && Contender(cfg, e, k) && Contender(cfg, f, n) && cfg[n].address !in e
    && forall a :: a in e * f ==> Scouted(cfg, n, a, e * f) || Scouted(cfg, k, a, e * f)
  }

  ghost predicate Divided(cfg: Config) {
    exists k, e, n, f :: Rivals(cfg, k, e, n, f)
  }

  // ---- Two leaders divide the configuration --------------------------------------------------

  lemma LeaderIsContender(cfg: Config, s: Cluster, k: TmpId)
    requires ValidConfig(cfg) && Inv(cfg, s) && KnowledgeInv(cfg, s) && k in cfg && IsLeader(s, k)
    ensures Contender(cfg, s.last[k].peers, k)
  {
    var e := s.last[k].peers;
    LeaderHasElectorate(cfg, s, k);
    assert PeerInv(cfg, s, k);
    var w := HasLister(cfg, e, k, cfg[k].address);
    assert Introduces(cfg, w, k, e);
    forall v | v in e && IsVoter(cfg, v) ensures cfg[k].address <= v {
      var i, r := AnswerShows(cfg, s, k, v);
      var j :| Owns(cfg, j, v) && cfg[j].canVote;
      assert i == j;
    }
  }

  /** What `i` knew when it asked for an answer is part of what it can scout, if it did not know itself. */
  lemma KnownIsScouted(cfg: Config, i: TmpId, x: set<Address>, a: Address, u: set<Address>)
    requires ValidConfig(cfg) && i in cfg && Linked(cfg, x) && cfg[i].seeds <= x && a in x
    requires Closed(cfg, u) && x <= u && cfg[i].address !in u
    ensures Scouted(cfg, i, a, u)
  {
    ClosureIsClosed(cfg, x, u);
    ClosureIsGrown(cfg, i, x, u);
    assert Scouts(cfg, i, Closure(cfg, x, u), u);
  }

  /** Of two leaders that share a peer, the one that asked it first knew only what they share. */
  lemma FirstAsker(cfg: Config, s: Cluster, k: TmpId, n: TmpId, a: Address) returns (i: TmpId, x: set<Address>)
    requires ValidConfig(cfg) && Inv(cfg, s) && KnowledgeInv(cfg, s)
    requires k in cfg && n in cfg && IsLeader(s, k) && IsLeader(s, n) && a in s.last[k].peers * s.last[n].peers
    ensures (i == k || i == n) && Linked(cfg, x) && cfg[i].seeds <= x && a in x
    ensures x <= s.last[k].peers * s.last[n].peers
  {
    LeaderHasElectorate(cfg, s, k);
    LeaderHasElectorate(cfg, s, n);
    var _, r := AnswerShows(cfg, s, k, a);
    var _, q := AnswerShows(cfg, s, n, a);
    assert Comparable(r, q) && AnswerIsLinked(cfg, r) && AnswerIsLinked(cfg, q);
    if r.state.election.peers <= q.state.election.peers {
      i := k;
      x :| KnownToAsker(cfg, r, x);
    } else {
      i := n;
      x :| KnownToAsker(cfg, q, x);
    }
  }

  /** A leader that another one knows told it everything when it answered. */
  lemma KnownLeaderTold(cfg: Config, s: Cluster, k: TmpId, n: TmpId) returns (x: set<Address>)
    requires ValidConfig(cfg) && Inv(cfg, s) && KnowledgeInv(cfg, s)
    requires k in cfg && n in cfg && IsLeader(s, n) && cfg[k].address in s.last[n].peers
    ensures Linked(cfg, x) && cfg[n].seeds <= x && cfg[k].address in x
    ensures x <= s.last[k].peers * s.last[n].peers
  {
    LeaderHasElectorate(cfg, s, n);
    var i, r := AnswerShows(cfg, s, n, cfg[k].address);
    assert i == k && AnswerIsLinked(cfg, r);
    x :| KnownToAsker(cfg, r, x);
  }

  /** A smaller closed set with the same first voter. */
  lemma SmallerContender(cfg: Config, e: set<Address>, e': set<Address>, k: TmpId, w: TmpId)
    requires Contender(cfg, e, k) && Closed(cfg, e') && e' <= e && cfg[k].address in e' && Introduces(cfg, w, k, e')
    ensures Contender(cfg, e', k)
  {
  }

  lemma SharedIsClosed(cfg: Config, e: set<Address>, f: set<Address>)
    requires ValidConfig(cfg) && Closed(cfg, e) && Closed(cfg, f)
    ensures Closed(cfg, e * f)
  {
    forall a | a in e * f ensures ListsWithin(cfg, a, e * f) {
      assert ListsWithin(cfg, a, e) && ListsWithin(cfg, a, f);
      var i :| Owns(cfg, i, a) && cfg[i].seeds <= e;
      var j :| Owns(cfg, j, a) && cfg[j].seeds <= f;
      assert i == j;
    }
  }

  /** A leader that is known to one it does not know was scouted by it. */
  lemma KnownRival(cfg: Config, s: Cluster, k: TmpId, n: TmpId)
    requires ValidConfig(cfg) && Inv(cfg, s) && KnowledgeInv(cfg, s)
    requires k in cfg && n in cfg && IsLeader(s, k) && IsLeader(s, n)
    requires cfg[n].address !in s.last[k].peers && cfg[k].address in s.last[n].peers
    ensures Divided(cfg)
  {
    var e, f := s.last[k].peers, s.last[n].peers;
    LeaderIsContender(cfg, s, k);
    LeaderIsContender(cfg, s, n);
    SharedIsClosed(cfg, e, f);
    var x := KnownLeaderTold(cfg, s, k, n);
    var g := Closure(cfg, x, e * f);
    ClosureIsClosed(cfg, x, e * f);
    ClosureIsGrown(cfg, n, x, e * f);
    var w := HasLister(cfg, x, n, cfg[k].address);
    SmallerContender(cfg, e, g, k, w);
    assert g * f == g;
    assert Scouts(cfg, n, g, g);
    assert Rivals(cfg, k, g, n, f);
  }

  lemma UnknownRival(cfg: Config, s: Cluster, k: TmpId, n: TmpId)
    requires ValidConfig(cfg) && Inv(cfg, s) && KnowledgeInv(cfg, s)
    requires k in cfg && n in cfg && IsLeader(s, k) && IsLeader(s, n)
    requires cfg[n].address !in s.last[k].peers && cfg[k].address !in s.last[n].peers
    ensures Divided(cfg)
  {
    var e, f := s.last[k].peers, s.last[n].peers;
    LeaderIsContender(cfg, s, k);
    LeaderIsContender(cfg, s, n);
    SharedIsClosed(cfg, e, f);
    forall a | a in e * f ensures Scouted(cfg, n, a, e * f) || Scouted(cfg, k, a, e * f) {
      var i, x := FirstAsker(cfg, s, k, n, a);
      KnownIsScouted(cfg, i, x, a, e * f);
    }
    assert Rivals(cfg, k, e, n, f);
  }

  /** A run with two leaders divides the configuration. */
  lemma TwoLeadersDivide(cfg: Config, steps: seq<Step>, k: TmpId, n: TmpId)
    requires ValidConfig(cfg) && k in cfg && n in cfg && k != n
    requires IsLeader(Exec(cfg, steps), k) && IsLeader(Exec(cfg, steps), n)
    ensures Divided(cfg)
  {
    var s := Exec(cfg, steps);
    RunsKeepInv(cfg, steps);
    RunsKeepKnowledge(cfg, steps);
    var nInE, kInF := cfg[n].address in s.last[k].peers, cfg[k].address in s.last[n].peers;
    if !nInE && !kInF {
      UnknownRival(cfg, s, k, n);
    } else if !nInE {
      KnownRival(cfg, s, k, n);
    } else {
      if kInF {
        KnownVoterIsNotSmaller(cfg, s, k, n);
        KnownVoterIsNotSmaller(cfg, s, n, k);
      }
      KnownRival(cfg, s, n, k);
    }
  }
}
