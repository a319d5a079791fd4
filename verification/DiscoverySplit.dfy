/**
 Runs of bootstrap discovery with two leaders, and exactly when there are any.

 If the configuration is divided, the rivals of `DiscoveryKnowledge` both become leader in some
 run: each scouts its part before it hears of its own address, is then told of it, and tours its
 electorate. So all runs of a configuration have at most one leader exactly when it is not
 divided. Special cases are electorates without a common address, and stray voters.
 */
module DiscoverySplit {
  import opened Sets
  import opened Discovery
  import opened DiscoveryProtocol
  import opened DiscoveryAgreement
  import opened DiscoveryKnowledge
  import opened DiscoveryTours
  import opened DiscoveryScouting

  // ---- Both rivals -----------------------------------------------------------------------------

  lemma StartIsCalm(cfg: Config, g: set<Address>)
    ensures AllCalm(cfg, Start(cfg), g) && AllFree(cfg, Start(cfg))
  {
  }

  lemma CalmInMore(cfg: Config, s: Cluster, g: set<Address>, h: set<Address>)
    requires Shaped(cfg, s) && AllCalm(cfg, s, g) && g <= h
    ensures AllCalm(cfg, s, h)
  {
    forall i | i in cfg ensures Calm(cfg, s, h, i) {
      assert Calm(cfg, s, g, i);
    }
  }

  lemma ScoutFirst(cfg: Config, k: TmpId, u: set<Address>) returns (steps: seq<Step>)
    requires ValidConfig(cfg) && k in cfg
    ensures var s, p := Exec(cfg, steps), ScoutedPart(cfg, k, u);
            AllCalm(cfg, s, u) && AllFree(cfg, s) && Held(s, k, p) && Later(cfg, Start(cfg), s, {k})
  {
    var p := ScoutedPart(cfg, k, u);
    steps := [];
    StartIsCalm(cfg, u);
    if p != {} {
      PartIsScouted(cfg, k, u);
      StartIsCalm(cfg, p);
      steps := Scout(cfg, [], p, p, k);
      CalmInMore(cfg, Exec(cfg, steps), p, u);
    }
  }

  lemma ScoutSecond(cfg: Config, steps: seq<Step>, n: TmpId, u: set<Address>)
    returns (steps': seq<Step>, q: set<Address>)
    requires ValidConfig(cfg) && Closed(cfg, u) && n in cfg && cfg[n].address !in u
    requires var s := Exec(cfg, steps); AllCalm(cfg, s, u) && AllFree(cfg, s) && s.peers[n].visited == {}
    ensures var s, s' := Exec(cfg, steps), Exec(cfg, steps');
            && AllCalm(cfg, s', u) && AllFree(cfg, s') && s.replies <= s'.replies
            && Held(s', n, q) && ScoutedPart(cfg, n, u) <= q <= u
  {
    var g := ScoutedPart(cfg, n, u);
    steps', q := steps, {};
    if g != {} {
      PartIsScouted(cfg, n, u);
      steps' := Scout(cfg, steps, g, u, n);
      q := Exec(cfg, steps').last[n].peers;
    }
  }

  /** Both have scouted what they can. */
  lemma ScoutBoth(cfg: Config, k: TmpId, n: TmpId, u: set<Address>) returns (steps: seq<Step>, q: set<Address>)
    requires ValidConfig(cfg) && Closed(cfg, u) && k in cfg && n in cfg && k != n && cfg[n].address !in u
    ensures var s, p := Exec(cfg, steps), ScoutedPart(cfg, k, u);
            && AllCalm(cfg, s, u) && AllFree(cfg, s)
            && Held(s, k, p) && Held(s, n, q) && ScoutedPart(cfg, n, u) <= q <= u
  {
    var first := ScoutFirst(cfg, k, u);
    var s := Exec(cfg, first);
    assert s.peers[n].visited <= Start(cfg).peers[n].visited;
    steps, q := ScoutSecond(cfg, first, n, u);
    HeldStays(s, Exec(cfg, steps), k, ScoutedPart(cfg, k, u));
  }

  /** Somebody who lists `m` asks it, and `m` hears of its own address. */
  lemma Tell(cfg: Config, steps: seq<Step>, e: set<Address>, m: TmpId, w: TmpId) returns (steps': seq<Step>)
    requires ValidConfig(cfg) && Introduces(cfg, w, m, e)
    requires var s := Exec(cfg, steps);
             && Inside(s, w, e) && Inside(s, m, e) && Free(s, w)
             && (cfg[m].address in s.last[m].peers ==> s.peers[m].visited == {})
    ensures var s, s' := Exec(cfg, steps), Exec(cfg, steps');
            && SameOutside(cfg, s, s', {cfg[m].address}) && s.replies <= s'.replies
            && Inside(s', m, e) && cfg[m].address in s'.last[m].peers && cfg[m].address in Touring(s', m)
  {
    var s := Exec(cfg, steps);
    RunsKeepInv(cfg, steps);
    assert PeerInv(cfg, s, w);
    FreeMayAsk(cfg, s, w, m);
    steps' := AskSteps(cfg, steps, w, m);
    AskEffect(cfg, s, w, m);
    ToldIsInside(cfg, s, Exec(cfg, steps'), e, m, w);
  }

  lemma ToldIsInside(cfg: Config, s: Cluster, s': Cluster, e: set<Address>, m: TmpId, w: TmpId)
    requires ValidConfig(cfg) && Shaped(cfg, s) && Shaped(cfg, s') && m in cfg && w in cfg && HasAsked(cfg, s, s', w, m)
    requires Inside(s, w, e) && Inside(s, m, e) && cfg[m].address in s.last[w].peers
    requires cfg[m].address in s.last[m].peers ==> s.peers[m].visited == {}
    ensures SameOutside(cfg, s, s', {cfg[m].address}) && s.replies <= s'.replies
    ensures Inside(s', m, e) && cfg[m].address in s'.last[m].peers && cfg[m].address in Touring(s', m)
  {
  }

  /** Where everybody is calm, the members of a closed set around `u` keep to it. */
  lemma CalmIsInside(cfg: Config, s: Cluster, u: set<Address>, e: set<Address>, i: TmpId)
    requires ValidConfig(cfg) && Shaped(cfg, s) && i in cfg && Calm(cfg, s, u, i) && u <= e
    requires cfg[i].seeds <= e
    ensures Inside(s, i, e)
  {
  }

  /** Being told changes nothing for the rest of the electorate. */
  lemma StaysConfined(cfg: Config, t: Cluster, t': Cluster, d: set<Address>, f: set<Address>, n: TmpId)
    requires ValidConfig(cfg) && Shaped(cfg, t) && Shaped(cfg, t') && n in cfg
    requires Confined(cfg, t, d, f, n) && SameOutside(cfg, t, t', {cfg[n].address})
    ensures Confined(cfg, t', d, f, n)
  {
    forall i | i in cfg && i != n && cfg[i].address in d ensures Inside(t', i, f) {
      assert Inside(t, i, f) && cfg[i].address != cfg[n].address;
    }
  }

  lemma ChangesAddUp(cfg: Config, s: Cluster, t: Cluster, s': Cluster, d: set<Address>, m: TmpId)
    requires Shaped(cfg, s) && Shaped(cfg, t) && Shaped(cfg, s') && m in cfg && cfg[m].address in d
    requires SameOutside(cfg, s, t, {cfg[m].address}) && SameOutside(cfg, t, s', d)
    ensures SameOutside(cfg, s, s', d)
  {
  }

  /** `m` may be told of its address by `w` and driven to leadership in `e`, holding answers from `r`. */
  ghost predicate Electable(cfg: Config, s: Cluster, e: set<Address>, r: set<Address>, m: TmpId, w: TmpId)
    requires Shaped(cfg, s) && m in cfg && w in cfg
  {
    && Inside(s, w, e) && Inside(s, m, e) && Free(s, w)
    && (cfg[m].address in s.last[m].peers ==> s.peers[m].visited == {})
    && Held(s, m, r) && Confined(cfg, s, e - r, e, m)
  }

  lemma Elect(cfg: Config, steps: seq<Step>, e: set<Address>, r: set<Address>, m: TmpId, w: TmpId)
    returns (steps': seq<Step>)
    requires ValidConfig(cfg) && Closed(cfg, e) && Candidate(cfg, e, m) && Introduces(cfg, w, m, e)
    requires r <= e && cfg[m].address !in r && Electable(cfg, Exec(cfg, steps), e, r, m, w)
    ensures var s, s' := Exec(cfg, steps), Exec(cfg, steps');
            IsLeader(s', m) && SameOutside(cfg, s, s', e - r) && s.replies <= s'.replies
  {
    var s := Exec(cfg, steps);
    var told := Tell(cfg, steps, e, m, w);
    var t := Exec(cfg, told);
    HeldStays(s, t, m, r);
    StaysConfined(cfg, s, t, e - r, e, m);
    steps' := DriveToLeader(cfg, told, e, r, m);
    ChangesAddUp(cfg, s, t, Exec(cfg, steps'), e - r, m);
  }

  /** Where everybody is calm, the first rival can be elected. */
  lemma FirstIsElectable(cfg: Config, s: Cluster, u: set<Address>, e: set<Address>, p: set<Address>, k: TmpId, w: TmpId)
    requires ValidConfig(cfg) && Shaped(cfg, s) && Closed(cfg, e) && Candidate(cfg, e, k) && Introduces(cfg, w, k, e)
    requires u <= e && AllCalm(cfg, s, u) && AllFree(cfg, s) && Held(s, k, p)
    ensures Electable(cfg, s, e, p, k, w)
  {
    forall i | i in cfg && cfg[i].address in e ensures Inside(s, i, e) {
      assert Calm(cfg, s, u, i);
      SeedsWithin(cfg, e, i);
      CalmIsInside(cfg, s, u, e, i);
    }
    assert Calm(cfg, s, u, k) && Calm(cfg, s, u, w) && Free(s, w);
    CalmIsInside(cfg, s, u, e, w);
  }

  /** Where the second rival's electorate is after that. */
  lemma SecondIsConfined(cfg: Config, s: Cluster, t: Cluster, e: set<Address>, n: TmpId, f: set<Address>,
                         p: set<Address>, q: set<Address>)
    requires ValidConfig(cfg) && Shaped(cfg, s) && Shaped(cfg, t) && Closed(cfg, f)
    requires AllCalm(cfg, s, e * f) && SameOutside(cfg, s, t, e - p) && e * f <= p + q
    ensures Confined(cfg, t, f - q, f, n)
  {
    forall i | i in cfg && i != n && cfg[i].address in f - q ensures Inside(t, i, f) {
      assert cfg[i].address !in e - p by {
        assert cfg[i].address in e ==> cfg[i].address in e * f;
      }
      assert Calm(cfg, s, e * f, i);
      SeedsWithin(cfg, f, i);
      CalmIsInside(cfg, s, e * f, f, i);
    }
  }

  /** The second rival and whoever lists it have noticed nothing. */
  lemma SecondIsUntouched(cfg: Config, s: Cluster, t: Cluster, e: set<Address>, n: TmpId, f: set<Address>,
                          p: set<Address>, w: TmpId)
    requires ValidConfig(cfg) && Shaped(cfg, s) && Shaped(cfg, t) && Closed(cfg, e) && Closed(cfg, f)
    requires Introduces(cfg, w, n, f) && cfg[n].address !in e && cfg[n].address in f
    requires AllCalm(cfg, s, e * f) && AllFree(cfg, s) && SameOutside(cfg, s, t, e - p)
    ensures Inside(t, w, f) && Inside(t, n, f) && Free(t, w)
    ensures cfg[n].address in t.last[n].peers ==> t.peers[n].visited == {}
  {
    assert cfg[w].address !in e by {
      if cfg[w].address in e {
        SeedsWithin(cfg, e, w);
      }
    }
    assert Calm(cfg, s, e * f, n) && Calm(cfg, s, e * f, w) && Free(s, w);
    SeedsWithin(cfg, f, n);
    CalmIsInside(cfg, s, e * f, f, n);
    CalmIsInside(cfg, s, e * f, f, w);
  }

  /** Rivals both become leader in some run. */
  lemma RivalsSplit(cfg: Config, k: TmpId, e: set<Address>, n: TmpId, f: set<Address>) returns (steps: seq<Step>)
    requires ValidConfig(cfg) && Rivals(cfg, k, e, n, f)
    ensures !SingleLeader(Exec(cfg, steps))
  {
    var u := e * f;
    SharedIsClosed(cfg, e, f);
    var scouted, q := ScoutBoth(cfg, k, n, u);
    var s, p := Exec(cfg, scouted), ScoutedPart(cfg, k, u);
    var v :| Introduces(cfg, v, k, e);
    SharedIsHeld(cfg, k, n, u, q);
    FirstIsElectable(cfg, s, u, e, p, k, v);
    var first := Elect(cfg, scouted, e, p, k, v);
    var w :| Introduces(cfg, w, n, f);
    HeldStays(s, Exec(cfg, first), n, q);
    SecondIsUntouched(cfg, s, Exec(cfg, first), e, n, f, p, w);
    SecondIsConfined(cfg, s, Exec(cfg, first), e, n, f, p, q);
    steps := Elect(cfg, first, f, q, n, w);
    assert cfg[k].address in f ==> cfg[k].address in u;
    assert IsLeader(Exec(cfg, steps), k) && IsLeader(Exec(cfg, steps), n);
  }

  lemma SharedIsHeld(cfg: Config, k: TmpId, n: TmpId, u: set<Address>, q: set<Address>)
    requires k in cfg && ScoutedPart(cfg, n, u) <= q
    requires forall a :: a in u ==> Scouted(cfg, n, a, u) || Scouted(cfg, k, a, u)
    ensures u <= ScoutedPart(cfg, k, u) + q && cfg[k].address !in ScoutedPart(cfg, k, u)
  {
  }

  /** The exact condition for agreement, for every configuration. */
  lemma AgreementIffUndivided(cfg: Config)
    requires ValidConfig(cfg)
    ensures (forall steps :: SingleLeader(Exec(cfg, steps))) <==> !Divided(cfg)
  {
    if Divided(cfg) {
      var k, e, n, f :| Rivals(cfg, k, e, n, f);
      var steps := RivalsSplit(cfg, k, e, n, f);
    } else {
      forall steps ensures SingleLeader(Exec(cfg, steps)) {
        forall i, j | IsLeader(Exec(cfg, steps), i) && IsLeader(Exec(cfg, steps), j) ensures i == j {
          if i != j {
            TwoLeadersDivide(cfg, steps, i, j);
          }
        }
      }
    }
  }

  ghost predicate FinishedAgree(s: Cluster) {
    forall i, j :: i in s.peers && j in s.peers && s.peers[i].state.Done? && s.peers[j].state.Done? ==>
      s.peers[i].state.role.LeaderAddress() == s.peers[j].state.role.LeaderAddress()
  }

  /** It is also the exact condition for all finished instances to name the same leader. */
  lemma FinishedAgreeIffUndivided(cfg: Config)
    requires ValidConfig(cfg)
    ensures (forall steps :: FinishedAgree(Exec(cfg, steps))) <==> !Divided(cfg)
  {
    AgreementIffUndivided(cfg);
    forall steps ensures FinishedAgree(Exec(cfg, steps)) <==> SingleLeader(Exec(cfg, steps)) {
      if SingleLeader(Exec(cfg, steps)) {
        OneLeaderIsNamed(cfg, steps);
      } else {
        TwoLeadersDisagree(cfg, steps);
      }
    }
  }

  lemma OneLeaderIsNamed(cfg: Config, steps: seq<Step>)
    requires ValidConfig(cfg) && SingleLeader(Exec(cfg, steps))
    ensures FinishedAgree(Exec(cfg, steps))
  {
    var s := Exec(cfg, steps);
    forall i, j | i in s.peers && j in s.peers && s.peers[i].state.Done? && s.peers[j].state.Done?
      ensures s.peers[i].state.role.LeaderAddress() == s.peers[j].state.role.LeaderAddress()
    {
      var a := NamedLeader(cfg, steps, i);
      var b := NamedLeader(cfg, steps, j);
    }
  }

  lemma TwoLeadersDisagree(cfg: Config, steps: seq<Step>)
    requires ValidConfig(cfg) && !SingleLeader(Exec(cfg, steps))
    ensures !FinishedAgree(Exec(cfg, steps))
  {
    var s := Exec(cfg, steps);
    var i, j :| IsLeader(s, i) && IsLeader(s, j) && i != j;
    RunsAreValid(cfg, steps, i);
    RunsAreValid(cfg, steps, j);
  }

  // ---- Special cases -----------------------------------------------------------------------------

  lemma {:induction false} FirstOf(s: set<Address>) returns (a: Address)
    requires s != {}
    ensures IsFirst(a, s)
  {
    a := Pick(s);
    assert s == {a} + (s - {a});
    if s - {a} != {} {
      var b := FirstOf(s - {a});
      if b < a {
        a := b;
      }
    }
  }

  lemma HasCandidate(cfg: Config, e: set<Address>) returns (m: TmpId)
    requires ValidConfig(cfg) && Electorate(cfg, e)
    ensures Candidate(cfg, e, m)
  {
    var voters := set a | a in e && IsVoter(cfg, a);
    var v :| v in e && IsVoter(cfg, v);
    assert v in voters;
    var x := FirstOf(voters);
    m :| Owns(cfg, m, x) && cfg[m].canVote;
    assert Listed(cfg, x);
    forall u | u in e && IsVoter(cfg, u) ensures x <= u {
      assert u in voters;
    }
  }

  /** Following peer lists from its own, the instance comes to its own address. */
  ghost predicate FindsItself(cfg: Config, m: TmpId)
    requires m in cfg
  {
    forall e :: Closed(cfg, e) && cfg[m].seeds <= e ==> cfg[m].address in e
  }

  /** Somebody in every closed set around it lists an instance that finds itself. */
  lemma FoundIsIntroduced(cfg: Config, e: set<Address>, m: TmpId) returns (w: TmpId)
    requires ValidConfig(cfg) && Closed(cfg, e) && m in cfg && cfg[m].address in e && FindsItself(cfg, m)
    ensures Introduces(cfg, w, m, e)
  {
    if forall i :: i in cfg && cfg[i].address in e ==> !Introduces(cfg, i, m, e) {
      ClosedWithoutIt(cfg, e, m);
      assert false;
    }
    w :| w in cfg && cfg[w].address in e && Introduces(cfg, w, m, e);
  }

  lemma ClosedWithoutIt(cfg: Config, e: set<Address>, m: TmpId)
    requires ValidConfig(cfg) && Closed(cfg, e) && m in cfg && cfg[m].address in e
    requires forall i :: i in cfg && cfg[i].address in e ==> !Introduces(cfg, i, m, e)
    ensures Closed(cfg, e - {cfg[m].address}) && cfg[m].seeds <= e - {cfg[m].address}
  {
    var x := cfg[m].address;
    forall a | a in e ensures ListsWithin(cfg, a, e - {x}) {
      assert ListsWithin(cfg, a, e);
      var i :| Owns(cfg, i, a) && cfg[i].seeds <= e;
      assert !Introduces(cfg, i, m, e);
    }
    SeedsWithin(cfg, e, m);
    assert !Introduces(cfg, m, m, e);
  }

  lemma FindsItselfContends(cfg: Config, e: set<Address>, m: TmpId)
    requires ValidConfig(cfg) && Closed(cfg, e) && Candidate(cfg, e, m) && FindsItself(cfg, m)
    ensures Contender(cfg, e, m)
  {
    var w := FoundIsIntroduced(cfg, e, m);
  }

  /** Disjoint electorates elect two leaders in some run. */
  lemma DisjointElectoratesSplit(cfg: Config, e: set<Address>, f: set<Address>) returns (steps: seq<Step>)
    requires ValidConfig(cfg) && VotersFindThemselves(cfg)
    requires Electorate(cfg, e) && Electorate(cfg, f) && e * f == {}
    ensures !SingleLeader(Exec(cfg, steps))
  {
    var k := HasCandidate(cfg, e);
    var n := HasCandidate(cfg, f);
    assert cfg[n].address !in e * f;
    FindsItselfContends(cfg, e, k);
    FindsItselfContends(cfg, f, n);
    steps := RivalsSplit(cfg, k, e, n, f);
  }

  /** The exact condition when listed voters find themselves. */
  lemma AgreementIffElectoratesMeet(cfg: Config)
    requires ValidConfig(cfg) && VotersFindThemselves(cfg)
    ensures (forall steps :: SingleLeader(Exec(cfg, steps))) <==> ElectoratesMeet(cfg)
  {
    if ElectoratesMeet(cfg) {
      FoundIsNotStray(cfg);
      forall steps ensures SingleLeader(Exec(cfg, steps)) {
        AtMostOneLeader(cfg, steps);
      }
    } else {
      var e, f :| Electorate(cfg, e) && Electorate(cfg, f) && e * f == {};
      var steps := DisjointElectoratesSplit(cfg, e, f);
    }
  }

  /** Every address of `e` is reached by following peer lists from those of `k`. */
  ghost predicate AllReachable(cfg: Config, k: TmpId, e: set<Address>)
    requires k in cfg
  {
    forall c :: Closed(cfg, c) && cfg[k].seeds <= c ==> e <= c
  }

  lemma ReachableIsGrown(cfg: Config, k: TmpId, e: set<Address>)
    requires ValidConfig(cfg) && k in cfg && Closed(cfg, e) && AllReachable(cfg, k, e)
    ensures Grown(cfg, k, e)
  {
    forall z | Part(z, e) && cfg[k].seeds <= z ensures Open(cfg, z, e) {
      var a := Outside(e, z);
      assert !Closed(cfg, z);
      var b :| b in z && !ListsWithin(cfg, b, z);
      assert ListsWithin(cfg, b, e);
      var w :| Owns(cfg, w, b) && cfg[w].seeds <= e;
      assert Extends(cfg, w, z, e);
    }
  }

  /** A stray voter that is first in an electorate of its own: it shares with the other electorate only
      what it reaches from its own peer list, and somebody who lists it keeps to its electorate. */
  ghost predicate StrayCandidate(cfg: Config, e: set<Address>, f: set<Address>, k: TmpId, c: TmpId) {
    && Closed(cfg, e) && Candidate(cfg, e, k) && Stray(cfg, k, f)
    && AllReachable(cfg, k, e * f)
    && c in cfg && cfg[k].address in cfg[c].seeds && cfg[c].seeds <= e
  }

  /** A stray candidate and the first voter of the other electorate both become leader in some run. */
  lemma StraySplits(cfg: Config, e: set<Address>, f: set<Address>, k: TmpId, c: TmpId, n: TmpId)
    returns (steps: seq<Step>)
    requires ValidConfig(cfg) && StrayCandidate(cfg, e, f, k, c)
    requires Candidate(cfg, f, n) && FindsItself(cfg, n)
    ensures !SingleLeader(Exec(cfg, steps))
  {
    FindsItselfContends(cfg, f, n);
    assert Introduces(cfg, c, k, e);
    SharedIsClosed(cfg, f, e);
    SeedsWithin(cfg, e, k);
    assert f * e == e * f;
    ReachableIsGrown(cfg, k, f * e);
    assert Scouts(cfg, k, f * e, f * e);
    steps := RivalsSplit(cfg, n, f, k, e);
  }

  /** Instance 1 lists only 2, instance 2 lists itself, instance 3 lists 1. */
  const UNLISTED: Config := map[1 := Member(1, true, {2}), 2 := Member(2, true, {2}), 3 := Member(3, true, {1})]

  /** Any two electorates meet here, yet two instances become leader. */
  lemma UnlistedVoterSplits() returns (steps: seq<Step>)
    ensures ValidConfig(UNLISTED) && ElectoratesMeet(UNLISTED) && !VotersFindThemselves(UNLISTED) && !NoStrays(UNLISTED)
    ensures !SingleLeader(Exec(UNLISTED, steps))
  {
    UnlistedConfig();
    UnlistedStray();
    steps := StraySplits(UNLISTED, {1, 2}, {2}, 1, 3, 2);
  }

  lemma UnlistedConfig()
    ensures ValidConfig(UNLISTED) && ElectoratesMeet(UNLISTED) && !VotersFindThemselves(UNLISTED)
    ensures !NoStrays(UNLISTED) && Stray(UNLISTED, 1, {2})
  {
    forall e, f | Electorate(UNLISTED, e) && Electorate(UNLISTED, f) ensures e * f != {} {
      UnlistedElectorate(e);
      UnlistedElectorate(f);
      assert 2 in e * f;
    }
    // instance 1 is listed by 3, but the lists reachable from its own are only {2}
    assert 1 in UNLISTED[3].seeds && Listed(UNLISTED, 1);
    assert Owns(UNLISTED, 2, 2) && ListsWithin(UNLISTED, 2, {2});
    assert Closed(UNLISTED, {2}) && UNLISTED[1].seeds <= {2} && UNLISTED[1].address !in {2};
    assert 2 in UNLISTED[2].seeds && Listed(UNLISTED, 2) && IsVoter(UNLISTED, 2);
    assert Electorate(UNLISTED, {2}) && Stray(UNLISTED, 1, {2});
  }

  lemma UnlistedStray()
    requires Stray(UNLISTED, 1, {2})
    ensures StrayCandidate(UNLISTED, {1, 2}, {2}, 1, 3)
    ensures Candidate(UNLISTED, {2}, 2) && FindsItself(UNLISTED, 2)
  {
    var both: set<Address>, two: set<Address> := {1, 2}, {2};
    assert Owns(UNLISTED, 1, 1) && Owns(UNLISTED, 2, 2);
    assert ListsWithin(UNLISTED, 1, both) && ListsWithin(UNLISTED, 2, both);
    assert both * two == two;
    assert 2 in UNLISTED[2].seeds && Listed(UNLISTED, 2);
  }

  lemma UnlistedElectorate(e: set<Address>)
    requires Electorate(UNLISTED, e)
    ensures 2 in e
  {
    var a :| a in e && IsVoter(UNLISTED, a);
    assert ListsWithin(UNLISTED, a, e);
    var i :| Owns(UNLISTED, i, a) && UNLISTED[i].seeds <= e;
    if i == 3 {
      assert 1 in e && ListsWithin(UNLISTED, 1, e);
      var j :| Owns(UNLISTED, j, 1) && UNLISTED[j].seeds <= e;
    }
  }
}
