/**
 Runs of bootstrap discovery in which an instance gets answers from all it can find before it hears of
 its own address. First everybody tells those on its list what it knows, so that lists spread as far
 as they can; then the instance tours.
 */
module DiscoveryScouting {
  import opened Sets
  import opened Discovery
  import opened DiscoveryProtocol
  import opened DiscoveryAgreement
  import opened DiscoveryKnowledge
  import opened DiscoveryTours

  // ---- Spreading lists -------------------------------------------------------------------------

  /** The instance is electing, has heard of nothing outside its own list and `g`, and has not toured since
      it heard of itself. */
  ghost predicate Calm(cfg: Config, s: Cluster, g: set<Address>, i: TmpId)
    requires Shaped(cfg, s) && i in cfg
  {
    && Inside(s, i, cfg[i].seeds + g)
    && (s.peers[i].address.Some? ==> cfg[i].address in s.last[i].peers)
    && (cfg[i].address in s.last[i].peers ==> s.peers[i].visited == {})
  }

  /** The instance may ask anybody it knows. */
  ghost predicate Free(s: Cluster, i: TmpId)
    requires i in s.peers && i in s.last
  {
    s.peers[i].visited == {} || s.last[i].peers <= s.peers[i].visited
  }

  ghost predicate AllCalm(cfg: Config, s: Cluster, g: set<Address>)
    requires Shaped(cfg, s)
  {
    forall i :: i in cfg ==> Calm(cfg, s, g, i)
  }

  ghost predicate AllFree(cfg: Config, s: Cluster)
    requires Shaped(cfg, s)
  {
    forall i :: i in cfg ==> Free(s, i)
  }

  /** Instances forget nothing, answers stay, and nobody but `scouts` has visited more. */
  ghost predicate Later(cfg: Config, s: Cluster, s': Cluster, scouts: set<TmpId>)
    requires Shaped(cfg, s) && Shaped(cfg, s')
  {
    && (forall i :: i in cfg ==> s.last[i].peers <= s'.last[i].peers)
    && (forall i :: i in cfg && i !in scouts ==> s'.peers[i].visited <= s.peers[i].visited)
    && s.replies <= s'.replies
  }

  lemma FreeMayAsk(cfg: Config, s: Cluster, m: TmpId, k: TmpId)
    requires Inv(cfg, s) && m in cfg && k in cfg && s.peers[m].state.Electing? && Free(s, m)
    requires cfg[k].address in s.last[m].peers
    ensures MayAsk(cfg, s, m, k)
  {
    assert PeerInv(cfg, s, m);
    if s.peers[m].visited != {} {
      assert s.last[m].peers - s.peers[m].visited == {};
    }
  }

  /** Somebody whose list lies in `g` asks somebody in `g`. */
  lemma AskKeepsCalm(cfg: Config, s: Cluster, s': Cluster, g: set<Address>, m: TmpId, k: TmpId)
    requires ValidConfig(cfg) && Closed(cfg, g) && Inv(cfg, s) && Shaped(cfg, s') && m in cfg && k in cfg
    requires HasAsked(cfg, s, s', m, k) && AllCalm(cfg, s, g) && cfg[m].seeds <= g && cfg[k].address in g
    requires cfg[k].address in s.last[m].peers
    ensures AllCalm(cfg, s', g) && Later(cfg, s, s', {})
    ensures s.last[m].peers <= s'.last[k].peers
    ensures forall i :: i in cfg && Free(s, i) ==> Free(s', i)
  {
    SeedsWithin(cfg, g, k);
    assert Calm(cfg, s, g, m) && Calm(cfg, s, g, k);
    forall i | i in cfg ensures Calm(cfg, s', g, i) && (Free(s, i) ==> Free(s', i)) {
      assert Calm(cfg, s, g, i);
      if i == k && s.last[m].peers <= s.last[k].peers {
        assert s'.last[k].peers == s.last[k].peers;
      }
    }
  }

  lemma Ask(cfg: Config, steps: seq<Step>, g: set<Address>, m: TmpId, k: TmpId) returns (steps': seq<Step>)
    requires ValidConfig(cfg) && Closed(cfg, g) && MayAsk(cfg, Exec(cfg, steps), m, k)
    requires AllCalm(cfg, Exec(cfg, steps), g) && cfg[m].seeds <= g && cfg[k].address in g
    requires cfg[k].address in Exec(cfg, steps).last[m].peers
    ensures var s, s' := Exec(cfg, steps), Exec(cfg, steps');
            && HasAsked(cfg, s, s', m, k) && AllCalm(cfg, s', g) && Later(cfg, s, s', {})
            && s.last[m].peers <= s'.last[k].peers
            && (forall i :: i in cfg && Free(s, i) ==> Free(s', i))
  {
    var s := Exec(cfg, steps);
    assert Calm(cfg, s, g, k);
    steps' := AskSteps(cfg, steps, m, k);
    AskEffect(cfg, s, m, k);
    AskKeepsCalm(cfg, s, Exec(cfg, steps'), g, m, k);
  }

  /** `t.0` is to ask `t.1`. */
  predicate IsTask(cfg: Config, g: set<Address>, t: (TmpId, Address)) {
    t.0 in cfg && cfg[t.0].seeds <= g && t.1 in cfg[t.0].seeds
  }

  ghost predicate Told(cfg: Config, s: Cluster, s': Cluster, t: (TmpId, Address))
    requires Shaped(cfg, s) && Shaped(cfg, s')
  {
    t.0 in cfg && forall j :: Owns(cfg, j, t.1) ==> s.last[t.0].peers <= s'.last[j].peers
  }

  lemma DoTask(cfg: Config, steps: seq<Step>, g: set<Address>, t: (TmpId, Address))
    returns (steps': seq<Step>, k: TmpId)
    requires ValidConfig(cfg) && Closed(cfg, g) && IsTask(cfg, g, t)
    requires AllCalm(cfg, Exec(cfg, steps), g) && AllFree(cfg, Exec(cfg, steps))
    ensures var s, s' := Exec(cfg, steps), Exec(cfg, steps');
            && AllCalm(cfg, s', g) && AllFree(cfg, s') && Later(cfg, s, s', {})
            && Owns(cfg, k, t.1) && s.last[t.0].peers <= s'.last[k].peers
  {
    var s, m := Exec(cfg, steps), t.0;
    assert ListsWithin(cfg, t.1, g);
    k :| Owns(cfg, k, t.1) && cfg[k].seeds <= g;
    RunsKeepInv(cfg, steps);
    assert PeerInv(cfg, s, m) && Calm(cfg, s, g, m) && Free(s, m);
    FreeMayAsk(cfg, s, m, k);
    steps' := Ask(cfg, steps, g, m, k);
  }

  lemma {:induction false} AskAll(cfg: Config, steps: seq<Step>, g: set<Address>, tasks: set<(TmpId, Address)>)
    returns (steps': seq<Step>)
    requires ValidConfig(cfg) && Closed(cfg, g) && forall t :: t in tasks ==> IsTask(cfg, g, t)
    requires AllCalm(cfg, Exec(cfg, steps), g) && AllFree(cfg, Exec(cfg, steps))
    ensures var s, s' := Exec(cfg, steps), Exec(cfg, steps');
            && AllCalm(cfg, s', g) && AllFree(cfg, s') && Later(cfg, s, s', {})
            && forall t :: t in tasks ==> Told(cfg, s, s', t)
    decreases |tasks|
  {
    steps' := steps;
    if tasks != {} {
      var t := Pick(tasks);
      var first, k := DoTask(cfg, steps, g, t);
      steps' := AskAll(cfg, first, g, tasks - {t});
      TasksAddUp(cfg, Exec(cfg, steps), Exec(cfg, first), Exec(cfg, steps'), tasks, t, k);
    }
  }

  lemma TasksAddUp(cfg: Config, s: Cluster, t: Cluster, s': Cluster, tasks: set<(TmpId, Address)>,
                   task: (TmpId, Address), k: TmpId)
    requires ValidConfig(cfg) && Shaped(cfg, s) && Shaped(cfg, t) && Shaped(cfg, s')
    requires Later(cfg, s, t, {}) && Later(cfg, t, s', {}) && forall u :: u in tasks ==> u.0 in cfg
    requires task in tasks && Owns(cfg, k, task.1) && s.last[task.0].peers <= t.last[k].peers
    requires forall u :: u in tasks - {task} ==> Told(cfg, t, s', u)
    ensures Later(cfg, s, s', {}) && forall u :: u in tasks ==> Told(cfg, s, s', u)
  {
    forall u | u in tasks ensures Told(cfg, s, s', u) {
      var i := u.0;
      assert i in cfg && s.last[i].peers <= t.last[i].peers;
      if u != task {
        assert u in tasks - {task} && Told(cfg, t, s', u);
      }
      forall j | Owns(cfg, j, u.1) ensures s.last[i].peers <= s'.last[j].peers {
        assert t.last[j].peers <= s'.last[j].peers;
      }
    }
  }

  /** Everybody in `g` knows the lists that can come to it. */
  ghost predicate Informed(cfg: Config, s: Cluster, g: set<Address>)
    requires Shaped(cfg, s)
  {
    forall j, w :: j in cfg && cfg[j].address in g && w in cfg && cfg[w].seeds <= g
                   && Spreads(cfg, w, {cfg[j].address}) ==>
      cfg[w].seeds <= s.last[j].peers
  }

  ghost function Tasks(cfg: Config, g: set<Address>): set<(TmpId, Address)> {
    set w, b | w in cfg && cfg[w].seeds <= g && b in cfg[w].seeds :: (w, b)
  }

  /** All whose lists lie in `g` ask all on their lists, twice. */
  lemma Spread(cfg: Config, steps: seq<Step>, g: set<Address>, h: set<Address>) returns (steps': seq<Step>)
    requires ValidConfig(cfg) && Closed(cfg, g) && Closed(cfg, h) && g <= h
    requires AllCalm(cfg, Exec(cfg, steps), h) && AllFree(cfg, Exec(cfg, steps))
    ensures var s, s' := Exec(cfg, steps), Exec(cfg, steps');
            AllCalm(cfg, s', h) && AllFree(cfg, s') && Later(cfg, s, s', {}) && Informed(cfg, s', g)
  {
    var once := AskAll(cfg, steps, h, Tasks(cfg, g));
    steps' := AskAll(cfg, once, h, Tasks(cfg, g));
    RunsKeepInv(cfg, steps);
    RunsKeepInv(cfg, steps');
    SpreadInforms(cfg, Exec(cfg, steps), Exec(cfg, once), Exec(cfg, steps'), g);
  }

  lemma SpreadInforms(cfg: Config, s: Cluster, t: Cluster, s': Cluster, g: set<Address>)
    requires ValidConfig(cfg) && Closed(cfg, g) && Inv(cfg, s) && Shaped(cfg, t) && Inv(cfg, s')
    requires Later(cfg, s, t, {}) && Later(cfg, t, s', {})
    requires forall u :: u in Tasks(cfg, g) ==> Told(cfg, s, t, u) && Told(cfg, t, s', u)
    ensures Later(cfg, s, s', {}) && Informed(cfg, s', g)
  {
    forall j, w | j in cfg && cfg[j].address in g && w in cfg && cfg[w].seeds <= g
                  && Spreads(cfg, w, {cfg[j].address})
      ensures cfg[w].seeds <= s'.last[j].peers
    {
      var b := cfg[j].address;
      assert PeerInv(cfg, s, w) && PeerInv(cfg, s', j);
      if cfg[w].address in {b} {
        assert w == j;
      } else if cfg[w].seeds * {b} != {} {
        var c := Pick(cfg[w].seeds * {b});
        assert (w, b) in Tasks(cfg, g) && Told(cfg, s, t, (w, b));
      } else {
        var y :| Relays(cfg, y, w, {b});
        RelayInforms(cfg, s, t, s', g, j, w, y);
      }
    }
  }

  lemma RelayInforms(cfg: Config, s: Cluster, t: Cluster, s': Cluster, g: set<Address>,
                     j: TmpId, w: TmpId, y: TmpId)
    requires ValidConfig(cfg) && Closed(cfg, g) && Inv(cfg, s) && Shaped(cfg, t) && Shaped(cfg, s') && j in cfg
    requires Relays(cfg, y, w, {cfg[j].address}) && cfg[w].seeds <= g
    requires forall u :: u in Tasks(cfg, g) ==> Told(cfg, s, t, u) && Told(cfg, t, s', u)
    ensures cfg[w].seeds <= s'.last[j].peers
  {
    var b := cfg[j].address;
    var c := Pick(cfg[y].seeds * {b});
    assert PeerInv(cfg, s, w);
    SeedsWithin(cfg, g, y);
    assert (w, cfg[y].address) in Tasks(cfg, g) && Told(cfg, s, t, (w, cfg[y].address));
    assert (y, b) in Tasks(cfg, g) && Told(cfg, t, s', (y, b));
    assert Owns(cfg, y, cfg[y].address) && Owns(cfg, j, b);
  }

  // ---- Scouting ----------------------------------------------------------------------------------

  /** What those that `x` visited knew at `s`, `x` knows at `t`. */
  ghost predicate Heard(cfg: Config, s: Cluster, t: Cluster, x: TmpId)
    requires Shaped(cfg, s) && Shaped(cfg, t) && x in cfg
  {
    forall j :: j in cfg && cfg[j].address in t.peers[x].visited ==> s.last[j].peers <= t.last[x].peers
  }

  /** While `x`, which is outside `h`, tours `h`. */
  ghost predicate Scouting(cfg: Config, s: Cluster, t: Cluster, h: set<Address>, x: TmpId)
    requires Shaped(cfg, s) && Shaped(cfg, t) && x in cfg
  {
    && AllCalm(cfg, t, h) && (forall i :: i in cfg && i != x ==> Free(t, i))
    && Later(cfg, s, t, {x}) && Heard(cfg, s, t, x)
  }

  /** Only `x` changes when it handles an answer. */
  ghost predicate Handled(u: Cluster, t': Cluster, x: TmpId, r: Reply)
    requires x in u.peers && x in u.last
  {
    && r.state.Electing? && t'.replies == u.replies
    && t'.peers == u.peers[x := OnResponse(u.peers[x], r.from, r.state)]
    && t'.last == u.last[x := MergeResponse(u.last[x], r.state.election)]
  }

  lemma ScoutHears(cfg: Config, s: Cluster, t: Cluster, u: Cluster, t': Cluster, h: set<Address>, x: TmpId, k: TmpId)
    requires ValidConfig(cfg) && Inv(cfg, t) && Inv(cfg, u) && Inv(cfg, t') && Shaped(cfg, s) && x in cfg && k in cfg
    requires cfg[x].seeds <= h && cfg[x].address !in h && k != x && cfg[k].seeds <= h && Scouting(cfg, s, t, h, x)
    requires HasAsked(cfg, t, u, x, k) && AllCalm(cfg, u, h) && Later(cfg, t, u, {})
    requires (forall i :: i in cfg && Free(t, i) ==> Free(u, i)) && cfg[k].address in Touring(t, x)
    requires t' == Apply(cfg, u, Receive(Reply(cfg[k].address, x, u.peers[k].state)))
    ensures Scouting(cfg, s, t', h, x) && TourShrinks(t, t', h, x)
  {
    ScoutGetsAnswer(cfg, t, u, h, x, k);
    ScoutHandles(cfg, u, t', h, x, Reply(cfg[k].address, x, u.peers[k].state));
    ScoutAddsUp(cfg, s, t, u, t', h, x, k);
  }

  lemma ScoutHandles(cfg: Config, u: Cluster, t': Cluster, h: set<Address>, x: TmpId, r: Reply)
    requires ValidConfig(cfg) && Inv(cfg, u) && Inv(cfg, t') && x in cfg && cfg[x].seeds <= h
    requires cfg[x].address !in h && AllCalm(cfg, u, h) && Inside(u, x, h) && Unhandled(u, x, r, h)
    requires t' == Apply(cfg, u, Receive(r))
    ensures Handled(u, t', x, r) && AllCalm(cfg, t', h) && TourShrinks(u, t', h, x)
  {
    HearEffect(cfg, u, t', x, r, h);
    ScoutStaysCalm(cfg, u, t', h, x, r);
    assert Calm(cfg, t', h, x);
    HearOne(cfg, u, t', h, x, r);
  }

  lemma ScoutAddsUp(cfg: Config, s: Cluster, t: Cluster, u: Cluster, t': Cluster, h: set<Address>, x: TmpId, k: TmpId)
    requires ValidConfig(cfg) && Inv(cfg, u) && Shaped(cfg, s) && Shaped(cfg, t) && Shaped(cfg, t')
    requires x in cfg && k in cfg && k != x && Scouting(cfg, s, t, h, x)
    requires HasAsked(cfg, t, u, x, k) && Later(cfg, t, u, {}) && (forall i :: i in cfg && Free(t, i) ==> Free(u, i))
    requires u.last[x] == t.last[x] && u.peers[x] == t.peers[x]
    requires Handled(u, t', x, Reply(cfg[k].address, x, u.peers[k].state))
    requires AllCalm(cfg, t', h) && TourShrinks(u, t', h, x)
    ensures Scouting(cfg, s, t', h, x) && TourShrinks(t, t', h, x)
  {
    ScoutHeard(cfg, s, t, u, t', x, k);
    OthersStayFree(cfg, t, u, t', x);
  }

  lemma ScoutGetsAnswer(cfg: Config, t: Cluster, u: Cluster, h: set<Address>, x: TmpId, k: TmpId)
    requires Shaped(cfg, t) && Shaped(cfg, u) && x in cfg && k in cfg && k != x
    requires cfg[x].seeds <= h && cfg[k].seeds <= h && HasAsked(cfg, t, u, x, k) && AllCalm(cfg, u, h)
    requires cfg[k].address in Touring(t, x)
    ensures Inside(u, x, h) && Unhandled(u, x, Reply(cfg[k].address, x, u.peers[k].state), h)
    ensures u.last[x] == t.last[x] && u.peers[x] == t.peers[x]
  {
    assert Calm(cfg, u, h, x) && Calm(cfg, u, h, k);
    assert cfg[x].seeds + h == h && cfg[k].seeds + h == h;
  }

  lemma OthersStayFree(cfg: Config, t: Cluster, u: Cluster, t': Cluster, x: TmpId)
    requires Shaped(cfg, t) && Shaped(cfg, u) && Shaped(cfg, t') && x in cfg
    requires forall i :: i in cfg && i != x ==> Free(t, i) && t'.peers[i] == u.peers[i] && t'.last[i] == u.last[i]
    requires forall i :: i in cfg && Free(t, i) ==> Free(u, i)
    ensures forall i :: i in cfg && i != x ==> Free(t', i)
  {
    forall i | i in cfg && i != x ensures Free(t', i) {
      assert Free(t, i) && Free(u, i);
    }
  }

  /** A scout has not heard of its own address, so it does not win. */
  lemma ScoutStaysCalm(cfg: Config, u: Cluster, t': Cluster, h: set<Address>, x: TmpId, r: Reply)
    requires ValidConfig(cfg) && Inv(cfg, u) && Shaped(cfg, t') && x in cfg && cfg[x].seeds <= h
    requires cfg[x].address !in h && AllCalm(cfg, u, h) && Inside(u, x, h) && Unhandled(u, x, r, h)
    requires Handled(u, t', x, r)
    ensures AllCalm(cfg, t', h)
  {
    assert Calm(cfg, u, h, x) && PeerInv(cfg, u, x);
    forall i | i in cfg ensures Calm(cfg, t', h, i) {
      assert Calm(cfg, u, h, i);
    }
  }

  lemma ScoutHeard(cfg: Config, s: Cluster, t: Cluster, u: Cluster, t': Cluster, x: TmpId, k: TmpId)
    requires ValidConfig(cfg) && Inv(cfg, u) && Shaped(cfg, s) && Shaped(cfg, t) && Shaped(cfg, t')
    requires x in cfg && k in cfg && k != x
    requires Later(cfg, s, t, {x}) && Heard(cfg, s, t, x) && HasAsked(cfg, t, u, x, k) && Later(cfg, t, u, {})
    requires Handled(u, t', x, Reply(cfg[k].address, x, u.peers[k].state))
    ensures Later(cfg, s, t', {x}) && Heard(cfg, s, t', x)
  {
    assert PeerInv(cfg, u, x);
    forall j | j in cfg && cfg[j].address in t'.peers[x].visited ensures s.last[j].peers <= t'.last[x].peers {
      assert j == k || cfg[j].address in t.peers[x].visited;
    }
  }

  lemma ScoutOne(cfg: Config, s: Cluster, steps: seq<Step>, h: set<Address>, x: TmpId, a: Address)
    returns (steps': seq<Step>)
    requires ValidConfig(cfg) && Closed(cfg, h) && Shaped(cfg, s) && x in cfg
    requires cfg[x].seeds <= h && cfg[x].address !in h
    requires Scouting(cfg, s, Exec(cfg, steps), h, x) && a in Touring(Exec(cfg, steps), x)
    ensures var t, t' := Exec(cfg, steps), Exec(cfg, steps');
            Scouting(cfg, s, t', h, x) && TourShrinks(t, t', h, x)
  {
    var t := Exec(cfg, steps);
    assert Calm(cfg, t, h, x) && cfg[x].seeds + h == h;
    assert ListsWithin(cfg, a, h);
    var k :| Owns(cfg, k, a) && cfg[k].seeds <= h;
    TourIsTarget(cfg, steps, x, k);
    var asked := Ask(cfg, steps, h, x, k);
    var u := Exec(cfg, asked);
    var r := Reply(a, x, u.peers[k].state);
    steps' := asked + [Receive(r)];
    ExecAppend(cfg, asked, Receive(r));
    RunsKeepInv(cfg, steps);
    RunsKeepInv(cfg, asked);
    RunsKeepInv(cfg, steps');
    ScoutHears(cfg, s, t, u, Exec(cfg, steps'), h, x, k);
  }

  lemma {:induction false} ScoutAll(cfg: Config, s: Cluster, steps: seq<Step>, h: set<Address>, x: TmpId)
    returns (steps': seq<Step>)
    requires ValidConfig(cfg) && Closed(cfg, h) && Shaped(cfg, s) && x in cfg
    requires cfg[x].seeds <= h && cfg[x].address !in h && Scouting(cfg, s, Exec(cfg, steps), h, x)
    ensures Scouting(cfg, s, Exec(cfg, steps'), h, x) && Touring(Exec(cfg, steps'), x) == {}
    decreases var t := Exec(cfg, steps); |h - t.last[x].peers|, var t := Exec(cfg, steps); |Touring(t, x)|
  {
    steps' := steps;
    if Touring(Exec(cfg, steps), x) != {} {
      var a := Pick(Touring(Exec(cfg, steps), x));
      steps' := ScoutOne(cfg, s, steps, h, x, a);
      steps' := ScoutAll(cfg, s, steps', h, x);
    }
  }

  /** In the end it knows all that it can scout, and holds the answers. */
  lemma ScoutKnows(cfg: Config, s: Cluster, t: Cluster, g: set<Address>, h: set<Address>, x: TmpId)
    requires ValidConfig(cfg) && Shaped(cfg, s) && Inv(cfg, t) && Scouts(cfg, x, g, h) && Informed(cfg, s, g)
    requires Scouting(cfg, s, t, h, x) && Touring(t, x) == {}
    ensures g <= t.last[x].peers && Held(t, x, t.last[x].peers) && Free(t, x)
  {
    var p := t.last[x].peers;
    assert PeerInv(cfg, t, x) && Calm(cfg, t, h, x);
    assert p <= t.peers[x].visited by {
      forall a | a in p ensures a in t.peers[x].visited {
        assert a !in Touring(t, x);
      }
    }
    forall a | a in p ensures HeldFrom(t, x, a, p) {
      assert AnswerCovered(t, x, a, t.last[x]);
      var r :| r in t.replies && Covers(r, x, a, t.last[x]);
    }
    if !(g <= p) {
      NothingLeft(cfg, s, t, g, x);
    }
  }

  lemma NothingLeft(cfg: Config, s: Cluster, t: Cluster, g: set<Address>, x: TmpId)
    requires ValidConfig(cfg) && Shaped(cfg, s) && Shaped(cfg, t) && x in cfg && Closed(cfg, g)
    requires cfg[x].seeds <= g && Grown(cfg, x, g) && Informed(cfg, s, g) && Heard(cfg, s, t, x)
    requires cfg[x].seeds <= t.last[x].peers <= t.peers[x].visited
    ensures g <= t.last[x].peers
  {
    var p := t.last[x].peers;
    if !(g <= p) {
      var a := Outside(g, p);
      var b := Pick(cfg[x].seeds);
      assert a !in p * g && b in p * g && Part(p * g, g) && Open(cfg, p * g, g);
      var w :| Extends(cfg, w, p * g, g);
      NoWayOut(cfg, s, t, g, x, w);
    }
  }

  /** A list that can come to those it knows, it has heard of. */
  lemma NoWayOut(cfg: Config, s: Cluster, t: Cluster, g: set<Address>, x: TmpId, w: TmpId)
    requires ValidConfig(cfg) && Shaped(cfg, s) && Shaped(cfg, t) && x in cfg && Closed(cfg, g)
    requires Informed(cfg, s, g) && Heard(cfg, s, t, x) && t.last[x].peers <= t.peers[x].visited
    requires Spreads(cfg, w, t.last[x].peers * g) && cfg[w].seeds <= g
    ensures cfg[w].seeds <= t.last[x].peers * g
  {
    var c := SpreadsFromOne(cfg, w, t.last[x].peers * g);
    assert ListsWithin(cfg, c, g);
    var j :| Owns(cfg, j, c) && cfg[j].seeds <= g;
    assert cfg[w].seeds <= s.last[j].peers <= t.last[x].peers;
  }

  lemma SpreadsFromOne(cfg: Config, w: TmpId, z: set<Address>) returns (c: Address)
    requires Spreads(cfg, w, z)
    ensures c in z && Spreads(cfg, w, {c})
  {
    if cfg[w].address in z {
      c := cfg[w].address;
    } else if cfg[w].seeds * z != {} {
      c := Pick(cfg[w].seeds * z);
      assert c in cfg[w].seeds * {c};
    } else {
      var y :| Relays(cfg, y, w, z);
      c := Pick(cfg[y].seeds * z);
      assert c in cfg[y].seeds * {c};
      assert Relays(cfg, y, w, {c});
    }
  }

  /** `x` scouts `g`; whatever else it hears of lies in `h`. */
  lemma Scout(cfg: Config, steps: seq<Step>, g: set<Address>, h: set<Address>, x: TmpId) returns (steps': seq<Step>)
    requires ValidConfig(cfg) && Closed(cfg, h) && Scouts(cfg, x, g, h) && cfg[x].address !in h
    requires var s := Exec(cfg, steps);
             AllCalm(cfg, s, h) && AllFree(cfg, s) && s.peers[x].visited == {}
    ensures var s, s' := Exec(cfg, steps), Exec(cfg, steps');
            && AllCalm(cfg, s', h) && AllFree(cfg, s') && Later(cfg, s, s', {x})
            && g <= s'.last[x].peers <= h && Held(s', x, s'.last[x].peers)
  {
    var spread := Spread(cfg, steps, g, h);
    ScoutingStarts(cfg, Exec(cfg, steps), Exec(cfg, spread), h, x);
    steps' := ScoutAll(cfg, Exec(cfg, spread), spread, h, x);
    RunsKeepInv(cfg, steps');
    ScoutReturns(cfg, Exec(cfg, steps), Exec(cfg, spread), Exec(cfg, steps'), g, h, x);
  }

  lemma ScoutingStarts(cfg: Config, s: Cluster, t: Cluster, h: set<Address>, x: TmpId)
    requires Shaped(cfg, s) && Shaped(cfg, t) && x in cfg && s.peers[x].visited == {}
    requires Later(cfg, s, t, {}) && AllCalm(cfg, t, h) && AllFree(cfg, t)
    ensures Scouting(cfg, t, t, h, x)
  {
    assert t.peers[x].visited <= s.peers[x].visited;
  }

  lemma ScoutReturns(cfg: Config, s: Cluster, t: Cluster, s': Cluster, g: set<Address>, h: set<Address>, x: TmpId)
    requires ValidConfig(cfg) && Shaped(cfg, s) && Shaped(cfg, t) && Inv(cfg, s') && Scouts(cfg, x, g, h)
    requires Later(cfg, s, t, {}) && Informed(cfg, t, g) && Scouting(cfg, t, s', h, x) && Touring(s', x) == {}
    ensures AllCalm(cfg, s', h) && AllFree(cfg, s') && Later(cfg, s, s', {x})
    ensures g <= s'.last[x].peers <= h && Held(s', x, s'.last[x].peers)
  {
    ScoutKnows(cfg, t, s', g, h, x);
    assert Calm(cfg, s', h, x) && cfg[x].seeds + h == h;
  }

  /** All that an instance can scout of `u`. */
  ghost function ScoutedPart(cfg: Config, i: TmpId, u: set<Address>): set<Address> {
    set a | a in u && Scouted(cfg, i, a, u)
  }

  lemma ScoutsIsPart(cfg: Config, i: TmpId, g: set<Address>, u: set<Address>)
    requires Scouts(cfg, i, g, u)
    ensures g <= ScoutedPart(cfg, i, u)
  {
  }

  lemma PartIsClosed(cfg: Config, i: TmpId, u: set<Address>)
    requires ScoutedPart(cfg, i, u) != {}
    ensures Closed(cfg, ScoutedPart(cfg, i, u)) && i in cfg && cfg[i].seeds <= ScoutedPart(cfg, i, u)
  {
    var p := ScoutedPart(cfg, i, u);
    forall a | a in p ensures ListsWithin(cfg, a, p) && i in cfg && cfg[i].seeds <= p {
      var g :| Scouts(cfg, i, g, u) && a in g;
      ScoutsIsPart(cfg, i, g, u);
      assert ListsWithin(cfg, a, g);
      var j :| Owns(cfg, j, a) && cfg[j].seeds <= g;
      assert Owns(cfg, j, a) && cfg[j].seeds <= p;
    }
    var b := Pick(p);
  }

  lemma GrownLeadsOut(cfg: Config, i: TmpId, g: set<Address>, p: set<Address>, z: set<Address>, a: Address)
    requires ValidConfig(cfg) && i in cfg && Grown(cfg, i, g) && cfg[i].seeds <= g <= p
    requires cfg[i].seeds <= z && a in g && a !in z
    ensures Open(cfg, z, p)
  {
    var c := Pick(cfg[i].seeds);
    assert c in z * g && a !in z * g;
    assert Part(z * g, g) && cfg[i].seeds <= z * g;
    OpenInMore(cfg, z, g, p);
  }

  lemma PartIsGrown(cfg: Config, i: TmpId, u: set<Address>)
    requires ValidConfig(cfg) && i in cfg
    ensures Grown(cfg, i, ScoutedPart(cfg, i, u))
  {
    var p := ScoutedPart(cfg, i, u);
    forall z | Part(z, p) && cfg[i].seeds <= z ensures Open(cfg, z, p) {
      var a := Outside(p, z);
      var g :| Scouts(cfg, i, g, u) && a in g;
      ScoutsIsPart(cfg, i, g, u);
      GrownLeadsOut(cfg, i, g, p, z, a);
    }
  }

  lemma PartIsScouted(cfg: Config, i: TmpId, u: set<Address>)
    requires ValidConfig(cfg) && ScoutedPart(cfg, i, u) != {}
    ensures Scouts(cfg, i, ScoutedPart(cfg, i, u), u)
  {
    PartIsClosed(cfg, i, u);
    PartIsGrown(cfg, i, u);
  }
}
