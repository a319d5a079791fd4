/**
 The check that granting a role creates no loop (src/access_control.rs).

 The breadth-first search of the source has no visited filter. It ends exactly when no loop
 is reachable from the grantee; on graphs without loops, which the check itself maintains,
 it accepts a grant exactly when the new edge closes no loop.
 */
module RoleLoops {
  import opened Options
  import opened Sets
  import opened Catalog

  type Path = seq<UserId>

  /** A walk from a role to one of its direct or indirect grantees. */
  ghost predicate IsPath(g: set<Grant>, p: Path) {
    |p| > 0 && forall i :: 0 <= i < |p| - 1 ==> Grant(p[i], p[i + 1]) in g
  }

  ghost predicate PathBetween(g: set<Grant>, p: Path, a: UserId, b: UserId) {
    IsPath(g, p) && p[0] == a && p[|p| - 1] == b
  }

  ghost predicate Reaches(g: set<Grant>, a: UserId, b: UserId) {
    exists p :: PathBetween(g, p, a, b)
  }

  ghost predicate OnLoop(g: set<Grant>, a: UserId) {
    exists b :: Grant(a, b) in g && Reaches(g, b, a)
  }

  ghost predicate Acyclic(g: set<Grant>) {
    forall a :: !OnLoop(g, a)
  }

  ghost predicate LoopAhead(g: set<Grant>, a: UserId) {
    exists b :: Reaches(g, a, b) && OnLoop(g, b)
  }

  // ---- Reachability ------------------------------------------------------------------------

  lemma ReachesSelf(g: set<Grant>, a: UserId)
    ensures Reaches(g, a, a)
  {
    assert PathBetween(g, [a], a, a);
  }

  lemma ReachesStep(g: set<Grant>, a: UserId, b: UserId, c: UserId)
    requires Grant(a, b) in g && Reaches(g, b, c)
    ensures Reaches(g, a, c)
  {
    var p :| PathBetween(g, p, b, c);
    var q := [a] + p;
    forall i | 0 <= i < |q| - 1 ensures Grant(q[i], q[i + 1]) in g {
      if i > 0 {
        assert q[i] == p[i - 1] && q[i + 1] == p[i];
      }
    }
    assert PathBetween(g, q, a, c);
  }

  lemma PathTail(g: set<Grant>, p: Path, a: UserId, b: UserId)
    requires PathBetween(g, p, a, b) && |p| > 1
    ensures Grant(a, p[1]) in g && PathBetween(g, p[1..], p[1], b)
  {
    var q := p[1..];
    forall i | 0 <= i < |q| - 1 ensures Grant(q[i], q[i + 1]) in g {
      assert q[i] == p[i + 1] && q[i + 1] == p[i + 2];
    }
  }

  lemma {:induction false} PathJoin(g: set<Grant>, p: Path, a: UserId, b: UserId, c: UserId)
    requires PathBetween(g, p, a, b) && Reaches(g, b, c)
    ensures Reaches(g, a, c)
    decreases |p|
  {
    if |p| > 1 {
      PathTail(g, p, a, b);
      PathJoin(g, p[1..], p[1], b, c);
      ReachesStep(g, a, p[1], c);
    }
  }

  lemma ReachesTransitive(g: set<Grant>, a: UserId, b: UserId, c: UserId)
    requires Reaches(g, a, b) && Reaches(g, b, c)
    ensures Reaches(g, a, c)
  {
    var p :| PathBetween(g, p, a, b);
    PathJoin(g, p, a, b, c);
  }

  lemma ReachesMonotone(g: set<Grant>, h: set<Grant>, a: UserId, b: UserId)
    requires g <= h && Reaches(g, a, b)
    ensures Reaches(h, a, b)
  {
    var p :| PathBetween(g, p, a, b);
    assert PathBetween(h, p, a, b);
  }

  // ---- Changing the graph ------------------------------------------------------------------

  lemma SubgraphAcyclic(g: set<Grant>, h: set<Grant>)
    requires g <= h && Acyclic(h)
    ensures Acyclic(g)
  {
    forall a ensures !OnLoop(g, a) {
      if OnLoop(g, a) {
        var b :| Grant(a, b) in g && Reaches(g, b, a);
        ReachesMonotone(g, h, b, a);
        assert OnLoop(h, a);
      }
    }
  }

  /** A walk in the graph with one more edge either avoids it or passes through both its ends. */
  lemma {:induction false} SplitAtEdge(g: set<Grant>, e: Grant, p: Path, a: UserId, b: UserId)
    requires PathBetween(g + {e}, p, a, b)
    ensures Reaches(g, a, b) || (Reaches(g, a, e.role) && Reaches(g, e.grantee, b))
    decreases |p|
  {
    if |p| == 1 {
      ReachesSelf(g, a);
    } else {
      PathTail(g + {e}, p, a, b);
      SplitAtEdge(g, e, p[1..], p[1], b);
      if Grant(a, p[1]) == e {
        ReachesSelf(g, a);
      } else if Reaches(g, p[1], b) {
        ReachesStep(g, a, p[1], b);
      } else {
        ReachesStep(g, a, p[1], e.role);
      }
    }
  }

  lemma LoopThroughEdge(g: set<Grant>, e: Grant, a: UserId)
    requires OnLoop(g + {e}, a)
    ensures !Acyclic(g) || Reaches(g, e.grantee, e.role)
  {
    var b :| Grant(a, b) in g + {e} && Reaches(g + {e}, b, a);
    var p :| PathBetween(g + {e}, p, b, a);
    SplitAtEdge(g, e, p, b, a);
    if Grant(a, b) in g {
      if Reaches(g, b, a) {
        assert OnLoop(g, a);
      } else {
        ReachesStep(g, a, b, e.role);
        ReachesTransitive(g, e.grantee, a, e.role);
      }
    }
  }

  lemma BackEdgeIsLoop(g: set<Grant>, e: Grant)
    requires e in g && Reaches(g, e.grantee, e.role)
    ensures OnLoop(g, e.role)
  {
    assert Grant(e.role, e.grantee) in g;
  }

  /** The rule the check is meant to enforce: an edge closes a loop exactly when its role is
      reachable from its grantee. */
  lemma NewEdgeClosesLoopIff(g: set<Grant>, e: Grant)
    requires Acyclic(g)
    ensures Acyclic(g + {e}) <==> !Reaches(g, e.grantee, e.role)
  {
    if Reaches(g, e.grantee, e.role) {
      ReachesMonotone(g, g + {e}, e.grantee, e.role);
      BackEdgeIsLoop(g + {e}, e);
    } else if !Acyclic(g + {e}) {
      var a :| OnLoop(g + {e}, a);
      LoopThroughEdge(g, e, a);
    }
  }

  /** In a graph without loops, revoking a role that was granted is never taken for a loop. */
  lemma ExistingGrantIsNoLoop(g: set<Grant>, e: Grant)
    requires Acyclic(g) && e in g
    ensures !Reaches(g, e.grantee, e.role)
  {
    if Reaches(g, e.grantee, e.role) {
      BackEdgeIsLoop(g, e);
    }
  }

  lemma WalkLeaves(g: set<Grant>, u: UserId, v: UserId)
    requires u != v && Reaches(g, u, v)
    ensures exists e :: e in g && e.role == u
  {
    var p :| PathBetween(g, p, u, v);
    assert Grant(p[0], p[0 + 1]) in g;
  }

  /** A user that was never granted as a role reaches nobody else. */
  lemma SinkReachesNothing(g: set<Grant>, u: UserId, v: UserId)
    requires u != v && forall e :: e in g ==> e.role != u
    ensures !Reaches(g, u, v)
  {
    if Reaches(g, u, v) {
      WalkLeaves(g, u, v);
    }
  }

  /** Walks do not leave a set that contains the grantees of its members. */
  lemma {:induction false} WalkStaysWithin(g: set<Grant>, p: Path, a: UserId, b: UserId, s: set<UserId>)
    requires PathBetween(g, p, a, b) && a in s && forall e :: e in g && e.role in s ==> e.grantee in s
    ensures b in s
    decreases |p|
  {
    if |p| > 1 {
      PathTail(g, p, a, b);
      WalkStaysWithin(g, p[1..], p[1], b, s);
    }
  }

  lemma ReachesWithin(g: set<Grant>, a: UserId, b: UserId, s: set<UserId>)
    requires a in s && b !in s && forall e :: e in g && e.role in s ==> e.grantee in s
    ensures !Reaches(g, a, b)
  {
    forall p ensures !PathBetween(g, p, a, b) {
      if PathBetween(g, p, a, b) {
        WalkStaysWithin(g, p, a, b, s);
      }
    }
  }

  // ---- The layers of the search ------------------------------------------------------------

  /** The nodes at the end of walks of exactly `k` edges. */
  function Layer(g: set<Grant>, start: UserId, k: nat): set<UserId> {
    if k == 0 then {start}
    else set e | e in g && e.role in Layer(g, start, k - 1) :: e.grantee
  }

  predicate InLayer(g: set<Grant>, start: UserId, k: nat, x: UserId) {
    x in Layer(g, start, k)
  }

  predicate SearchEndsAt(g: set<Grant>, start: UserId, k: nat) {
    Layer(g, start, k) == {}
  }

  /** Everything in the first layers. */
  function FirstLayers(g: set<Grant>, start: UserId, k: nat): set<UserId> {
    if k == 0 then {start} else FirstLayers(g, start, k - 1) + Layer(g, start, k)
  }

  lemma {:induction false} FirstLayersMember(g: set<Grant>, start: UserId, k: nat, x: UserId)
    ensures x in FirstLayers(g, start, k) <==> exists i: nat :: i <= k && InLayer(g, start, i, x)
  {
    if k == 0 {
      assert InLayer(g, start, 0, x) <==> x == start;
    } else {
      FirstLayersMember(g, start, k - 1, x);
      assert InLayer(g, start, k, x) <==> x in Layer(g, start, k);
    }
  }

  lemma {:induction false} LayerHasWalk(g: set<Grant>, start: UserId, k: nat, x: UserId) returns (p: Path)
    requires x in Layer(g, start, k)
    ensures PathBetween(g, p, start, x) && |p| == k + 1
  {
    if k == 0 {
      p := [start];
    } else {
      var e :| e in g && e.role in Layer(g, start, k - 1) && e.grantee == x;
      var q := LayerHasWalk(g, start, k - 1, e.role);
      p := q + [x];
      forall i | 0 <= i < |p| - 1 ensures Grant(p[i], p[i + 1]) in g {
        if i < |q| - 1 {
          assert p[i] == q[i] && p[i + 1] == q[i + 1];
        }
      }
    }
  }

  lemma {:induction false} WalkEndsInLayer(g: set<Grant>, p: Path, k: nat)
    requires IsPath(g, p) && k < |p|
    ensures p[k] in Layer(g, p[0], k)
  {
    if k > 0 {
      WalkEndsInLayer(g, p, k - 1);
      assert Grant(p[k - 1], p[k - 1 + 1]) in g;
    }
  }

  lemma {:induction false} EmptyLayerStays(g: set<Grant>, start: UserId, k: nat, l: nat)
    requires Layer(g, start, k) == {} && k <= l
    ensures Layer(g, start, l) == {}
  {
    if k < l {
      EmptyLayerStays(g, start, k, l - 1);
    }
  }

  ghost function Nodes(g: set<Grant>, start: UserId): set<UserId> {
    {start} + set e | e in g :: e.grantee
  }

  lemma {:induction false} DistinctFit(p: Path, s: set<UserId>)
    requires forall i :: 0 <= i < |p| ==> p[i] in s
    requires forall i, j :: 0 <= i < j < |p| ==> p[i] != p[j]
    ensures |p| <= |s|
    decreases |p|
  {
    if p != [] {
      var q, last := p[..|p| - 1], p[|p| - 1];
      DistinctFit(q, s - {last});
    }
  }

  lemma SubpathReaches(g: set<Grant>, p: Path, i: nat, j: nat)
    requires IsPath(g, p) && i <= j < |p|
    ensures Reaches(g, p[i], p[j])
  {
    var q := p[i..j + 1];
    forall k | 0 <= k < |q| - 1 ensures Grant(q[k], q[k + 1]) in g {
      assert q[k] == p[i + k] && q[k + 1] == p[(i + k) + 1];
    }
    assert PathBetween(g, q, p[i], p[j]);
  }

  lemma RepeatIsLoop(g: set<Grant>, p: Path, i: nat, j: nat)
    requires IsPath(g, p) && i < j < |p| && p[i] == p[j]
    ensures LoopAhead(g, p[0])
  {
    SubpathReaches(g, p, 0, i);
    SubpathReaches(g, p, i + 1, j);
    assert Grant(p[i], p[i + 1]) in g;
    assert OnLoop(g, p[i]);
  }

  /** With no loop ahead, a walk never repeats a node, so it has at most as many as the graph. */
  lemma WalksAreShort(g: set<Grant>, p: Path)
    requires IsPath(g, p) && !LoopAhead(g, p[0])
    ensures |p| <= |Nodes(g, p[0])|
  {
    forall i, j | 0 <= i < j < |p| ensures p[i] != p[j] {
      if p[i] == p[j] {
        RepeatIsLoop(g, p, i, j);
      }
    }
    forall i | 0 <= i < |p| ensures p[i] in Nodes(g, p[0]) {
      if i > 0 {
        assert Grant(p[i - 1], p[i - 1 + 1]) in g;
      }
    }
    DistinctFit(p, Nodes(g, p[0]));
  }

  lemma LoopAheadContinues(g: set<Grant>, a: UserId) returns (b: UserId)
    requires LoopAhead(g, a)
    ensures Grant(a, b) in g && LoopAhead(g, b)
  {
    var c :| Reaches(g, a, c) && OnLoop(g, c);
    var p :| PathBetween(g, p, a, c);
    if |p| == 1 {
      b :| Grant(c, b) in g && Reaches(g, b, c);
    } else {
      PathTail(g, p, a, c);
      b := p[1];
    }
  }

  lemma {:induction false} LoopAheadFillsLayers(g: set<Grant>, start: UserId, k: nat) returns (x: UserId)
    requires LoopAhead(g, start)
    ensures x in Layer(g, start, k) && LoopAhead(g, x)
  {
    if k == 0 {
      x := start;
    } else {
      var y := LoopAheadFillsLayers(g, start, k - 1);
      x := LoopAheadContinues(g, y);
      assert Grant(y, x) in g;
    }
  }

  /** The search runs out of nodes exactly when no loop is reachable from its start. */
  lemma SearchEndsIffNoLoopAhead(g: set<Grant>, start: UserId)
    ensures (exists k: nat :: SearchEndsAt(g, start, k)) <==> !LoopAhead(g, start)
  {
    if LoopAhead(g, start) {
      forall k: nat ensures !SearchEndsAt(g, start, k) {
        var x := LoopAheadFillsLayers(g, start, k);
      }
    } else {
      var n := |Nodes(g, start)|;
      if Layer(g, start, n) != {} {
        LayersAreBounded(g, start, n);
        assert false;
      }
      assert SearchEndsAt(g, start, n);
    }
  }

  // ---- The check ---------------------------------------------------------------------------

  /** The role grants among rows of `_pico_privilege`. */
  function GrantsOf(privileges: seq<Privilege>): set<Grant> {
    set p | p in privileges && IsRoleGrant(p) :: Grant(p.objectId, p.grantee)
  }

  /** `privileges.iter()`: the rows of `_pico_privilege`. */
  method ScanPrivileges(c: Catalog) returns (privileges: seq<Privilege>)
    ensures GrantsOf(privileges) == Grants(c)
  {
    privileges := [];
    var left := c.rows.Keys;
    while left != {}
      invariant left <= c.rows.Keys
      invariant forall g :: g in GrantsOf(privileges) <==>
                            exists cell :: cell in c.rows.Keys - left && RowGrant(cell) == Some(g)
      decreases |left|
    {
      var cell :| cell in left;
      ghost var before := left;
      left := left - {cell};
      assert c.rows.Keys - left == (c.rows.Keys - before) + {cell};
      if cell.table == PRIVILEGES && |cell.key| == 4 {
        var p := Privilege(cell.key[0], cell.key[1], cell.key[2], cell.key[3]);
        ghost var known := privileges;
        privileges := privileges + [p];
        assert GrantsOf(privileges) == GrantsOf(known) + GrantsOf([p]);
      }
    }
    assert c.rows.Keys - left == c.rows.Keys;
  }

  predicate ListsGrantees(hm: map<UserId, seq<UserId>>, g: set<Grant>) {
    && (forall e :: e in g ==> e.role in hm && e.grantee in hm[e.role])
    && (forall r, x :: r in hm && x in hm[r] ==> Grant(r, x) in g)
  }

  method BuildGrantees(privileges: seq<Privilege>) returns (hm: map<UserId, seq<UserId>>)
    ensures ListsGrantees(hm, GrantsOf(privileges))
  {
    hm := map[];
    for i := 0 to |privileges|
      invariant ListsGrantees(hm, GrantsOf(privileges[..i]))
    {
      var p := privileges[i];
      assert privileges[..i + 1] == privileges[..i] + [p];
      ghost var before := GrantsOf(privileges[..i]);
      if p.objectType == ON_ROLE && p.privilege == EXECUTE && p.objectId >= 0 {
        var role := p.objectId;
        var known := if role in hm then hm[role] else [];
        hm := hm[role := known + [p.grantee]];
        assert GrantsOf(privileges[..i + 1]) == before + {Grant(role, p.grantee)};
      } else {
        assert GrantsOf(privileges[..i + 1]) == before;
      }
    }
    assert privileges[..|privileges|] == privileges;
  }

  /** The grantees of the roles in a layer. */
  function Expand(hm: map<UserId, seq<UserId>>, layer: set<UserId>): set<UserId> {
    set r, x | r in layer && r in hm && x in hm[r] :: x
  }

  /** The search loop: everybody who holds the grantee's privileges, layer by layer. */
  method Search(hm: map<UserId, seq<UserId>>, grantee: UserId, ghost g: set<Grant>) returns (visited: set<UserId>)
    requires ListsGrantees(hm, g) && !LoopAhead(g, grantee)
    ensures forall x :: x in visited <==> Reaches(g, grantee, x)
  {
    visited := {grantee};
    var currentLayer := visited;
    ghost var k: nat := 0;
    while currentLayer != {}
      invariant currentLayer == Layer(g, grantee, k) && visited == FirstLayers(g, grantee, k)
      decreases |Nodes(g, grantee)| - k
    {
      LayersAreBounded(g, grantee, k);
      ExpandIsNextLayer(g, grantee, k, hm);
      var nextLayer := Expand(hm, currentLayer);
      visited := visited + nextLayer;
      currentLayer := nextLayer;
      k := k + 1;
    }
    forall x ensures x in visited <==> Reaches(g, grantee, x) {
      VisitedIsReached(g, grantee, k, x);
    }
  }

  /** `detect_role_grant_cycles`: true when granting `role` to `grantee` is refused. The
      requirement is exactly what the source needs to come to an end. */
  method DetectRoleGrantCycles(role: UserId, grantee: UserId, privileges: seq<Privilege>) returns (loop: bool)
    requires !LoopAhead(GrantsOf(privileges), grantee)
    ensures loop <==> Reaches(GrantsOf(privileges), grantee, role)
  {
    var hm := BuildGrantees(privileges);
    var visited := Search(hm, grantee, GrantsOf(privileges));
    loop := role in visited;
  }

  lemma LayersAreBounded(g: set<Grant>, start: UserId, k: nat)
    requires !LoopAhead(g, start) && Layer(g, start, k) != {}
    ensures k < |Nodes(g, start)|
  {
    var x := Pick(Layer(g, start, k));
    var p := LayerHasWalk(g, start, k, x);
    WalksAreShort(g, p);
  }

  lemma ExpandIsNextLayer(g: set<Grant>, start: UserId, k: nat, hm: map<UserId, seq<UserId>>)
    requires ListsGrantees(hm, g)
    ensures Layer(g, start, k + 1) == Expand(hm, Layer(g, start, k))
    ensures FirstLayers(g, start, k + 1) == FirstLayers(g, start, k) + Layer(g, start, k + 1)
  {
    var layer := Layer(g, start, k);
    forall x | x in Expand(hm, layer) ensures x in Layer(g, start, k + 1) {
      var r :| r in layer && r in hm && x in hm[r];
      assert Grant(r, x) in g;
    }
  }

  lemma VisitedIsReached(g: set<Grant>, start: UserId, k: nat, x: UserId)
    requires Layer(g, start, k) == {}
    ensures Reaches(g, start, x) <==> x in FirstLayers(g, start, k)
  {
    FirstLayersMember(g, start, k, x);
    if Reaches(g, start, x) {
      var p :| PathBetween(g, p, start, x);
      WalkEndsInLayer(g, p, |p| - 1);
      assert InLayer(g, start, |p| - 1, x);
      if k < |p| - 1 {
        EmptyLayerStays(g, start, k, |p| - 1);
        assert false;
      }
    }
    forall i: nat | i <= k && InLayer(g, start, i, x) ensures Reaches(g, start, x) {
      var p := LayerHasWalk(g, start, i, x);
    }
  }
}
