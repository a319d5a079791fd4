/**
 Bootstrap leader discovery, one instance (src/discovery.rs).

 The state of an instance is first described as a value (`Peer`) with the effect of each
 handler as a function on values. The class `Discovery` has the source's fields and its
 methods update them in place; each is proved to have exactly the effect of its function.
 */
module Discovery {
  import opened Options
  import opened Sets

  /** An address is represented by its rank in the byte order that `BTreeSet` uses: the
      election only ever compares addresses. */
  type Address = int

  type TmpId = int

  datatype Role = Leader(address: Address) | NonLeader(leader: Address) {
    function LeaderAddress(): Address {
      match this
      case Leader(a) => a
      case NonLeader(l) => l
    }
  }

  datatype LeaderElection = LeaderElection(tmpId: TmpId, canVote: bool, peers: set<Address>, votable: set<Address>)

  datatype State = Electing(election: LeaderElection) | Done(role: Role)

  datatype Peer = Peer(visited: set<Address>, address: Option<Address>, state: State)

  datatype Next = Visit(request: LeaderElection, targets: set<Address>) | Finished(role: Role)

  /** `a` is the first element of the ordered set `s`. */
  predicate IsFirst(a: Address, s: set<Address>) {
    a in s && forall b :: b in s ==> a <= b
  }

  function NewPeer(tmpId: TmpId, seeds: set<Address>, canVote: bool): Peer {
    Peer({}, None, Electing(LeaderElection(tmpId, canVote, seeds, {})))
  }

  /** The election data after the peers of a request addressed to `to` are merged in. */
  function MergeRequest(e: LeaderElection, request: LeaderElection, to: Address): LeaderElection {
    e.(peers := e.peers + request.peers, votable := if e.canVote then e.votable + {to} else e.votable)
  }

  /** The election data after another instance's election data is merged in. */
  function MergeResponse(e: LeaderElection, response: LeaderElection): LeaderElection {
    e.(peers := e.peers + response.peers, votable := e.votable + response.votable)
  }

  /** The `visited` set after merging `incoming`: a new peer restarts the tour. */
  function Revisit(visited: set<Address>, known: set<Address>, incoming: set<Address>): set<Address> {
    if incoming <= known then visited else {}
  }

  /** Effect of `handle_request`; `None` is the panic on an instance reachable by two addresses. */
  function OnRequest(p: Peer, request: LeaderElection, to: Address): (r: Option<Peer>) {
    match p.state
    case Done(_) => Some(p)
    case Electing(e) =>
      var own := e.tmpId == request.tmpId;
      if own && p.address.Some? && p.address.value != to then None
      else Some(Peer(Revisit(p.visited, e.peers, request.peers),
                     if own then Some(to) else p.address,
                     Electing(MergeRequest(e, request, to))))
  }

  /** The test that turns an instance into the leader. */
  predicate Wins(visited: set<Address>, address: Option<Address>, e: LeaderElection) {
    address.Some? && e.peers <= visited && IsFirst(address.value, e.votable)
  }

  /** Effect of `handle_response`. */
  function OnResponse(p: Peer, from: Address, response: State): (r: Peer) {
    var visited := p.visited + {from};
    match (p.state, response)
    case (Electing(e), Electing(f)) =>
      var visited' := Revisit(visited, e.peers, f.peers);
      var e' := MergeResponse(e, f);
      if Wins(visited', p.address, e')
      then Peer({}, None, Done(Leader(p.address.value)))
      else Peer(visited', p.address, Electing(e'))
    case (Electing(_), Done(role)) => Peer({}, None, Done(NonLeader(role.LeaderAddress())))
    case (Done(_), _) => p.(visited := visited)
  }

  /** Result of `next_or_role`: unvisited peers, or all of them once every one was visited. */
  function NextOrRole(p: Peer): (n: Next) {
    match p.state
    case Done(role) => Finished(role)
    case Electing(e) =>
      var unseen := e.peers - p.visited;
      Visit(e, if unseen == {} then e.peers else unseen)
  }

  class Discovery {
    var visited: set<Address>
    var address: Option<Address>
    var state: State

    function Value(): Peer
      reads this
    {
      Peer(visited, address, state)
    }

    constructor (tmpId: TmpId, peers: set<Address>, canVote: bool)
      requires peers != {}
      ensures Value() == NewPeer(tmpId, peers, canVote)
    {
      visited := {};
      address := None;
      state := Electing(LeaderElection(tmpId, canVote, peers, {}));
    }

    /** Returns the reply, or `None` where the source panics. */
    method HandleRequest(request: LeaderElection, to: Address) returns (response: Option<State>)
      modifies this
      ensures OnRequest(old(Value()), request, to).Some? ==>
                && OnRequest(old(Value()), request, to) == Some(Value())
                && response == Some(state)
      ensures OnRequest(old(Value()), request, to).None? ==> response == None
    {
      match state {
        case Done(_) =>
        case Electing(e) =>
          if !(request.peers <= e.peers) {
            visited := {};
          }
          var votable := e.votable;
          if e.canVote {
            votable := votable + {to};
          }
          state := Electing(LeaderElection(e.tmpId, e.canVote, e.peers + request.peers, votable));
          if e.tmpId == request.tmpId {
            match address {
              case Some(known) =>
                if known != to {
                  return None;
                }
              case None => address := Some(to);
            }
          }
      }
      return Some(state);
    }

    method HandleResponse(from: Address, response: State)
      modifies this
      ensures Value() == OnResponse(old(Value()), from, response)
    {
      visited := visited + {from};
      match (state, response)
      case (Electing(e), Electing(f)) =>
        if !(f.peers <= e.peers) {
          visited := {};
        }
        var peers := e.peers + f.peers;
        var votable := e.votable + f.votable;
        state := Electing(LeaderElection(e.tmpId, e.canVote, peers, votable));
        if address.Some? && peers <= visited && IsFirst(address.value, votable) {
          state := Done(Leader(address.value));
          visited := {};
          address := None;
        }
      case (Electing(_), Done(role)) =>
        state := Done(NonLeader(role.LeaderAddress()));
        visited := {};
        address := None;
      case (Done(_), _) =>
    }

    method NextOrRolePeers() returns (n: Next)
      ensures n == NextOrRole(Value())
      ensures n.Visit? && n.request.peers != {} ==> n.targets != {}
    {
      match state
      case Done(role) => n := Finished(role);
      case Electing(e) =>
        var nextPeers := e.peers - visited;
        if nextPeers == {} {
          nextPeers := nextPeers + e.peers;
        }
        n := Visit(e, nextPeers);
    }
  }

  // ---- Progress of one instance ---------------------------------------------------------

  /** A message handled by an instance. */
  datatype Event = Asked(request: LeaderElection, to: Address) | Answered(from: Address, response: State)

  function OnEvent(p: Peer, ev: Event): Option<Peer> {
    match ev
    case Asked(request, to) => OnRequest(p, request, to)
    case Answered(from, response) => Some(OnResponse(p, from, response))
  }

  predicate Mentions(ev: Event, universe: set<Address>) {
    match ev
    case Asked(request, _) => request.peers <= universe
    case Answered(_, Electing(f)) => f.peers <= universe
    case Answered(_, Done(_)) => true
  }

  /** Addresses not heard of yet, and known addresses not visited yet. */
  ghost function Unknown(p: Peer, universe: set<Address>): set<Address>
    requires p.state.Electing?
  {
    universe - p.state.election.peers
  }

  ghost function Unvisited(p: Peer): set<Address>
    requires p.state.Electing?
  {
    p.state.election.peers - p.visited
  }

  ghost predicate LexLess(a: nat, b: nat, c: nat, d: nat) {
    a < c || (a == c && b < d)
  }

  /** Every event leaves (unknown, unvisited) no larger while electing, and an election answer
      from an unvisited peer makes it strictly smaller. */
  lemma ProgressMeasure(p: Peer, ev: Event, p': Peer, universe: set<Address>)
    requires p.state.Electing? && p'.state.Electing?
    requires p.state.election.peers <= universe && Mentions(ev, universe)
    requires OnEvent(p, ev) == Some(p')
    ensures p'.state.election.peers <= universe
    ensures LexLess(|Unknown(p', universe)|, |Unvisited(p')|, |Unknown(p, universe)|, |Unvisited(p)|)
            || (Unknown(p', universe) == Unknown(p, universe) && Unvisited(p') <= Unvisited(p))
    ensures ev.Answered? && ev.from in Unvisited(p) ==>
              LexLess(|Unknown(p', universe)|, |Unvisited(p')|, |Unknown(p, universe)|, |Unvisited(p)|)
  {
    var e, e' := p.state.election, p'.state.election;
    var incoming := if ev.Asked? then ev.request.peers else ev.response.election.peers;
    assert e'.peers == e.peers + incoming;
    SubsetSize(Unknown(p', universe), Unknown(p, universe));
    if incoming <= e.peers {
      assert e'.peers == e.peers;
      SubsetSize(Unvisited(p'), Unvisited(p));
    } else {
      assert e.peers == universe - Unknown(p, universe);
      assert e'.peers == universe - Unknown(p', universe);
    }
  }

  /** The events of `evs` that made the instance forget whom it visited. */
  ghost function Resets(p: Peer, evs: seq<Event>): nat
    decreases |evs|
  {
    if evs == [] || p.state.Done? then 0
    else
      var next := OnEvent(p, evs[0]);
      if next.None? then 0
      else
        var rest := Resets(next.value, evs[1..]);
        match evs[0]
        case Asked(request, _) => if request.peers <= p.state.election.peers then rest else rest + 1
        case Answered(_, Electing(f)) => if f.peers <= p.state.election.peers then rest else rest + 1
        case Answered(_, Done(_)) => rest
  }

  /** Over any events, `visited` is reset at most once per address not known at the start. */
  lemma {:induction false} ResetsAreBounded(p: Peer, evs: seq<Event>, universe: set<Address>)
    requires p.state.Electing? && p.state.election.peers <= universe
    requires forall i :: 0 <= i < |evs| ==> Mentions(evs[i], universe)
    ensures Resets(p, evs) <= |universe| - |p.state.election.peers|
    decreases |evs|
  {
    var known := p.state.election.peers;
    SubsetSize(known, universe);
    if evs != [] && OnEvent(p, evs[0]).Some? {
      assert Mentions(evs[0], universe);
      var p' := OnEvent(p, evs[0]).value;
      var incoming := match evs[0]
        case Asked(request, _) => request.peers
        case Answered(_, Electing(f)) => f.peers
        case Answered(_, Done(_)) => {};
      SubsetSize(known, known + incoming);
      SubsetSize(known + incoming, universe);
      assert incoming <= known || known + incoming != known;
      if p'.state.Electing? {
        assert p'.state.election.peers == known + incoming;
        ResetsAreBounded(p', evs[1..], universe);
      }
    }
  }
}
