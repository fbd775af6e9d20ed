/** What becomes of a transport frame: the hop limit, and delivery over settled tables. */
module RoutingForwarding {
  import opened Wire
  import opened Routes
  import opened RoutingNode
  import opened RoutingNet
  import opened RoutingConvergence
  import M = MipDaemon
  import N = MipNetwork
  import MIP

  /** setMipTTL(0xff) keeps four bits. */
  const FIRST_TTL: nat := 0xff % 16

  /** Whether the frame reached its destination's transport daemon, and over how many links it was sent. */
  datatype Trip = Trip(delivered: bool, links: nat)

  /** What the routing daemon answers to the k-th lookup of a frame, made at node u; None when it fails. */
  type Lookup = (nat, nat) -> Option<Address>

  /**
   * The frame waits at u for its lookup, already sent over k links. Without an answer, or when the answer is
   * no neighbour, it is dropped. The receiving node delivers it if it can, whatever its TTL; else it drops a
   * frame whose TTL is 0 and passes on any other with one less.
   */
  function Relay(t: Topology, lookup: Lookup, u: nat, d: Address, ttl: nat, k: nat): Trip
    decreases ttl
  {
    match lookup(k, u)
    case None => Trip(false, k)
    case Some(via) =>
      if !Edge(t, u, via) || via !in t.owner then Trip(false, k)
      else if Local(t, t.owner[via], d) then Trip(true, k + 1)
      else if ttl <= 0 then Trip(false, k + 1)
      else Relay(t, lookup, t.owner[via], d, ttl - 1, k + 1)
  }

  /** A frame from u's own transport daemon; one for a local address never touches a link. */
  function Journey(t: Topology, lookup: Lookup, u: nat, d: Address): Trip {
    if Local(t, u, d) then Trip(true, 0) else Relay(t, lookup, u, d, FIRST_TTL, 0)
  }

  lemma {:induction false} RelayBound(t: Topology, lookup: Lookup, u: nat, d: Address, ttl: nat, k: nat)
    ensures k <= Relay(t, lookup, u, d, ttl, k).links <= k + ttl + 1
    decreases ttl
  {
    if lookup(k, u).Some? {
      var via := lookup(k, u).value;
      if Edge(t, u, via) && via in t.owner && !Local(t, t.owner[via], d) && ttl > 0 {
        RelayBound(t, lookup, t.owner[via], d, ttl - 1, k + 1);
      }
    }
  }

  /** Whatever the routing daemons answer, looping tables included, a frame is sent over at most 16 links. */
  lemma HopBound(t: Topology, lookup: Lookup, u: nat, d: Address)
    ensures Journey(t, lookup, u, d).links <= 16
  {
    hide Relay;
    if !Local(t, u, d) {
      RelayBound(t, lookup, u, d, FIRST_TTL, 0);
    }
  }

  /** A delivered frame has made a walk to its destination. */
  lemma {:induction false} RelayWalks(t: Topology, lookup: Lookup, u: nat, d: Address, ttl: nat, k: nat)
    requires Relay(t, lookup, u, d, ttl, k).delivered
    ensures var n := Relay(t, lookup, u, d, ttl, k).links; n > k && Hops(t, u, d, n - k)
    decreases ttl
  {
    var n := Relay(t, lookup, u, d, ttl, k).links;
    var via := lookup(k, u).value;
    if Local(t, t.owner[via], d) {
      assert Hops(t, t.owner[via], d, 0);
      assert Hops(t, u, d, 1);
    } else {
      RelayWalks(t, lookup, t.owner[via], d, ttl - 1, k + 1);
      assert Hops(t, t.owner[via], d, n - k - 1);
      assert Hops(t, u, d, n - k);
    }
  }

  // ----- settled tables -----

  /** The answers of a network whose tables do not change meanwhile. */
  function TableLookup(net: Net, d: Address): Lookup {
    (k: nat, u: nat) => if u < |net.nodes| && d in net.nodes[u].table then Some(net.nodes[u].table[d].via) else None
  }

  /** Over exact tables the next hop is one link closer. */
  lemma NextHopDistance(t: Topology, net: Net, u: nat, d: Address, k: nat)
    requires Safe(t, net) && Exact(t, net) && u < t.n && 0 < k < 255 && IsDistance(t, u, d, k)
    ensures d in net.nodes[u].table && !Local(t, u, d)
    ensures var via := net.nodes[u].table[d].via;
      Edge(t, u, via) && t.owner[via] < t.n && IsDistance(t, t.owner[via], d, k - 1)
  {
    assert d in net.nodes[u].table && net.nodes[u].table[d].cost == k;
    DistanceZero(t, u, d, k);
    var j := NextHopWalk(t, net, u, d);
    OneLess(t, u, net.nodes[u].table[d].via, d, k, j);
  }

  lemma NextHopWalk(t: Topology, net: Net, u: nat, d: Address) returns (j: nat)
    requires Safe(t, net) && u < t.n && d in net.nodes[u].table && !Local(t, u, d)
    requires net.nodes[u].table[d].cost < INF_COST
    ensures var via := net.nodes[u].table[d].via;
      && Edge(t, u, via) && via in t.owner && t.owner[via] < t.n
      && j < net.nodes[u].table[d].cost && Hops(t, t.owner[via], d, j)
  {
    NextHopCloser(t, net, u, d);
    j := FollowReaches(t, net, t.owner[net.nodes[u].table[d].via], d);
  }

  /** A neighbour from which a walk shorter than the distance exists is exactly one link closer. */
  lemma OneLess(t: Topology, u: nat, b: Address, d: Address, k: nat, j: nat)
    requires Edge(t, u, b) && b in t.owner && IsDistance(t, u, d, k) && j < k && Hops(t, t.owner[b], d, j)
    ensures IsDistance(t, t.owner[b], d, k - 1)
  {
    var n := Shortest(t, t.owner[b], d, j);
    assert Hops(t, u, d, n + 1);
  }

  lemma DistanceZero(t: Topology, u: nat, d: Address, k: nat)
    requires IsDistance(t, u, d, k)
    ensures k == 0 <==> Local(t, u, d)
  {
    assert Hops(t, u, d, 0) <==> Local(t, u, d);
  }

  lemma {:induction false} RelayExact(t: Topology, net: Net, u: nat, d: Address, n: nat, ttl: nat, k: nat)
    requires Safe(t, net) && Exact(t, net) && u < t.n && 0 < n < 255 && IsDistance(t, u, d, n)
    ensures Relay(t, TableLookup(net, d), u, d, ttl, k) ==
            if n <= ttl + 1 then Trip(true, k + n) else Trip(false, k + ttl + 1)
    decreases ttl
  {
    hide Relay, Safe, Exact, IsDistance, TableLookup, Hops;
    var via := NextHopAnswer(t, net, u, d, n, k);
    RelayOnce(t, TableLookup(net, d), u, d, ttl, k, via);
    if n > 1 && ttl > 0 {
      RelayExact(t, net, t.owner[via], d, n - 1, ttl - 1, k + 1);
    }
  }

  lemma RelayOnce(t: Topology, lookup: Lookup, u: nat, d: Address, ttl: nat, k: nat, via: Address)
    requires lookup(k, u) == Some(via) && Edge(t, u, via) && via in t.owner
    ensures Relay(t, lookup, u, d, ttl, k) ==
            if Local(t, t.owner[via], d) then Trip(true, k + 1)
            else if ttl == 0 then Trip(false, k + 1)
            else Relay(t, lookup, t.owner[via], d, ttl - 1, k + 1)
  {
  }

  lemma NextHopAnswer(t: Topology, net: Net, u: nat, d: Address, n: nat, k: nat) returns (via: Address)
    requires Safe(t, net) && Exact(t, net) && u < t.n && 0 < n < 255 && IsDistance(t, u, d, n)
    ensures TableLookup(net, d)(k, u) == Some(via)
    ensures Edge(t, u, via) && via in t.owner && t.owner[via] < t.n
    ensures IsDistance(t, t.owner[via], d, n - 1) && (n == 1 <==> Local(t, t.owner[via], d))
  {
    NextHopDistance(t, net, u, d, n);
    via := net.nodes[u].table[d].via;
    DistanceZero(t, t.owner[via], d, n - 1);
  }

  /**
   * Over settled tables and without loss a frame is delivered exactly when its destination is at most 16
   * links away, and then over a shortest path.
   */
  lemma DeliveredWithin16(t: Topology, net: Net, u: nat, d: Address)
    requires Safe(t, net) && Exact(t, net) && u < t.n
    ensures var trip := Journey(t, TableLookup(net, d), u, d);
      && (trip.delivered <==> exists k: nat :: k <= 16 && Hops(t, u, d, k))
      && (trip.delivered ==> IsDistance(t, u, d, trip.links))
  {
    hide Safe, Exact, IsDistance, Journey;
    var trip := Journey(t, TableLookup(net, d), u, d);
    HopBound(t, TableLookup(net, d), u, d);
    if trip.delivered {
      DeliveredWalk(t, net, u, d);
      assert trip.links <= 16 && Hops(t, u, d, trip.links);
      NearIsDelivered(t, net, u, d, trip.links);
    }
    if k: nat :| k <= 16 && Hops(t, u, d, k) {
      NearIsDelivered(t, net, u, d, k);
    }
  }

  lemma DeliveredWalk(t: Topology, net: Net, u: nat, d: Address)
    requires Journey(t, TableLookup(net, d), u, d).delivered
    ensures Hops(t, u, d, Journey(t, TableLookup(net, d), u, d).links)
  {
    hide Relay, TableLookup;
    if Local(t, u, d) {
      assert Hops(t, u, d, 0);
    } else {
      RelayWalks(t, TableLookup(net, d), u, d, FIRST_TTL, 0);
    }
  }

  lemma NearIsDelivered(t: Topology, net: Net, u: nat, d: Address, k: nat)
    requires Safe(t, net) && Exact(t, net) && u < t.n && k <= 16 && Hops(t, u, d, k)
    ensures var trip := Journey(t, TableLookup(net, d), u, d); trip.delivered && IsDistance(t, u, d, trip.links)
  {
    hide Relay, TableLookup, Safe, Exact, Hops, IsDistance;
    var n := Shortest(t, u, d, k);
    DistanceZero(t, u, d, n);
    if n > 0 {
      RelayExact(t, net, u, d, n, FIRST_TTL, 0);
    }
  }

  // ----- the same trip, made by the MIP daemons -----

  /** Each node's daemon has its own addresses and lists exactly its neighbours, truthfully. */
  ghost predicate Wired(c: N.Site, mips: nat -> M.State) {
    N.SiteOk(c) && forall u: nat :: u < c.t.n ==> WiredAt(c, u, mips(u))
  }

  ghost predicate WiredAt(c: N.Site, u: nat, m: M.State)
    requires u < |c.homes|
  {
    && m.locals == c.homes[u] && N.ArpTrue(c, u, m.arp)
    && forall b :: Edge(c.t, u, b) ==> M.FindArp(m.arp, b) < |m.arp|
  }

  /**
   * The other frames: at node v on the k-th hop, those that wait already when ours arrives, and those behind
   * ours when its answer comes in. They are arbitrary; that ours gets to the front is MipRouting.TurnComes.
   */
  datatype Others = Others(ahead: (nat, nat) -> seq<M.Waiting>, behind: (nat, nat) -> seq<M.Waiting>)

  /** The node's daemon when the answer for w comes in. */
  function AtFront(m: M.State, w: M.Waiting, behind: seq<M.Waiting>): M.State {
    m.(waiting := [w] + behind)
  }

  /** How the trip ended, and everything given to transport daemons on the way. */
  datatype Carried = Carried(trip: Trip, up: seq<N.Given>)

  lemma WiredSocks(c: N.Site, u: nat, m: M.State)
    requires u < |c.homes| && WiredAt(c, u, m)
    ensures M.SocksOk(m)
  {
    assert forall k :: 0 <= k < |m.arp| ==> N.PairTrue(c, u, m.arp[k]);
  }

  lemma WiredNode(c: N.Site, mips: nat -> M.State, u: nat)
    requires Wired(c, mips) && u < c.t.n
    ensures u < |c.homes| && WiredAt(c, u, mips(u)) && M.SocksOk(mips(u)) && N.SiteOk(c) && WellFormed(c.t)
  {
    WiredSocks(c, u, mips(u));
  }

  /** A transport frame that may start or go on from here. */
  predicate Carriable(w: M.Waiting) {
    w.frame.tra == MIP.TRA_T && w.frame.ttl < 16
  }

  /** What u's daemon does with the answer to the lookup of w. */
  ghost function Sends(c: N.Site, mips: nat -> M.State, others: Others, u: nat, w: M.Waiting, via: Option<Address>,
        k: nat): M.Effect
    requires Wired(c, mips) && u < c.t.n
  {
    WiredNode(c, mips, u);
    M.OnLookup(AtFront(mips(u), w, others.behind(k, u)), via)
  }

  /** What v's daemon does with a frame that arrives at its interface j as the k-th hop. */
  ghost function Takes(c: N.Site, mips: nat -> M.State, others: Others, v: nat, j: nat, f: M.Frame, k: nat): M.Effect
    requires Wired(c, mips) && v < c.t.n && v < |c.homes| && j < |c.homes[v]| && M.KnownTra(f.tra)
  {
    WiredNode(c, mips, v);
    M.OnWire(mips(v).(waiting := others.ahead(k, v)), j, f)
  }

  /**
   * The frame w at the front of u's lookup queue, from daemon to daemon: the answer to its lookup sends it on
   * or drops it, and what goes on the wire arrives where the link and the link address take it.
   */
  ghost function Carry(c: N.Site, mips: nat -> M.State, others: Others, lookup: Lookup, u: nat, w: M.Waiting,
        k: nat): Carried
    requires Wired(c, mips) && u < c.t.n && Carriable(w)
    decreases w.frame.ttl
  {
    var out := Sends(c, mips, others, u, w, lookup(k, u), k);
    if out.wire == [] then Carried(Trip(false, k), N.Givens(u, out.up))
    else
      SentOnce(c, mips, others, u, w, lookup(k, u), k);
      var l := N.OnLink(u, out.wire[0]);
      var (v, j) := Place(c, l);
      Arrived(c, l, v, j);
      var f := N.Received(c, l);
      var e := Takes(c, mips, others, v, j, f, k + 1);
      var up := N.Givens(u, out.up) + N.Givens(v, e.up);
      if e.up != [] then Carried(Trip(true, k + 1), up)
      else if e.requests == [] then Carried(Trip(false, k + 1), up)
      else
        TakenOnce(c, mips, others, v, j, f, k + 1);
        var on := Carry(c, mips, others, lookup, v, e.m.waiting[|e.m.waiting| - 1], k + 1);
        Carried(on.trip, up + on.up)
  }

  /** An interface at which the frame arrives. */
  ghost function Place(c: N.Site, l: N.OnLink): (p: (nat, nat))
    requires exists v: nat, j: nat :: N.Arrives(c, l, v, j)
    ensures N.Arrives(c, l, p.0, p.1)
  {
    var v: nat, j: nat :| N.Arrives(c, l, v, j);
    (v, j)
  }

  lemma Arrived(c: N.Site, l: N.OnLink, v: nat, j: nat)
    requires N.SiteOk(c) && N.Arrives(c, l, v, j)
    ensures v < c.t.n && v < |c.homes| && j < |c.homes[v]| && l.from < |c.homes| && l.what.sock < |c.homes[l.from]|
  {
  }

  /** The address a frame carries once it is on the wire from u: its own, or that of the interface it starts over. */
  function Named(c: N.Site, u: nat, w: M.Waiting, via: Address): Address
    requires Edge(c.t, u, via)
  {
    if w.forwarded then w.frame.source else c.t.near[(u, via)]
  }

  /**
   * The answer puts the frame on the wire if and only if it names a neighbour; then once, unchanged but for the
   * source it is given where it starts, and the neighbour's end of the link is the only place it arrives at.
   */
  lemma SentOnce(c: N.Site, mips: nat -> M.State, others: Others, u: nat, w: M.Waiting, via: Option<Address>, k: nat)
    requires Wired(c, mips) && u < c.t.n && Carriable(w)
    ensures var out := Sends(c, mips, others, u, w, via, k);
      && out.up == [] && (out.wire != [] <==> via.Some? && Edge(c.t, u, via.value))
      && (out.wire != [] ==>
            && out.wire == [out.wire[0]] && out.wire[0].frame == w.frame.(source := Named(c, u, w, via.value))
            && via.value in c.t.owner && c.t.owner[via.value] < |c.homes|
            && ArrivesOnlyAt(c, N.OnLink(u, out.wire[0]), c.t.owner[via.value], via.value))
  {
    WiredNode(c, mips, u);
    var m := mips(u);
    if via.Some? {
      var i := M.FindArp(m.arp, via.value);
      if i < |m.arp| {
        assert N.PairTrue(c, u, m.arp[i]);
        var out := Sends(c, mips, others, u, w, via, k);
        OnlyNeighbour(c, u, m.arp[i], out.wire[0].frame);
      }
    }
    hide Wired, N.SiteOk, ArrivesOnlyAt;
  }

  ghost predicate ArrivesOnlyAt(c: N.Site, l: N.OnLink, v: nat, a: Address)
    requires v < |c.homes|
  {
    && (exists j: nat :: N.Arrives(c, l, v, j))
    && forall v': nat, j: nat :: N.Arrives(c, l, v', j) ==> v' == v && j < |c.homes[v]| && c.homes[v][j] == a
  }

  lemma OnlyNeighbour(c: N.Site, u: nat, p: M.ArpPair, f: M.Frame)
    requires N.SiteOk(c) && u < |c.homes| && N.PairTrue(c, u, p)
    ensures p.mip in c.t.owner && c.t.owner[p.mip] < |c.homes|
    ensures ArrivesOnlyAt(c, N.OnLink(u, M.Sent(p.sock, p.mac, f)), c.t.owner[p.mip], p.mip)
  {
    var l, v := N.OnLink(u, M.Sent(p.sock, p.mac, f)), c.t.owner[p.mip];
    assert Local(c.t, v, p.mip);
    var j: nat :| j < |c.homes[v]| && c.homes[v][j] == p.mip;
    N.UnicastReaches(c, u, p, f, v, j);
    forall v': nat, j': nat | N.Arrives(c, l, v', j')
      ensures v' == v && j' < |c.homes[v]| && c.homes[v][j'] == p.mip
    {
      N.UnicastReaches(c, u, p, f, v', j');
    }
  }

  /**
   * The next daemon delivers the frame if it can, with the source and message it came with; else drops it or asks
   * for its destination and queues it behind what waits. What that is makes no difference.
   */
  lemma TakenOnce(c: N.Site, mips: nat -> M.State, others: Others, v: nat, j: nat, f: M.Frame, k: nat)
    requires Wired(c, mips) && v < c.t.n && v < |c.homes| && j < |c.homes[v]| && f.tra == MIP.TRA_T && f.ttl < 16
    ensures var e := Takes(c, mips, others, v, j, f, k);
      var w := M.Waiting(true, f.(ttl := if f.ttl > 0 then f.ttl - 1 else 0));
      && e.wire == [] && e.notices == []
      && e.up == (if Local(c.t, v, f.dest) then [M.Delivery(f.source, f.msg)] else [])
      && e.requests == (if !Local(c.t, v, f.dest) && f.ttl > 0 then [f.dest] else [])
      && (e.requests != [] ==> e.m.waiting != [] && e.m.waiting[|e.m.waiting| - 1] == w)
  {
    WiredNode(c, mips, v);
    assert f.dest in c.homes[v] <==> Local(c.t, v, f.dest);
    hide Wired, WiredAt, N.SiteOk, WellFormed;
  }

  /** The carried frame makes the relayed trip, and if that delivers it, it is given once, at its destination. */
  ghost predicate CarriedAs(c: N.Site, r: Carried, trip: Trip, u: nat, w: M.Waiting, via: Option<Address>) {
    && r.trip == trip
    && (!trip.delivered ==> r.up == [])
    && (trip.delivered ==>
          && via.Some? && Edge(c.t, u, via.value) && w.frame.dest in c.t.owner
          && r.up == [N.Given(c.t.owner[w.frame.dest], M.Delivery(Named(c, u, w, via.value), w.frame.msg))])
  }

  /** One hop over a real link: to the neighbour's node, which delivers, drops or goes on with the frame. */
  lemma CarryOnce(c: N.Site, mips: nat -> M.State, others: Others, lookup: Lookup, u: nat, w: M.Waiting, k: nat)
    returns (on: M.Waiting)
    requires Wired(c, mips) && u < c.t.n && Carriable(w) && lookup(k, u).Some? && Edge(c.t, u, lookup(k, u).value)
    ensures var via := lookup(k, u).value;
      && via in c.t.owner && c.t.owner[via] < c.t.n
      && Goes(c, mips, others, lookup, u, w, k, c.t.owner[via], Named(c, u, w, via), on)
  {
    hide Wired, Sends, Takes, N.Arrives;
    var via := lookup(k, u);
    SentOnce(c, mips, others, u, w, via, k);
    var out := Sends(c, mips, others, u, w, via, k);
    var l := N.OnLink(u, out.wire[0]);
    var (v, j) := Place(c, l);
    WiredNode(c, mips, u);
    Arrived(c, l, v, j);
    var f := N.Received(c, l);
    TakenOnce(c, mips, others, v, j, f, k + 1);
    on := M.Waiting(true, f.(ttl := if f.ttl > 0 then f.ttl - 1 else 0));
  }

  /** v's daemon delivers w, drops it, or goes on carrying `on`, which is w with one less TTL and its source set. */
  ghost predicate Goes(c: N.Site, mips: nat -> M.State, others: Others, lookup: Lookup, u: nat, w: M.Waiting, k: nat,
        v: nat, source: Address, on: M.Waiting)
    requires Wired(c, mips) && u < c.t.n && Carriable(w) && v < c.t.n
  {
    var r := Carry(c, mips, others, lookup, u, w, k);
    && Carriable(on) && on.forwarded
    && on.frame.dest == w.frame.dest && on.frame.msg == w.frame.msg && on.frame.source == source
    && if Local(c.t, v, w.frame.dest)
       then r == Carried(Trip(true, k + 1), [N.Given(v, M.Delivery(source, w.frame.msg))])
       else if w.frame.ttl == 0 then r == Carried(Trip(false, k + 1), [])
       else on.frame.ttl == w.frame.ttl - 1 && r == Carry(c, mips, others, lookup, v, on, k + 1)
  }

  lemma CarryStops(c: N.Site, mips: nat -> M.State, others: Others, lookup: Lookup, u: nat, w: M.Waiting, k: nat)
    requires Wired(c, mips) && u < c.t.n && Carriable(w)
    requires lookup(k, u).None? || !Edge(c.t, u, lookup(k, u).value)
    ensures Carry(c, mips, others, lookup, u, w, k) == Carried(Trip(false, k), [])
    ensures Relay(c.t, lookup, u, w.frame.dest, w.frame.ttl, k) == Trip(false, k)
  {
    SentOnce(c, mips, others, u, w, lookup(k, u), k);
    hide Wired, Sends;
  }

  lemma {:induction false} CarryIsRelay(c: N.Site, mips: nat -> M.State, others: Others, lookup: Lookup,
        u: nat, w: M.Waiting, k: nat)
    requires Wired(c, mips) && u < c.t.n && Carriable(w)
    ensures CarriedAs(c, Carry(c, mips, others, lookup, u, w, k),
                      Relay(c.t, lookup, u, w.frame.dest, w.frame.ttl, k), u, w, lookup(k, u))
    decreases w.frame.ttl
  {
    hide Wired, Carry, Relay;
    var answer := lookup(k, u);
    if answer.None? || !Edge(c.t, u, answer.value) {
      CarryStops(c, mips, others, lookup, u, w, k);
    } else {
      var on := CarryOnce(c, mips, others, lookup, u, w, k);
      var v := c.t.owner[answer.value];
      RelayOnce(c.t, lookup, u, w.frame.dest, w.frame.ttl, k, answer.value);
      if !Local(c.t, v, w.frame.dest) && w.frame.ttl > 0 {
        CarryIsRelay(c, mips, others, lookup, v, on, k + 1);
      }
    }
  }

  /**
   * From the frame the transport daemon hands down to its delivery or loss, the daemons make exactly this
   * journey, whatever other frames wait before and behind it at every node. A delivered frame is given once, at
   * the node of its destination, with the very message, under the address of the interface it left its node over;
   * a frame for a local address goes straight back up.
   */
  lemma DaemonsMakeJourney(c: N.Site, mips: nat -> M.State, others: Others, lookup: Lookup,
        u: nat, d: Address, msg: seq<byte>)
    requires Wired(c, mips) && u < c.t.n
    ensures var m := mips(u).(waiting := others.ahead(0, u));
      var e, trip := M.OnTransport(m, d, msg), Journey(c.t, lookup, u, d);
      && (Local(c.t, u, d) ==> e == M.Effect(m, [], [], [M.Delivery(d, msg)], []) && trip == Trip(true, 0))
      && (!Local(c.t, u, d) ==>
            && e.up == [] && e.wire == [] && e.requests == [d] && e.m.waiting != []
            && var w := e.m.waiting[|e.m.waiting| - 1];
               && !w.forwarded && w.frame.dest == d && w.frame.msg == msg && Carriable(w)
               && CarriedAs(c, Carry(c, mips, others, lookup, u, w, 0), trip, u, w, lookup(0, u)))
  {
    WiredNode(c, mips, u);
    assert d in c.homes[u] <==> Local(c.t, u, d);
    hide Relay, Carry, CarriedAs, Wired, WellFormed, N.SiteOk;
    if !Local(c.t, u, d) {
      var e := M.OnTransport(mips(u).(waiting := others.ahead(0, u)), d, msg);
      CarryIsRelay(c, mips, others, lookup, u, e.m.waiting[|e.m.waiting| - 1], 0);
    }
  }
}
