/**
 * Three nodes, each linked to both others, that settle and then lose one link: node 0 ends at rest with infinity
 * for an address that is two links away.
 */
module RoutingTriangle {
  import opened Wire
  import opened Routes
  import opened RoutingNode
  import opened RoutingNet
  import opened RoutingConvergence
  import opened RoutingStart
  import opened RoutingLoss

  /** Links 1-2, 3-4 and 5-6; node 0 owns 1 and 3, node 1 owns 2 and 5, node 2 owns 4 and 6. */
  function Triangle(): Topology {
    Topology(3, map[1 := 0, 3 := 0, 2 := 1, 5 := 1, 4 := 2, 6 := 2],
             map[(0, 2) := 1, (1, 1) := 2, (0, 4) := 3, (2, 3) := 4, (1, 6) := 5, (2, 5) := 6])
  }

  function Locals(t: Topology, u: nat): Table {
    map d | d in t.owner && t.owner[d] == u :: Route(d, 0)
  }

  function Fresh(t: Topology): Net {
    Net(seq(t.n, u requires 0 <= u => Router(Locals(t, u), [], [])), map k | k in t.near :: [])
  }

  /** Every topology has a network that knows only its local addresses. */
  lemma FreshStarts(t: Topology)
    requires WellFormed(t)
    ensures Init(t, Fresh(t))
  {
  }

  /** The link from u to address b of node v, with u's end a. */
  ghost predicate Joins(t: Topology, u: nat, b: Address, v: nat, a: Address) {
    (u, b) in t.near && t.near[(u, b)] == a && b in t.owner && t.owner[b] == v
  }

  lemma TriangleJoins()
    ensures var t := Triangle();
      && t.n == 3
      && Joins(t, 0, 2, 1, 1) && Joins(t, 1, 1, 0, 2)
      && Joins(t, 0, 4, 2, 3) && Joins(t, 2, 3, 0, 4)
      && Joins(t, 1, 6, 2, 5) && Joins(t, 2, 5, 1, 6)
  {
  }

  lemma TriangleLinks(u: nat, b: Address)
    ensures Edge(Triangle(), u, b) <==>
            (u == 0 && (b == 2 || b == 4)) || (u == 1 && (b == 1 || b == 6)) || (u == 2 && (b == 3 || b == 5))
  {
  }

  lemma TriangleOwners(d: Address)
    ensures var o := Triangle().owner; d in o ==> o[d] < 3
  {
  }

  lemma TriangleWellFormed()
    ensures WellFormed(Triangle())
  {
    hide Triangle;
    var t := Triangle();
    TriangleJoins();
    forall d | d in t.owner
      ensures t.owner[d] < t.n
    {
      TriangleOwners(d);
    }
    forall u: nat, b: Address | Edge(t, u, b)
      ensures u < t.n && b in t.owner && t.owner[b] != u && Local(t, u, t.near[(u, b)])
      ensures Edge(t, t.owner[b], t.near[(u, b)]) && t.near[(t.owner[b], t.near[(u, b)])] == b
    {
      TriangleLinks(u, b);
    }
  }

  lemma OneHop(t: Topology, u: nat, b: Address, d: Address)
    requires WellFormed(t) && Edge(t, u, b) && Local(t, t.owner[b], d)
    ensures IsDistance(t, u, d, 1)
  {
    assert Hops(t, t.owner[b], d, 0);
    assert Hops(t, u, d, 1);
  }

  /** In a settled network a neighbour's address is reached over a link to that neighbour. */
  lemma DirectRoute(t: Topology, net: Net, u: nat, b: Address, d: Address)
    requires Settled(t, net) && u < t.n && Edge(t, u, b) && b in t.owner && Local(t, t.owner[b], d)
    ensures u < |net.nodes| && d in net.nodes[u].table && net.nodes[u].table[d].cost == 1
    ensures var via := net.nodes[u].table[d].via; Edge(t, u, via) && via in t.owner && Local(t, t.owner[via], d)
  {
    ReadyIsSafe(t, net);
    SafeIsWellFormed(t, net);
    DirectCost(t, net, u, b, d);
    NextHopCloser(t, net, u, d);
    hide Settled, Safe, WellFormed;
    var c := net.nodes[u].table[d].via;
    CostNothing(t, net, t.owner[c], d);
  }

  lemma DirectCost(t: Topology, net: Net, u: nat, b: Address, d: Address)
    requires Settled(t, net) && WellFormed(t) && u < t.n && Edge(t, u, b) && Local(t, t.owner[b], d)
    ensures u < |net.nodes| && d in net.nodes[u].table && net.nodes[u].table[d].cost == 1 && !Local(t, u, d)
  {
    hide Hops;
    SettledIsExact(t, net);
    OneHop(t, u, b, d);
  }

  /** Only local addresses cost nothing. */
  lemma CostNothing(t: Topology, net: Net, x: nat, d: Address)
    requires Settled(t, net) && x < t.n && x < |net.nodes| && d in net.nodes[x].table
    requires net.nodes[x].table[d].cost == 0
    ensures Local(t, x, d)
  {
    var k := FollowReaches(t, net, x, d);
  }

  lemma {:induction false} Owned(t: Topology, x: nat, d: Address, k: nat)
    requires Hops(t, x, d, k)
    ensures d in t.owner
    decreases k
  {
    if k > 0 {
      var b: Address :| Edge(t, x, b) && b in t.owner && Hops(t, t.owner[b], d, k - 1);
      Owned(t, t.owner[b], d, k - 1);
    }
  }

  /** w is linked to every other node that owns an address. */
  ghost predicate LinkedToAll(t: Topology, w: nat) {
    forall d :: d in t.owner && t.owner[d] != w ==> LinkedTo(t, w, t.owner[d])
  }

  ghost predicate LinkedTo(t: Topology, w: nat, v: nat) {
    exists b :: Edge(t, w, b) && b in t.owner && t.owner[b] == v
  }

  /** A node linked to all others relies on none of them for a third one. */
  lemma DirectRelies(t: Topology, net: Net, w: nat, c: Address, d: Address)
    requires Settled(t, net) && w < t.n && w < |net.nodes| && LinkedToAll(t, w)
    requires Edge(t, w, c) && c in t.owner && Relies(net.nodes[w].table, c, d)
    ensures Local(t, t.owner[c], d)
  {
    ReadyIsSafe(t, net);
    SafeIsWellFormed(t, net);
    assert NodeOk(t, net.nodes, w);
    assert Reachable(t, w, d);
    var k: nat :| Hops(t, w, d, k);
    Owned(t, w, d, k);
    hide Settled, Safe, Hops, Reachable;
    assert t.owner[c] != w;
    if t.owner[d] != w {
      var b :| Edge(t, w, b) && b in t.owner && t.owner[b] == t.owner[d];
      DirectRoute(t, net, w, b, d);
    } else {
      assert net.nodes[w].table[d] == Route(d, 0);
    }
  }

  lemma LocalNotThrough(t: Topology, net: Net, l: Link, d: Address)
    requires Settled(t, net) && IsLink(t, l) && l.u < |net.nodes| && Local(t, l.u, d)
    ensures !Through(net.nodes[l.u].table, l.b, d)
  {
    assert NodeOk(t, net.nodes, l.u);
  }

  lemma MeshIndependent(t: Topology, net: Net, l: Link)
    requires Settled(t, net) && IsLink(t, l) && l.u < |net.nodes|
    requires forall w :: 0 <= w < t.n ==> LinkedToAll(t, w)
    ensures NobodyDepends(t, net.nodes, l)
  {
    SettledShape(t, net);
    hide Settled, LinkedToAll, Relies, Through;
    forall w: nat, c: Address, d: Address |
      Edge(t, w, c) && c in t.owner && t.owner[c] == l.u && w != l.v && w < |net.nodes| &&
      Relies(net.nodes[w].table, c, d)
      ensures !Through(net.nodes[l.u].table, l.b, d)
    {
      assert LinkedToAll(t, w);
      DirectRelies(t, net, w, c, d);
      LocalNotThrough(t, net, l, d);
    }
  }

  lemma SettledShape(t: Topology, net: Net)
    requires Settled(t, net)
    ensures Safe(t, net) && WellFormed(t) && |net.nodes| == t.n
  {
  }

  // ----- the triangle -----

  function Broken(): Link { Link(0, 2, 1, 1) }

  lemma BrokenIsOnlyLink()
    ensures var t, l := Triangle(), Broken();
      IsLink(t, l) && OnlyLink(t, l) && IsLink(t, Flip(l))
  {
    hide Triangle;
    TriangleJoins();
    forall b | Edge(Triangle(), 0, b)
      ensures b == 2 || b == 4
    {
      TriangleLinks(0, b);
    }
  }

  lemma TriangleMesh(w: nat)
    requires w < 3
    ensures LinkedToAll(Triangle(), w)
  {
    hide Triangle;
    var t := Triangle();
    TriangleJoins();
    assert Edge(t, 0, 2) && Edge(t, 0, 4) && Edge(t, 1, 1) && Edge(t, 1, 6) && Edge(t, 2, 3) && Edge(t, 2, 5);
    forall d | d in t.owner && t.owner[d] != w
      ensures LinkedTo(t, w, t.owner[d])
    {
      TriangleOwners(d);
    }
  }

  lemma TriangleLoses(net: Net)
    requires Settled(Triangle(), net)
    ensures Loses(Triangle(), net, Broken())
  {
    hide Triangle, Settled;
    var t, l := Triangle(), Broken();
    BrokenIsOnlyLink();
    TriangleJoins();
    SettledShape(t, net);
    forall w | 0 <= w < t.n
      ensures LinkedToAll(t, w)
    {
      TriangleMesh(w);
    }
    MeshIndependent(t, net, l);
    MeshIndependent(t, net, Flip(l));
  }

  /** Both ends are told, one after the other. */
  lemma BothTold(t: Topology, net: Net, l: Link) returns (now: Net)
    requires Loses(t, net, l)
    ensures var told := [Lose(l.u, l.b), Lose(l.v, l.a)];
      IsRun(t, net, told) && now == Run(t, net, told) && After(t, net, l, now) && l.b !in now.nodes[l.u].neighbours
  {
    LossDistinct(t, net, l);
    hide Loses, After, WellFormed, OnLoss;
    AfterAtFirst(t, net, l);
    LoseKeeps(t, net, l, net);
    var first := Next(t, net, Lose(l.u, l.b));
    AfterStep(t, net, l, first, Lose(l.v, l.a));
    now := Next(t, first, Lose(l.v, l.a));
    TwoSteps(t, net, Lose(l.u, l.b), Lose(l.v, l.a));
  }

  lemma TwoSteps(t: Topology, net: Net, s: Step, s': Step)
    requires Enabled(t, net, s) && Enabled(t, Next(t, net, s), s')
    ensures IsRun(t, net, [s, s']) && Run(t, net, [s, s']) == Next(t, Next(t, net, s), s')
  {
    OneStep(t, net, s);
    OneStep(t, Next(t, net, s), s');
    hide Enabled, Next, IsRun, Run;
    RunThen(t, net, [s], [s']);
    assert [s] + [s'] == [s, s'];
  }

  lemma OneStep(t: Topology, net: Net, s: Step)
    requires Enabled(t, net, s)
    ensures IsRun(t, net, [s]) && Run(t, net, [s]) == Next(t, net, s)
  {
    hide Enabled, Next;
    RunOfNone(t, Next(t, net, s));
    assert [s][1..] == [];
  }

  lemma ErasedIsLost(t: Topology, net: Net, l: Link, now: Net, d: Address)
    requires Loses(t, net, l) && After(t, net, l, now) && l.b !in now.nodes[l.u].neighbours
    requires Through(net.nodes[l.u].table, l.b, d)
    ensures d in now.nodes[l.u].table && now.nodes[l.u].table[d].cost == INF_COST
  {
    Listed(t, net, l);
  }

  lemma HopsOver(t: Topology, u: nat, b: Address, d: Address, k: nat)
    requires Edge(t, u, b) && b in t.owner && Hops(t, t.owner[b], d, k)
    ensures Hops(t, u, d, k + 1)
  {
  }

  lemma TriangleDetour()
    ensures Hops(Cut(Triangle(), Broken()), 0, 2, 2)
  {
    hide Triangle, Hops;
    TriangleJoins();
    TriangleOwnersOf();
    var t := Cut(Triangle(), Broken());
    assert Edge(t, 0, 4) && Edge(t, 2, 5);
    LocalHops(t, 1, 2);
    HopsOver(t, 2, 5, 2, 0);
    HopsOver(t, 0, 4, 2, 1);
  }

  lemma LocalHops(t: Topology, u: nat, d: Address)
    requires Local(t, u, d)
    ensures Hops(t, u, d, 0)
  {
  }

  lemma TriangleOwnersOf()
    ensures var o := Triangle().owner; 2 in o && o[2] == 1 && 4 in o && o[4] == 2 && 5 in o && o[5] == 1
  {
  }

  /** A run from the start in which node 0 settles, loses its link to node 1 and comes to rest. */
  ghost predicate RouteLost(t: Topology, l: Link, start: Net, steps: seq<Step>) {
    && Init(t, start) && IsRun(t, start, steps)
    && (forall s :: s in steps ==> Lossless(s) || s == Lose(l.u, l.b) || s == Lose(l.v, l.a))
    && Quiescent(Run(t, start, steps))
  }

  /**
   * Reconvergence after a lost link is not what the code does: from the start over a triangle, nothing but the
   * one link lost, node 0 ends at rest with infinity for address 2, which two links still lead to.
   */
  lemma RouteStaysLost() returns (start: Net, steps: seq<Step>)
    ensures RouteLost(Triangle(), Broken(), start, steps) && |start.nodes| == 3
    ensures var table := Run(Triangle(), start, steps).nodes[0].table; 2 in table && table[2].cost == INF_COST
    ensures Hops(Cut(Triangle(), Broken()), 0, 2, 2)
  {
    hide Triangle, Hops, Exact, Quiescent, Init, Loses, After, Safe, Cover, AllAppeared;
    var t, l := Triangle(), Broken();
    TriangleWellFormed();
    start := Fresh(t);
    FreshStarts(t);
    var front := StartSettles(t, start);
    EventsRun(t, start, front);
    var net := Run(t, start, front);
    assert Settled(t, net);
    TriangleLoses(net);
    TriangleRoute(net);
    var now := BothTold(t, net, l);
    var told := [Lose(l.u, l.b), Lose(l.v, l.a)];
    var back := AfterSettles(t, net, l, now);
    SettlingEvents(t, now, back);
    EventsRun(t, now, back);
    RunThen(t, net, told, back);
    RunThen(t, start, front, told + back);
    steps := front + (told + back);
    ErasedIsLost(t, net, l, Run(t, now, back), 2);
    TriangleDetour();
    TriangleJoins();
  }

  lemma TriangleRoute(net: Net)
    requires Settled(Triangle(), net)
    ensures 0 < |net.nodes| && Through(net.nodes[0].table, 2, 2)
  {
    hide Triangle, Settled;
    TriangleJoins();
    TriangleOwnersOf();
    DirectRoute(Triangle(), net, 0, 2, 2);
    TriangleLinks(0, net.nodes[0].table[2].via);
  }
}
