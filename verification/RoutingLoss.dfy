/**
 * A link is lost in a settled network. If no third node depends on the lost routes, nobody reacts, and each end
 * of the link is right about the remaining network exactly when none of its lost destinations has another way.
 */
module RoutingLoss {
  import opened Wire
  import opened Routes
  import opened RoutingNode
  import opened RoutingNet
  import opened RoutingConvergence
  import opened RoutingStart

  /** The link between u and v: v's end has address b, u's end has address a. */
  datatype Link = Link(u: nat, b: Address, v: nat, a: Address)

  ghost predicate IsLink(t: Topology, l: Link) {
    Edge(t, l.u, l.b) && l.b in t.owner && t.owner[l.b] == l.v && t.near[(l.u, l.b)] == l.a
  }

  function Flip(l: Link): Link { Link(l.v, l.a, l.u, l.b) }

  predicate IsEnd(l: Link, k: (nat, Address)) {
    k == (l.u, l.b) || k == (l.v, l.a)
  }

  /** The topology without the link. */
  function Cut(t: Topology, l: Link): Topology {
    t.(near := map k | k in t.near && !IsEnd(l, k) :: t.near[k])
  }

  /** No second link joins the same two nodes; over one the other end's own update would repair the routes. */
  ghost predicate OnlyLink(t: Topology, l: Link) {
    forall b :: Edge(t, l.u, b) && b in t.owner && t.owner[b] == l.v ==> b == l.b
  }

  predicate Through(table: Table, y: Address, d: Address) {
    d in table && table[d].via == y
  }

  predicate Relies(table: Table, y: Address, d: Address) {
    Through(table, y, d) && table[d].cost != INF_COST
  }

  /** No third node has a finite route through u to a destination that u loses with the link. */
  ghost predicate NobodyDepends(t: Topology, nodes: seq<Router>, l: Link)
    requires l.u < |nodes|
  {
    forall w: nat, c: Address, d: Address ::
      Edge(t, w, c) && c in t.owner && t.owner[c] == l.u && w != l.v && w < |nodes| && Through(nodes[l.u].table, l.b, d)
      ==> !Relies(nodes[w].table, c, d)
  }

  ghost predicate Settled(t: Topology, net: Net) {
    Ready(t, net) && Quiescent(net)
  }

  /** What is asked of the network and the link, seen from either end. */
  ghost predicate Loses(t: Topology, net: Net, l: Link) {
    && Settled(t, net) && IsLink(t, l) && OnlyLink(t, l) && l.u < |net.nodes| && l.v < |net.nodes|
    && NobodyDepends(t, net.nodes, l) && NobodyDepends(t, net.nodes, Flip(l))
  }

  lemma FlipLink(t: Topology, l: Link)
    requires WellFormed(t) && IsLink(t, l)
    ensures IsLink(t, Flip(l)) && Cut(t, Flip(l)) == Cut(t, l) && l.u != l.v && l.u < t.n && l.v < t.n
    ensures OnlyLink(t, l) ==> OnlyLink(t, Flip(l))
  {
    if OnlyLink(t, l) {
      forall c | Edge(t, l.v, c) && c in t.owner && t.owner[c] == l.u
        ensures c == l.a
      {
        var b := t.near[(l.v, c)];
        assert Edge(t, l.u, b) && t.owner[b] == l.v;
      }
    }
  }

  lemma FlipLoses(t: Topology, net: Net, l: Link)
    requires Loses(t, net, l)
    ensures Loses(t, net, Flip(l)) && Flip(Flip(l)) == l
  {
    hide NobodyDepends, Safe, Cover, AllAppeared, Quiescent;
    SafeIsWellFormed(t, net);
    FlipLink(t, l);
  }

  lemma CutWellFormed(t: Topology, l: Link)
    requires WellFormed(t) && IsLink(t, l)
    ensures WellFormed(Cut(t, l))
  {
  }

  // ----- who reacts -----

  /** In a settled network the entry of a neighbour is at most one hop more, and exactly that if it leads here. */
  lemma SettledPair(t: Topology, net: Net, w: nat, c: Address, d: Address)
    requires Settled(t, net) && Edge(t, w, c) && c in t.owner && t.owner[c] < |net.nodes| && w < |net.nodes|
    requires d in net.nodes[t.owner[c]].table
    ensures Held(net.nodes[w].table, d, net.nodes[t.owner[c]].table[d].cost)
    ensures Through(net.nodes[w].table, c, d) ==>
              net.nodes[w].table[d].cost == Relaxed(net.nodes[t.owner[c]].table[d].cost)
  {
    QuietEdge(t, net, w, c, d);
    if Through(net.nodes[w].table, c, d) {
      assert NodeOk(t, net.nodes, w);
      assert Local(t, w, d) || LeadsCloser(t, net.nodes, w, d);
      assert t.owner[c] != w;
    }
  }

  /** What u sends over a remaining link once it has noticed the loss. */
  function AfterLoss(t: Topology, nodes: seq<Router>, l: Link, k: (nat, Address)): Advert
    requires l.u < |nodes| && k in t.near
  {
    Pack(LoseVia(nodes[l.u].table, l.b), t.near[k])
  }

  /** One destination of that advertisement replaces w's entry exactly when w relies on u for it and u lost it. */
  lemma ReactsTo(t: Topology, net: Net, l: Link, w: nat, c: Address, d: Address)
    requires Settled(t, net) && IsLink(t, l) && l.u < |net.nodes|
    requires Edge(t, w, c) && c in t.owner && t.owner[c] == l.u && w < |net.nodes| && w != l.v
    ensures var ad := AfterLoss(t, net.nodes, l, (w, c));
      d in ad && Wins(net.nodes[w].table, c, d, Relaxed(ad[d])) <==>
      Through(net.nodes[l.u].table, l.b, d) && Relies(net.nodes[w].table, c, d)
  {
    if d in net.nodes[l.u].table {
      SettledPair(t, net, w, c, d);
      NearNotFar(t, net, l, w, c);
    }
  }

  lemma NearNotFar(t: Topology, net: Net, l: Link, w: nat, c: Address)
    requires Settled(t, net) && IsLink(t, l) && Edge(t, w, c) && w != l.v
    ensures t.near[(w, c)] != l.b
  {
  }

  /** A third node reacts to the advertisement after the loss if and only if it relied on a lost route. */
  lemma ThirdReactsIff(t: Topology, net: Net, l: Link, w: nat, c: Address)
    requires Settled(t, net) && IsLink(t, l) && l.u < |net.nodes|
    requires Edge(t, w, c) && c in t.owner && t.owner[c] == l.u && w < |net.nodes| && w != l.v
    ensures OnAdvert(net.nodes[w], c, AfterLoss(t, net.nodes, l, (w, c))) != net.nodes[w] <==>
            exists d :: Through(net.nodes[l.u].table, l.b, d) && Relies(net.nodes[w].table, c, d)
  {
    hide Settled, IsLink, Through, Relies, AfterLoss, Wins;
    var ad := AfterLoss(t, net.nodes, l, (w, c));
    ReactsExactly(net.nodes[w], c, ad);
    forall d: Address
      ensures d in ad && Wins(net.nodes[w].table, c, d, Relaxed(ad[d])) <==>
              Through(net.nodes[l.u].table, l.b, d) && Relies(net.nodes[w].table, c, d)
    {
      ReactsTo(t, net, l, w, c, d);
    }
  }

  // ----- what every step after the loss keeps -----

  /** An end of the link is as before, or has erased the neighbour and set its routes to infinity. */
  ghost predicate EndState(before: Router, now: Router, y: Address) {
    || now == before
    || (now.table == LoseVia(before.table, y) && now.neighbours == Without(before.neighbours, y))
  }

  ghost predicate SentAfter(t: Topology, nodes: seq<Router>, l: Link, k: (nat, Address), ad: Advert)
    requires l.u < |nodes| && k in t.near
  {
    k.1 in t.owner && t.owner[k.1] == l.u && k.0 != l.v && k.0 != l.u && ad == AfterLoss(t, nodes, l, k)
  }

  ghost predicate OnlySent(t: Topology, nodes: seq<Router>, l: Link, k: (nat, Address), q: seq<Advert>)
    requires l.u < |nodes| && l.v < |nodes| && k in t.near
  {
    forall i :: 0 <= i < |q| ==> SentAfter(t, nodes, l, k, q[i]) || SentAfter(t, nodes, Flip(l), k, q[i])
  }

  ghost predicate ThirdsKept(nodes: seq<Router>, now: seq<Router>, l: Link)
    requires |now| == |nodes|
  {
    forall w :: 0 <= w < |nodes| && w != l.u && w != l.v ==> now[w] == nodes[w]
  }

  ghost predicate InFlightAfter(t: Topology, net: Net, l: Link, now: Net)
    requires l.u < |net.nodes| && l.v < |net.nodes|
  {
    now.chans.Keys == t.near.Keys && forall k :: k in t.near ==> OnlySent(t, net.nodes, l, k, now.chans[k])
  }

  /** Third nodes are untouched; what is in flight comes from an end of the link and goes to third nodes. */
  ghost predicate After(t: Topology, net: Net, l: Link, now: Net) {
    && |now.nodes| == |net.nodes| && l.u < |net.nodes| && l.v < |net.nodes|
    && ThirdsKept(net.nodes, now.nodes, l)
    && EndState(net.nodes[l.u], now.nodes[l.u], l.b) && EndState(net.nodes[l.v], now.nodes[l.v], l.a)
    && InFlightAfter(t, net, l, now)
  }

  /** Either end is told of the loss; advertisements are sent, delivered or lost. */
  predicate LossStep(l: Link, s: Step) {
    s == Lose(l.u, l.b) || s == Lose(l.v, l.a) || s.Send? || s.Deliver? || s.Drop?
  }

  lemma FlipAfter(t: Topology, net: Net, l: Link, now: Net)
    requires After(t, net, l, now)
    ensures After(t, net, Flip(l), now)
  {
    assert Flip(Flip(l)) == l;
    forall k | k in t.near
      ensures OnlySent(t, net.nodes, Flip(l), k, now.chans[k])
    {
      assert OnlySent(t, net.nodes, l, k, now.chans[k]);
    }
  }

  lemma AfterAtFirst(t: Topology, net: Net, l: Link)
    requires Loses(t, net, l)
    ensures After(t, net, l, net)
  {
    forall k | k in t.near
      ensures OnlySent(t, net.nodes, l, k, net.chans[k])
    {
      assert net.chans[k] == [];
    }
  }

  lemma {:induction false} WithoutGone(s: seq<Address>, a: Address)
    requires NoneTwice(s)
    ensures a !in Without(s, a) && forall x :: x in Without(s, a) ==> x in s
  {
    if s != [] && s[0] != a {
      WithoutGone(s[1..], a);
    }
  }

  lemma Listed(t: Topology, net: Net, l: Link)
    requires Loses(t, net, l)
    ensures l.b in net.nodes[l.u].neighbours && NoneTwice(net.nodes[l.u].neighbours)
    ensures l.b !in Without(net.nodes[l.u].neighbours, l.b)
  {
    assert NodeOk(t, net.nodes, l.u);
    assert Edge(t, l.v, l.a) && Noticed(t, net, l.v, l.a);
    WithoutGone(net.nodes[l.u].neighbours, l.b);
  }

  lemma LoseKeeps(t: Topology, net: Net, l: Link, now: Net)
    requires Loses(t, net, l) && After(t, net, l, now)
    ensures Edge(t, l.u, l.b) && After(t, net, l, Next(t, now, Lose(l.u, l.b)))
    ensures l.b !in Next(t, now, Lose(l.u, l.b)).nodes[l.u].neighbours
  {
    Listed(t, net, l);
    LossDistinct(t, net, l);
    hide Loses, InFlightAfter, Without, LoseVia, NoneTwice;
  }

  lemma LossDistinct(t: Topology, net: Net, l: Link)
    requires Loses(t, net, l)
    ensures l.u != l.v && IsLink(t, l) && WellFormed(t) && |net.nodes| == t.n && OnlyLink(t, l) && OnlyLink(t, Flip(l))
    ensures IsLink(t, Flip(l)) && Cut(t, Flip(l)) == Cut(t, l)
  {
    SafeIsWellFormed(t, net);
    FlipLink(t, l);
  }

  /** Once told, u sends to third nodes only. */
  lemma SendChanKept(t: Topology, net: Net, l: Link, now: Net, k: (nat, Address))
    requires Loses(t, net, l) && After(t, net, l, now) && now.nodes[l.u].queue != [] && k in t.near && k in now.chans
    ensures OnlySent(t, net.nodes, l, k, SentOn(t, now, l.u, k))
  {
    assert OnlySent(t, net.nodes, l, k, now.chans[k]);
    if SentOn(t, now, l.u, k) != now.chans[k] {
      SentToThird(t, net, l, now, k);
      assert SentAfter(t, net.nodes, l, k, Pack(now.nodes[l.u].table, t.near[k]));
    }
  }

  lemma SentToThird(t: Topology, net: Net, l: Link, now: Net, k: (nat, Address))
    requires Loses(t, net, l) && After(t, net, l, now) && now.nodes[l.u].queue != [] && k in t.near
    requires Local(t, l.u, k.1) && t.near[k] in now.nodes[l.u].neighbours
    ensures k.0 != l.v && k.0 != l.u && now.nodes[l.u].table == LoseVia(net.nodes[l.u].table, l.b)
  {
    QuietQueue(t, net, l);
    Listed(t, net, l);
    LossDistinct(t, net, l);
    var (w, c) := k;
    assert Edge(t, w, c);
    hide Loses, InFlightAfter, ThirdsKept, Without, LoseVia;
  }

  lemma QuietQueue(t: Topology, net: Net, l: Link)
    requires Loses(t, net, l)
    ensures forall w :: 0 <= w < |net.nodes| ==> net.nodes[w].queue == []
  {
  }

  lemma SendFromEnd(t: Topology, net: Net, l: Link, now: Net)
    requires Loses(t, net, l) && After(t, net, l, now) && now.nodes[l.u].queue != []
    ensures After(t, net, l, Next(t, now, Send(l.u)))
  {
    hide Loses, EndState, ThirdsKept, InFlightAfter, OnSent, SentOn;
    SendNodesKept(t, net, l, now);
    SendChansKept(t, net, l, now);
  }

  lemma SendChansKept(t: Topology, net: Net, l: Link, now: Net)
    requires Loses(t, net, l) && After(t, net, l, now) && now.nodes[l.u].queue != []
    ensures InFlightAfter(t, net, l, Next(t, now, Send(l.u)))
  {
    hide Loses, EndState, ThirdsKept, OnlySent, OnSent, SentOn;
    forall k | k in t.near
      ensures OnlySent(t, net.nodes, l, k, SentOn(t, now, l.u, k))
    {
      SendChanKept(t, net, l, now, k);
    }
  }

  lemma SendNodesKept(t: Topology, net: Net, l: Link, now: Net)
    requires Loses(t, net, l) && After(t, net, l, now) && now.nodes[l.u].queue != []
    ensures var nodes' := Next(t, now, Send(l.u)).nodes;
      && ThirdsKept(net.nodes, nodes', l)
      && EndState(net.nodes[l.u], nodes'[l.u], l.b) && EndState(net.nodes[l.v], nodes'[l.v], l.a)
  {
    QuietQueue(t, net, l);
    LossDistinct(t, net, l);
    hide Loses, InFlightAfter, SentOn, Without, LoseVia;
  }

  lemma SendKept(t: Topology, net: Net, l: Link, now: Net, x: nat)
    requires Loses(t, net, l) && After(t, net, l, now) && Enabled(t, now, Send(x))
    ensures After(t, net, l, Next(t, now, Send(x)))
  {
    QuietQueue(t, net, l);
    if x == l.u {
      SendFromEnd(t, net, l, now);
    } else {
      assert x == l.v;
      FlipLoses(t, net, l);
      FlipAfter(t, net, l, now);
      SendFromEnd(t, net, Flip(l), now);
      FlipAfter(t, net, Flip(l), Next(t, now, Send(x)));
    }
  }

  /** A third node that depends on none of the lost routes does not react. */
  lemma Inert(t: Topology, net: Net, l: Link, w: nat, c: Address, ad: Advert)
    requires Loses(t, net, l) && Edge(t, w, c) && w < |net.nodes| && SentAfter(t, net.nodes, l, (w, c), ad)
    ensures OnAdvert(net.nodes[w], c, ad) == net.nodes[w]
  {
    ThirdReactsIff(t, net, l, w, c);
  }

  lemma InertFront(t: Topology, net: Net, l: Link, now: Net, w: nat, c: Address)
    requires Loses(t, net, l) && After(t, net, l, now) && Enabled(t, now, Deliver(w, c))
    ensures OnAdvert(now.nodes[w], c, now.chans[(w, c)][0]) == now.nodes[w]
  {
    hide EndState, AfterLoss, OnAdvert, NobodyDepends, Settled;
    var q := now.chans[(w, c)];
    assert Edge(t, w, c) && OnlySent(t, net.nodes, l, (w, c), q);
    if SentAfter(t, net.nodes, l, (w, c), q[0]) {
      Inert(t, net, l, w, c, q[0]);
    } else {
      FlipLoses(t, net, l);
      Inert(t, net, Flip(l), w, c, q[0]);
    }
  }

  lemma DeliverKept(t: Topology, net: Net, l: Link, now: Net, w: nat, c: Address)
    requires Loses(t, net, l) && After(t, net, l, now) && Enabled(t, now, Deliver(w, c))
    ensures Next(t, now, Deliver(w, c)).nodes == now.nodes
    ensures After(t, net, l, Next(t, now, Deliver(w, c)))
  {
    hide Loses, After, OnAdvert;
    var q := now.chans[(w, c)];
    InertFront(t, net, l, now, w, c);
    assert q[1..] == q[..0] + q[1..];
    ShorterAfter(t, net, l, now, (w, c), 0);
    assert now.nodes[w := now.nodes[w]] == now.nodes;
  }

  lemma ShorterAfter(t: Topology, net: Net, l: Link, now: Net, k: (nat, Address), i: nat)
    requires After(t, net, l, now) && k in now.chans && i < |now.chans[k]|
    ensures var q := now.chans[k];
      After(t, net, l, now.(chans := now.chans[k := q[..i] + q[i + 1..]]))
  {
    hide ThirdsKept, EndState, SentAfter;
    assert OnlySent(t, net.nodes, l, k, now.chans[k]);
    ShorterSent(t, net.nodes, l, k, now.chans[k], i);
  }

  lemma ShorterSent(t: Topology, nodes: seq<Router>, l: Link, k: (nat, Address), q: seq<Advert>, i: nat)
    requires l.u < |nodes| && l.v < |nodes| && k in t.near && i < |q| && OnlySent(t, nodes, l, k, q)
    ensures OnlySent(t, nodes, l, k, q[..i] + q[i + 1..])
  {
    hide SentAfter;
  }

  lemma AfterStep(t: Topology, net: Net, l: Link, now: Net, s: Step)
    requires Loses(t, net, l) && After(t, net, l, now) && Enabled(t, now, s) && LossStep(l, s)
    ensures After(t, net, l, Next(t, now, s))
  {
    match s
    case Send(x) => SendKept(t, net, l, now, x);
    case Deliver(w, c) => DeliverKept(t, net, l, now, w, c);
    case Drop(w, c, i) => ShorterAfter(t, net, l, now, (w, c), i);
    case Lose(x, y) =>
      if s == Lose(l.u, l.b) {
        LoseKeeps(t, net, l, now);
      } else {
        FlipLoses(t, net, l);
        FlipAfter(t, net, l, now);
        LoseKeeps(t, net, Flip(l), now);
        FlipAfter(t, net, Flip(l), Next(t, now, s));
      }
  }

  lemma {:induction false} AfterRun(t: Topology, net: Net, l: Link, now: Net, steps: seq<Step>)
    requires Loses(t, net, l) && After(t, net, l, now)
    requires IsRun(t, now, steps) && forall s :: s in steps ==> LossStep(l, s)
    ensures After(t, net, l, Run(t, now, steps))
    decreases |steps|
  {
    hide Loses, After, Enabled, Next;
    if steps != [] {
      assert steps[0] in steps;
      AfterStep(t, net, l, now, steps[0]);
      AfterRun(t, net, l, Next(t, now, steps[0]), steps[1..]);
    }
  }

  /** The loss is announced: told of it, u queues one update, and sending it reaches every remaining neighbour. */
  lemma LossIsTold(t: Topology, net: Net, l: Link, w: nat, c: Address)
    requires Loses(t, net, l) && Edge(t, w, c) && c in t.owner && t.owner[c] == l.u && w != l.v
    ensures Edge(t, l.u, l.b) && |Next(t, net, Lose(l.u, l.b)).nodes[l.u].queue| == 1
    ensures var told := Next(t, net, Lose(l.u, l.b));
      && Enabled(t, told, Send(l.u)) && (w, c) in net.chans
      && Next(t, told, Send(l.u)).chans[(w, c)] == [AfterLoss(t, net.nodes, l, (w, c))]
      && Next(t, told, Send(l.u)).nodes[l.u].queue == []
  {
    Listed(t, net, l);
    QuietQueue(t, net, l);
    LossDistinct(t, net, l);
    RemainingNeighbour(t, net, l, w, c);
    hide Loses, Without, LoseVia, Pack, WellFormed;
  }

  lemma RemainingNeighbour(t: Topology, net: Net, l: Link, w: nat, c: Address)
    requires Loses(t, net, l) && Edge(t, w, c) && c in t.owner && t.owner[c] == l.u && w != l.v
    ensures (w, c) in net.chans && net.chans[(w, c)] == [] && Local(t, l.u, c)
    ensures t.near[(w, c)] in Without(net.nodes[l.u].neighbours, l.b)
  {
    assert Noticed(t, net, w, c);
    NearNotFar(t, net, l, w, c);
    OthersStay(net.nodes[l.u].neighbours, l.b, t.near[(w, c)]);
  }

  lemma {:induction false} OthersStay(s: seq<Address>, a: Address, x: Address)
    requires x in s && x != a
    ensures x in Without(s, a)
  {
    if s[0] != a && s[0] != x {
      OthersStay(s[1..], a, x);
    }
  }

  // ----- who is right afterwards -----

  lemma {:induction false} CutHops(t: Topology, l: Link, x: nat, d: Address, k: nat)
    requires Hops(Cut(t, l), x, d, k)
    ensures Hops(t, x, d, k)
    decreases k
  {
    if k > 0 {
      var c: Address :| Edge(Cut(t, l), x, c) && c in t.owner && Hops(Cut(t, l), t.owner[c], d, k - 1);
      CutHops(t, l, t.owner[c], d, k - 1);
      assert Edge(t, x, c);
    }
  }

  /** The loss does not touch x's entry for d. */
  predicate Keeps(l: Link, x: nat, table: Table, d: Address) {
    d in table ==> !(x == l.u && table[d].via == l.b) && !(x == l.v && table[d].via == l.a)
  }

  /** The next hop of an untouched finite entry has an untouched finite entry, over a link that stays. */
  lemma NextHopKeeps(t: Topology, net: Net, l: Link, x: nat, d: Address)
    requires Loses(t, net, l) && x < |net.nodes| && d in net.nodes[x].table && !Local(t, x, d)
    requires Keeps(l, x, net.nodes[x].table, d)
    requires net.nodes[x].table[d].cost < INF_COST
    ensures var via := net.nodes[x].table[d].via;
      && Edge(Cut(t, l), x, via) && via in t.owner && t.owner[via] < |net.nodes|
      && d in net.nodes[t.owner[via]].table && Keeps(l, t.owner[via], net.nodes[t.owner[via]].table, d)
      && net.nodes[t.owner[via]].table[d].cost < net.nodes[x].table[d].cost
  {
    LossIsSafe(t, net, l);
    NextHopCloser(t, net, x, d);
    NotReliedAtEnds(t, net, l, x, d);
    hide Loses, Safe;
  }

  lemma LossIsSafe(t: Topology, net: Net, l: Link)
    requires Loses(t, net, l)
    ensures Safe(t, net) && |net.nodes| == t.n && l.u != l.v
  {
    LossDistinct(t, net, l);
  }

  lemma NotReliedAtEnds(t: Topology, net: Net, l: Link, x: nat, d: Address)
    requires Loses(t, net, l) && x < |net.nodes| && d in net.nodes[x].table
    requires Keeps(l, x, net.nodes[x].table, d) && net.nodes[x].table[d].cost < INF_COST
    requires var via := net.nodes[x].table[d].via; Edge(t, x, via) && via in t.owner
    ensures var via := net.nodes[x].table[d].via;
      && !IsEnd(l, (x, via))
      && (t.owner[via] == l.u ==> !Through(net.nodes[l.u].table, l.b, d))
      && (t.owner[via] == l.v ==> !Through(net.nodes[l.v].table, l.a, d))
  {
    hide Loses;
    var via := net.nodes[x].table[d].via;
    if t.owner[via] == l.u {
      NotRelied(t, net, l, x, via, d);
    }
    if t.owner[via] == l.v {
      FlipLoses(t, net, l);
      NotRelied(t, net, Flip(l), x, via, d);
    }
  }

  lemma NotRelied(t: Topology, net: Net, l: Link, x: nat, c: Address, d: Address)
    requires Loses(t, net, l) && x < |net.nodes| && Edge(t, x, c) && c in t.owner && t.owner[c] == l.u
    requires Relies(net.nodes[x].table, c, d) && (x, c) != (l.v, l.a)
    ensures !Through(net.nodes[l.u].table, l.b, d)
  {
    LossDistinct(t, net, l);
  }

  /** An untouched finite route is still there in the remaining network. */
  lemma {:induction false} PathSurvives(t: Topology, net: Net, l: Link, x: nat, d: Address) returns (k: nat)
    requires Loses(t, net, l) && x < |net.nodes| && d in net.nodes[x].table && Keeps(l, x, net.nodes[x].table, d)
    requires net.nodes[x].table[d].cost < INF_COST
    ensures k <= net.nodes[x].table[d].cost && Hops(Cut(t, l), x, d, k)
    decreases net.nodes[x].table[d].cost
  {
    hide Loses, Keeps;
    if Local(t, x, d) {
      k := 0;
    } else {
      NextHopKeeps(t, net, l, x, d);
      var via := net.nodes[x].table[d].via;
      var k' := PathSurvives(t, net, l, t.owner[via], d);
      k := k' + 1;
      assert Edge(Cut(t, l), x, via) && via in Cut(t, l).owner;
    }
  }

  /** An entry tells the distance, capped at infinity, and infinity if there is no way at all. */
  ghost predicate RightFor(t: Topology, x: nat, d: Address, cost: byte) {
    && (forall k: nat :: IsDistance(t, x, d, k) ==> cost == Capped(k))
    && (!Reachable(t, x, d) ==> cost == INF_COST)
  }

  /** Every reachable address is known and every entry is right. */
  ghost predicate Right(t: Topology, x: nat, table: Table) {
    && (forall d: Address :: Reachable(t, x, d) ==> d in table)
    && (forall d: Address :: d in table ==> RightFor(t, x, d, table[d].cost))
  }

  lemma CutReachable(t: Topology, l: Link, x: nat, d: Address)
    ensures Reachable(Cut(t, l), x, d) ==> Reachable(t, x, d)
  {
    hide Hops;
    if k: nat :| Hops(Cut(t, l), x, d, k) {
      CutHops(t, l, x, d, k);
    }
  }

  lemma KnownIfReachable(t: Topology, net: Net, l: Link, x: nat, d: Address)
    requires Loses(t, net, l) && x < t.n
    ensures x < |net.nodes| && (Reachable(Cut(t, l), x, d) ==> d in net.nodes[x].table)
    ensures d in net.nodes[x].table ==> Reachable(t, x, d)
    ensures forall k: nat ::
      IsDistance(t, x, d, k) ==> d in net.nodes[x].table && net.nodes[x].table[d].cost == Capped(k)
  {
    hide Hops, Reachable, IsDistance;
    SettledIsExact(t, net);
    CutReachable(t, l, x, d);
  }

  lemma CostOfDistance(t: Topology, net: Net, l: Link, x: nat, d: Address) returns (k: nat)
    requires Loses(t, net, l) && x < t.n && x < |net.nodes| && d in net.nodes[x].table
    ensures IsDistance(t, x, d, k) && net.nodes[x].table[d].cost == Capped(k)
  {
    hide Hops, Loses, IsDistance;
    KnownIfReachable(t, net, l, x, d);
    var j: nat :| Hops(t, x, d, j);
    k := Shortest(t, x, d, j);
  }

  /** An untouched entry is right about the remaining network. */
  lemma KeptIsRight(t: Topology, net: Net, l: Link, x: nat, d: Address)
    requires Loses(t, net, l) && x < t.n && x < |net.nodes| && d in net.nodes[x].table
    requires Keeps(l, x, net.nodes[x].table, d)
    ensures RightFor(Cut(t, l), x, d, net.nodes[x].table[d].cost)
  {
    hide Hops, Loses, Keeps;
    var cost := net.nodes[x].table[d].cost;
    var k0 := CostOfDistance(t, net, l, x, d);
    if cost < INF_COST {
      var k' := PathSurvives(t, net, l, x, d);
    }
    forall k: nat | IsDistance(Cut(t, l), x, d, k)
      ensures cost == Capped(k)
    {
      CutHops(t, l, x, d, k);
    }
  }

  /** No third node's table is wrong. */
  lemma ThirdIsRight(t: Topology, net: Net, l: Link, w: nat)
    requires Loses(t, net, l) && w < t.n && w < |net.nodes| && w != l.u && w != l.v
    ensures Right(Cut(t, l), w, net.nodes[w].table)
  {
    hide Loses, Reachable, RightFor;
    forall d: Address
      ensures Reachable(Cut(t, l), w, d) ==> d in net.nodes[w].table
    {
      KnownIfReachable(t, net, l, w, d);
    }
    forall d: Address | d in net.nodes[w].table
      ensures RightFor(Cut(t, l), w, d, net.nodes[w].table[d].cost)
    {
      KeptIsRight(t, net, l, w, d);
    }
  }

  /** None of the destinations u reached through the link has another way of fewer than 255 links. */
  ghost predicate NoDetour(t: Topology, l: Link, table: Table) {
    forall d: Address, k: nat :: Through(table, l.b, d) && Hops(Cut(t, l), l.u, d, k) ==> k >= 255
  }

  lemma LostIsRightIff(t: Topology, x: nat, d: Address)
    ensures RightFor(t, x, d, INF_COST) <==> forall k: nat :: Hops(t, x, d, k) ==> k >= 255
  {
    hide Hops;
    if RightFor(t, x, d, INF_COST) {
      forall k: nat | Hops(t, x, d, k)
        ensures k >= 255
      {
        var j := Shortest(t, x, d, k);
      }
    } else {
      var k: nat :| IsDistance(t, x, d, k) && INF_COST != Capped(k);
      assert Hops(t, x, d, k) && k < 255;
    }
  }

  /** The end u, once told, is right about the remaining network if and only if no lost destination has a detour. */
  lemma EndIsRightIff(t: Topology, net: Net, l: Link)
    requires Loses(t, net, l)
    ensures Right(Cut(t, l), l.u, LoseVia(net.nodes[l.u].table, l.b)) <==> NoDetour(t, l, net.nodes[l.u].table)
  {
    LossDistinct(t, net, l);
    hide Loses, Hops, Reachable, RightFor;
    var table := net.nodes[l.u].table;
    forall d: Address
      ensures Reachable(Cut(t, l), l.u, d) ==> d in table
    {
      KnownIfReachable(t, net, l, l.u, d);
    }
    forall d: Address | d in table && table[d].via != l.b
      ensures RightFor(Cut(t, l), l.u, d, table[d].cost)
    {
      KeptIsRight(t, net, l, l.u, d);
    }
    forall d: Address | Through(table, l.b, d)
      ensures RightFor(Cut(t, l), l.u, d, INF_COST) <==> forall k: nat :: Hops(Cut(t, l), l.u, d, k) ==> k >= 255
    {
      LostIsRightIff(Cut(t, l), l.u, d);
    }
    RightWhenLost(Cut(t, l), l.u, table, l.b);
  }

  lemma RightWhenLost(t: Topology, x: nat, table: Table, y: Address)
    requires forall d: Address :: Reachable(t, x, d) ==> d in table
    requires forall d: Address :: d in table && table[d].via != y ==> RightFor(t, x, d, table[d].cost)
    ensures Right(t, x, LoseVia(table, y)) <==>
            forall d: Address :: Through(table, y, d) ==> RightFor(t, x, d, INF_COST)
  {
    hide Reachable, RightFor;
    var lost := LoseVia(table, y);
    if Right(t, x, lost) {
      forall d: Address | Through(table, y, d)
        ensures RightFor(t, x, d, INF_COST)
      {
        assert d in lost && lost[d].cost == INF_COST;
      }
    }
  }

  /** Third nodes are right; either end, once told, is right exactly when it lost nothing that has a detour. */
  ghost predicate Verdict(t: Topology, net: Net, l: Link, now: Net)
    requires |now.nodes| == |net.nodes| && l.u < |net.nodes| && l.v < |net.nodes|
  {
    && (forall w: nat :: w < |now.nodes| && w != l.u && w != l.v ==>
          now.nodes[w].table == net.nodes[w].table && Right(Cut(t, l), w, now.nodes[w].table))
    && (l.b !in now.nodes[l.u].neighbours ==>
          (Right(Cut(t, l), l.u, now.nodes[l.u].table) <==> NoDetour(t, l, net.nodes[l.u].table)))
    && (l.a !in now.nodes[l.v].neighbours ==>
          (Right(Cut(t, l), l.v, now.nodes[l.v].table) <==> NoDetour(t, Flip(l), net.nodes[l.v].table)))
  }

  lemma EndVerdict(t: Topology, net: Net, l: Link, now: Net)
    requires Loses(t, net, l) && After(t, net, l, now) && l.b !in now.nodes[l.u].neighbours
    ensures Right(Cut(t, l), l.u, now.nodes[l.u].table) <==> NoDetour(t, l, net.nodes[l.u].table)
  {
    Listed(t, net, l);
    EndIsRightIff(t, net, l);
    hide Loses, Right, NoDetour, InFlightAfter, ThirdsKept;
  }

  lemma AfterVerdict(t: Topology, net: Net, l: Link, now: Net)
    requires Loses(t, net, l) && After(t, net, l, now)
    ensures Verdict(t, net, l, now)
  {
    LossDistinct(t, net, l);
    hide Loses, Right, NoDetour, InFlightAfter, EndState;
    forall w: nat | w < |now.nodes| && w != l.u && w != l.v
      ensures Right(Cut(t, l), w, now.nodes[w].table)
    {
      ThirdIsRight(t, net, l, w);
    }
    if l.b !in now.nodes[l.u].neighbours {
      EndVerdict(t, net, l, now);
    }
    if l.a !in now.nodes[l.v].neighbours {
      FlipLoses(t, net, l);
      FlipAfter(t, net, l, now);
      EndVerdict(t, net, Flip(l), now);
    }
  }

  // ----- and nothing more comes -----

  lemma AfterStepLighter(t: Topology, net: Net, l: Link, now: Net, s: Step)
    requires Loses(t, net, l) && After(t, net, l, now) && Enabled(t, now, s) && Settling(s)
    ensures After(t, net, l, Next(t, now, s)) && Lighter(Next(t, now, s), now)
    ensures SameListed(now, Next(t, now, s))
  {
    hide Loses, After, Lighter;
    AfterStep(t, net, l, now, s);
    match s
    case Send(x) => SendLighter(t, now, x);
    case Deliver(w, c) =>
      DeliverKept(t, net, l, now, w, c);
      ConsumeLighter(t, now, w, c);
  }

  ghost predicate SameListed(now: Net, now': Net) {
    && |now'.nodes| == |now.nodes|
    && forall w :: 0 <= w < |now.nodes| ==> now'.nodes[w].neighbours == now.nodes[w].neighbours
  }

  lemma ConsumeLighter(t: Topology, now: Net, w: nat, c: Address)
    requires Enabled(t, now, Deliver(w, c)) && Next(t, now, Deliver(w, c)).nodes == now.nodes
    ensures Lighter(Next(t, now, Deliver(w, c)), now)
  {
    var now' := Next(t, now, Deliver(w, c));
    SameCosts(now, now');
    SameQueues(now, now');
    FlightShorter(now, now', w, c);
  }

  lemma {:induction false} AfterRests(t: Topology, net: Net, l: Link, run: nat -> Net, i: nat) returns (n: nat)
    requires Loses(t, net, l) && After(t, net, l, run(i)) && SettlingFrom(t, run, i)
    ensures n >= i && Quiescent(run(n)) && After(t, net, l, run(n)) && SameListed(run(i), run(n))
    decreases CostWeight(run(i)), QueueWeight(run(i)), FlightWeight(run(i))
  {
    hide Loses, After, Quiescent, CostWeight, QueueWeight, FlightWeight, Next, Enabled;
    assert SettlesAt(t, run, i);
    if Quiescent(run(i)) {
      n := i;
    } else {
      var s :| Settling(s) && Enabled(t, run(i), s) && run(i + 1) == Next(t, run(i), s);
      AfterStepLighter(t, net, l, run(i), s);
      n := AfterRests(t, net, l, run, i + 1);
    }
  }

  /** At rest, the link erased at both ends, and the verdict. */
  ghost predicate RestsWithVerdict(t: Topology, net: Net, l: Link, now: Net) {
    && Quiescent(now) && |now.nodes| == |net.nodes| && l.u < |net.nodes| && l.v < |net.nodes|
    && l.b !in now.nodes[l.u].neighbours && l.a !in now.nodes[l.v].neighbours
    && Verdict(t, net, l, now)
  }

  /**
   * After a lost link. From a settled network in which no third node relies on a lost route, let both ends be
   * told in the course of any steps, advertisements lost or not; then every continuation comes to rest, the
   * third nodes exact about the remaining network, and each end exact if and only if no destination it lost
   * can be reached without the link.
   */
  lemma LossOutcome(t: Topology, net: Net, l: Link, steps: seq<Step>, run: nat -> Net)
    requires Loses(t, net, l) && IsRun(t, net, steps) && forall s :: s in steps ==> LossStep(l, s)
    requires l.b !in Run(t, net, steps).nodes[l.u].neighbours && l.a !in Run(t, net, steps).nodes[l.v].neighbours
    requires run(0) == Run(t, net, steps) && SettlingRun(t, run)
    ensures WellFormed(Cut(t, l)) && exists n: nat :: RestsWithVerdict(t, net, l, run(n))
  {
    LossDistinct(t, net, l);
    CutWellFormed(t, l);
    hide Loses, After, Quiescent, Verdict, WellFormed;
    AfterAtFirst(t, net, l);
    AfterRun(t, net, l, net, steps);
    var n := AfterRests(t, net, l, run, 0);
    AfterLengths(t, net, l, run(n));
    AfterVerdict(t, net, l, run(n));
    assert RestsWithVerdict(t, net, l, run(n));
  }

  lemma AfterLengths(t: Topology, net: Net, l: Link, now: Net)
    requires After(t, net, l, now)
    ensures |now.nodes| == |net.nodes| && l.u < |net.nodes| && l.v < |net.nodes| && now.chans.Keys == t.near.Keys
  {
  }

  /** Such a continuation exists, as finitely many steps. */
  lemma {:induction false} AfterSettles(t: Topology, net: Net, l: Link, now: Net) returns (steps: seq<Step>)
    requires Loses(t, net, l) && After(t, net, l, now)
    ensures IsRun(t, now, steps) && (forall s :: s in steps ==> Settling(s))
    ensures Quiescent(Run(t, now, steps)) && After(t, net, l, Run(t, now, steps))
    ensures SameListed(now, Run(t, now, steps))
    decreases CostWeight(now), QueueWeight(now), FlightWeight(now)
  {
    hide Loses, After, Quiescent, CostWeight, QueueWeight, FlightWeight, Next, Enabled, Settling;
    if Quiescent(now) {
      steps := [];
    } else {
      var s := AfterNotStuck(t, net, l, now);
      AfterStepLighter(t, net, l, now, s);
      var rest := AfterSettles(t, net, l, Next(t, now, s));
      steps := [s] + rest;
      assert steps[1..] == rest;
    }
  }

  lemma AfterNotStuck(t: Topology, net: Net, l: Link, now: Net) returns (s: Step)
    requires Loses(t, net, l) && After(t, net, l, now) && !Quiescent(now)
    ensures Settling(s) && Enabled(t, now, s)
  {
    LossDistinct(t, net, l);
    AfterLengths(t, net, l, now);
    NotStuck(t, now);
    s :| Settling(s) && Enabled(t, now, s);
  }
}
