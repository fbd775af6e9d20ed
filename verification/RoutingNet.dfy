/** One routing node at the level of its table: neighbours, table, queue of advertisements to send. */
module RoutingNode {
  import opened Wire
  import opened Routes

  /** A queued advertisement: to every neighbour, or to every neighbour but one. */
  datatype Update = Update(exclude: bool, mip: Address)

  datatype Router = Router(table: Table, neighbours: seq<Address>, queue: seq<Update>)

  predicate Reaches(item: Update, neighbour: Address) {
    !item.exclude || item.mip != neighbour
  }

  function OnDiscovery(r: Router, mip: Address): Router {
    if mip in r.neighbours then r
    else Router(Discover(r.table, mip), r.neighbours + [mip], r.queue + [Update(false, mip)])
  }

  /** std::find and erase: the first occurrence goes. */
  function Without(s: seq<Address>, a: Address): seq<Address> {
    if s == [] then [] else if s[0] == a then s[1..] else [s[0]] + Without(s[1..], a)
  }

  function OnLoss(r: Router, mip: Address): Router {
    if mip in r.neighbours
    then Router(LoseVia(r.table, mip), Without(r.neighbours, mip), r.queue + [Update(false, mip)])
    else r
  }

  function OnAdvert(r: Router, sender: Address, ad: Advert): Router {
    var table := Relax(r.table, sender, ad);
    Router(table, r.neighbours, if table != r.table then r.queue + [Update(true, sender)] else r.queue)
  }

  function OnSent(r: Router): Router
    requires r.queue != []
  {
    r.(queue := r.queue[1..])
  }

  /** A node changes, and queues an update, exactly when some advertised cost replaces what it has. */
  lemma ReactsExactly(r: Router, sender: Address, ad: Advert)
    ensures OnAdvert(r, sender, ad) != r <==> exists d :: d in ad && Wins(r.table, sender, d, Relaxed(ad[d]))
  {
    var table := Relax(r.table, sender, ad);
    if d :| d in ad && Wins(r.table, sender, d, Relaxed(ad[d])) {
      assert d in table && table[d] == Route(sender, Relaxed(ad[d]));
    } else {
      assert table == r.table;
    }
  }

  /** Whatever an advertisement makes a node queue never goes back to the one who sent it. */
  lemma NeverAnswers(r: Router, sender: Address, ad: Advert)
    ensures var q := OnAdvert(r, sender, ad).queue;
      r.queue <= q && forall k :: |r.queue| <= k < |q| ==> !Reaches(q[k], sender)
  {
  }
}

/**
 * A network of routing nodes. Node u knows a neighbour by the address b of the interface at the other end;
 * near[(u, b)] is u's own interface on that link, the address under which u's advertisements arrive there.
 * Channel (u, b) carries what b's node sent to u over that link, in order.
 */
module RoutingNet {
  import opened Wire
  import opened Routes
  import opened RoutingNode

  datatype Topology = Topology(n: nat, owner: map<Address, nat>, near: map<(nat, Address), Address>)

  datatype Net = Net(nodes: seq<Router>, chans: map<(nat, Address), seq<Advert>>)

  predicate Edge(t: Topology, u: nat, b: Address) {
    (u, b) in t.near
  }

  predicate Local(t: Topology, u: nat, d: Address) {
    d in t.owner && t.owner[d] == u
  }

  /** Links join different nodes and look the same from both ends. */
  ghost predicate WellFormed(t: Topology) {
    && (forall a :: a in t.owner ==> t.owner[a] < t.n)
    && (forall u: nat, b: Address :: Edge(t, u, b) ==>
          && u < t.n && b in t.owner && t.owner[b] != u
          && Local(t, u, t.near[(u, b)])
          && Edge(t, t.owner[b], t.near[(u, b)])
          && t.near[(t.owner[b], t.near[(u, b)])] == b)
  }

  /** Address d is on a node exactly k links away from u. */
  ghost predicate Hops(t: Topology, u: nat, d: Address, k: nat)
    decreases k
  {
    if k == 0 then Local(t, u, d)
    else exists b: Address :: Edge(t, u, b) && b in t.owner && Hops(t, t.owner[b], d, k - 1)
  }

  ghost predicate Reachable(t: Topology, u: nat, d: Address) {
    exists k: nat :: Hops(t, u, d, k)
  }

  // ----- steps -----

  datatype Step =
    | Appear(u: nat, b: Address)          // u discovers the neighbour b
    | Send(v: nat)                        // v's update thread takes one queued item
    | Deliver(u: nat, b: Address)         // u processes the oldest advertisement from b
    | Drop(u: nat, b: Address, i: nat)    // the link loses one
    | Lose(u: nat, b: Address)            // u is told that the link to b is gone

  predicate Enabled(t: Topology, net: Net, s: Step) {
    match s
    case Appear(u, b) => u < |net.nodes| && Edge(t, u, b)
    case Send(v) => v < |net.nodes| && net.nodes[v].queue != []
    case Deliver(u, b) => u < |net.nodes| && (u, b) in net.chans && net.chans[(u, b)] != []
    case Drop(u, b, i) => (u, b) in net.chans && i < |net.chans[(u, b)]|
    case Lose(u, b) => u < |net.nodes| && Edge(t, u, b)
  }

  /** What channel k holds once v has sent for its queued item: one advertisement more if the item reaches k. */
  function SentOn(t: Topology, net: Net, v: nat, k: (nat, Address)): seq<Advert>
    requires v < |net.nodes| && net.nodes[v].queue != [] && k in net.chans
  {
    var r := net.nodes[v];
    if k in t.near && Local(t, v, k.1) && t.near[k] in r.neighbours && Reaches(r.queue[0], t.near[k])
    then net.chans[k] + [Pack(r.table, t.near[k])]
    else net.chans[k]
  }

  function Next(t: Topology, net: Net, s: Step): (net': Net)
    requires Enabled(t, net, s)
    ensures |net'.nodes| == |net.nodes|
  {
    match s
    case Appear(u, b) => net.(nodes := net.nodes[u := OnDiscovery(net.nodes[u], b)])
    case Send(v) =>
      Net(net.nodes[v := OnSent(net.nodes[v])], map k | k in net.chans :: SentOn(t, net, v, k))
    case Deliver(u, b) =>
      var q := net.chans[(u, b)];
      Net(net.nodes[u := OnAdvert(net.nodes[u], b, q[0])], net.chans[(u, b) := q[1..]])
    case Drop(u, b, i) =>
      var q := net.chans[(u, b)];
      net.(chans := net.chans[(u, b) := q[..i] + q[i + 1..]])
    case Lose(u, b) => net.(nodes := net.nodes[u := OnLoss(net.nodes[u], b)])
  }

  // ----- the invariant that also survives loss -----

  /**
   * A local address has cost 0; any other entry leads to a neighbour that knows the destination and is,
   * one hop subtracted, no worse than the entry.
   */
  ghost predicate NodeOk(t: Topology, nodes: seq<Router>, u: nat)
    requires u < |nodes|
  {
    HasLocals(t, u, nodes[u].table) && EntriesOk(t, nodes, u) && NeighboursOk(t, u, nodes[u])
  }

  ghost predicate HasLocals(t: Topology, u: nat, table: Table) {
    forall d :: Local(t, u, d) ==> d in table && table[d] == Route(d, 0)
  }

  ghost predicate EntriesOk(t: Topology, nodes: seq<Router>, u: nat)
    requires u < |nodes|
  {
    forall d :: d in nodes[u].table ==> Reachable(t, u, d) && (Local(t, u, d) || LeadsCloser(t, nodes, u, d))
  }

  ghost predicate NeighboursOk(t: Topology, u: nat, r: Router) {
    (forall a :: a in r.neighbours ==> Edge(t, u, a)) && NoneTwice(r.neighbours)
  }

  ghost predicate NoneTwice(s: seq<Address>) {
    forall i, j :: 0 <= i < j < |s| ==> s[i] != s[j]
  }

  ghost predicate LeadsCloser(t: Topology, nodes: seq<Router>, u: nat, d: Address)
    requires u < |nodes| && d in nodes[u].table
  {
    var r := nodes[u].table[d];
    && Edge(t, u, r.via) && r.via in t.owner && t.owner[r.via] < |nodes|
    && d in nodes[t.owner[r.via]].table
    && r.cost >= Relaxed(nodes[t.owner[r.via]].table[d].cost)
  }

  /**
   * Advertisements in flight are never better than the sender's table now, never get worse along the
   * channel, and never beat an entry that already leads to their sender.
   */
  ghost predicate ChanOk(t: Topology, nodes: seq<Router>, u: nat, b: Address, q: seq<Advert>)
    requires u < |nodes| && b in t.owner && t.owner[b] < |nodes|
  {
    && (forall i, d :: 0 <= i < |q| && d in q[i] ==> AdOk(t, nodes, u, b, q[i], d))
    && NeverWorse(q)
  }

  ghost predicate NeverWorse(q: seq<Advert>) {
    forall i, j, d :: 0 <= i < j < |q| && d in q[i] && d in q[j] ==> q[i][d] >= q[j][d]
  }

  ghost predicate AdOk(t: Topology, nodes: seq<Router>, u: nat, b: Address, ad: Advert, d: Address)
    requires u < |nodes| && b in t.owner && t.owner[b] < |nodes| && d in ad
  {
    var mine, theirs := nodes[u].table, nodes[t.owner[b]].table;
    && d in theirs && ad[d] >= theirs[d].cost
    && (Local(t, t.owner[b], d) ==> ad[d] == 0)
    && (d in mine && mine[d].via == b ==> mine[d].cost >= Relaxed(ad[d]))
  }

  ghost predicate Safe(t: Topology, net: Net) {
    && WellFormed(t) && |net.nodes| == t.n && net.chans.Keys == t.near.Keys
    && (forall u :: 0 <= u < t.n ==> NodeOk(t, net.nodes, u))
    && (forall u: nat, b: Address :: Edge(t, u, b) ==> ChanOk(t, net.nodes, u, b, net.chans[(u, b)]))
  }

  /** Only the local addresses are known, no link has been noticed, nothing has been sent. */
  ghost predicate Init(t: Topology, net: Net) {
    && WellFormed(t) && |net.nodes| == t.n && net.chans.Keys == t.near.Keys
    && (forall u :: 0 <= u < t.n ==> net.nodes[u].neighbours == [] && net.nodes[u].queue == [])
    && (forall u, d :: 0 <= u < t.n ==> (d in net.nodes[u].table <==> Local(t, u, d)))
    && (forall u, d :: 0 <= u < t.n && d in net.nodes[u].table ==> net.nodes[u].table[d] == Route(d, 0))
    && (forall k :: k in net.chans ==> net.chans[k] == [])
  }

  lemma InitSafe(t: Topology, net: Net)
    requires Init(t, net)
    ensures Safe(t, net)
  {
    forall u | 0 <= u < t.n
      ensures NodeOk(t, net.nodes, u)
    {
      assert forall d :: Local(t, u, d) ==> Hops(t, u, d, 0);
    }
  }

  // ----- one table gets better -----

  ghost predicate Improves(before: Table, after: Table) {
    forall d :: d in before ==> d in after && after[d].cost <= before[d].cost
  }

  predicate Same(before: Table, after: Table, d: Address) {
    d in before && d in after && after[d] == before[d]
  }

  /** Every entry of u that changed leads through b and is justified by what b's node knows and has sent. */
  ghost predicate Justified(t: Topology, nodes: seq<Router>, u: nat, b: Address, table: Table, q: seq<Advert>)
    requires u < |nodes| && b in t.owner && t.owner[b] < |nodes|
  {
    forall d :: d in table && !Same(nodes[u].table, table, d) ==>
      && table[d].via == b && !Local(t, u, d)
      && d in nodes[t.owner[b]].table
      && table[d].cost >= Relaxed(nodes[t.owner[b]].table[d].cost)
      && (forall i :: 0 <= i < |q| && d in q[i] ==> table[d].cost >= Relaxed(q[i][d]))
  }

  lemma HopsOneMore(t: Topology, u: nat, b: Address, d: Address)
    requires Edge(t, u, b) && b in t.owner && Reachable(t, t.owner[b], d)
    ensures Reachable(t, u, d)
  {
    var k: nat :| Hops(t, t.owner[b], d, k);
    assert Hops(t, u, d, k + 1);
  }

  lemma ImprovedEntry(t: Topology, nodes: seq<Router>, u: nat, b: Address, r: Router, q: seq<Advert>, d: Address)
    requires WellFormed(t) && |nodes| == t.n && Edge(t, u, b) && NodeOk(t, nodes, u) && NodeOk(t, nodes, t.owner[b])
    requires Justified(t, nodes, u, b, r.table, q) && d in r.table
    ensures Reachable(t, u, d) && (Local(t, u, d) || LeadsCloser(t, nodes[u := r], u, d))
  {
    if !Same(nodes[u].table, r.table, d) {
      HopsOneMore(t, u, b, d);
    } else if !Local(t, u, d) {
      assert LeadsCloser(t, nodes, u, d);
    }
  }

  lemma LocalStays(t: Topology, nodes: seq<Router>, u: nat, b: Address, table: Table, q: seq<Advert>)
    requires u < |nodes| && b in t.owner && t.owner[b] < |nodes| && HasLocals(t, u, nodes[u].table)
    requires Improves(nodes[u].table, table) && Justified(t, nodes, u, b, table, q)
    ensures HasLocals(t, u, table)
  {
  }

  lemma ImprovedEntries(t: Topology, nodes: seq<Router>, u: nat, b: Address, r: Router, q: seq<Advert>)
    requires WellFormed(t) && |nodes| == t.n && Edge(t, u, b) && NodeOk(t, nodes, u) && NodeOk(t, nodes, t.owner[b])
    requires Justified(t, nodes, u, b, r.table, q)
    ensures EntriesOk(t, nodes[u := r], u)
  {
    forall d | d in r.table
      ensures Reachable(t, u, d) && (Local(t, u, d) || LeadsCloser(t, nodes[u := r], u, d))
    {
      ImprovedEntry(t, nodes, u, b, r, q, d);
    }
  }

  lemma ImprovedNode(t: Topology, nodes: seq<Router>, u: nat, b: Address, r: Router, q: seq<Advert>)
    requires WellFormed(t) && |nodes| == t.n && Edge(t, u, b) && NodeOk(t, nodes, u) && NodeOk(t, nodes, t.owner[b])
    requires Improves(nodes[u].table, r.table) && Justified(t, nodes, u, b, r.table, q)
    requires NeighboursOk(t, u, r)
    ensures NodeOk(t, nodes[u := r], u)
  {
    LocalStays(t, nodes, u, b, r.table, q);
    ImprovedEntries(t, nodes, u, b, r, q);
  }

  lemma OtherNode(t: Topology, nodes: seq<Router>, u: nat, r: Router, w: nat)
    requires WellFormed(t) && |nodes| == t.n && u < t.n && w < t.n && w != u && NodeOk(t, nodes, w)
    requires Improves(nodes[u].table, r.table)
    ensures NodeOk(t, nodes[u := r], w)
  {
  }

  /** A channel other than (u, b) stays in order; q' is what is left of channel (u, b). */
  lemma ImprovedChan(t: Topology, nodes: seq<Router>, u: nat, b: Address, r: Router, w: nat, c: Address, q: seq<Advert>)
    requires WellFormed(t) && |nodes| == t.n && Edge(t, u, b) && Edge(t, w, c)
    requires NodeOk(t, nodes, t.owner[c])
    requires ChanOk(t, nodes, w, c, q)
    requires Improves(nodes[u].table, r.table) && Justified(t, nodes, u, b, r.table, if (w, c) == (u, b) then q else [])
    ensures ChanOk(t, nodes[u := r], w, c, q)
  {
  }

  lemma ImproveKeeps(t: Topology, net: Net, u: nat, b: Address, r: Router, q: seq<Advert>)
    requires Safe(t, net) && Edge(t, u, b)
    requires Improves(net.nodes[u].table, r.table) && Justified(t, net.nodes, u, b, r.table, q)
    requires NeighboursOk(t, u, r)
    requires ChanOk(t, net.nodes, u, b, q)
    ensures Safe(t, Net(net.nodes[u := r], net.chans[(u, b) := q]))
  {
    var nodes', chans' := net.nodes[u := r], net.chans[(u, b) := q];
    forall w | 0 <= w < t.n
      ensures NodeOk(t, nodes', w)
    {
      if w == u {
        ImprovedNode(t, net.nodes, u, b, r, q);
      } else {
        OtherNode(t, net.nodes, u, r, w);
      }
    }
    forall w: nat, c: Address | Edge(t, w, c)
      ensures ChanOk(t, nodes', w, c, chans'[(w, c)])
    {
      var q' := chans'[(w, c)];
      assert ChanOk(t, net.nodes, w, c, q');
      ImprovedChan(t, net.nodes, u, b, r, w, c, q');
    }
  }

  // ----- the steps keep it -----

  lemma AppearKeeps(t: Topology, net: Net, u: nat, b: Address)
    requires Safe(t, net) && Enabled(t, net, Appear(u, b))
    ensures Safe(t, Next(t, net, Appear(u, b)))
    ensures Improves(net.nodes[u].table, Next(t, net, Appear(u, b)).nodes[u].table)
  {
    var r := net.nodes[u];
    var q := net.chans[(u, b)];
    if b !in r.neighbours {
      SafeParts(t, net, u, b);
      DiscoveryJustified(t, net, u, b);
      ListedOnce(t, u, r, b);
      hide Safe, Improves, Justified, NeighboursOk, ChanOk;
      ImproveKeeps(t, net, u, b, OnDiscovery(r, b), q);
      assert net.chans[(u, b) := q] == net.chans;
    } else {
      assert net.nodes[u := r] == net.nodes;
    }
  }

  lemma SafeParts(t: Topology, net: Net, u: nat, b: Address)
    requires Safe(t, net) && Edge(t, u, b)
    ensures NodeOk(t, net.nodes, u) && NodeOk(t, net.nodes, t.owner[b])
    ensures ChanOk(t, net.nodes, u, b, net.chans[(u, b)]) && NeighboursOk(t, u, net.nodes[u])
  {
    assert NodeOk(t, net.nodes, u);
  }

  lemma ListedOnce(t: Topology, u: nat, r: Router, b: Address)
    requires NeighboursOk(t, u, r) && Edge(t, u, b)
    ensures NeighboursOk(t, u, OnDiscovery(r, b))
  {
  }

  lemma DiscoveryJustified(t: Topology, net: Net, u: nat, b: Address)
    requires Safe(t, net) && Edge(t, u, b)
    ensures var table := Discover(net.nodes[u].table, b);
      Improves(net.nodes[u].table, table) && Justified(t, net.nodes, u, b, table, net.chans[(u, b)])
  {
    NeighbourItself(t, net, u, b);
    NeighbourInFlight(t, net.nodes, u, b, net.chans[(u, b)]);
  }

  /** The neighbour's own address: cost 0 there, at least 1 here. */
  lemma NeighbourItself(t: Topology, net: Net, u: nat, b: Address)
    requires Safe(t, net) && Edge(t, u, b)
    ensures !Local(t, u, b) && Local(t, t.owner[b], b)
    ensures b in net.nodes[t.owner[b]].table && net.nodes[t.owner[b]].table[b] == Route(b, 0)
    ensures b in net.nodes[u].table ==> net.nodes[u].table[b].cost >= 1
    ensures ChanOk(t, net.nodes, u, b, net.chans[(u, b)])
  {
    var v := t.owner[b];
    assert NodeOk(t, net.nodes, v) && NodeOk(t, net.nodes, u);
    if b in net.nodes[u].table {
      assert LeadsCloser(t, net.nodes, u, b);
    }
  }

  lemma NeighbourInFlight(t: Topology, nodes: seq<Router>, u: nat, b: Address, q: seq<Advert>)
    requires u < |nodes| && b in t.owner && t.owner[b] < |nodes| && ChanOk(t, nodes, u, b, q)
    ensures forall i :: 0 <= i < |q| && b in q[i] ==> q[i][b] == 0
  {
  }

  /** Under first-in first-out delivery an advertisement only ever lowers costs, even the next hop's news. */
  lemma AdvertImproves(t: Topology, net: Net, u: nat, b: Address)
    requires Safe(t, net) && Edge(t, u, b) && net.chans[(u, b)] != []
    ensures Improves(net.nodes[u].table, Relax(net.nodes[u].table, b, net.chans[(u, b)][0]))
  {
  }

  lemma AdvertJustified(t: Topology, net: Net, u: nat, b: Address)
    requires Safe(t, net) && Edge(t, u, b) && net.chans[(u, b)] != []
    ensures var q := net.chans[(u, b)];
      Justified(t, net.nodes, u, b, Relax(net.nodes[u].table, b, q[0]), q[1..])
  {
    SafeParts(t, net, u, b);
    AdvertJustifies(t, net.nodes, u, b, net.chans[(u, b)]);
  }

  lemma AdvertJustifies(t: Topology, nodes: seq<Router>, u: nat, b: Address, q: seq<Advert>)
    requires WellFormed(t) && |nodes| == t.n && Edge(t, u, b) && q != []
    requires NodeOk(t, nodes, u) && ChanOk(t, nodes, u, b, q)
    ensures Justified(t, nodes, u, b, Relax(nodes[u].table, b, q[0]), q[1..])
  {
    var table := nodes[u].table;
    var table' := Relax(table, b, q[0]);
    forall d | d in table' && !Same(table, table', d)
      ensures table'[d].via == b && !Local(t, u, d)
      ensures d in nodes[t.owner[b]].table
      ensures table'[d].cost >= Relaxed(nodes[t.owner[b]].table[d].cost)
      ensures forall i :: 0 <= i < |q[1..]| && d in q[1..][i] ==> table'[d].cost >= Relaxed(q[1..][i][d])
    {
      assert d in q[0] && Wins(table, b, d, Relaxed(q[0][d]));
      assert AdOk(t, nodes, u, b, q[0], d);
      LaterNoBetter(q, d);
    }
  }

  lemma LaterNoBetter(q: seq<Advert>, d: Address)
    requires q != [] && NeverWorse(q) && d in q[0]
    ensures forall i :: 0 <= i < |q[1..]| && d in q[1..][i] ==> Relaxed(q[0][d]) >= Relaxed(q[1..][i][d])
  {
  }

  lemma DeliverKeeps(t: Topology, net: Net, u: nat, b: Address)
    requires Safe(t, net) && Enabled(t, net, Deliver(u, b))
    ensures Safe(t, Next(t, net, Deliver(u, b)))
    ensures Improves(net.nodes[u].table, Next(t, net, Deliver(u, b)).nodes[u].table)
  {
    hide Safe, ChanOk, Improves, Justified, Relax, NodeOk, NeighboursOk;
    DeliverParts(t, net, u, b);
    AdvertImproves(t, net, u, b);
    AdvertJustified(t, net, u, b);
    AdvertKeeps(t, net, u, b, net.chans[(u, b)]);
  }

  lemma DeliverParts(t: Topology, net: Net, u: nat, b: Address)
    requires Safe(t, net) && Enabled(t, net, Deliver(u, b))
    ensures Edge(t, u, b) && b in t.owner && t.owner[b] < |net.nodes| && NeighboursOk(t, u, net.nodes[u])
    ensures ChanOk(t, net.nodes, u, b, net.chans[(u, b)][1..])
  {
    hide ChanOk, NodeOk, NeighboursOk;
    var q := net.chans[(u, b)];
    assert Edge(t, u, b);
    SafeParts(t, net, u, b);
    ShorterChan(t, net.nodes, u, b, q, 0);
    assert q[..0] + q[1..] == q[1..];
  }

  lemma AdvertKeeps(t: Topology, net: Net, u: nat, b: Address, q: seq<Advert>)
    requires Safe(t, net) && Edge(t, u, b) && (u, b) in net.chans && q == net.chans[(u, b)] && q != []
    requires u < |net.nodes| && b in t.owner && t.owner[b] < |net.nodes|
    requires NeighboursOk(t, u, net.nodes[u]) && ChanOk(t, net.nodes, u, b, q[1..])
    requires var table := Relax(net.nodes[u].table, b, q[0]);
      Improves(net.nodes[u].table, table) && Justified(t, net.nodes, u, b, table, q[1..])
    ensures Safe(t, Next(t, net, Deliver(u, b)))
  {
    hide ChanOk, Improves, Justified, Relax, NodeOk;
    ImproveKeeps(t, net, u, b, OnAdvert(net.nodes[u], b, q[0]), q[1..]);
  }

  /** What is left of a channel after a delivery or a loss is still in order. */
  lemma ShorterChan(t: Topology, nodes: seq<Router>, u: nat, b: Address, q: seq<Advert>, k: nat)
    requires WellFormed(t) && |nodes| == t.n && Edge(t, u, b) && ChanOk(t, nodes, u, b, q) && k < |q|
    ensures ChanOk(t, nodes, u, b, q[..k] + q[k + 1..])
  {
  }

  lemma DropKeeps(t: Topology, net: Net, u: nat, b: Address, i: nat)
    requires Safe(t, net) && Enabled(t, net, Drop(u, b, i))
    ensures Safe(t, Next(t, net, Drop(u, b, i)))
  {
    assert Edge(t, u, b);
    var q := net.chans[(u, b)];
    ShorterChan(t, net.nodes, u, b, q, i);
  }

  // ----- sending -----

  lemma SameTables(t: Topology, nodes: seq<Router>, nodes': seq<Router>, u: nat)
    requires WellFormed(t) && |nodes| == |nodes'| == t.n && u < t.n && NodeOk(t, nodes, u)
    requires forall w :: 0 <= w < t.n ==>
      nodes'[w].table == nodes[w].table && nodes'[w].neighbours == nodes[w].neighbours
    ensures NodeOk(t, nodes', u)
  {
  }

  lemma SameTablesChan(t: Topology, nodes: seq<Router>, nodes': seq<Router>, u: nat, b: Address, q: seq<Advert>)
    requires |nodes| == |nodes'| && u < |nodes| && b in t.owner && t.owner[b] < |nodes| && ChanOk(t, nodes, u, b, q)
    requires forall w :: 0 <= w < |nodes| ==> nodes'[w].table == nodes[w].table
    ensures ChanOk(t, nodes', u, b, q)
  {
  }

  /** A new advertisement goes behind the ones in flight: none of those was better than the table is now. */
  lemma SentAtEnd(t: Topology, nodes: seq<Router>, u: nat, b: Address, q: seq<Advert>, a: Address)
    requires WellFormed(t) && |nodes| == t.n && Edge(t, u, b) && ChanOk(t, nodes, u, b, q)
    requires NodeOk(t, nodes, u) && NodeOk(t, nodes, t.owner[b])
    ensures ChanOk(t, nodes, u, b, q + [Pack(nodes[t.owner[b]].table, a)])
  {
    var ad := Pack(nodes[t.owner[b]].table, a);
    var q' := q + [ad];
    forall i, d | 0 <= i < |q'| && d in q'[i]
      ensures AdOk(t, nodes, u, b, q'[i], d)
    {
      if i == |q| {
        SentAdOk(t, nodes, u, b, a, d);
      } else {
        assert AdOk(t, nodes, u, b, q[i], d);
      }
    }
    forall i, d | 0 <= i < |q| && d in q[i] && d in ad
      ensures q[i][d] >= ad[d]
    {
      assert AdOk(t, nodes, u, b, q[i], d);
    }
    NeverWorseAtEnd(q, ad);
  }

  lemma NeverWorseAtEnd(q: seq<Advert>, ad: Advert)
    requires NeverWorse(q) && forall i, d :: 0 <= i < |q| && d in q[i] && d in ad ==> q[i][d] >= ad[d]
    ensures NeverWorse(q + [ad])
  {
  }

  lemma SentAdOk(t: Topology, nodes: seq<Router>, u: nat, b: Address, a: Address, d: Address)
    requires WellFormed(t) && |nodes| == t.n && Edge(t, u, b)
    requires NodeOk(t, nodes, u) && NodeOk(t, nodes, t.owner[b]) && d in Pack(nodes[t.owner[b]].table, a)
    ensures AdOk(t, nodes, u, b, Pack(nodes[t.owner[b]].table, a), d)
  {
    if d in nodes[u].table && nodes[u].table[d].via == b {
      assert Local(t, u, d) || LeadsCloser(t, nodes, u, d);
    }
  }

  lemma SendKeeps(t: Topology, net: Net, v: nat)
    requires Safe(t, net) && Enabled(t, net, Send(v))
    ensures Safe(t, Next(t, net, Send(v)))
  {
    var net' := Next(t, net, Send(v));
    forall u | 0 <= u < t.n
      ensures NodeOk(t, net'.nodes, u)
    {
      SameTables(t, net.nodes, net'.nodes, u);
    }
    forall u: nat, b: Address | Edge(t, u, b)
      ensures ChanOk(t, net'.nodes, u, b, net'.chans[(u, b)])
    {
      SentChanOk(t, net, v, u, b);
      SameTablesChan(t, net.nodes, net'.nodes, u, b, net'.chans[(u, b)]);
    }
  }

  lemma SentChanOk(t: Topology, net: Net, v: nat, u: nat, b: Address)
    requires Safe(t, net) && Enabled(t, net, Send(v)) && Edge(t, u, b)
    ensures ChanOk(t, net.nodes, u, b, SentOn(t, net, v, (u, b)))
  {
    var q := net.chans[(u, b)];
    assert ChanOk(t, net.nodes, u, b, q) && NodeOk(t, net.nodes, u) && NodeOk(t, net.nodes, t.owner[b]);
    if SentOn(t, net, v, (u, b)) != q {
      SentAtEnd(t, net.nodes, u, b, q, t.near[(u, b)]);
    }
  }

  /** No link is lost; advertisements may be. */
  predicate Keeping(s: Step) { !s.Lose? }

  /** Whatever happens while links only appear, advertisements lost included, the network stays safe. */
  lemma StepSafe(t: Topology, net: Net, s: Step)
    requires Safe(t, net) && Enabled(t, net, s) && Keeping(s)
    ensures Safe(t, Next(t, net, s))
  {
    match s
    case Appear(u, b) => AppearKeeps(t, net, u, b);
    case Send(v) => SendKeeps(t, net, v);
    case Deliver(u, b) => DeliverKeeps(t, net, u, b);
    case Drop(u, b, i) => DropKeeps(t, net, u, b, i);
  }

  ghost predicate IsRun(t: Topology, net: Net, steps: seq<Step>)
    decreases |steps|
  {
    steps == [] || (Enabled(t, net, steps[0]) && IsRun(t, Next(t, net, steps[0]), steps[1..]))
  }

  function Run(t: Topology, net: Net, steps: seq<Step>): (net': Net)
    ensures |net'.nodes| == |net.nodes|
    decreases |steps|
  {
    if steps == [] || !Enabled(t, net, steps[0]) then net else Run(t, Next(t, net, steps[0]), steps[1..])
  }

  lemma {:induction false} RunSafe(t: Topology, net: Net, steps: seq<Step>)
    requires Safe(t, net) && IsRun(t, net, steps) && forall s :: s in steps ==> Keeping(s)
    ensures Safe(t, Run(t, net, steps))
    decreases |steps|
  {
    if steps != [] {
      assert steps[0] in steps;
      StepSafe(t, net, steps[0]);
      RunSafe(t, Next(t, net, steps[0]), steps[1..]);
    }
  }

  /** One run after another. */
  lemma {:induction false} RunThen(t: Topology, net: Net, front: seq<Step>, back: seq<Step>)
    requires IsRun(t, net, front) && IsRun(t, Run(t, net, front), back)
    ensures IsRun(t, net, front + back) && Run(t, net, front + back) == Run(t, Run(t, net, front), back)
    decreases |front|
  {
    hide Enabled, Next;
    if front == [] {
      assert front + back == back;
    } else {
      assert (front + back)[1..] == front[1..] + back;
      RunThen(t, Next(t, net, front[0]), front[1..], back);
    }
  }

  // ----- loop freedom -----

  /** Where a frame for d is after k hops along the tables, as long as each node has an entry. */
  function Follow(t: Topology, net: Net, u: nat, d: Address, k: nat): nat
    decreases k
  {
    if k == 0 || u >= |net.nodes| || d !in net.nodes[u].table || net.nodes[u].table[d].via !in t.owner then u
    else Follow(t, net, t.owner[net.nodes[u].table[d].via], d, k - 1)
  }

  /** A finite cost is strictly smaller at the next hop. */
  lemma NextHopCloser(t: Topology, net: Net, u: nat, d: Address)
    requires Safe(t, net) && u < t.n && d in net.nodes[u].table && !Local(t, u, d)
    requires net.nodes[u].table[d].cost < INF_COST
    ensures var via := net.nodes[u].table[d].via;
      && Edge(t, u, via) && t.owner[via] < t.n
      && d in net.nodes[t.owner[via]].table
      && net.nodes[t.owner[via]].table[d].cost < net.nodes[u].table[d].cost
  {
    assert NodeOk(t, net.nodes, u);
    assert LeadsCloser(t, net.nodes, u, d);
  }

  /** The j-th followed hop leaves the destination's table entry over a link of the topology. */
  ghost predicate FollowsLink(t: Topology, net: Net, u: nat, d: Address, j: nat) {
    var x := Follow(t, net, u, d, j);
    && x < |net.nodes| && !Local(t, x, d) && d in net.nodes[x].table
    && var via := net.nodes[x].table[d].via;
       Edge(t, x, via) && via in t.owner && t.owner[via] == Follow(t, net, u, d, j + 1)
  }

  /** Following for one hop and then for j is following for j + 1. */
  lemma FollowOn(t: Topology, net: Net, u: nat, d: Address, j: nat)
    requires u < |net.nodes| && d in net.nodes[u].table && net.nodes[u].table[d].via in t.owner
    ensures Follow(t, net, u, d, j + 1) == Follow(t, net, t.owner[net.nodes[u].table[d].via], d, j)
  {
  }

  /**
   * Loop freedom in every safe state, converged or not: along a finite-cost entry the next hops reach the
   * destination's node in at most that many steps, every one of them over a link of the topology.
   */
  lemma {:induction false} FollowReaches(t: Topology, net: Net, u: nat, d: Address) returns (k: nat)
    requires Safe(t, net) && u < t.n && d in net.nodes[u].table && net.nodes[u].table[d].cost < INF_COST
    ensures k <= net.nodes[u].table[d].cost
    ensures Local(t, Follow(t, net, u, d, k), d) && Hops(t, u, d, k)
    ensures forall j :: 0 <= j < k ==> FollowsLink(t, net, u, d, j)
    decreases net.nodes[u].table[d].cost
  {
    if Local(t, u, d) {
      k := 0;
    } else {
      NextHopCloser(t, net, u, d);
      var via := net.nodes[u].table[d].via;
      var k' := FollowReaches(t, net, t.owner[via], d);
      k := k' + 1;
      assert Hops(t, u, d, k);
      FollowOn(t, net, u, d, k');
      forall j | 0 <= j < k
        ensures FollowsLink(t, net, u, d, j)
      {
        FollowOn(t, net, u, d, j);
        if j > 0 {
          FollowOn(t, net, u, d, j - 1);
          assert FollowsLink(t, net, t.owner[via], d, j - 1);
        }
      }
    }
  }

  /**
   * The next hops from u reach the node of d in at most as many links as the entry says, each a link of the
   * topology, and no node before the last one owns d.
   */
  ghost predicate Arrives(t: Topology, net: Net, u: nat, d: Address, k: nat)
    requires u < |net.nodes| && d in net.nodes[u].table
  {
    && k <= net.nodes[u].table[d].cost && Local(t, Follow(t, net, u, d, k), d) && Hops(t, u, d, k)
    && forall j :: 0 <= j < k ==> FollowsLink(t, net, u, d, j)
  }

  /** In every state a run reaches while links only appear, lossy channels or not, next hops never loop. */
  lemma LoopFree(t: Topology, net: Net, steps: seq<Step>, u: nat, d: Address)
    requires Init(t, net) && IsRun(t, net, steps) && u < t.n && forall s :: s in steps ==> Keeping(s)
    requires d in Run(t, net, steps).nodes[u].table && Run(t, net, steps).nodes[u].table[d].cost < INF_COST
    ensures exists k: nat :: Arrives(t, Run(t, net, steps), u, d, k)
  {
    InitSafe(t, net);
    RunSafe(t, net, steps);
    var k := FollowReaches(t, Run(t, net, steps), u, d);
    assert Arrives(t, Run(t, net, steps), u, d, k);
  }
}
