/**
 * Without loss the protocol settles, and when it has settled every cost is the hop distance, although split
 * horizon hides routes and the neighbour that triggered an update is not answered.
 */
module RoutingConvergence {
  import opened Wire
  import opened Routes
  import opened RoutingNode
  import opened RoutingNet

  // ----- nothing a neighbour lacks is forgotten -----

  predicate Pending(queue: seq<Update>, a: Address) {
    exists k :: 0 <= k < |queue| && Reaches(queue[k], a)
  }

  predicate InFlight(q: seq<Advert>, d: Address, cost: byte) {
    exists i :: 0 <= i < |q| && d in q[i] && q[i][d] <= cost
  }

  predicate Held(table: Table, d: Address, cost: byte) {
    d in table && table[d].cost <= Relaxed(cost)
  }

  /**
   * For every route b's node may show u: an advertisement that will carry it is queued, or one that carries
   * it is in flight, or u already has the destination at most one hop more expensive.
   */
  ghost predicate CoverEdge(t: Topology, net: Net, u: nat, b: Address)
    requires u < |net.nodes| && b in t.owner && t.owner[b] < |net.nodes| && (u, b) in t.near && (u, b) in net.chans
  {
    var sender, a := net.nodes[t.owner[b]], t.near[(u, b)];
    a in sender.neighbours ==>
      forall d :: d in sender.table && sender.table[d].via != a ==>
        || Pending(sender.queue, a)
        || InFlight(net.chans[(u, b)], d, sender.table[d].cost)
        || Held(net.nodes[u].table, d, sender.table[d].cost)
  }

  ghost predicate Cover(t: Topology, net: Net)
    requires Safe(t, net)
  {
    forall u: nat, b: Address :: Edge(t, u, b) ==> CoverEdge(t, net, u, b)
  }

  lemma PendingAtEnd(queue: seq<Update>, item: Update, a: Address)
    requires Pending(queue, a) || Reaches(item, a)
    ensures Pending(queue + [item], a)
  {
    if Pending(queue, a) {
      var k :| 0 <= k < |queue| && Reaches(queue[k], a);
      assert (queue + [item])[k] == queue[k];
    } else {
      assert (queue + [item])[|queue|] == item;
    }
  }

  /** A step that only improves the receiver's table leaves the edge covered. */
  lemma CoverReceiver(t: Topology, net: Net, net': Net, u: nat, b: Address)
    requires Safe(t, net) && Edge(t, u, b) && CoverEdge(t, net, u, b)
    requires |net'.nodes| == |net.nodes| && (u, b) in net'.chans && net'.chans[(u, b)] == net.chans[(u, b)]
    requires net'.nodes[t.owner[b]] == net.nodes[t.owner[b]]
    requires Improves(net.nodes[u].table, net'.nodes[u].table)
    ensures CoverEdge(t, net', u, b)
  {
  }

  /** A sender whose queue now reaches u covers the edge, whatever its table became. */
  lemma CoverPending(t: Topology, net: Net, u: nat, b: Address)
    requires u < |net.nodes| && b in t.owner && t.owner[b] < |net.nodes| && (u, b) in t.near && (u, b) in net.chans
    requires Pending(net.nodes[t.owner[b]].queue, t.near[(u, b)])
    ensures CoverEdge(t, net, u, b)
  {
  }

  /**
   * A sender whose routes not leading through u stayed the same, with nothing taken from queue or channel,
   * still covers the edge.
   */
  lemma CoverSender(t: Topology, net: Net, net': Net, u: nat, b: Address)
    requires Safe(t, net) && Edge(t, u, b) && CoverEdge(t, net, u, b)
    requires |net'.nodes| == |net.nodes| && (u, b) in net'.chans && net'.chans[(u, b)] == net.chans[(u, b)]
    requires net'.nodes[u] == net.nodes[u]
    requires var r, r', a := net.nodes[t.owner[b]], net'.nodes[t.owner[b]], t.near[(u, b)];
      && r'.neighbours == r.neighbours
      && (Pending(r.queue, a) ==> Pending(r'.queue, a))
      && (forall d :: d in r'.table && r'.table[d].via != a ==> Same(r.table, r'.table, d))
    ensures CoverEdge(t, net', u, b)
  {
  }

  // ----- the lossless steps keep it -----

  lemma CoverAppear(t: Topology, net: Net, x: nat, y: Address, u: nat, b: Address)
    requires Safe(t, net) && Enabled(t, net, Appear(x, y)) && Edge(t, u, b) && CoverEdge(t, net, u, b)
    ensures CoverEdge(t, Next(t, net, Appear(x, y)), u, b)
  {
    var net' := Next(t, net, Appear(x, y));
    AppearKeeps(t, net, x, y);
    if y in net.nodes[x].neighbours {
      assert net'.nodes == net.nodes;
    } else if t.owner[b] == x {
      PendingAtEnd(net.nodes[x].queue, Update(false, y), t.near[(u, b)]);
      CoverPending(t, net', u, b);
    } else {
      CoverReceiver(t, net, net', u, b);
    }
  }

  lemma CoverSend(t: Topology, net: Net, x: nat, u: nat, b: Address)
    requires Safe(t, net) && Enabled(t, net, Send(x)) && Edge(t, u, b) && CoverEdge(t, net, u, b)
    ensures CoverEdge(t, Next(t, net, Send(x)), u, b)
  {
    var net' := Next(t, net, Send(x));
    var a := t.near[(u, b)];
    if t.owner[b] == x {
      var r := net.nodes[x];
      if a in r.neighbours && Reaches(r.queue[0], a) {
        CoverCarried(t, net, x, u, b);
      } else if a in r.neighbours {
        if Pending(r.queue, a) {
          PendingBehind(r.queue, a);
        }
        assert net'.chans[(u, b)] == net.chans[(u, b)];
      }
    }
  }

  lemma PendingBehind(queue: seq<Update>, a: Address)
    requires queue != [] && !Reaches(queue[0], a) && Pending(queue, a)
    ensures Pending(queue[1..], a)
  {
  }

  /** The advertisement just sent carries every route the split horizon lets through. */
  lemma CoverCarried(t: Topology, net: Net, x: nat, u: nat, b: Address)
    requires Safe(t, net) && Enabled(t, net, Send(x)) && Edge(t, u, b) && t.owner[b] == x
    requires t.near[(u, b)] in net.nodes[x].neighbours && Reaches(net.nodes[x].queue[0], t.near[(u, b)])
    ensures CoverEdge(t, Next(t, net, Send(x)), u, b)
  {
    var net' := Next(t, net, Send(x));
    var table, a := net.nodes[x].table, t.near[(u, b)];
    var q := net.chans[(u, b)];
    assert net'.chans[(u, b)] == q + [Pack(table, a)];
    forall d | d in table && table[d].via != a
      ensures InFlight(net'.chans[(u, b)], d, table[d].cost)
    {
      assert net'.chans[(u, b)][|q|] == Pack(table, a);
    }
  }

  lemma CoverDeliver(t: Topology, net: Net, x: nat, y: Address, u: nat, b: Address)
    requires Safe(t, net) && Enabled(t, net, Deliver(x, y)) && Edge(t, u, b) && CoverEdge(t, net, u, b)
    ensures CoverEdge(t, Next(t, net, Deliver(x, y)), u, b)
  {
    var net' := Next(t, net, Deliver(x, y));
    DeliverKeeps(t, net, x, y);
    if t.owner[b] == x {
      CoverTriggered(t, net, x, y, u, b);
    } else if (u, b) == (x, y) {
      CoverConsumed(t, net, u, b);
    } else {
      CoverReceiver(t, net, net', u, b);
    }
  }

  /** The sender of an advertisement need not be told what that advertisement changed. */
  lemma CoverTriggered(t: Topology, net: Net, x: nat, y: Address, u: nat, b: Address)
    requires Safe(t, net) && Enabled(t, net, Deliver(x, y)) && Edge(t, u, b) && CoverEdge(t, net, u, b)
    requires t.owner[b] == x
    ensures CoverEdge(t, Next(t, net, Deliver(x, y)), u, b)
  {
    var net' := Next(t, net, Deliver(x, y));
    var r, a := net.nodes[x], t.near[(u, b)];
    var ad := net.chans[(x, y)][0];
    var table' := Relax(r.table, y, ad);
    if table' != r.table {
      if y != a || Pending(r.queue, a) {
        PendingAtEnd(r.queue, Update(true, y), a);
        CoverPending(t, net', u, b);
      } else {
        assert forall d :: d in table' && table'[d].via != a ==> Same(r.table, table', d);
        CoverSender(t, net, net', u, b);
      }
    } else {
      CoverSender(t, net, net', u, b);
    }
  }

  /** What a consumed advertisement carried the receiver now holds. */
  lemma CoverConsumed(t: Topology, net: Net, u: nat, b: Address)
    requires Safe(t, net) && Enabled(t, net, Deliver(u, b)) && Edge(t, u, b) && CoverEdge(t, net, u, b)
    ensures CoverEdge(t, Next(t, net, Deliver(u, b)), u, b)
  {
    var net' := Next(t, net, Deliver(u, b));
    var sender, q := net.nodes[t.owner[b]], net.chans[(u, b)];
    DeliverKeeps(t, net, u, b);
    ConsumedChan(t, net, u, b);
    hide Safe, Pending, InFlight, Held, OnAdvert;
    if t.near[(u, b)] in sender.neighbours {
      forall d | d in sender.table && sender.table[d].via != t.near[(u, b)]
        ensures
          || Pending(sender.queue, t.near[(u, b)])
          || InFlight(q[1..], d, sender.table[d].cost)
          || Held(net'.nodes[u].table, d, sender.table[d].cost)
      {
        ConsumedOne(net.nodes[u].table, b, q, d, sender.table[d].cost, net'.nodes[u].table);
      }
    }
  }

  lemma ConsumedChan(t: Topology, net: Net, u: nat, b: Address)
    requires Safe(t, net) && Enabled(t, net, Deliver(u, b)) && Edge(t, u, b)
    ensures var net' := Next(t, net, Deliver(u, b));
      && net'.nodes[t.owner[b]] == net.nodes[t.owner[b]] && net'.chans[(u, b)] == net.chans[(u, b)][1..]
      && net'.nodes[u].table == Relax(net.nodes[u].table, b, net.chans[(u, b)][0])
  {
  }

  lemma ConsumedOne(table: Table, b: Address, q: seq<Advert>, d: Address, cost: byte, after: Table)
    requires q != [] && after == Relax(table, b, q[0]) && Improves(table, after)
    ensures Held(table, d, cost) ==> Held(after, d, cost)
    ensures InFlight(q, d, cost) ==> InFlight(q[1..], d, cost) || Held(after, d, cost)
  {
    if InFlight(q, d, cost) {
      var i :| 0 <= i < |q| && d in q[i] && q[i][d] <= cost;
      if i > 0 {
        assert q[1..][i - 1] == q[i];
      }
    }
  }

  /** Neither an advertisement nor a link is lost. */
  predicate Lossless(s: Step) { !s.Drop? && !s.Lose? }

  lemma StepCovers(t: Topology, net: Net, s: Step)
    requires Safe(t, net) && Cover(t, net) && Enabled(t, net, s) && Lossless(s)
    ensures Safe(t, Next(t, net, s)) && Cover(t, Next(t, net, s))
  {
    StepSafe(t, net, s);
    forall u: nat, b: Address | Edge(t, u, b)
      ensures CoverEdge(t, Next(t, net, s), u, b)
    {
      assert CoverEdge(t, net, u, b);
      match s
      case Appear(x, y) => CoverAppear(t, net, x, y, u, b);
      case Send(x) => CoverSend(t, net, x, u, b);
      case Deliver(x, y) => CoverDeliver(t, net, x, y, u, b);
    }
  }

  lemma InitCovers(t: Topology, net: Net)
    requires Init(t, net)
    ensures Safe(t, net) && Cover(t, net)
  {
    InitSafe(t, net);
  }

  // ----- at rest the costs are the distances -----

  /** No advertisement queued anywhere and none in flight. */
  ghost predicate Quiescent(net: Net) {
    && (forall u :: 0 <= u < |net.nodes| ==> net.nodes[u].queue == [])
    && (forall k :: k in net.chans ==> net.chans[k] == [])
  }

  /** Both ends of every link have noticed it. */
  ghost predicate AllAppeared(t: Topology, net: Net) {
    forall u: nat, b: Address :: Edge(t, u, b) ==> Noticed(t, net, u, b)
  }

  /** The node of b has u's end of the link among its neighbours. */
  ghost predicate Noticed(t: Topology, net: Net, u: nat, b: Address)
    requires Edge(t, u, b)
  {
    b in t.owner && t.owner[b] < |net.nodes| && t.near[(u, b)] in net.nodes[t.owner[b]].neighbours
  }

  ghost predicate IsDistance(t: Topology, u: nat, d: Address, k: nat) {
    Hops(t, u, d, k) && forall j: nat :: j < k ==> !Hops(t, u, d, j)
  }

  /** Whatever walk there is, a shortest one gives the distance. */
  lemma {:induction false} Shortest(t: Topology, x: nat, d: Address, k: nat) returns (j: nat)
    requires Hops(t, x, d, k)
    ensures j <= k && IsDistance(t, x, d, j)
    decreases k
  {
    hide Hops;
    if i: nat :| i < k && Hops(t, x, d, i) {
      j := Shortest(t, x, d, i);
    } else {
      j := k;
    }
  }

  function Capped(k: nat): byte { if k < 255 then k else INF_COST }

  /** Exactly the reachable addresses are known, each at its hop distance, capped at infinity. */
  ghost predicate Exact(t: Topology, net: Net)
    requires |net.nodes| == t.n
  {
    forall u: nat, d: Address :: u < t.n ==>
      && (d in net.nodes[u].table <==> Reachable(t, u, d))
      && (forall k: nat ::
            IsDistance(t, u, d, k) ==> d in net.nodes[u].table && net.nodes[u].table[d].cost == Capped(k))
  }

  /** With nothing queued or in flight, what the split horizon lets through the receiver already holds. */
  lemma QuietShown(t: Topology, net: Net, u: nat, b: Address, d: Address)
    requires u < |net.nodes| && b in t.owner && t.owner[b] < |net.nodes| && (u, b) in t.near && (u, b) in net.chans
    requires CoverEdge(t, net, u, b) && net.nodes[t.owner[b]].queue == [] && net.chans[(u, b)] == []
    requires t.near[(u, b)] in net.nodes[t.owner[b]].neighbours
    requires d in net.nodes[t.owner[b]].table && net.nodes[t.owner[b]].table[d].via != t.near[(u, b)]
    ensures Held(net.nodes[u].table, d, net.nodes[t.owner[b]].table[d].cost)
  {
  }

  /** What the split horizon hides leads through the receiver, which therefore knows better. */
  lemma HiddenHeld(t: Topology, net: Net, u: nat, b: Address, d: Address)
    requires WellFormed(t) && |net.nodes| == t.n && Edge(t, u, b) && NodeOk(t, net.nodes, t.owner[b])
    requires d in net.nodes[t.owner[b]].table && net.nodes[t.owner[b]].table[d].via == t.near[(u, b)]
    ensures Held(net.nodes[u].table, d, net.nodes[t.owner[b]].table[d].cost)
  {
  }

  lemma QuietEdge(t: Topology, net: Net, u: nat, b: Address, d: Address)
    requires Safe(t, net) && Cover(t, net) && Quiescent(net) && AllAppeared(t, net)
    requires Edge(t, u, b) && d in net.nodes[t.owner[b]].table
    ensures Held(net.nodes[u].table, d, net.nodes[t.owner[b]].table[d].cost)
  {
    if net.nodes[t.owner[b]].table[d].via == t.near[(u, b)] {
      assert NodeOk(t, net.nodes, t.owner[b]);
      HiddenHeld(t, net, u, b, d);
    } else {
      assert CoverEdge(t, net, u, b) && Noticed(t, net, u, b);
      QuietShown(t, net, u, b, d);
    }
  }

  lemma {:induction false} AtMostHops(t: Topology, net: Net, u: nat, d: Address, k: nat)
    requires Safe(t, net) && Cover(t, net) && Quiescent(net) && AllAppeared(t, net)
    requires u < t.n && Hops(t, u, d, k)
    ensures d in net.nodes[u].table && net.nodes[u].table[d].cost <= Capped(k)
    decreases k
  {
    hide Hops, Safe, Cover, Quiescent, AllAppeared;
    if k == 0 {
      LocalKnown(t, net, u, d);
    } else {
      SafeIsWellFormed(t, net);
      var b := FirstHop(t, u, d, k);
      AtMostHops(t, net, t.owner[b], d, k - 1);
      QuietEdge(t, net, u, b, d);
    }
  }

  lemma SafeIsWellFormed(t: Topology, net: Net)
    requires Safe(t, net)
    ensures WellFormed(t) && |net.nodes| == t.n && net.chans.Keys == t.near.Keys
  {
  }

  lemma LocalKnown(t: Topology, net: Net, u: nat, d: Address)
    requires Safe(t, net) && u < t.n && Hops(t, u, d, 0)
    ensures d in net.nodes[u].table && net.nodes[u].table[d].cost == 0
  {
    assert NodeOk(t, net.nodes, u);
  }

  lemma FirstHop(t: Topology, u: nat, d: Address, k: nat) returns (b: Address)
    requires k > 0 && Hops(t, u, d, k) && WellFormed(t)
    ensures Edge(t, u, b) && b in t.owner && t.owner[b] < t.n && Hops(t, t.owner[b], d, k - 1)
  {
    b :| Edge(t, u, b) && b in t.owner && Hops(t, t.owner[b], d, k - 1);
  }

  /** A settled network knows exactly the reachable addresses, at exactly their capped hop distance. */
  lemma SettledIsExact(t: Topology, net: Net)
    requires Safe(t, net) && Cover(t, net) && Quiescent(net) && AllAppeared(t, net)
    ensures Exact(t, net)
  {
    forall u: nat, d: Address | u < t.n
      ensures d in net.nodes[u].table <==> Reachable(t, u, d)
      ensures forall k: nat ::
        IsDistance(t, u, d, k) ==> d in net.nodes[u].table && net.nodes[u].table[d].cost == Capped(k)
    {
      SettledEntry(t, net, u, d);
    }
  }

  lemma SettledEntry(t: Topology, net: Net, u: nat, d: Address)
    requires Safe(t, net) && Cover(t, net) && Quiescent(net) && AllAppeared(t, net) && u < t.n
    ensures d in net.nodes[u].table <==> Reachable(t, u, d)
    ensures forall k: nat ::
      IsDistance(t, u, d, k) ==> d in net.nodes[u].table && net.nodes[u].table[d].cost == Capped(k)
  {
    assert NodeOk(t, net.nodes, u);
    forall k: nat | Hops(t, u, d, k)
      ensures d in net.nodes[u].table && net.nodes[u].table[d].cost <= Capped(k)
    {
      AtMostHops(t, net, u, d, k);
    }
    forall k: nat | IsDistance(t, u, d, k)
      ensures d in net.nodes[u].table && net.nodes[u].table[d].cost == Capped(k)
    {
      if net.nodes[u].table[d].cost < INF_COST {
        var j := FollowReaches(t, net, u, d);
        assert j >= k;
      }
    }
  }

  // ----- and it comes to rest -----

  function Sum(n: nat, f: nat -> nat): nat {
    if n == 0 then 0 else Sum(n - 1, f) + f(n - 1)
  }

  lemma {:induction false} SumAtMost(n: nat, f: nat -> nat, g: nat -> nat)
    requires forall i: nat :: i < n ==> f(i) <= g(i)
    ensures Sum(n, f) <= Sum(n, g)
    ensures (exists i: nat :: i < n && f(i) < g(i)) ==> Sum(n, f) < Sum(n, g)
  {
    if n > 0 {
      SumAtMost(n - 1, f, g);
    }
  }

  lemma SumSame(n: nat, f: nat -> nat, g: nat -> nat)
    requires forall i: nat :: i < n ==> f(i) == g(i)
    ensures Sum(n, f) == Sum(n, g)
  {
  }

  /** The cost of a destination, one more than infinity when it is unknown. */
  function CostIn(table: Table, d: nat): nat {
    if d < 0x100 && d in table then table[d].cost else 0x100
  }

  function Costs(table: Table): nat -> nat { (d: nat) => CostIn(table, d) }

  function TableWeight(table: Table): nat { Sum(0x100, Costs(table)) }

  function TableAt(net: Net, u: nat): nat {
    if u < |net.nodes| then TableWeight(net.nodes[u].table) else 0
  }

  function QueueAt(net: Net, u: nat): nat {
    if u < |net.nodes| then |net.nodes[u].queue| else 0
  }

  function ChanLength(net: Net, u: nat, b: nat): nat {
    if b < 0x100 && (u, b) in net.chans then |net.chans[(u, b)]| else 0
  }

  function Lengths(net: Net, u: nat): nat -> nat { (b: nat) => ChanLength(net, u, b) }

  function FlightAt(net: Net, u: nat): nat { Sum(0x100, Lengths(net, u)) }

  function Tables(net: Net): nat -> nat { (u: nat) => TableAt(net, u) }

  function Queues(net: Net): nat -> nat { (u: nat) => QueueAt(net, u) }

  function Flights(net: Net): nat -> nat { (u: nat) => FlightAt(net, u) }

  function CostWeight(net: Net): nat { Sum(|net.nodes|, Tables(net)) }

  function QueueWeight(net: Net): nat { Sum(|net.nodes|, Queues(net)) }

  function FlightWeight(net: Net): nat { Sum(|net.nodes|, Flights(net)) }

  /** Sum of all costs, then queued updates, then advertisements in flight: smaller in this order. */
  ghost predicate Lighter(net': Net, net: Net) {
    || CostWeight(net') < CostWeight(net)
    || (CostWeight(net') == CostWeight(net) && QueueWeight(net') < QueueWeight(net))
    || (CostWeight(net') == CostWeight(net) && QueueWeight(net') == QueueWeight(net)
        && FlightWeight(net') < FlightWeight(net))
  }

  lemma BetterTable(before: Table, after: Table, d: Address)
    requires Improves(before, after) && CostIn(after, d) < CostIn(before, d)
    ensures TableWeight(after) < TableWeight(before)
  {
    hide Sum;
    var f, g := Costs(after), Costs(before);
    assert f(d) < g(d);
    SumAtMost(0x100, f, g);
  }

  /** Under safety an advertisement that changes the table makes some cost smaller. */
  lemma ChangeIsBetter(t: Topology, net: Net, u: nat, b: Address)
    requires Safe(t, net) && Edge(t, u, b) && net.chans[(u, b)] != []
    requires Relax(net.nodes[u].table, b, net.chans[(u, b)][0]) != net.nodes[u].table
    ensures TableWeight(Relax(net.nodes[u].table, b, net.chans[(u, b)][0])) < TableWeight(net.nodes[u].table)
  {
    var table, ad := net.nodes[u].table, net.chans[(u, b)][0];
    AdvertImproves(t, net, u, b);
    var d := Changed(table, b, ad);
    BetterTable(table, Relax(table, b, ad), d);
  }

  lemma Changed(table: Table, b: Address, ad: Advert) returns (d: Address)
    requires Relax(table, b, ad) != table && Improves(table, Relax(table, b, ad))
    ensures CostIn(Relax(table, b, ad), d) < CostIn(table, d)
  {
    var table' := Relax(table, b, ad);
    assert table'.Keys != table.Keys || exists e :: e in table && table'[e] != table[e];
    d :| d in ad && Wins(table, b, d, Relaxed(ad[d]));
  }

  lemma SameCosts(net: Net, net': Net)
    requires |net'.nodes| == |net.nodes|
    requires forall u :: 0 <= u < |net.nodes| ==> net'.nodes[u].table == net.nodes[u].table
    ensures CostWeight(net') == CostWeight(net)
  {
    hide TableWeight;
    SumSame(|net.nodes|, Tables(net'), Tables(net));
  }

  lemma LowerCosts(net: Net, net': Net, u: nat)
    requires u < |net.nodes| == |net'.nodes|
    requires forall w :: 0 <= w < |net.nodes| && w != u ==> net'.nodes[w] == net.nodes[w]
    requires TableWeight(net'.nodes[u].table) < TableWeight(net.nodes[u].table)
    ensures CostWeight(net') < CostWeight(net)
  {
    hide TableWeight;
    assert Tables(net')(u) < Tables(net)(u);
    SumAtMost(|net.nodes|, Tables(net'), Tables(net));
  }

  lemma SameQueues(net: Net, net': Net)
    requires |net'.nodes| == |net.nodes|
    requires forall u :: 0 <= u < |net.nodes| ==> |net'.nodes[u].queue| == |net.nodes[u].queue|
    ensures QueueWeight(net') == QueueWeight(net)
  {
    SumSame(|net.nodes|, Queues(net'), Queues(net));
  }

  lemma ShorterQueue(net: Net, net': Net, v: nat)
    requires v < |net.nodes| == |net'.nodes|
    requires forall w :: 0 <= w < |net.nodes| && w != v ==> net'.nodes[w] == net.nodes[w]
    requires |net'.nodes[v].queue| < |net.nodes[v].queue|
    ensures QueueWeight(net') < QueueWeight(net)
  {
    assert Queues(net')(v) < Queues(net)(v);
    SumAtMost(|net.nodes|, Queues(net'), Queues(net));
  }

  /** Sending takes an item off a queue and leaves every table as it is. */
  lemma SendLighter(t: Topology, net: Net, v: nat)
    requires Enabled(t, net, Send(v))
    ensures Lighter(Next(t, net, Send(v)), net)
  {
    var net' := Next(t, net, Send(v));
    SameCosts(net, net');
    ShorterQueue(net, net', v);
  }

  /** A delivery lowers a cost, or changes no table and no queue and takes an advertisement off a channel. */
  lemma DeliverLighter(t: Topology, net: Net, u: nat, b: Address)
    requires Safe(t, net) && Enabled(t, net, Deliver(u, b))
    ensures Lighter(Next(t, net, Deliver(u, b)), net)
  {
    var net' := Next(t, net, Deliver(u, b));
    var q := net.chans[(u, b)];
    assert Edge(t, u, b);
    if Relax(net.nodes[u].table, b, q[0]) != net.nodes[u].table {
      ChangeIsBetter(t, net, u, b);
      LowerCosts(net, net', u);
    } else {
      assert net'.nodes == net.nodes;
      SameCosts(net, net');
      SameQueues(net, net');
      FlightShorter(net, net', u, b);
    }
  }

  lemma FlightShorter(net: Net, net': Net, u: nat, b: Address)
    requires u < |net.nodes| == |net'.nodes| && (u, b) in net.chans && net.chans[(u, b)] != []
    requires net'.chans == net.chans[(u, b) := net.chans[(u, b)][1..]]
    ensures FlightWeight(net') < FlightWeight(net)
  {
    forall w: nat
      ensures FlightAt(net', w) <= FlightAt(net, w)
    {
      ShorterLengths(net, net', u, b, w);
    }
    RowShorter(net, net', u, b);
    assert Flights(net')(u) < Flights(net)(u);
    hide FlightAt;
    SumAtMost(|net.nodes|, Flights(net'), Flights(net));
  }

  lemma ShorterLengths(net: Net, net': Net, u: nat, b: Address, w: nat)
    requires (u, b) in net.chans && net.chans[(u, b)] != []
    requires net'.chans == net.chans[(u, b) := net.chans[(u, b)][1..]]
    ensures FlightAt(net', w) <= FlightAt(net, w)
  {
    SumAtMost(0x100, Lengths(net', w), Lengths(net, w));
  }

  lemma RowShorter(net: Net, net': Net, u: nat, b: Address)
    requires (u, b) in net.chans && net.chans[(u, b)] != []
    requires net'.chans == net.chans[(u, b) := net.chans[(u, b)][1..]]
    ensures FlightAt(net', u) < FlightAt(net, u)
  {
    assert Lengths(net', u)(b) < Lengths(net, u)(b);
    SumAtMost(0x100, Lengths(net', u), Lengths(net, u));
  }

  /** While no link appears and none is lost, every step is a Send or a Deliver and makes the network lighter. */
  predicate Settling(s: Step) { s.Send? || s.Deliver? }

  lemma StepLighter(t: Topology, net: Net, s: Step)
    requires Safe(t, net) && Enabled(t, net, s) && Settling(s)
    ensures Lighter(Next(t, net, s), net)
  {
    match s
    case Send(v) => SendLighter(t, net, v);
    case Deliver(u, b) => DeliverLighter(t, net, u, b);
  }

  /** As long as the network is not at rest some step is possible. */
  lemma NotStuck(t: Topology, net: Net)
    requires WellFormed(t) && |net.nodes| == t.n && net.chans.Keys == t.near.Keys && !Quiescent(net)
    ensures exists s :: Settling(s) && Enabled(t, net, s)
  {
    if u :| 0 <= u < |net.nodes| && net.nodes[u].queue != [] {
      assert Settling(Send(u)) && Enabled(t, net, Send(u));
    } else {
      var k :| k in net.chans && net.chans[k] != [];
      assert k in t.near && Edge(t, k.0, k.1);
      assert k == (k.0, k.1);
      assert Settling(Deliver(k.0, k.1)) && Enabled(t, net, Deliver(k.0, k.1));
    }
  }

  /** The next state of a run is the result of a Send or a Deliver, unless nothing is left to do. */
  ghost predicate SettlesAt(t: Topology, run: nat -> Net, i: nat) {
    Quiescent(run(i)) || exists s :: Settling(s) && Enabled(t, run(i), s) && run(i + 1) == Next(t, run(i), s)
  }

  ghost predicate SettlingFrom(t: Topology, run: nat -> Net, i: nat) {
    forall j: nat :: j >= i ==> SettlesAt(t, run, j)
  }

  /** A run on a fixed topology, without loss, that goes on until nothing is left to do. */
  ghost predicate SettlingRun(t: Topology, run: nat -> Net) {
    SettlingFrom(t, run, 0)
  }

  ghost predicate Ready(t: Topology, net: Net) {
    Safe(t, net) && Cover(t, net) && AllAppeared(t, net)
  }

  lemma StepReady(t: Topology, net: Net, s: Step)
    requires Ready(t, net) && Enabled(t, net, s) && Settling(s)
    ensures Ready(t, Next(t, net, s))
  {
    StepCovers(t, net, s);
    var net' := Next(t, net, s);
    assert forall v :: 0 <= v < |net.nodes| ==> net'.nodes[v].neighbours == net.nodes[v].neighbours;
    forall u: nat, b: Address | Edge(t, u, b)
      ensures Noticed(t, net', u, b)
    {
      assert Noticed(t, net, u, b);
    }
  }

  lemma {:induction false} ComesToRest(t: Topology, run: nat -> Net, i: nat) returns (n: nat)
    requires SettlingFrom(t, run, i) && Ready(t, run(i))
    ensures n >= i && Quiescent(run(n)) && Ready(t, run(n))
    decreases CostWeight(run(i)), QueueWeight(run(i)), FlightWeight(run(i))
  {
    hide Ready, Quiescent, CostWeight, QueueWeight, FlightWeight, Next, Enabled;
    assert SettlesAt(t, run, i);
    if Quiescent(run(i)) {
      n := i;
    } else {
      var s :| Settling(s) && Enabled(t, run(i), s) && run(i + 1) == Next(t, run(i), s);
      SettlingStep(t, run(i), s);
      n := ComesToRest(t, run, i + 1);
    }
  }

  lemma SettlingStep(t: Topology, net: Net, s: Step)
    requires Ready(t, net) && Enabled(t, net, s) && Settling(s)
    ensures Ready(t, Next(t, net, s)) && Lighter(Next(t, net, s), net)
  {
    StepLighter(t, net, s);
    StepReady(t, net, s);
  }

  /**
   * Convergence: once every link has been noticed at both ends, every run without loss comes to rest, and
   * then each node knows exactly the reachable addresses at exactly their hop distance (capped at 255).
   */
  lemma Converges(t: Topology, run: nat -> Net)
    requires SettlingRun(t, run) && Ready(t, run(0))
    ensures exists n: nat :: Quiescent(run(n)) && |run(n).nodes| == t.n && Exact(t, run(n))
  {
    var n := ComesToRest(t, run, 0);
    SettledIsExact(t, run(n));
  }

  // ----- there are such runs -----

  /** Some step towards rest, or nothing when at rest. */
  ghost function Onward(t: Topology, net: Net): (net': Net)
    requires Ready(t, net)
    ensures Ready(t, net')
    ensures Quiescent(net) || exists s :: Settling(s) && Enabled(t, net, s) && net' == Next(t, net, s)
  {
    if Quiescent(net) then net else
    NotStuck(t, net);
    var s :| Settling(s) && Enabled(t, net, s);
    StepReady(t, net, s);
    Next(t, net, s)
  }

  ghost function Settle(t: Topology, net: Net, i: nat): (net': Net)
    requires Ready(t, net)
    ensures Ready(t, net')
  {
    if i == 0 then net else Onward(t, Settle(t, net, i - 1))
  }

  /** Convergence speaks of something: from every network with all links noticed there is a settling run. */
  lemma SettlingRunExists(t: Topology, net: Net)
    requires Ready(t, net)
    ensures exists run: nat -> Net :: run(0) == net && SettlingRun(t, run)
  {
    hide Ready, Quiescent, Next, Enabled;
    var run := (i: nat) => Settle(t, net, i);
    forall i: nat
      ensures SettlesAt(t, run, i)
    {
      assert run(i + 1) == Onward(t, run(i));
    }
    assert run(0) == net;
  }

  /** The same as finitely many steps that end at rest. */
  lemma {:induction false} SettlesInSteps(t: Topology, net: Net) returns (steps: seq<Step>)
    requires Ready(t, net)
    ensures IsRun(t, net, steps) && (forall s :: s in steps ==> Settling(s))
    ensures Quiescent(Run(t, net, steps)) && Ready(t, Run(t, net, steps))
    decreases CostWeight(net), QueueWeight(net), FlightWeight(net)
  {
    hide Ready, Quiescent, CostWeight, QueueWeight, FlightWeight, Next, Enabled;
    if Quiescent(net) {
      steps := [];
    } else {
      ReadyIsSafe(t, net);
      SafeIsWellFormed(t, net);
      NotStuck(t, net);
      var s :| Settling(s) && Enabled(t, net, s);
      SettlingStep(t, net, s);
      var rest := SettlesInSteps(t, Next(t, net, s));
      steps := [s] + rest;
      assert steps[1..] == rest;
    }
  }

  lemma ReadyIsSafe(t: Topology, net: Net)
    requires Ready(t, net)
    ensures Safe(t, net)
  {
  }

  /** Every lossless run from the start keeps what convergence needs. */
  lemma {:induction false} RunCovers(t: Topology, net: Net, steps: seq<Step>)
    requires Safe(t, net) && Cover(t, net) && IsRun(t, net, steps) && forall s :: s in steps ==> Lossless(s)
    ensures Safe(t, Run(t, net, steps)) && Cover(t, Run(t, net, steps))
    decreases |steps|
  {
    if steps != [] {
      assert steps[0] in steps;
      StepCovers(t, net, steps[0]);
      RunCovers(t, Next(t, net, steps[0]), steps[1..]);
    }
  }

  /** From the start, through any lossless run that ends at rest with all links noticed, to exact costs. */
  lemma LosslessRunIsExact(t: Topology, net: Net, steps: seq<Step>)
    requires Init(t, net) && IsRun(t, net, steps) && forall s :: s in steps ==> Lossless(s)
    requires Quiescent(Run(t, net, steps)) && AllAppeared(t, Run(t, net, steps))
    ensures Exact(t, Run(t, net, steps))
  {
    InitCovers(t, net);
    RunCovers(t, net, steps);
    SettledIsExact(t, Run(t, net, steps));
  }
}
