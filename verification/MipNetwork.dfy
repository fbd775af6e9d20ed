/**
 * Any number of MIP daemons and the links between their interfaces. Every frame ever sent may arrive, at any time
 * and any number of times, wherever its link and its link address let it; the routing daemons may answer anything.
 */
module MipNetwork {
  import opened Wire
  import opened MIP
  import opened MipDaemon
  import opened RoutingNet

  const EVERYONE := 0xffff_ffff_ffff

  /** homes[u][s] is the address of node u's interface s; mac gives each interface's link address. */
  datatype Site = Site(t: Topology, homes: seq<seq<Address>>, mac: Address -> nat)

  datatype OnLink = OnLink(from: nat, what: Sent)

  datatype Handed = Handed(node: nat, dest: Address, msg: seq<byte>)

  datatype Given = Given(node: nat, delivery: Delivery)

  datatype Noted = Noted(node: nat, notice: Notice)

  /**
   * Beside the daemons: every frame ever sent, and the record of what transport daemons handed down and were
   * given, and of what routing daemons asked to send and were told.
   */
  datatype World = World(
    nodes: seq<State>, sent: seq<OnLink>,
    handed: seq<Handed>, given: seq<Given>, advised: seq<Handed>, noted: seq<Noted>)

  ghost predicate SiteOk(c: Site) {
    && WellFormed(c.t) && |c.homes| == c.t.n
    && (forall u, a :: 0 <= u < c.t.n ==> (a in c.homes[u] <==> Local(c.t, u, a)))
    && (forall a: Address, b: Address :: c.mac(a) == c.mac(b) ==> a == b)
    && (forall a: Address :: c.mac(a) != EVERYONE)
  }

  /** Interface s of node u and interface j of node v are the ends of a link. */
  ghost predicate Linked(c: Site, u: nat, s: nat, v: nat, j: nat) {
    && u < |c.homes| && s < |c.homes[u]| && v < |c.homes| && j < |c.homes[v]|
    && Edge(c.t, u, c.homes[v][j]) && c.t.near[(u, c.homes[v][j])] == c.homes[u][s]
  }

  /** The link takes the frame to interface j of node v, and the interface is addressed. */
  ghost predicate Arrives(c: Site, l: OnLink, v: nat, j: nat) {
    Linked(c, l.from, l.what.sock, v, j) && (l.what.to == c.mac(c.homes[v][j]) || l.what.to == EVERYONE)
  }

  /** The frame as it is received: with the link address of the interface it was sent from. */
  function Received(c: Site, l: OnLink): Frame
    requires l.from < |c.homes| && l.what.sock < |c.homes[l.from]|
  {
    l.what.frame.(mac := c.mac(c.homes[l.from][l.what.sock]))
  }

  datatype Event =
    | Arrive(i: nat, v: nat, j: nat)                          // the i-th frame ever sent arrives at v's interface j
    | Tick(v: nat)                                            // v's timer
    | FromTransport(v: nat, dest: Address, msg: seq<byte>)
    | Answer(v: nat, via: Option<Address>)                    // v's routing daemon answers a lookup
    | Advise(v: nat, dest: Address, msg: seq<byte>)           // v's routing daemon has an advertisement to send

  ghost predicate Enabled(c: Site, x: World, e: Event) {
    e.v < |x.nodes| &&
    match e
    case Arrive(i, v, j) => i < |x.sent| && Arrives(c, x.sent[i], v, j)
    case Answer(v, _) => x.nodes[v].waiting != []
    case _ => true
  }

  // ----- what is true in every reachable state -----

  /** The pair names a neighbour, the interface that leads to it, and the neighbour's link address. */
  ghost predicate PairTrue(c: Site, u: nat, p: ArpPair)
    requires u < |c.homes|
  {
    && p.sock < |c.homes[u]| && Edge(c.t, u, p.mip) && c.t.near[(u, p.mip)] == c.homes[u][p.sock]
    && p.mac == c.mac(p.mip)
  }

  ghost predicate ArpTrue(c: Site, u: nat, arp: seq<ArpPair>)
    requires u < |c.homes|
  {
    forall k :: 0 <= k < |arp| ==> PairTrue(c, u, arp[k])
  }

  /** The transport daemon of source's node handed this message down for this destination. */
  ghost predicate Origin(c: Site, handed: seq<Handed>, source: Address, dest: Address, msg: seq<byte>) {
    source in c.t.owner && Handed(c.t.owner[source], dest, msg) in handed
  }

  ghost predicate WaitTrue(c: Site, handed: seq<Handed>, u: nat, w: Waiting) {
    && w.frame.tra == TRA_T
    && if w.forwarded then Origin(c, handed, w.frame.source, w.frame.dest, w.frame.msg)
       else Handed(u, w.frame.dest, w.frame.msg) in handed
  }

  /** An advertisement on its way: asked for by its sender's routing daemon, for the end of the link it is on. */
  ghost predicate AdvertTrue(c: Site, advised: seq<Handed>, from: nat, s: Sent)
    requires from < |c.homes| && s.sock < |c.homes[from]|
  {
    && Handed(from, s.frame.dest, s.frame.msg) in advised && s.to == c.mac(s.frame.dest)
    && Edge(c.t, from, s.frame.dest) && c.t.near[(from, s.frame.dest)] == c.homes[from][s.sock]
  }

  /** Control frames name the interface they leave over; transport frames the node they started from. */
  ghost predicate SentTrue(c: Site, handed: seq<Handed>, advised: seq<Handed>, from: nat, s: Sent) {
    && from < |c.homes| && s.sock < |c.homes[from]| && KnownTra(s.frame.tra)
    && (s.frame.tra != TRA_T ==> s.frame.source == c.homes[from][s.sock])
    && (s.frame.tra == TRA_R ==> AdvertTrue(c, advised, from, s))
    && (s.frame.tra == TRA_T ==> Origin(c, handed, s.frame.source, s.frame.dest, s.frame.msg))
  }

  /** Some address of v is what the source's transport daemon sent this message to. */
  ghost predicate GivenTrue(c: Site, handed: seq<Handed>, v: nat, d: Delivery) {
    exists dest :: Local(c.t, v, dest) && Origin(c, handed, d.source, dest, d.msg)
  }

  /** Only neighbours are reported; an advertisement under the name that its sender has on the link to v. */
  ghost predicate NoticeTrue(c: Site, advised: seq<Handed>, v: nat, n: Notice) {
    match n
    case ArpDiscovery(mip) => Edge(c.t, v, mip)
    case LostConnection(mip) => Edge(c.t, v, mip)
    case Advertisement(source, ad) =>
      && Edge(c.t, v, source) && source in c.t.owner
      && Handed(c.t.owner[source], c.t.near[(v, source)], ad) in advised
  }

  ghost predicate NodeTrue(c: Site, handed: seq<Handed>, u: nat, m: State)
    requires u < |c.homes|
  {
    && m.locals == c.homes[u] && ArpTrue(c, u, m.arp)
    && forall k :: 0 <= k < |m.waiting| ==> WaitTrue(c, handed, u, m.waiting[k])
  }

  ghost predicate NodesTrue(c: Site, x: World) {
    |x.nodes| == |c.homes| && forall u: nat :: u < |x.nodes| ==> NodeTrue(c, x.handed, u, x.nodes[u])
  }

  ghost predicate AllSentTrue(c: Site, x: World) {
    forall i :: 0 <= i < |x.sent| ==> SentTrue(c, x.handed, x.advised, x.sent[i].from, x.sent[i].what)
  }

  ghost predicate AllGivenTrue(c: Site, x: World) {
    forall i :: 0 <= i < |x.given| ==> GivenTrue(c, x.handed, x.given[i].node, x.given[i].delivery)
  }

  ghost predicate AllNotedTrue(c: Site, x: World) {
    forall i :: 0 <= i < |x.noted| ==> NoticeTrue(c, x.advised, x.noted[i].node, x.noted[i].notice)
  }

  ghost predicate Sound(c: Site, x: World) {
    SiteOk(c) && NodesTrue(c, x) && AllSentTrue(c, x) && AllGivenTrue(c, x) && AllNotedTrue(c, x)
  }

  // ----- steps -----

  function OnLinks(v: nat, wire: seq<Sent>): (s: seq<OnLink>)
    ensures |s| == |wire|
  {
    seq(|wire|, i requires 0 <= i < |wire| => OnLink(v, wire[i]))
  }

  function Givens(v: nat, up: seq<Delivery>): (g: seq<Given>)
    ensures |g| == |up|
  {
    seq(|up|, i requires 0 <= i < |up| => Given(v, up[i]))
  }

  function Noteds(v: nat, notices: seq<Notice>): (n: seq<Noted>)
    ensures |n| == |notices|
  {
    seq(|notices|, i requires 0 <= i < |notices| => Noted(v, notices[i]))
  }

  function Apply(x: World, v: nat, e: Effect): World
    requires v < |x.nodes|
  {
    x.(nodes := x.nodes[v := e.m], sent := x.sent + OnLinks(v, e.wire),
       given := x.given + Givens(v, e.up), noted := x.noted + Noteds(v, e.notices))
  }

  lemma SocksTrue(c: Site, x: World, v: nat)
    requires Sound(c, x) && v < |x.nodes|
    ensures v < |c.homes| && SocksOk(x.nodes[v]) && x.nodes[v].locals == c.homes[v]
    ensures NodeTrue(c, x.handed, v, x.nodes[v])
  {
    assert NodeTrue(c, x.handed, v, x.nodes[v]);
    assert forall k :: 0 <= k < |x.nodes[v].arp| ==> PairTrue(c, v, x.nodes[v].arp[k]);
  }

  ghost function Next(c: Site, x: World, e: Event): World
    requires Sound(c, x) && Enabled(c, x, e)
  {
    SocksTrue(c, x, e.v);
    match e
    case Arrive(i, v, j) =>
      assert SentTrue(c, x.handed, x.advised, x.sent[i].from, x.sent[i].what);
      Apply(x, v, OnWire(x.nodes[v], j, Received(c, x.sent[i])))
    case Tick(v) => Apply(x, v, OnTimer(x.nodes[v]))
    case FromTransport(v, dest, msg) =>
      Apply(x.(handed := x.handed + [Handed(v, dest, msg)]), v, OnTransport(x.nodes[v], dest, msg))
    case Answer(v, via) => Apply(x, v, OnLookup(x.nodes[v], via))
    case Advise(v, dest, msg) =>
      Apply(x.(advised := x.advised + [Handed(v, dest, msg)]), v, OnUpdate(x.nodes[v], dest, msg))
  }

  /** Everything one event does is true. */
  ghost predicate EffectTrue(c: Site, handed: seq<Handed>, advised: seq<Handed>, v: nat, e: Effect)
    requires v < |c.homes|
  {
    && NodeTrue(c, handed, v, e.m)
    && (forall i :: 0 <= i < |e.wire| ==> SentTrue(c, handed, advised, v, e.wire[i]))
    && (forall i :: 0 <= i < |e.up| ==> GivenTrue(c, handed, v, e.up[i]))
    && (forall i :: 0 <= i < |e.notices| ==> NoticeTrue(c, advised, v, e.notices[i]))
  }

  lemma ApplySound(c: Site, x: World, v: nat, e: Effect)
    requires Sound(c, x) && v < |x.nodes| && v < |c.homes| && EffectTrue(c, x.handed, x.advised, v, e)
    ensures Sound(c, Apply(x, v, e))
  {
    hide NodeTrue, SentTrue, GivenTrue, NoticeTrue, SiteOk;
  }

  /** What was true stays true when the records grow. */
  lemma MoreHanded(c: Site, x: World, h: Handed)
    requires Sound(c, x)
    ensures Sound(c, x.(handed := x.handed + [h]))
  {
    hide NodeTrue, SentTrue, GivenTrue, SiteOk, NoticeTrue;
    var handed' := x.handed + [h];
    forall u: nat | u < |x.nodes|
      ensures NodeTrue(c, handed', u, x.nodes[u])
    {
      NodeStaysTrue(c, x.handed, h, u, x.nodes[u]);
    }
    forall i | 0 <= i < |x.sent|
      ensures SentTrue(c, handed', x.advised, x.sent[i].from, x.sent[i].what)
    {
      SentStaysTrue(c, x.handed, h, x.advised, x.sent[i].from, x.sent[i].what);
    }
    forall i | 0 <= i < |x.given|
      ensures GivenTrue(c, handed', x.given[i].node, x.given[i].delivery)
    {
      GivenStaysTrue(c, x.handed, h, x.given[i].node, x.given[i].delivery);
    }
  }

  lemma NodeStaysTrue(c: Site, handed: seq<Handed>, h: Handed, u: nat, m: State)
    requires u < |c.homes| && NodeTrue(c, handed, u, m)
    ensures NodeTrue(c, handed + [h], u, m)
  {
    forall k | 0 <= k < |m.waiting|
      ensures WaitTrue(c, handed + [h], u, m.waiting[k])
    {
      assert WaitTrue(c, handed, u, m.waiting[k]);
    }
  }

  lemma SentStaysTrue(c: Site, handed: seq<Handed>, h: Handed, advised: seq<Handed>, from: nat, s: Sent)
    requires SentTrue(c, handed, advised, from, s)
    ensures SentTrue(c, handed + [h], advised, from, s)
  {
  }

  lemma GivenStaysTrue(c: Site, handed: seq<Handed>, h: Handed, v: nat, d: Delivery)
    requires GivenTrue(c, handed, v, d)
    ensures GivenTrue(c, handed + [h], v, d)
  {
    var dest :| Local(c.t, v, dest) && Origin(c, handed, d.source, dest, d.msg);
    assert Origin(c, handed + [h], d.source, dest, d.msg);
  }

  lemma MoreAdvised(c: Site, x: World, h: Handed)
    requires Sound(c, x)
    ensures Sound(c, x.(advised := x.advised + [h]))
  {
    hide NodeTrue, SentTrue, GivenTrue, SiteOk, NoticeTrue;
    var advised' := x.advised + [h];
    forall i | 0 <= i < |x.sent|
      ensures SentTrue(c, x.handed, advised', x.sent[i].from, x.sent[i].what)
    {
      AdviceStaysTrue(c, x.handed, x.advised, h, x.sent[i].from, x.sent[i].what);
    }
    forall i | 0 <= i < |x.noted|
      ensures NoticeTrue(c, advised', x.noted[i].node, x.noted[i].notice)
    {
      NoticeStaysTrue(c, x.advised, h, x.noted[i].node, x.noted[i].notice);
    }
  }

  lemma AdviceStaysTrue(c: Site, handed: seq<Handed>, advised: seq<Handed>, h: Handed, from: nat, s: Sent)
    requires SentTrue(c, handed, advised, from, s)
    ensures SentTrue(c, handed, advised + [h], from, s)
  {
  }

  lemma NoticeStaysTrue(c: Site, advised: seq<Handed>, h: Handed, v: nat, n: Notice)
    requires NoticeTrue(c, advised, v, n)
    ensures NoticeTrue(c, advised + [h], v, n)
  {
  }

  // ----- every event keeps it -----

  /** What the frame on a link says of the link, seen from the end where it arrives. */
  lemma OtherEnd(c: Site, u: nat, s: nat, v: nat, j: nat)
    requires SiteOk(c) && Linked(c, u, s, v, j)
    ensures Linked(c, v, j, u, s) && u < c.t.n && v < c.t.n
    ensures var a, b := c.homes[v][j], c.homes[u][s];
      && a in c.t.owner && c.t.owner[a] == v && b in c.t.owner && c.t.owner[b] == u
      && Edge(c.t, v, b) && c.t.near[(v, b)] == a && Edge(c.t, u, a) && c.t.near[(u, a)] == b
  {
    assert c.homes[v][j] in c.homes[v] && c.homes[u][s] in c.homes[u];
    assert Local(c.t, v, c.homes[v][j]) && Local(c.t, u, c.homes[u][s]);
  }

  /** A control frame: its source becomes, or is, a true pair, and the answer names the interface it leaves over. */
  lemma HeardTrue(c: Site, handed: seq<Handed>, advised: seq<Handed>, u: nat, s: nat, v: nat, j: nat, m: State,
        f: Frame, answer: bool)
    requires SiteOk(c) && Linked(c, u, s, v, j) && v < |c.homes| && NodeTrue(c, handed, v, m) && SocksOk(m)
    requires f.source == c.homes[u][s] && f.mac == c.mac(f.source)
    ensures m.locals == c.homes[v] && EffectTrue(c, handed, advised, v, Heard(m, j, f, answer))
  {
    OtherEnd(c, u, s, v, j);
    var e := Heard(m, j, f, answer);
    var i := FindArp(m.arp, f.source);
    hide SiteOk, WaitTrue;
    forall k | 0 <= k < |e.m.arp|
      ensures PairTrue(c, v, e.m.arp[k])
    {
      if k < |m.arp| {
        assert PairTrue(c, v, m.arp[k]);
      }
    }
    assert PairTrue(c, v, e.m.arp[i]);
  }

  lemma WireTrue(c: Site, x: World, i: nat, v: nat, j: nat)
    requires Sound(c, x) && Enabled(c, x, Arrive(i, v, j))
    ensures v < |c.homes| && SocksOk(x.nodes[v]) && x.sent[i].from < |c.homes|
    ensures x.sent[i].what.sock < |c.homes[x.sent[i].from]| && j < |x.nodes[v].locals|
    ensures var f := Received(c, x.sent[i]);
      KnownTra(f.tra) && EffectTrue(c, x.handed, x.advised, v, OnWire(x.nodes[v], j, f))
  {
    SocksTrue(c, x, v);
    var l, m := x.sent[i], x.nodes[v];
    assert SentTrue(c, x.handed, x.advised, l.from, l.what);
    var f := Received(c, l);
    if f.tra == TRA_A || f.tra == TRA_ZERO {
      HeardTrue(c, x.handed, x.advised, l.from, l.what.sock, v, j, m, f, f.tra == TRA_A);
    } else if f.tra == TRA_R {
      ReportTrue(c, x.handed, x.advised, l, v, j);
    } else {
      TransitTrue(c, x.handed, x.advised, v, m, f);
    }
    hide Sound, NodeTrue, SentTrue, Heard, Transit, EffectTrue;
  }

  /** An advertisement reaches only the end it was asked for, and is reported under its sender's end. */
  lemma ReportTrue(c: Site, handed: seq<Handed>, advised: seq<Handed>, l: OnLink, v: nat, j: nat)
    requires SiteOk(c) && SentTrue(c, handed, advised, l.from, l.what) && Arrives(c, l, v, j)
    requires l.what.frame.tra == TRA_R
    ensures l.what.frame.dest == c.homes[v][j]
    ensures NoticeTrue(c, advised, v, Advertisement(l.what.frame.source, l.what.frame.msg))
  {
    OtherEnd(c, l.from, l.what.sock, v, j);
  }

  lemma TransitTrue(c: Site, handed: seq<Handed>, advised: seq<Handed>, v: nat, m: State, f: Frame)
    requires SiteOk(c) && v < |c.homes| && NodeTrue(c, handed, v, m)
    requires f.tra == TRA_T && Origin(c, handed, f.source, f.dest, f.msg)
    ensures EffectTrue(c, handed, advised, v, Transit(m, f))
  {
    if f.dest in m.locals {
      assert Local(c.t, v, f.dest);
    }
  }

  lemma TimerTrue(c: Site, handed: seq<Handed>, advised: seq<Handed>, v: nat, m: State)
    requires v < |c.homes| && NodeTrue(c, handed, v, m)
    ensures EffectTrue(c, handed, advised, v, OnTimer(m))
  {
    KeptTrue(c, v, m.arp);
    LostTrue(c, advised, v, m.arp);
    hide Kept, Lost, PairTrue, WaitTrue;
  }

  lemma {:induction false} KeptTrue(c: Site, v: nat, arp: seq<ArpPair>)
    requires v < |c.homes| && ArpTrue(c, v, arp)
    ensures ArpTrue(c, v, Kept(arp))
  {
    if arp != [] {
      assert PairTrue(c, v, arp[0]);
      assert forall k :: 0 <= k < |arp[1..]| ==> arp[1..][k] == arp[k + 1];
      KeptTrue(c, v, arp[1..]);
    }
  }

  lemma {:induction false} LostTrue(c: Site, advised: seq<Handed>, v: nat, arp: seq<ArpPair>)
    requires v < |c.homes| && ArpTrue(c, v, arp)
    ensures forall i :: 0 <= i < |Lost(arp)| ==> NoticeTrue(c, advised, v, Lost(arp)[i])
  {
    if arp != [] {
      assert PairTrue(c, v, arp[0]);
      assert forall k :: 0 <= k < |arp[1..]| ==> arp[1..][k] == arp[k + 1];
      LostTrue(c, advised, v, arp[1..]);
    }
  }

  lemma TransportTrue(c: Site, handed: seq<Handed>, advised: seq<Handed>, v: nat, m: State,
        dest: Address, msg: seq<byte>)
    requires SiteOk(c) && v < |c.homes| && NodeTrue(c, handed, v, m) && Handed(v, dest, msg) in handed
    ensures EffectTrue(c, handed, advised, v, OnTransport(m, dest, msg))
  {
    if dest in m.locals {
      assert Local(c.t, v, dest) && Origin(c, handed, dest, dest, msg);
    }
  }

  lemma AnswerTrue(c: Site, handed: seq<Handed>, advised: seq<Handed>, v: nat, m: State, via: Option<Address>)
    requires SiteOk(c) && v < |c.homes| && NodeTrue(c, handed, v, m) && SocksOk(m) && m.waiting != []
    ensures EffectTrue(c, handed, advised, v, OnLookup(m, via))
  {
    assert WaitTrue(c, handed, v, m.waiting[0]);
    var e := OnLookup(m, via);
    if e.wire != [] {
      var p := m.arp[FindArp(m.arp, via.value)];
      assert PairTrue(c, v, p);
      assert Local(c.t, v, c.homes[v][p.sock]);
    }
  }

  lemma AdviseTrue(c: Site, handed: seq<Handed>, advised: seq<Handed>, v: nat, m: State, dest: Address, msg: seq<byte>)
    requires SiteOk(c) && v < |c.homes| && NodeTrue(c, handed, v, m) && SocksOk(m) && Handed(v, dest, msg) in advised
    ensures EffectTrue(c, handed, advised, v, OnUpdate(m, dest, msg))
  {
    var i := FindArp(m.arp, dest);
    if i < |m.arp| {
      assert PairTrue(c, v, m.arp[i]);
    }
  }

  /** Every event, in any order and with any answers, keeps all of it true. */
  lemma StepSound(c: Site, x: World, e: Event)
    requires Sound(c, x) && Enabled(c, x, e)
    ensures Sound(c, Next(c, x, e))
  {
    hide NodesTrue, AllSentTrue, AllGivenTrue, AllNotedTrue, EffectTrue, NodeTrue;
    SocksTrue(c, x, e.v);
    var m := x.nodes[e.v];
    match e
    case Arrive(i, v, j) =>
      WireTrue(c, x, i, v, j);
      ApplySound(c, x, v, OnWire(m, j, Received(c, x.sent[i])));
    case Tick(v) =>
      TimerTrue(c, x.handed, x.advised, v, m);
      ApplySound(c, x, v, OnTimer(m));
    case FromTransport(v, dest, msg) =>
      MoreHanded(c, x, Handed(v, dest, msg));
      var x' := x.(handed := x.handed + [Handed(v, dest, msg)]);
      SocksTrue(c, x', v);
      TransportTrue(c, x'.handed, x.advised, v, m, dest, msg);
      ApplySound(c, x', v, OnTransport(m, dest, msg));
    case Answer(v, via) =>
      AnswerTrue(c, x.handed, x.advised, v, m, via);
      ApplySound(c, x, v, OnLookup(m, via));
    case Advise(v, dest, msg) =>
      MoreAdvised(c, x, Handed(v, dest, msg));
      var x' := x.(advised := x.advised + [Handed(v, dest, msg)]);
      AdviseTrue(c, x.handed, x'.advised, v, m, dest, msg);
      ApplySound(c, x', v, OnUpdate(m, dest, msg));
  }

  // ----- every run -----

  ghost predicate Start(c: Site, x: World) {
    && SiteOk(c) && |x.nodes| == |c.homes|
    && (forall u: nat :: u < |x.nodes| ==> x.nodes[u] == State(c.homes[u], [], []))
    && x.sent == [] && x.handed == [] && x.given == [] && x.advised == [] && x.noted == []
  }

  lemma StartSound(c: Site, x: World)
    requires Start(c, x)
    ensures Sound(c, x)
  {
  }

  ghost function Run(c: Site, x: World, es: seq<Event>): (x': World)
    requires Sound(c, x)
    ensures Sound(c, x')
    decreases |es|
  {
    if es == [] || !Enabled(c, x, es[0]) then x
    else
      StepSound(c, x, es[0]);
      Run(c, Next(c, x, es[0]), es[1..])
  }

  /** In every reachable state every ARP entry names a real neighbour, the interface to it and its link address. */
  lemma AddressesAreTrue(c: Site, x: World, es: seq<Event>, u: nat, k: nat)
    requires Start(c, x)
    ensures Sound(c, x)
    ensures var m := Run(c, x, es).nodes;
      u < |m| && k < |m[u].arp| ==> u < |c.homes| && PairTrue(c, u, m[u].arp[k])
  {
    StartSound(c, x);
    var y := Run(c, x, es);
    hide AllSentTrue, AllGivenTrue, AllNotedTrue, PairTrue, SiteOk;
    if u < |y.nodes| {
      assert NodeTrue(c, y.handed, u, y.nodes[u]);
    }
  }

  /**
   * Nothing is forged or misattributed: whatever a transport daemon is ever given was handed down, byte for byte,
   * at the node that owns the source address it is given with, for an address of the node that is given it.
   */
  lemma DeliveriesAreTrue(c: Site, x: World, es: seq<Event>, g: Given)
    requires Start(c, x)
    ensures Sound(c, x)
    ensures var y := Run(c, x, es); g in y.given ==> GivenTrue(c, y.handed, g.node, g.delivery)
  {
    StartSound(c, x);
    hide NodesTrue, AllSentTrue, AllNotedTrue, GivenTrue, SiteOk;
  }

  /**
   * What a routing daemon is ever told of advertisements: each comes from a neighbour, under the address that
   * neighbour has on the link, and is what that neighbour's routing daemon had packed for this end of it.
   */
  lemma AdvertsAreTrue(c: Site, x: World, es: seq<Event>, n: Noted)
    requires Start(c, x)
    ensures Sound(c, x)
    ensures var y := Run(c, x, es); n in y.noted ==> NoticeTrue(c, y.advised, n.node, n.notice)
  {
    StartSound(c, x);
    hide NodesTrue, AllSentTrue, AllGivenTrue, NoticeTrue, SiteOk;
  }

  // ----- who is reached -----

  /** A frame sent to a true pair reaches that neighbour's end of the link and no other interface. */
  lemma UnicastReaches(c: Site, u: nat, p: ArpPair, f: Frame, w: nat, j: nat)
    requires SiteOk(c) && u < |c.homes| && PairTrue(c, u, p)
    ensures Arrives(c, OnLink(u, Sent(p.sock, p.mac, f)), w, j) <==>
            p.mip in c.t.owner && w == c.t.owner[p.mip] && w < |c.homes| && j < |c.homes[w]| && c.homes[w][j] == p.mip
  {
    if w < |c.homes| && j < |c.homes[w]| && c.homes[w][j] == p.mip {
      assert c.homes[w][j] in c.homes[w];
    }
    if Arrives(c, OnLink(u, Sent(p.sock, p.mac, f)), w, j) {
      OtherEnd(c, u, p.sock, w, j);
    }
  }

  /** The node lists this address and has heard it since the last sweep. */
  ghost predicate Lists(m: State, mip: Address) {
    exists k :: 0 <= k < |m.arp| && m.arp[k].mip == mip && m.arp[k].reply
  }

  lemma HeardLists(m: State, j: nat, f: Frame, answer: bool)
    requires SocksOk(m) && j < |m.locals|
    ensures var e := Heard(m, j, f, answer);
      && Lists(e.m, f.source)
      && (forall mip :: Lists(m, mip) ==> Lists(e.m, mip))
      && (answer ==> exists k :: 0 <= k < |e.m.arp| && e.m.arp[k].mip == f.source && e.m.arp[k].sock < |m.locals|
                       && e.wire == [Response(m, e.m.arp[k])])
  {
    var e, i := Heard(m, j, f, answer), FindArp(m.arp, f.source);
    assert e.m.arp[i].mip == f.source && e.m.arp[i].reply;
    forall mip | Lists(m, mip)
      ensures Lists(e.m, mip)
    {
      var k :| 0 <= k < |m.arp| && m.arp[k].mip == mip && m.arp[k].reply;
      assert e.m.arp[k].mip == mip && e.m.arp[k].reply;
    }
  }

  /** The broadcast of interface s goes out on it, from its address, to everyone. */
  lemma TickBroadcasts(c: Site, x: World, u: nat, s: nat)
    requires Sound(c, x) && u < |x.nodes| && u < |c.homes| && s < |c.homes[u]|
    ensures var x1, i := Next(c, x, Tick(u)), |x.sent| + s;
      && i < |x1.sent| && |x1.nodes| == |x.nodes| && x1.sent[i].from == u && x1.sent[i].what.sock == s
      && x1.sent[i].what.to == EVERYONE && x1.sent[i].what.frame.tra == TRA_A
      && x1.sent[i].what.frame.source == c.homes[u][s]
  {
    SocksTrue(c, x, u);
    hide Sound, Kept, Lost;
  }

  /** Hearing a broadcast, a node lists its sender and answers it over the same link. */
  lemma BroadcastAnswered(c: Site, x: World, i: nat, v: nat, j: nat)
    requires Sound(c, x) && Enabled(c, x, Arrive(i, v, j)) && x.sent[i].what.frame.tra == TRA_A
    ensures x.sent[i].from < |c.homes| && x.sent[i].what.sock < |c.homes[x.sent[i].from]|
    ensures var x1, i1 := Next(c, x, Arrive(i, v, j)), |x.sent|;
      && |x1.nodes| == |x.nodes| && Lists(x1.nodes[v], c.homes[x.sent[i].from][x.sent[i].what.sock])
      && i1 < |x1.sent| && Arrives(c, x1.sent[i1], x.sent[i].from, x.sent[i].what.sock)
      && x1.sent[i1].what.frame.tra == TRA_ZERO
      && x1.sent[i1].what.sock < |c.homes[v]| && c.homes[v][x1.sent[i1].what.sock] == c.homes[v][j]
  {
    SocksTrue(c, x, v);
    var l, m := x.sent[i], x.nodes[v];
    assert SentTrue(c, x.handed, x.advised, l.from, l.what);
    var f := Received(c, l);
    OtherEnd(c, l.from, l.what.sock, v, j);
    HeardLists(m, j, f, true);
    HeardTrue(c, x.handed, x.advised, l.from, l.what.sock, v, j, m, f, true);
    var e := Heard(m, j, f, true);
    var k :| 0 <= k < |e.m.arp| && e.m.arp[k].mip == f.source && e.m.arp[k].sock < |m.locals|
      && e.wire == [Response(m, e.m.arp[k])];
    assert PairTrue(c, v, e.m.arp[k]);
    UnicastReaches(c, v, e.m.arp[k], e.wire[0].frame, l.from, l.what.sock);
    hide Sound, NodeTrue, Lists, Heard, PairTrue, Arrives;
  }

  lemma AnswerHeard(c: Site, x: World, i: nat, v: nat, j: nat)
    requires Sound(c, x) && Enabled(c, x, Arrive(i, v, j)) && x.sent[i].what.frame.tra == TRA_ZERO
    ensures x.sent[i].from < |c.homes| && x.sent[i].what.sock < |c.homes[x.sent[i].from]|
    ensures var x1 := Next(c, x, Arrive(i, v, j));
      && |x1.nodes| == |x.nodes| && Lists(x1.nodes[v], c.homes[x.sent[i].from][x.sent[i].what.sock])
      && forall w: nat :: w < |x.nodes| && w != v ==> x1.nodes[w] == x.nodes[w]
  {
    SocksTrue(c, x, v);
    var l := x.sent[i];
    assert SentTrue(c, x.handed, x.advised, l.from, l.what);
    HeardLists(x.nodes[v], j, Received(c, l), false);
    hide Sound, NodeTrue, Lists, Heard;
  }

  /**
   * Neighbour discovery: one tick at u, the arrival of its broadcast at the other end of a link and the arrival
   * of the answer make both ends list each other; by AddressesAreTrue on the right interfaces.
   */
  lemma HelloExchange(c: Site, x: World, u: nat, s: nat, v: nat, j: nat)
    requires Sound(c, x) && Linked(c, u, s, v, j) && u < |x.nodes| && v < |x.nodes|
    ensures var x1, i := Next(c, x, Tick(u)), |x.sent| + s;
      && Sound(c, x1) && Enabled(c, x1, Arrive(i, v, j))
      && var x2, i' := Next(c, x1, Arrive(i, v, j)), |x1.sent|;
         && Sound(c, x2) && Enabled(c, x2, Arrive(i', u, s))
         && var x3 := Next(c, x2, Arrive(i', u, s));
            && Sound(c, x3) && u < |x3.nodes| && v < |x3.nodes|
            && Lists(x3.nodes[v], c.homes[u][s]) && Lists(x3.nodes[u], c.homes[v][j])
  {
    OtherEnds(c, x, u, s, v, j);
    hide Sound, SiteOk, Lists, Next, Linked;
    TickBroadcasts(c, x, u, s);
    StepSound(c, x, Tick(u));
    var x1, i := Next(c, x, Tick(u)), |x.sent| + s;
    BroadcastAnswered(c, x1, i, v, j);
    StepSound(c, x1, Arrive(i, v, j));
    var x2, i' := Next(c, x1, Arrive(i, v, j)), |x1.sent|;
    AnswerHeard(c, x2, i', u, s);
    StepSound(c, x2, Arrive(i', u, s));
  }

  lemma OtherEnds(c: Site, x: World, u: nat, s: nat, v: nat, j: nat)
    requires Sound(c, x) && Linked(c, u, s, v, j)
    ensures u != v && u < |c.homes| && s < |c.homes[u]| && v < |c.homes| && j < |c.homes[v]|
  {
    OtherEnd(c, u, s, v, j);
  }
}
