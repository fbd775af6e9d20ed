/** Ports and demultiplexing among the handlers of one transport daemon. */
module Ports {
  import opened Wire
  import H = Handler

  function PortsOf(hs: seq<H.State>): (p: seq<Port>)
    ensures |p| == |hs|
    ensures forall i :: 0 <= i < |hs| ==> p[i] == hs[i].srcPort
  {
    seq(|hs|, i requires 0 <= i < |hs| => hs[i].srcPort)
  }

  /** No two live handlers hold the same port; 0 means none yet. */
  ghost predicate DistinctPorts(hs: seq<H.State>) {
    forall i, j :: 0 <= i < j < |hs| && hs[i].srcPort != 0 ==> hs[i].srcPort != hs[j].srcPort
  }

  /** Where the handler a frame is for stands: the first one holding the destination port. */
  function Holder(hs: seq<H.State>, port: Port): (i: nat)
    ensures i <= |hs|
    ensures forall j :: 0 <= j < i ==> hs[j].srcPort != port
    ensures i < |hs| ==> hs[i].srcPort == port
  {
    if hs == [] || hs[0].srcPort == port then 0 else 1 + Holder(hs[1..], port)
  }

  /** A handler that failed is erased, any other stays in its place. */
  function Settle(hs: seq<H.State>, i: nat, h: H.State): seq<H.State>
    requires i < |hs|
  {
    if h.stage == H.Failure then hs[..i] + hs[i + 1..] else hs[i := h]
  }

  lemma SettleAfter(hs: seq<H.State>, i: nat, h: H.State)
    requires i < |hs|
    ensures Settle(hs[i := h], i, h) == Settle(hs, i, h)
  {
  }

  datatype Step =
    | Accept                                             // an application connects
    | Sock(i: nat, io: H.Io)                             // handler i's socket
    | Timer(i: nat, io: H.Io)                            // handler i's timer
    | Receive(source: Address, seg: Segment, io: H.Io)   // a frame from the MIP daemon

  predicate Enabled(hs: seq<H.State>, s: Step) {
    match s
    case Sock(i, _) => i < |hs|
    case Timer(i, _) => i < |hs|
    case _ => true
  }

  function EffectOf(hs: seq<H.State>, s: Step): H.Effect
    requires Enabled(hs, s) && !s.Accept? && (s.Receive? ==> Holder(hs, s.seg.dest) < |hs|)
  {
    match s
    case Sock(i, io) => H.HandleSock(hs[i], io, PortsOf(hs))
    case Timer(i, io) => H.HandleTimer(hs[i], io, PortsOf(hs))
    case Receive(source, seg, io) => H.ReceiveFrame(hs[Holder(hs, seg.dest)], source, seg, io)
  }

  function Next(hs: seq<H.State>, s: Step): seq<H.State>
    requires Enabled(hs, s)
  {
    match s
    case Accept => hs + [H.NewState()]
    case Sock(i, _) => Settle(hs, i, EffectOf(hs, s).h)
    case Timer(i, _) => Settle(hs, i, EffectOf(hs, s).h)
    case Receive(_, seg, _) =>
      var i := Holder(hs, seg.dest);
      if i < |hs| then Settle(hs, i, EffectOf(hs, s).h) else hs
  }

  // ----- the free port -----

  /** The port handed out is the least one from `from` on that nobody holds; 0 says they are all taken. */
  lemma {:induction false} FreePortIsLeast(ports: seq<Port>, from: Port)
    ensures var p := H.FreePort(ports, from);
      && (p != 0 && 0 < from ==> from <= p < 0x3fff && p !in ports && forall q: Port :: from <= q < p ==> q in ports)
      && (p == 0 && 0 < from ==> forall q: Port :: from <= q < 0x3fff ==> q in ports)
    decreases 0x3fff - from
  {
    if from < 0x3fff && from in ports {
      FreePortIsLeast(ports, from + 1);
    }
  }

  lemma FreePortStep(ports: seq<Port>, from: Port)
    ensures from >= 0x3fff ==> H.FreePort(ports, from) == 0
    ensures from < 0x3fff ==> H.FreePort(ports, from) == if from !in ports then from else H.FreePort(ports, from + 1)
  {
  }

  /** Pigeonhole: a sequence that contains every number of a range is at least as long as the range. */
  lemma {:induction false} Pigeonhole(s: seq<Port>, lo: nat, hi: nat)
    requires lo <= hi <= 0x1_0000 && forall q: Port :: lo <= q < hi ==> q in s
    ensures |s| >= hi - lo
    decreases hi
  {
    if lo < hi {
      var q: Port := hi - 1;
      assert q in s;
      var i :| 0 <= i < |s| && s[i] == q;
      var rest := s[..i] + s[i + 1..];
      forall p: Port | lo <= p < hi - 1
        ensures p in rest
      {
        assert p in s;
        var j :| 0 <= j < |s| && s[j] == p;
        assert rest[if j < i then j else j - 1] == p;
      }
      Pigeonhole(rest, lo, hi - 1);
    }
  }

  /** The ports that are really held: 0 is what a handler has before it gets one. */
  function NonZero(ports: seq<Port>): seq<Port> {
    if ports == [] then [] else (if ports[0] == 0 then [] else [ports[0]]) + NonZero(ports[1..])
  }

  lemma {:induction false} NonZeroKeeps(ports: seq<Port>, q: Port)
    requires q in ports && q != 0
    ensures q in NonZero(ports)
    decreases |ports|
  {
    if ports[0] != q {
      NonZeroKeeps(ports[1..], q);
    }
  }

  /** getFreePort cannot fail while fewer than 16382 handlers hold ports, however many hold none. */
  lemma FreePortExists(ports: seq<Port>)
    requires |NonZero(ports)| < 0x3ffe
    ensures 1 <= H.FreePort(ports, 1) < 0x3fff && H.FreePort(ports, 1) !in ports
  {
    hide H.FreePort, NonZero;
    FreePortIsLeast(ports, 1);
    if H.FreePort(ports, 1) == 0 {
      forall q: Port | 1 <= q < 0x3fff
        ensures q in NonZero(ports)
      {
        NonZeroKeeps(ports, q);
      }
      Pigeonhole(NonZero(ports), 1, 0x3fff);
    }
  }

  // ----- distinctness over all runs -----

  /** An event keeps a handler's port, or gives a handler without one a port nobody holds. */
  lemma PortAfterRequest(h: H.State, io: H.Io, ports: seq<Port>)
    requires h.srcPort in ports
    ensures var p := H.HandleRequest(h, io.asks, ports).h.srcPort;
      p == h.srcPort || (h.srcPort == 0 && (p == 0 || p !in ports))
  {
    FreePortIsLeast(ports, 1);
    if h.role == H.Unset && io.asks != [] && io.asks[0].Value? {
      PortAfterKnownRole(h.(role := H.Server), io.asks[1..], ports);
      PortAfterKnownRole(h.(role := H.Client), io.asks[1..], ports);
    } else if h.role != H.Unset {
      PortAfterKnownRole(h, io.asks, ports);
    }
  }

  lemma PortAfterKnownRole(h: H.State, asks: seq<H.Ask>, ports: seq<Port>)
    requires h.srcPort in ports && h.role != H.Unset
    ensures var p := H.HandleKnownRole(h, asks, ports).h.srcPort;
      p == h.srcPort || (h.srcPort == 0 && (p == 0 || p !in ports))
  {
    FreePortIsLeast(ports, 1);
    assert H.AskDestination(h, asks).0.srcPort == h.srcPort;
  }

  lemma PortAfterSock(h: H.State, io: H.Io, ports: seq<Port>)
    requires h.srcPort in ports
    ensures var p := H.HandleSock(h, io, ports).h.srcPort;
      p == h.srcPort || (h.srcPort == 0 && (p == 0 || p !in ports))
    ensures h.stage == H.Connected ==> H.HandleSock(h, io, ports).h.srcPort == h.srcPort
  {
    PortAfterRequest(h, io, ports);
    H.LoadKeepsRest(h, io.input);
  }

  lemma PortAfterTimer(h: H.State, io: H.Io, ports: seq<Port>)
    requires h.srcPort in ports
    ensures H.HandleTimer(h, io, ports).h.srcPort == h.srcPort
  {
    if h.stage == H.Connected {
      PortAfterSock(h, io, ports);
    }
  }

  lemma SettleKeepsDistinct(hs: seq<H.State>, i: nat, h: H.State)
    requires DistinctPorts(hs) && i < |hs|
    requires h.srcPort == hs[i].srcPort || (hs[i].srcPort == 0 && (h.srcPort == 0 || h.srcPort !in PortsOf(hs)))
    ensures DistinctPorts(Settle(hs, i, h))
  {
  }

  lemma StepKeepsDistinct(hs: seq<H.State>, s: Step)
    requires DistinctPorts(hs) && Enabled(hs, s)
    ensures DistinctPorts(Next(hs, s))
  {
    match s
    case Accept =>
    case Sock(i, io) =>
      assert PortsOf(hs)[i] == hs[i].srcPort;
      PortAfterSock(hs[i], io, PortsOf(hs));
      SettleKeepsDistinct(hs, i, EffectOf(hs, s).h);
    case Timer(i, io) =>
      assert PortsOf(hs)[i] == hs[i].srcPort;
      PortAfterTimer(hs[i], io, PortsOf(hs));
      SettleKeepsDistinct(hs, i, EffectOf(hs, s).h);
    case Receive(_, seg, _) =>
      var i := Holder(hs, seg.dest);
      if i < |hs| {
        SettleKeepsDistinct(hs, i, EffectOf(hs, s).h);
      }
  }

  function Run(hs: seq<H.State>, steps: seq<Step>): seq<H.State>
    decreases |steps|
  {
    if steps == [] || !Enabled(hs, steps[0]) then hs else Run(Next(hs, steps[0]), steps[1..])
  }

  lemma {:induction false} RunKeepsDistinct(hs: seq<H.State>, steps: seq<Step>)
    requires DistinctPorts(hs)
    ensures DistinctPorts(Run(hs, steps))
    decreases |steps|
  {
    if steps != [] && Enabled(hs, steps[0]) {
      StepKeepsDistinct(hs, steps[0]);
      RunKeepsDistinct(Next(hs, steps[0]), steps[1..]);
    }
  }

  /**
   * Over every run no port is ever held twice, so a frame for a port in use reaches its only holder.
   */
  lemma OneHolderPerPort(steps: seq<Step>, i: nat)
    requires i < |Run([], steps)| && Run([], steps)[i].srcPort != 0
    ensures DistinctPorts(Run([], steps)) && Holder(Run([], steps), Run([], steps)[i].srcPort) == i
  {
    RunKeepsDistinct([], steps);
  }

  /** A new handler asks to listen on a port: it gets any 16-bit port nobody holds, and is erased otherwise. */
  lemma ListenRequest(hs: seq<H.State>, i: nat, io: H.Io, port: Port)
    requires i < |hs| && hs[i] == H.NewState() && |io.asks| >= 2
    requires io.asks[0] == H.Value(H.REQUEST_LISTEN) && io.asks[1] == H.Value(port)
    ensures Next(hs, Sock(i, io)) ==
            if port in PortsOf(hs) then hs[..i] + hs[i + 1..]
            else hs[i := H.NewState().(role := H.Server, stage := H.Listen, srcPort := port)]
  {
  }

  /** A request to listen on port 0 is refused: the requester itself still holds 0. */
  lemma ListenOnZeroRefused(hs: seq<H.State>, i: nat, io: H.Io)
    requires i < |hs| && hs[i] == H.NewState() && |io.asks| >= 2
    requires io.asks[0] == H.Value(H.REQUEST_LISTEN) && io.asks[1] == H.Value(0)
    ensures Next(hs, Sock(i, io)) == hs[..i] + hs[i + 1..]
  {
    assert PortsOf(hs)[i] == 0;
    ListenRequest(hs, i, io, 0);
  }

  /** The least port below 16383 that nobody holds. */
  ghost predicate LeastFree(ports: seq<Port>, p: Port) {
    1 <= p < 0x3fff && p !in ports && forall q: Port :: 1 <= q < p ==> q in ports
  }

  /** A client that waits for the reply to its request. */
  function Requesting(address: Address, port: Port, source: Port): H.State {
    H.NewState().(role := H.Client, stage := H.WaitReply, destAddr := address, destPort := port, srcPort := source)
  }

  /**
   * A new handler asks to connect: it gets the least free port and waits, and exactly one request is queued, to
   * the address and port asked for; with no port left it is told so and erased.
   */
  lemma ConnectRequest(hs: seq<H.State>, i: nat, io: H.Io, address: Port, port: Port)
    requires i < |hs| && hs[i] == H.NewState() && |io.asks| >= 3
    requires io.asks[..3] == [H.Value(H.REQUEST_CONNECT), H.Value(address), H.Value(port)]
    ensures var s, to := Sock(i, io), address % 0x100;
      var e, p := EffectOf(hs, s), H.FreePort(PortsOf(hs), 1);
      && (p != 0 ==>
            && LeastFree(PortsOf(hs), p) && Next(hs, s) == hs[i := Requesting(to, port, p)]
            && e.out == [Packet(to, Segment(Request, port % PORT_SPACE, p, 0, []))] && e.replies == [])
      && (p == 0 ==> Next(hs, s) == hs[..i] + hs[i + 1..] && e.out == [] && e.replies == [H.REPLY_USEDPORT])
  {
    hide H.HandleRequest, PortsOf, H.FreePort, LeastFree, Holder;
    FreePortLeast(PortsOf(hs));
    Connects(io.asks, PortsOf(hs), address, port);
  }

  lemma FreePortLeast(ports: seq<Port>)
    ensures H.FreePort(ports, 1) != 0 ==> LeastFree(ports, H.FreePort(ports, 1))
  {
    FreePortIsLeast(ports, 1);
  }

  lemma Connects(asks: seq<H.Ask>, ports: seq<Port>, address: Port, port: Port)
    requires |asks| >= 3
    requires asks[..3] == [H.Value(H.REQUEST_CONNECT), H.Value(address), H.Value(port)]
    ensures var e, p, to := H.HandleRequest(H.NewState(), asks, ports), H.FreePort(ports, 1), address % 0x100;
      && (p != 0 ==> e.h == Requesting(to, port, p) && e.replies == [] && e.out == [H.Control(e.h, Request)])
      && (p == 0 ==> e.h.stage == H.Failure && e.out == [] && e.replies == [H.REPLY_USEDPORT])
  {
    hide H.FreePort;
    assert asks[0] == asks[..3][0] && asks[1] == asks[..3][1] && asks[2] == asks[..3][2];
  }

  /** The frame with these header fields finds handler i. */
  ghost predicate Finds(hs: seq<H.State>, i: nat, kind: Kind, dest: Port, source: Port, seqNum: nat, msg: seq<byte>) {
    Holder(hs, MakeSegment(kind, dest, source, seqNum, msg).dest) == i
  }

  /**
   * Some frame a handler can build reaches the holder of a port if and only if the port is below 16384, the
   * 14 bits a header has for it. A listener above that, which ListenRequest accepts, never hears anything.
   */
  lemma HearsOnlyBelow(hs: seq<H.State>, i: nat)
    requires DistinctPorts(hs) && i < |hs| && hs[i].srcPort != 0
    ensures (exists kind, dest, source, seqNum, msg :: Finds(hs, i, kind, dest, source, seqNum, msg)) <==>
            hs[i].srcPort < PORT_SPACE
  {
    var port := hs[i].srcPort;
    if port < PORT_SPACE {
      assert Holder(hs, port) == i;
      assert Finds(hs, i, Request, port, 0, 0, []);
    }
  }
}

/** The transport daemon object: its handlers and their common output queue. */
module TransportDaemon {
  import opened Wire
  import opened MIPTP
  import opened ClientHandlers
  import opened Ports
  import H = Handler

  class Daemon {
    var clients: seq<ClientHandler>
    const outQueue: OutQueue
    var sent: seq<Packet>   // what the MIP daemon has been given

    ghost predicate Valid()
      reads this, clients, set c | c in clients :: c.slots, set c, f | c in clients && f in c.frames :: f
    {
      && (forall i :: 0 <= i < |clients| ==> clients[i].Valid() && clients[i].outQueue == outQueue)
      && (forall i, j :: 0 <= i < j < |clients| ==> Apart(clients[i], clients[j]))
    }

    /** Two handlers share nothing but the output queue. */
    static ghost predicate Apart(c: ClientHandler, d: ClientHandler)
      reads c, d
    {
      c != d && c.slots != d.slots && c.frames !! d.frames
    }

    ghost function Abs(): (hs: seq<H.State>)
      requires Valid()
      reads this, clients, set c | c in clients :: c.slots, set c, f | c in clients && f in c.frames :: f
      ensures |hs| == |clients|
      ensures forall i :: 0 <= i < |hs| ==> hs[i] == clients[i].Abs()
    {
      seq(|clients|, i requires 0 <= i < |clients| && Valid()
        reads this, clients, set c | c in clients :: c.slots, set c, f | c in clients && f in c.frames :: f
        => clients[i].Abs())
    }

    constructor ()
      ensures Valid() && clients == [] && sent == [] && outQueue.items == []
    {
      clients, sent := [], [];
      outQueue := new OutQueue();
    }

    method IsPortFree(port: Port) returns (free: bool)
      requires Valid()
      ensures free <==> port !in PortsOf(Abs())
    {
      hide Parse, WellFormed;
      var i := 0;
      while i < |clients| && clients[i].srcPort != port
        invariant i <= |clients| && forall j :: 0 <= j < i ==> clients[j].srcPort != port
      {
        i := i + 1;
      }
      free := i == |clients|;
      ghost var ports := PortsOf(Abs());
      assert forall j :: 0 <= j < |clients| ==> ports[j] == clients[j].srcPort;
      if !free {
        assert ports[i] == port;
      }
    }

    method GetFreePort() returns (port: Port)
      requires Valid()
      ensures port == H.FreePort(PortsOf(Abs()), 1)
    {
      hide Parse, WellFormed;
      hide H.FreePort;
      ghost var ports := PortsOf(Abs());
      port := 1;
      while port < 0x3fff
        invariant 1 <= port <= 0x3fff && H.FreePort(ports, port) == H.FreePort(ports, 1)
      {
        FreePortStep(ports, port);
        var free := IsPortFree(port);
        if free {
          return port;
        }
        port := port + 1;
      }
      FreePortStep(ports, port);
      return 0;
    }

    method Accept()
      requires Valid()
      modifies this`clients
      ensures Valid() && Abs() == Next(old(Abs()), Ports.Accept)
    {
      hide Parse, WellFormed;
      var c := new ClientHandler(outQueue);
      clients := clients + [c];
    }

    /** Offer queued frames to the MIP daemon until its socket would block, after `room` of them. */
    method SendTransportSock(room: nat)
      modifies this`sent, outQueue
      ensures var n := if room < |old(outQueue.items)| then room else |old(outQueue.items)|;
        sent == old(sent) + old(outQueue.items)[..n] && outQueue.items == old(outQueue.items)[n..]
    {
      var k := 0;
      while |outQueue.items| > 0
        invariant k <= room && k <= |old(outQueue.items)|
        invariant sent == old(sent) + old(outQueue.items)[..k] && outQueue.items == old(outQueue.items)[k..]
        decreases |outQueue.items|
      {
        if k == room {
          return;
        }
        sent := sent + [outQueue.items[0]];
        outQueue.items := outQueue.items[1..];
        k := k + 1;
      }
    }

    /** A handler that failed is erased from the vector. */
    method EraseFailed(i: nat)
      requires Valid() && i < |clients|
      modifies this`clients
      ensures Valid() && Abs() == Settle(old(Abs()), i, old(Abs())[i])
    {
      hide Parse, WellFormed;
      ghost var hs, was := Abs(), clients;
      if clients[i].stage == H.Failure {
        clients := clients[..i] + clients[i + 1..];
        assert forall j :: 0 <= j < |clients| ==> clients[j] == was[if j < i then j else j + 1];
        assert Valid();
        assert Abs() == hs[..i] + hs[i + 1..];
      } else {
        assert hs == hs[i := hs[i]];
      }
    }

    method PortList() returns (ports: seq<Port>)
      requires Valid()
      ensures ports == PortsOf(Abs())
    {
      hide Parse, WellFormed;
      ports := [];
      for i := 0 to |clients|
        invariant |ports| == i && forall j :: 0 <= j < i ==> ports[j] == clients[j].srcPort
      {
        ports := ports + [clients[i].srcPort];
      }
      assert ports == PortsOf(Abs());
    }

    twostate lemma StaysSame(c: ClientHandler)
      requires old(c.Valid()) && unchanged(c) && unchanged(c.slots) && forall f :: f in c.frames ==> unchanged(f)
      ensures c.Valid() && c.Abs() == old(c.Abs())
    {
      hide Parse, WellFormed;
      if old(c.Framed()) {
        forall i | 0 <= i < c.slots.Length
          ensures c.slots[i] != null && c.slots[i] in c.frames && c.slots[i].Valid()
        {
          assert c.slots[i] == old(c.slots[i]) && c.slots[i] in c.frames;
          assert old(c.slots[i].Valid());
        }
        assert c.Framed();
      }
      assert c.Valid();
      forall k | 0 <= k < c.used
        ensures c.Window()[k] == old(c.Window()[k])
      {
        assert c.slots[k] in c.frames;
        assert c.slots[k].View() == old(c.slots[k].View());
      }
      assert c.Window() == old(c.Window());
    }

    /** An event at handler i leaves every other handler as it was. */
    twostate lemma OnlyOneMoved(i: nat)
      requires old(Valid()) && i < |clients| && clients == old(clients) && clients[i].Valid()
      requires forall j :: 0 <= j < |clients| && j != i ==>
        && unchanged(clients[j]) && unchanged(clients[j].slots) && (forall f :: f in clients[j].frames ==> unchanged(f))
      requires forall f :: f in clients[i].frames ==> f in old(clients[i].frames) || fresh(f)
      requires forall j :: 0 <= j < |clients| && j != i ==>
        forall f :: f in clients[j].frames ==> f !in clients[i].frames
      ensures Valid() && Abs() == old(Abs())[i := clients[i].Abs()]
    {
      hide Parse, WellFormed;
      forall j | 0 <= j < |clients| && j != i
        ensures clients[j].Valid() && clients[j].Abs() == old(clients[j].Abs())
      {
        StaysSame(clients[j]);
      }
      forall j, k | 0 <= j < k < |clients|
        ensures Apart(clients[j], clients[k])
      {
        assert old(Apart(clients[j], clients[k]));
      }
    }

    method HandleClientSock(i: nat, io: H.Io) returns (toApp: seq<byte>, replies: seq<byte>, crashed: bool)
      requires Valid() && i < |clients|
      modifies this`clients, clients[i], clients[i].frames, outQueue
      ensures Valid() && Abs() == Next(old(Abs()), Sock(i, io))
      ensures var e := EffectOf(old(Abs()), Sock(i, io));
        && outQueue.items == old(outQueue.items) + e.out
        && toApp == e.toApp && replies == e.replies && crashed == e.crashed
    {
      hide Parse, WellFormed, H.HandleSock, PortsOf, Settle, Holder;
      var ports := PortList();
      toApp, replies, crashed := clients[i].HandleSock(io, ports);
      OnlyOneMoved(i);
      SettleAfter(old(Abs()), i, clients[i].Abs());
      EraseFailed(i);
    }

    method HandleClientTimer(i: nat, io: H.Io) returns (toApp: seq<byte>, replies: seq<byte>, crashed: bool)
      requires Valid() && i < |clients|
      modifies this`clients, clients[i], clients[i].frames, outQueue
      ensures Valid() && Abs() == Next(old(Abs()), Timer(i, io))
      ensures var e := EffectOf(old(Abs()), Timer(i, io));
        && outQueue.items == old(outQueue.items) + e.out
        && toApp == e.toApp && replies == e.replies && crashed == e.crashed
    {
      hide Parse, WellFormed, H.HandleTimer, PortsOf, Settle, Holder;
      var ports := PortList();
      toApp, replies, crashed := clients[i].HandleTimer(io, ports);
      OnlyOneMoved(i);
      SettleAfter(old(Abs()), i, clients[i].Abs());
      EraseFailed(i);
    }

    method FindHolder(port: Port) returns (i: nat)
      requires Valid()
      ensures i == Holder(Abs(), port)
    {
      hide Parse, WellFormed;
      i := 0;
      while i < |clients| && clients[i].srcPort != port
        invariant i <= |clients| && forall j :: 0 <= j < i ==> clients[j].srcPort != port
      {
        i := i + 1;
      }
      assert forall j :: 0 <= j < i ==> Abs()[j].srcPort != port;
      assert i < |clients| ==> Abs()[i].srcPort == port;
    }

    /** A frame from the MIP daemon goes to the handler that holds its destination port, or is dropped. */
    method ReceiveTransportFrame(source: Address, frame: MIPTPFrame, io: H.Io) returns (replies: seq<byte>)
      requires Valid() && frame.Valid() && forall c :: c in clients ==> frame !in c.frames
      modifies this`clients, clients, set c | c in clients :: c.slots, outQueue
      ensures Valid() && Abs() == Next(old(Abs()), Ports.Receive(source, old(frame.View()), io))
      ensures var hs, s := old(Abs()), Ports.Receive(source, old(frame.View()), io);
        if Holder(hs, s.seg.dest) < |hs| then
          outQueue.items == old(outQueue.items) + EffectOf(hs, s).out && replies == EffectOf(hs, s).replies
        else outQueue.items == old(outQueue.items) && replies == []
    {
      hide Parse, WellFormed, H.ReceiveFrame, Settle, Holder;
      var seg := frame.View();
      var i := FindHolder(seg.dest);
      replies := [];
      if i < |clients| {
        replies := Deliver(i, source, frame, io);
      }
    }

    method Deliver(i: nat, source: Address, frame: MIPTPFrame, io: H.Io) returns (replies: seq<byte>)
      requires Valid() && i < |clients| && frame.Valid() && forall c :: c in clients ==> frame !in c.frames
      modifies this`clients, clients[i], clients[i].slots, outQueue
      ensures var e := H.ReceiveFrame(old(Abs())[i], source, old(frame.View()), io);
        && Valid() && Abs() == Settle(old(Abs()), i, e.h)
        && outQueue.items == old(outQueue.items) + e.out && replies == e.replies
    {
      hide Parse, WellFormed, H.ReceiveFrame, Settle;
      replies := clients[i].ReceiveFrame(source, frame, io);
      OnlyOneMoved(i);
      SettleAfter(old(Abs()), i, clients[i].Abs());
      EraseFailed(i);
    }
  }
}
