/** The life of one handler: what its application is told, whom it hears, and to whom it sends. */
module HandlerLife {
  import opened Wire
  import opened Handler

  datatype Event =
    | Sock(io: Io, ports: seq<Port>)
    | Timer(io: Io, ports: seq<Port>)
    | Frame(source: Address, seg: Segment, io: Io)

  function On(h: State, e: Event): Effect {
    match e
    case Sock(io, ports) => HandleSock(h, io, ports)
    case Timer(io, ports) => HandleTimer(h, io, ports)
    case Frame(source, seg, io) => ReceiveFrame(h, source, seg, io)
  }

  function After(h: State, es: seq<Event>): State
    decreases |es|
  {
    if es == [] then h else After(On(h, es[0]).h, es[1..])
  }

  /** Every reply code given to the application, in order. */
  function Told(h: State, es: seq<Event>): seq<byte>
    decreases |es|
  {
    if es == [] then [] else On(h, es[0]).replies + Told(On(h, es[0]).h, es[1..])
  }

  predicate Waits(stage: Stage) { stage == Listen || stage == WaitReply }

  // ----- what the application is told -----

  /** A request that ends the handler ends it with a code, unless the socket broke before it was complete. */
  lemma RequestTold(h: State, asks: seq<Ask>, ports: seq<Port>)
    requires h.stage == Application
    ensures var e := HandleRequest(h, asks, ports);
      && e.h.stage != Connected
      && (e.replies == [] || (e.replies == [REPLY_USEDPORT] && e.h.stage == Failure))
      && (e.h.stage == Failure && e.replies == [] ==> Broke(asks))
      && (e.crashed <==> h.role == Unset && Unknown(asks))
  {
    if h.role != Unset {
      KnownRoleTold(h, asks, ports);
    } else if asks != [] && asks[0].Value? {
      KnownRoleTold(h.(role := Server), asks[1..], ports);
      KnownRoleTold(h.(role := Client), asks[1..], ports);
    }
    hide AskListen, AskConnect;
  }

  /** Neither a request to listen nor one to connect: the daemon aborts. */
  predicate Unknown(asks: seq<Ask>) {
    asks != [] && asks[0].Value? && asks[0].v != REQUEST_LISTEN && asks[0].v != REQUEST_CONNECT
  }

  predicate Broke(asks: seq<Ask>) {
    exists k :: 0 <= k < |asks| && asks[k].AskBroken?
  }

  lemma KnownRoleTold(h: State, fields: seq<Ask>, ports: seq<Port>)
    requires h.stage == Application && h.role != Unset
    ensures var e := HandleKnownRole(h, fields, ports);
      && e.h.stage != Connected
      && (e.replies == [] || (e.replies == [REPLY_USEDPORT] && e.h.stage == Failure))
      && (e.h.stage == Failure && e.replies == [] ==> Broke(fields))
      && !e.crashed
  {
    hide FreePort;
  }

  /** Which code an event gives the application, by the stages before and after it. */
  lemma WhatIsTold(h: State, e: Event)
    ensures var after, replies := On(h, e).h.stage, On(h, e).replies;
      && (h.stage == Application ==>
            after != Connected && (replies == [] || (replies == [REPLY_USEDPORT] && after == Failure)))
      && (h.stage == WaitReply && e.Timer? ==> after == Failure && replies == [REPLY_TIMEOUT])
      && (Waits(h.stage) && !(h.stage == WaitReply && e.Timer?) ==>
            (after == Connected ==> replies == [REPLY_SUCCESS]) && (after != Connected ==> replies == []))
      && (Waits(h.stage) ==> after == h.stage || after == Connected || after == Failure)
      && (h.stage == Connected ==> (after == Connected || after == Failure) && replies == [])
      && (h.stage == Failure ==> after == Failure && replies == [])
  {
    match e
    case Sock(io, ports) => SockTold(h, io, ports);
    case Timer(io, ports) => TimerTold(h, io, ports);
    case Frame(source, seg, io) => FrameTold(h, source, seg, io);
  }

  lemma SockTold(h: State, io: Io, ports: seq<Port>)
    ensures var e := HandleSock(h, io, ports);
      && (h.stage == Application ==>
            e.h.stage != Connected && (e.replies == [] || (e.replies == [REPLY_USEDPORT] && e.h.stage == Failure)))
      && (h.stage == Connected ==> (e.h.stage == Connected || e.h.stage == Failure) && e.replies == [] && !e.crashed)
      && (h.stage != Application && h.stage != Connected ==> e == Quiet(h))
  {
    if h.stage == Application {
      RequestTold(h, io.asks, ports);
    }
    LoadStage(h, io.input);
    hide HandleRequest, LoadFrames;
  }

  lemma {:induction false} LoadStage(h: State, input: seq<Read>)
    ensures LoadFrames(h, input).stage == h.stage || LoadFrames(h, input).stage == Failure
    decreases input
  {
    if |h.window| < WINDOW_SIZE && input != [] && input[0].Got? {
      var h1 := h.(window := h.window + [DataSegment(h, input[0].bytes)], loaded := h.loaded + |input[0].bytes|);
      LoadStage(h1, input[1..]);
    }
  }

  lemma TimerTold(h: State, io: Io, ports: seq<Port>)
    ensures var e := HandleTimer(h, io, ports);
      && (h.stage == WaitReply ==> e.h.stage == Failure && e.replies == [REPLY_TIMEOUT])
      && (h.stage == Connected ==> (e.h.stage == Connected || e.h.stage == Failure) && e.replies == [])
      && (h.stage != WaitReply && h.stage != Connected ==> e == Quiet(h))
  {
    SockTold(h, io, ports);
    hide HandleSock, LoadFrames;
  }

  lemma FrameTold(h: State, source: Address, seg: Segment, io: Io)
    ensures var e := ReceiveFrame(h, source, seg, io);
      && (Waits(h.stage) ==>
            || e == Quiet(h)
            || (e.h.stage == Connected && e.replies == [REPLY_SUCCESS])
            || (e.h.stage == Failure && e.replies == []))
      && (h.stage == Connected ==> e.h.stage == Connected && e.replies == [])
      && (!Waits(h.stage) && h.stage != Connected ==> e == Quiet(h))
  {
  }

  /** What the application has been told, when the handler is in this stage. */
  predicate ToldBy(stage: Stage, told: seq<byte>) {
    match stage
    case Connected => told == [REPLY_SUCCESS]
    case Failure => |told| <= 1
    case _ => told == []
  }

  lemma {:induction false} ToldFrom(h: State, es: seq<Event>, before: seq<byte>)
    requires ToldBy(h.stage, before)
    ensures ToldBy(After(h, es).stage, before + Told(h, es))
    decreases |es|
  {
    hide On;
    if es == [] {
      assert before + [] == before;
    } else {
      WhatIsTold(h, es[0]);
      var r := On(h, es[0]);
      ToldFrom(r.h, es[1..], before + r.replies);
      assert before + r.replies + Told(r.h, es[1..]) == before + Told(h, es);
    }
  }

  /**
   * Over every life of a handler its application gets at most one code: nothing while it waits, success exactly
   * once when the connection stands, and after the end nothing more.
   */
  lemma ToldOnce(es: seq<Event>)
    ensures ToldBy(After(NewState(), es).stage, Told(NewState(), es))
  {
    ToldFrom(NewState(), es, []);
    assert [] + Told(NewState(), es) == Told(NewState(), es);
  }

  // ----- whom it hears -----

  /** The frames that make a handler do anything at all. */
  lemma WhoIsHeard(h: State, source: Address, seg: Segment, io: Io)
    ensures var heard := ReceiveFrame(h, source, seg, io) != Quiet(h);
      && (h.stage == Listen ==> (heard <==> seg.kind == Request))
      && (h.stage == WaitReply ==> (heard <==> seg.kind == Reply))
      && (h.stage == Connected && (source != h.destAddr || seg.source != h.destPort) ==> !heard)
      && (!Waits(h.stage) && h.stage != Connected ==> !heard)
  {
  }

  // ----- to whom it sends -----

  /** A packet for the handler's peer: a frame of its window, or a control frame between the two ports. */
  ghost predicate ForPeer(h: State, p: Packet) {
    && p.to == h.destAddr
    && (p.seg in h.window || p.seg == MakeSegment(p.seg.kind, h.destPort, h.srcPort, p.seg.seqNum, []))
  }

  ghost predicate AllForPeer(h: State, out: seq<Packet>) {
    forall i :: 0 <= i < |out| ==> ForPeer(h, out[i])
  }

  /** Whatever an event queues is for the peer the handler then has. */
  lemma SendsToPeer(h: State, e: Event)
    requires h.stage == Connected ==> h.role == Server || h.role == Client
    ensures AllForPeer(On(h, e).h, On(h, e).out)
    ensures h.stage == WaitReply || h.stage == Connected ==>
              var h' := On(h, e).h; h'.destAddr == h.destAddr && h'.destPort == h.destPort && h'.srcPort == h.srcPort
  {
    match e
    case Sock(io, ports) => SockForPeer(h, io, ports);
    case Timer(io, ports) => TimerForPeer(h, io, ports);
    case Frame(source, seg, io) => FrameForPeer(h, source, seg, io);
  }

  lemma SockForPeer(h: State, io: Io, ports: seq<Port>)
    ensures AllForPeer(HandleSock(h, io, ports).h, HandleSock(h, io, ports).out)
    ensures h.stage != Application ==>
              var h' := HandleSock(h, io, ports).h;
              && h'.destAddr == h.destAddr && h'.destPort == h.destPort && h'.srcPort == h.srcPort
              && h'.role == h.role && HandleSock(h, io, ports).out == []
  {
    LoadKeepsRest(h, io.input);
    hide FreePort, LoadFrames;
  }

  lemma TimerForPeer(h: State, io: Io, ports: seq<Port>)
    requires h.stage == Connected ==> h.role == Server || h.role == Client
    ensures AllForPeer(HandleTimer(h, io, ports).h, HandleTimer(h, io, ports).out)
    ensures var h' := HandleTimer(h, io, ports).h;
      h'.destAddr == h.destAddr && h'.destPort == h.destPort && h'.srcPort == h.srcPort
  {
    if h.stage == Connected {
      SockForPeer(h, io, ports);
      RetransmitForPeer(HandleSock(h, io, ports).h, io);
    }
    hide HandleSock, Retransmit;
  }

  lemma RetransmitForPeer(h: State, io: Io)
    requires h.role == Server || h.role == Client
    ensures var e := Retransmit(h, io);
      && AllForPeer(e.h, e.out)
      && e.h.destAddr == h.destAddr && e.h.destPort == h.destPort && e.h.srcPort == h.srcPort
  {
  }

  lemma FrameForPeer(h: State, source: Address, seg: Segment, io: Io)
    ensures AllForPeer(ReceiveFrame(h, source, seg, io).h, ReceiveFrame(h, source, seg, io).out)
    ensures h.stage == WaitReply || h.stage == Connected ==>
              var h' := ReceiveFrame(h, source, seg, io).h;
              h'.destAddr == h.destAddr && h'.destPort == h.destPort && h'.srcPort == h.srcPort
  {
  }

  // ----- a request in pieces -----

  /**
   * A request whose fields arrive in several events is the request that arrives in one: what was read is kept,
   * and the next event goes on with the next field. A field of 0 would be asked for again.
   */
  lemma RequestResumes(h: State, xs: seq<Ask>, ys: seq<Ask>, ports: seq<Port>, later: seq<Port>)
    requires h.stage == Application && HandleRequest(h, xs, ports).h.stage == Application
    requires forall k :: 0 <= k < |xs| ==> xs[k].Value? && xs[k].v % 0x100 != 0
    requires !HandleRequest(h, xs, ports).crashed
    ensures HandleRequest(h, xs, ports).out == [] && HandleRequest(h, xs, ports).replies == []
    ensures HandleRequest(HandleRequest(h, xs, ports).h, ys, later) == HandleRequest(h, xs + ys, later)
  {
    if xs == [] {
      NothingAsked(h, ports);
      assert xs + ys == ys;
    } else if h.role != Unset {
      KnownRoleResumes(h, xs, ys, ports, later);
    } else {
      assert (xs + ys)[1..] == xs[1..] + ys;
      KnownRoleResumes(h.(role := if xs[0].v == REQUEST_LISTEN then Server else Client), xs[1..], ys, ports, later);
    }
    hide HandleKnownRole;
  }

  lemma NothingAsked(h: State, ports: seq<Port>)
    requires h.stage == Application && HandleRequest(h, [], ports).h.stage == Application
    ensures HandleRequest(h, [], ports) == Quiet(h)
  {
  }

  lemma KnownRoleResumes(h: State, xs: seq<Ask>, ys: seq<Ask>, ports: seq<Port>, later: seq<Port>)
    requires h.stage == Application && h.role != Unset && HandleKnownRole(h, xs, ports).h.stage == Application
    requires forall k :: 0 <= k < |xs| ==> xs[k].Value? && xs[k].v % 0x100 != 0
    ensures var e := HandleKnownRole(h, xs, ports);
      && e == Quiet(e.h) && e.h.role == h.role
      && HandleKnownRole(e.h, ys, later) == HandleKnownRole(h, xs + ys, later)
  {
    if xs == [] {
      assert xs + ys == ys;
    } else if h.role == Client {
      AddressOnly(h, xs, ports);
      AddressThen(h, xs[0], ys);
      assert xs == [xs[0]];
    }
    hide FreePort, AskDestination;
  }

  /** A client that has read something and still waits has read its address and nothing else. */
  lemma AddressOnly(h: State, xs: seq<Ask>, ports: seq<Port>)
    requires h.stage == Application && AskConnect(h, xs, ports).h.stage == Application
    requires xs != [] && forall k :: 0 <= k < |xs| ==> xs[k].Value?
    ensures |xs| == 1 && h.destAddr == 0 && h.destPort == 0
    ensures AskConnect(h, xs, ports) == Quiet(h.(destAddr := xs[0].v % 0x100))
  {
    hide FreePort;
  }

  lemma AddressThen(h: State, x: Ask, ys: seq<Ask>)
    requires x.Value? && x.v % 0x100 != 0 && h.destAddr == 0 && h.destPort == 0
    ensures AskDestination(h.(destAddr := x.v % 0x100), ys) == AskDestination(h, [x] + ys)
  {
    assert ([x] + ys)[1..] == ys;
  }
}

/** A whole session, from what two applications ask of their daemons to the bytes one gets from the other. */
module Session {
  import opened Wire
  import opened GoBackN
  import opened GoBackNSafety
  import opened GoBackNFifo
  import opened Ports
  import H = Handler

  /** What the two applications ask for: one listens on a port, the other connects to it. */
  predicate Asks(listen: H.Io, connect: H.Io, server: Port, port: Port) {
    && |listen.asks| >= 2 && listen.asks[..2] == [H.Value(H.REQUEST_LISTEN), H.Value(port)]
    && |connect.asks| >= 3
    && connect.asks[..3] == [H.Value(H.REQUEST_CONNECT), H.Value(server), H.Value(port)]
  }

  /** A new application at a daemon, and its first event. */
  function Joined(hs: seq<H.State>, io: H.Io): seq<H.State> {
    Ports.Next(Ports.Next(hs, Accept), Sock(|hs|, io))
  }

  function Queued(hs: seq<H.State>, io: H.Io): seq<Packet> {
    EffectOf(Ports.Next(hs, Accept), Sock(|hs|, io)).out
  }

  /** The two new handlers, the request queued between them, and nothing read or delivered yet. */
  function Opened(here: seq<H.State>, there: seq<H.State>, connect: H.Io, listen: H.Io): Sys
    requires |Joined(here, connect)| > |here| && |Joined(there, listen)| > |there|
  {
    Sys(Joined(here, connect)[|here|], Joined(there, listen)[|there|], Queued(here, connect), [], [0], [], [], [], [])
  }

  /**
   * The daemons of two nodes, with whatever other handlers they have. If the port is free there and below 16384
   * and a port is left here, both handlers stay, nobody else's changes, and the pair is where a session starts.
   */
  lemma SessionStarts(here: seq<H.State>, there: seq<H.State>, connect: H.Io, listen: H.Io, server: Port, port: Port)
    requires Asks(listen, connect, server, port) && port < PORT_SPACE && port !in PortsOf(Ports.Next(there, Accept))
    requires |NonZero(PortsOf(Ports.Next(here, Accept)))| < 0x3ffe
    ensures |Joined(here, connect)| == |here| + 1 && Joined(here, connect)[..|here|] == here
    ensures |Joined(there, listen)| == |there| + 1 && Joined(there, listen)[..|there|] == there
    ensures var y := Opened(here, there, connect, listen);
      && Init(y) && y.c.destAddr == server % 0x100 && y.s.srcPort == port && y.cOut[0].to == server % 0x100
      && LeastFree(PortsOf(Ports.Next(here, Accept)), y.c.srcPort)
  {
    hide PortsOf, NonZero, H.FreePort, EffectOf;
    Accepted(here);
    Accepted(there);
    FreePortExists(PortsOf(Ports.Next(here, Accept)));
    assert listen.asks[0] == listen.asks[..2][0] && listen.asks[1] == listen.asks[..2][1];
    ConnectRequest(Ports.Next(here, Accept), |here|, connect, server, port);
    ListenRequest(Ports.Next(there, Accept), |there|, listen, port);
  }

  lemma Accepted(hs: seq<H.State>)
    ensures var hs' := Ports.Next(hs, Accept); |hs'| == |hs| + 1 && hs'[..|hs|] == hs && hs'[|hs|] == H.NewState()
  {
  }

  /**
   * End to end: after such a start, over channels that lose and duplicate but keep order and through any events
   * of the two handlers, what the listening application has been given are the first bytes that were read from
   * the connecting one.
   */
  lemma SessionDelivers(here: seq<H.State>, there: seq<H.State>, connect: H.Io, listen: H.Io,
        server: Port, port: Port, es: seq<GoBackN.Event>)
    requires Asks(listen, connect, server, port) && port < PORT_SPACE && port !in PortsOf(Ports.Next(there, Accept))
    requires |NonZero(PortsOf(Ports.Next(here, Accept)))| < 0x3ffe
    requires |Joined(here, connect)| > |here| && |Joined(there, listen)| > |there|
    requires FifoRun(Opened(here, there, connect, listen), Marks(0, 0), es)
    ensures var y := Opened(here, there, connect, listen);
      GoBackNSafety.Run(y, es).app <= Flat(ReadOver(y, es)) && DeliversOf(GoBackNSafety.Run(y, es), ReadOver(y, es))
  {
    SessionStarts(here, there, connect, listen, server, port);
    ReliableOverFifo(Opened(here, there, connect, listen), es);
  }

  // ----- the session inside its daemons -----

  /** The step of the server's daemon that is this event of the session, the server's handler being the i-th. */
  function ServerStepOf(y: Sys, e: GoBackN.Event, i: nat): Ports.Step
    requires GoBackN.Enabled(y, e) && (e.ServerSock? || e.ServerTick? || e.ToServer?)
  {
    match e
    case ServerSock(io) => Sock(i, io)
    case ServerTick(io) => Timer(i, io)
    case ToServer(k, source, io) => Receive(source, y.cOut[k].seg, io)
  }

  function ClientStepOf(y: Sys, e: GoBackN.Event, i: nat): Ports.Step
    requires GoBackN.Enabled(y, e) && (e.ClientSock? || e.ClientTick? || e.ToClient?)
  {
    match e
    case ClientSock(io) => Sock(i, io)
    case ClientTick(io) => Timer(i, io)
    case ToClient(k, source, io) => Receive(source, y.sOut[k].seg, io)
  }

  /** Once the request is read, which ports are held makes no difference to a handler. */
  lemma PortsForgotten(h: H.State, io: H.Io, ports: seq<Port>)
    requires h.stage != H.Application
    ensures H.HandleSock(h, io, ports) == H.HandleSock(h, io, [])
    ensures H.HandleTimer(h, io, ports) == H.HandleTimer(h, io, [])
  {
  }

  /** The holder of a port gets the frame, with the source address it came under. */
  lemma HolderGets(hs: seq<H.State>, i: nat, source: Address, seg: Segment, io: H.Io)
    requires DistinctPorts(hs) && i < |hs| && hs[i].srcPort == seg.dest && seg.dest != 0
    ensures Holder(hs, seg.dest) == i
    ensures EffectOf(hs, Receive(source, seg, io)) == H.ReceiveFrame(hs[i], source, seg, io)
  {
  }

  /**
   * Among any handlers with distinct ports, what a daemon does for the server of a session is the session's event:
   * the same state, the same frames queued, the same bytes given to the application, no other handler touched.
   */
  lemma ServerInDaemon(hs: seq<H.State>, i: nat, y: Sys, e: GoBackN.Event)
    requires DistinctPorts(hs) && i < |hs| && hs[i] == y.s && y.s.srcPort != 0 && y.s.stage != H.Application
    requires GoBackN.Enabled(y, e) && (e.ServerSock? || e.ServerTick? || e.ToServer?)
    requires e.ToServer? ==> y.cOut[e.i].seg.dest == y.s.srcPort
    ensures var s, y' := ServerStepOf(y, e, i), GoBackN.Next(y, e);
      && Ports.Enabled(hs, s) && (s.Receive? ==> Holder(hs, s.seg.dest) < |hs|)
      && Ports.Next(hs, s) == Settle(hs, i, y'.s)
      && y'.sOut == y.sOut + EffectOf(hs, s).out && y'.app == y.app + EffectOf(hs, s).toApp
  {
    hide H.HandleSock, H.HandleTimer, H.ReceiveFrame, PortsOf, Settle;
    match e
    case ServerSock(io) => PortsForgotten(y.s, io, PortsOf(hs));
    case ServerTick(io) => PortsForgotten(y.s, io, PortsOf(hs));
    case ToServer(k, source, io) => HolderGets(hs, i, source, y.cOut[k].seg, io);
  }

  /** The same for the client, and for the reads that make up the stream. */
  lemma ClientInDaemon(hs: seq<H.State>, i: nat, y: Sys, e: GoBackN.Event)
    requires DistinctPorts(hs) && i < |hs| && hs[i] == y.c && y.c.srcPort != 0 && y.c.stage != H.Application
    requires GoBackN.Enabled(y, e) && (e.ClientSock? || e.ClientTick? || e.ToClient?)
    requires e.ToClient? ==> y.sOut[e.i].seg.dest == y.c.srcPort
    ensures var s, y' := ClientStepOf(y, e, i), GoBackN.Next(y, e);
      && Ports.Enabled(hs, s) && (s.Receive? ==> Holder(hs, s.seg.dest) < |hs|)
      && Ports.Next(hs, s) == Settle(hs, i, y'.c) && y'.cOut == y.cOut + EffectOf(hs, s).out
  {
    hide H.HandleSock, H.HandleTimer, H.ReceiveFrame, PortsOf, Settle;
    match e
    case ClientSock(io) => PortsForgotten(y.c, io, PortsOf(hs));
    case ClientTick(io) => PortsForgotten(y.c, io, PortsOf(hs));
    case ToClient(k, source, io) => HolderGets(hs, i, source, y.sOut[k].seg, io);
  }
}

/** The transport layer over the MIP layer: whether a peer is recognised depends on the interface a frame left over. */
module SessionPath {
  import opened Wire
  import opened HandlerLife
  import F = RoutingForwarding
  import M = MipDaemon
  import N = MipNetwork
  import R = RoutingNet
  import H = Handler

  /**
   * A frame that u hands down for another node and that is delivered comes up there under u's address on the link
   * its first lookup chose. A handler connected to any other address of u, or to another node, ignores it: when
   * the route of a node with several interfaces changes, its open connections go silent.
   */
  lemma RerouteGoesUnheard(c: N.Site, mips: nat -> M.State, others: F.Others, lookup: F.Lookup, u: nat, d: Address,
        w: M.Waiting, h: H.State, seg: Segment, io: H.Io)
    requires F.Wired(c, mips) && u < c.t.n && F.Carriable(w) && !w.forwarded && w.frame.dest == d
    requires F.Carry(c, mips, others, lookup, u, w, 0).trip.delivered && h.stage == H.Connected
    ensures var via, up := lookup(0, u), F.Carry(c, mips, others, lookup, u, w, 0).up;
      && via.Some? && R.Edge(c.t, u, via.value) && |up| == 1
      && up[0].delivery.source == c.t.near[(u, via.value)]
      && (c.t.near[(u, via.value)] != h.destAddr ==>
            H.ReceiveFrame(h, up[0].delivery.source, seg, io) == H.Quiet(h))
  {
    F.CarryIsRelay(c, mips, others, lookup, u, w, 0);
    hide F.Carry, F.Relay, F.Wired;
    var up := F.Carry(c, mips, others, lookup, u, w, 0).up;
    WhoIsHeard(h, up[0].delivery.source, seg, io);
  }
}
