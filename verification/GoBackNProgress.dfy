/** One loss-free round empties the window, whatever prefix of it the server already had. */
module GoBackNProgress {
  import opened Wire
  import opened Handler
  import opened GoBackN
  import opened GoBackNSafety

  /** Frames k .. k+n-1 of what the client queued, delivered in order. */
  function Deliveries(k: nat, n: nat, source: Address, io: Io): (es: seq<Event>)
    ensures |es| == n
    decreases n
  {
    if n == 0 then [] else [ToServer(k, source, io)] + Deliveries(k + 1, n - 1, source, io)
  }

  /** n queued data frames from index k on carry consecutive absolute numbers from a on. */
  ghost predicate Consecutive(y: Sys, k: nat, n: nat, a: nat) {
    k + n <= |y.cOut| && |y.cAbs| == |y.cOut| &&
    forall j :: k <= j < k + n ==> y.cOut[j].seg.kind == Data && y.cAbs[j] == a + (j - k)
  }

  /** The parts of the system a delivery to the server leaves alone. */
  ghost predicate SameClient(y: Sys, y': Sys) {
    && y'.c == y.c && y'.cOut == y.cOut && y'.cAbs == y.cAbs && y'.loaded == y.loaded
    && y'.s.stage == y.s.stage && y'.s.destAddr == y.s.destAddr && y'.s.destPort == y.s.destPort
    && y'.s.srcPort == y.s.srcPort
  }

  lemma OneDelivery(y: Sys, k: nat, source: Address, io: Io)
    requires Inv(y) && k < |y.cOut| && y.s.stage == Connected && source == y.s.destAddr
    requires y.cOut[k].seg.kind == Data && y.cAbs[k] <= |y.accepted|
    requires |y.accepted| - y.cAbs[k] < SEQUENCE_SIZE
    ensures var y' := Next(y, ToServer(k, source, io));
      && Inv(y') && SameClient(y, y')
      && |y'.accepted| == (if y.cAbs[k] == |y.accepted| then |y.accepted| + 1 else |y.accepted|)
  {
    var e := ToServer(k, source, io);
    FreshIsDistinguishable(y, e);
    ToServerKeeps(y, k, source, io);
    assert y.cOut[k].seg == Numbered(y, y.cAbs[k]);
    if y.cAbs[k] == |y.accepted| {
      ServerTakes(y, k, source, io);
    }
  }

  lemma {:induction false} DeliverAll(y: Sys, k: nat, n: nat, a: nat, source: Address, io: Io)
    requires Inv(y) && y.s.stage == Connected && source == y.s.destAddr
    requires Consecutive(y, k, n, a) && Base(y) <= a <= |y.accepted|
    ensures var y' := Run(y, Deliveries(k, n, source, io));
      && Inv(y') && SameClient(y, y') && |y'.accepted| >= a + n
    decreases n
  {
    hide Inv, Next, Enabled, Run, Consecutive, Base;
    if n == 0 {
      RunNone(y);
    } else {
      OneOfMany(y, k, n, a, source, io);
      var y1 := Next(y, ToServer(k, source, io));
      DeliverAll(y1, k + 1, n - 1, a + 1, source, io);
      RunOne(y, ToServer(k, source, io), Deliveries(k + 1, n - 1, source, io));
      assert Run(y, Deliveries(k, n, source, io)) == Run(y1, Deliveries(k + 1, n - 1, source, io));
    }
  }

  lemma RunNone(y: Sys)
    ensures Run(y, []) == y
  {
  }

  lemma OneOfMany(y: Sys, k: nat, n: nat, a: nat, source: Address, io: Io)
    requires Inv(y) && y.s.stage == Connected && source == y.s.destAddr
    requires n > 0 && Consecutive(y, k, n, a) && Base(y) <= a <= |y.accepted|
    ensures Enabled(y, ToServer(k, source, io))
    ensures var y1 := Next(y, ToServer(k, source, io));
      && Inv(y1) && SameClient(y, y1) && Base(y1) == Base(y)
      && Consecutive(y1, k + 1, n - 1, a + 1) && |y1.accepted| >= a + 1
  {
    assert y.cOut[k].seg.kind == Data && y.cAbs[k] == a;
    assert |y.accepted| <= Base(y) + WINDOW_SIZE;
    OneDelivery(y, k, source, io);
  }

  lemma RunOne(y: Sys, e: Event, es: seq<Event>)
    requires Enabled(y, e)
    ensures Run(y, [e] + es) == Run(Next(y, e), es)
  {
  }

  /** After a tick of the client its whole window stands at the end of the queue, numbered from its base. */
  lemma TickQueuesWindow(y: Sys, io: Io)
    requires Inv(y) && y.c.stage == Connected
    ensures var y1 := Next(y, ClientTick(io));
      && Inv(y1) && Base(y1) == Base(y) && Consecutive(y1, |y.cOut|, |y1.c.window|, Base(y1))
      && y1.s == y.s && y1.accepted == y.accepted && y1.sOut == y.sOut
  {
    ClientTickKeeps(y, io);
    TickOfClient(y.c, io);
    var e := HandleTimer(y.c, io, []);
    var y1 := Next(y, ClientTick(io));
    WindowAtEnd(y, ClientMoves(y, e.h), e.out);
  }

  lemma WindowAtEnd(y: Sys, y0: Sys, out: seq<Packet>)
    requires y0.cOut == y.cOut && y0.cAbs == y.cAbs && |y.cAbs| == |y.cOut| && Base(y0) >= 0
    requires |out| >= |y0.c.window|
    requires forall i :: 0 <= i < |y0.c.window| ==> out[i].seg == y0.c.window[i] && out[i].seg.kind == Data
    ensures Consecutive(ClientEmits(y0, out), |y.cOut|, |y0.c.window|, Base(y0))
  {
  }

  /** A tick of the server queues one ack of everything accepted, which the client would look at. */
  lemma TickQueuesAck(y: Sys, io: Io)
    requires Inv(y) && y.c.stage == Connected && y.s.stage == Connected
    ensures var y1, i := Next(y, ServerTick(io)), |y.sOut|;
      && Inv(y1) && i < |y1.sOut| == |y1.sAbs| && y1.sOut[i].seg.kind == Sack && y1.sAbs[i] == |y.accepted|
      && ReachesClient(y1, i, y1.c.destAddr)
      && y1.accepted == y.accepted && y1.c == y.c && y1.loaded == y.loaded
  {
    ServerTickKeeps(y, io);
    TickOfServer(y.s, io, y.c.srcPort);
    TickQueued(y, HandleTimer(y.s, io, []));
  }

  lemma TickQueued(y: Sys, e: Effect)
    requires Inv(y) && y.c.stage == Connected && y.s.stage == Connected
    requires e.out == [AckFrame(y.s)] || e.out == [AckFrame(y.s), Control(y.s, Request)]
    requires ServerStep(y, e, []).accepted == y.accepted
    ensures var y1, i := ServerStep(y, e, []), |y.sOut|;
      && i < |y1.sOut| && i < |y1.sAbs| && y1.sOut[i] == AckFrame(y.s) && y1.sAbs[i] == |y.accepted|
      && y1.sOut[i].seg.kind == Sack && ReachesClient(y1, i, y1.c.destAddr)
      && y1.c == y.c && y1.loaded == y.loaded
  {
  }

  /** The ack a server tick queues, delivered to the client, brings the window up to the expected frame. */
  lemma AckRound(y: Sys, io: Io, io': Io)
    requires Inv(y) && y.c.stage == Connected && y.s.stage == Connected
    ensures var y1 := Next(y, ServerTick(io));
      && |y.sOut| < |y1.sOut|
      && var y2 := Next(y1, ToClient(|y.sOut|, y1.c.destAddr, io'));
         Inv(y2) && Base(y2) == |y.accepted| && y2.accepted == y.accepted && y2.loaded == y.loaded
  {
    hide ClientOk, ServerOk, ChannelsOk, Next, HandleTimer, ReceiveFrame, ReachesClient;
    TickQueuesAck(y, io);
    AtMostWindow(y);
    AckAtClient(Next(y, ServerTick(io)), |y.sOut|, |y.accepted| - Base(y), io');
  }

  lemma AtMostWindow(y: Sys)
    requires Inv(y)
    ensures 0 <= |y.accepted| - Base(y) <= WINDOW_SIZE
    ensures (|y.accepted| - Base(y)) % SEQUENCE_SIZE == |y.accepted| - Base(y)
  {
  }

  lemma AckAtClient(y: Sys, i: nat, moves: nat, io: Io)
    requires Inv(y) && i < |y.sOut| && y.sOut[i].seg.kind == Sack && ReachesClient(y, i, y.c.destAddr)
    requires |y.sAbs| == |y.sOut| && y.sAbs[i] == |y.accepted| == Base(y) + moves
    ensures var y' := Next(y, ToClient(i, y.c.destAddr, io));
      Inv(y') && Base(y') == |y.accepted| && y'.accepted == y.accepted && y'.loaded == y.loaded
  {
    hide Inv, ReceiveFrame, MoveWindow;
    AtMostWindow(y);
    AckStep(y, i, y.c.destAddr, io);
    ClientAckKeeps(y, moves);
    ClientMoveKeeps(y, moves);
  }

  /**
   * From any connected state: a client tick, the loss-free in-order delivery of the window it queued, a
   * server tick and the delivery of its ack leave nothing unacknowledged. Older traffic is simply lost.
   */
  lemma GoodRound(y: Sys, io: Io)
    requires Inv(y) && y.c.stage == Connected && y.s.stage == Connected
    requires Next(y, ClientTick(io)).c.stage == Connected
    ensures var y1 := Next(y, ClientTick(io));
      var y2 := Run(y1, Deliveries(|y.cOut|, |y1.c.window|, y1.s.destAddr, io));
      var y3 := Next(y2, ServerTick(io));
      && |y2.sOut| < |y3.sOut|
      && var y4 := Next(y3, ToClient(|y2.sOut|, y3.c.destAddr, io));
         Inv(y4) && y4.c.window == [] && y4.loaded == y1.loaded && y4.accepted == y4.loaded
  {
    TickQueuesWindow(y, io);
    var y1 := Next(y, ClientTick(io));
    DeliverAll(y1, |y.cOut|, |y1.c.window|, Base(y1), y1.s.destAddr, io);
    var y2 := Run(y1, Deliveries(|y.cOut|, |y1.c.window|, y1.s.destAddr, io));
    AckRound(y2, io, io);
  }

  /**
   * A data frame that reaches the server is either the expected one, which is taken in silence, or makes the
   * server repeat its ack and changes nothing, so a lost ack is made good by any retransmission.
   */
  lemma DataAnswered(y: Sys, i: nat, source: Address, io: Io)
    requires Inv(y) && i < |y.cOut| && y.cOut[i].seg.kind == Data && ReachesServer(y, i, source)
    requires |y.cAbs| == |y.cOut| && |y.accepted| - y.cAbs[i] < SEQUENCE_SIZE
    ensures var y' := Next(y, ToServer(i, source, io));
      && (y.cAbs[i] == |y.accepted| ==> y'.accepted == y.accepted + [y.loaded[y.cAbs[i]]] && y'.sOut == y.sOut)
      && (y.cAbs[i] != |y.accepted| ==>
            && y'.s == y.s && y'.accepted == y.accepted && y'.app == y.app
            && y'.sOut == y.sOut + [Packet(y.s.destAddr, Acking(y, |y.accepted|))])
  {
    if y.cAbs[i] == |y.accepted| {
      ServerTakes(y, i, source, io);
    } else {
      FreshIsDistinguishable(y, ToServer(i, source, io));
      SameResidue(|y.accepted|, y.cAbs[i]);
      RepeatsAck(y, i, source, io);
      hide Inv, ReceiveFrame;
    }
  }

  /** The ack of n frames, from the server's port to the client's. */
  function Acking(y: Sys, n: nat): Segment {
    Segment(Sack, y.c.srcPort, y.s.srcPort, n % SEQUENCE_SIZE, [])
  }

  lemma RepeatsAck(y: Sys, i: nat, source: Address, io: Io)
    requires Inv(y) && i < |y.cOut| && y.cOut[i].seg.kind == Data && ReachesServer(y, i, source)
    requires |y.cAbs| == |y.cOut| && y.cAbs[i] % SEQUENCE_SIZE != |y.accepted| % SEQUENCE_SIZE && 0 <= y.cAbs[i]
    ensures ReceiveFrame(y.s, source, y.cOut[i].seg, io) ==
            Effect(y.s, [Packet(y.s.destAddr, Acking(y, |y.accepted|))], [], [], false)
  {
    assert y.cOut[i].seg == Numbered(y, y.cAbs[i]);
  }

  // ----- the last mile -----

  /** A socket event whose write takes the whole buffer leaves nothing accepted that the application has not got. */
  lemma ServerDrains(y: Sys, io: Io)
    requires Inv(y) && y.s.stage == Connected && io.first.Wrote? && io.first.n >= |y.s.buffer|
    ensures var y' := Next(y, ServerSock(io));
      && Inv(y') && y'.app == Flat(y.accepted) && y'.s == y.s.(buffer := []) && y'.accepted == y.accepted
      && y'.loaded == y.loaded && y'.c == y.c && y'.sOut == y.sOut
  {
    ServerSockKeeps(y, io);
    SentToApp(y.s, io.first);
    AppAndBuffer(Next(y, ServerSock(io)));
    hide Inv, SendToSock;
  }

  lemma AppAndBuffer(y: Sys)
    requires Inv(y)
    ensures y.app + y.s.buffer == Flat(y.accepted) && y.s.role == Server
  {
  }

  /** The same for a tick, which serves the socket twice. */
  lemma TickDrains(y: Sys, io: Io)
    requires Inv(y) && y.s.stage == Connected && io.first.Wrote? && io.second.Wrote?
    requires io.first.n + io.second.n >= |y.s.buffer|
    ensures Next(y, ServerTick(io)).app == Flat(y.accepted)
  {
    ServerTickKeeps(y, io);
    TickHands(y.s, io);
    AppAndBuffer(Next(y, ServerTick(io)));
    hide Inv, HandleTimer;
  }

  lemma TickHands(h: State, io: Io)
    requires h.role == Server && h.stage == Connected && io.first.Wrote? && io.second.Wrote?
    requires io.first.n + io.second.n >= |h.buffer|
    ensures HandleTimer(h, io, []).h.buffer == []
  {
    hide SendToSock;
    SentToApp(h, io.first);
    SentToApp(SendToSock(h, io.first).h, io.second);
  }

  /**
   * From the request to the receiving application: after any fresh run, if both ends are connected, one loss-free
   * round and one write that takes the buffer give the application every byte ever read from the client's
   * socket, in order, and nothing else.
   */
  lemma EverythingArrives(start: Sys, es: seq<Event>, io: Io, io': Io)
    requires Init(start) && FreshRun(start, es)
    requires var y := Run(start, es);
      y.c.stage == Connected && y.s.stage == Connected && Next(y, ClientTick(io)).c.stage == Connected
    ensures var y := Run(start, es);
      var y1 := Next(y, ClientTick(io));
      var y2 := Run(y1, Deliveries(|y.cOut|, |y1.c.window|, y1.s.destAddr, io));
      var y3 := Next(y2, ServerTick(io));
      && |y2.sOut| < |y3.sOut|
      && var y4 := Next(y3, ToClient(|y2.sOut|, y3.c.destAddr, io));
         y4.s.stage == Connected && io'.first.Wrote? && io'.first.n >= |y4.s.buffer| ==>
           Next(y4, ServerSock(io')).app == Flat(ReadOver(start, es) + ReadBy(y, ClientTick(io)))
  {
    hide Inv, Next, Run, FreshRun, ReadOver, ReadBy, Init, Flat;
    InitOk(start);
    FreshRunKeeps(start, es);
    LoadedIsRead(start, es);
    InitLoadedNothing(start);
    var y := Run(start, es);
    StepReads(y, ClientTick(io));
    GoodRound(y, io);
    var y1 := Next(y, ClientTick(io));
    var y2 := Run(y1, Deliveries(|y.cOut|, |y1.c.window|, y1.s.destAddr, io));
    var y3 := Next(y2, ServerTick(io));
    var y4 := Next(y3, ToClient(|y2.sOut|, y3.c.destAddr, io));
    assert y4.accepted == ReadOver(start, es) + ReadBy(y, ClientTick(io));
    if y4.s.stage == Connected && io'.first.Wrote? && io'.first.n >= |y4.s.buffer| {
      ServerDrains(y4, io');
    }
  }

  lemma InitLoadedNothing(y: Sys)
    requires Init(y)
    ensures y.loaded == [] && y.app == []
  {
  }

  // ----- setting up and keeping up a connection -----

  /**
   * A delivered request and a delivered reply connect both ends, each knowing the other's address and port,
   * provided both applications can be told.
   */
  lemma HandshakeConnects(y: Sys, client: Address, server: Address, io: Io)
    requires Init(y) && io.reply.Wrote?
    ensures var y1 := Next(y, ToServer(0, client, io));
      && |y1.sOut| == 1
      && var y2 := Next(y1, ToClient(0, server, io));
         && y2.s.stage == Connected && y2.s.destAddr == client && y2.s.destPort == y.c.srcPort
         && y2.c.stage == Connected && y2.c.destAddr == y.c.destAddr && y2.c.destPort == y.s.srcPort
         && Inv(y2) && y2.c.window == [] && y2.accepted == []
  {
    InitOk(y);
    RequestConnects(y, client, io);
    ReplyConnects(Next(y, ToServer(0, client, io)), server, io);
  }

  lemma RequestConnects(y: Sys, client: Address, io: Io)
    requires Init(y) && Inv(y) && io.reply.Wrote?
    ensures var y1 := Next(y, ToServer(0, client, io));
      && Inv(y1) && y1.c == y.c && y1.accepted == [] && y1.loaded == []
      && y1.s == y.s.(stage := Connected, destAddr := client, destPort := y.c.srcPort)
      && y1.sOut == [Control(y1.s, Reply)] && |y1.sAbs| == 1
  {
    StepKeeps(y, ToServer(0, client, io));
    hide Inv;
  }

  lemma ReplyConnects(y: Sys, server: Address, io: Io)
    requires Inv(y) && io.reply.Wrote? && y.c.stage == WaitReply && y.accepted == [] && y.loaded == []
    requires y.sOut == [Control(y.s, Reply)] && y.s.destPort == y.c.srcPort && y.s.stage == Connected
    ensures var y2 := Next(y, ToClient(0, server, io));
      && Inv(y2) && y2.s == y.s && y2.c == y.c.(stage := Connected) && y2.accepted == [] && y2.c.window == []
      && y2.c.destPort == y.s.srcPort
  {
    ToClientKeeps(y, 0, server, io);
    ReplyEffect(y, server, io);
    hide ReceiveFrame, Flat;
  }

  lemma ReplyEffect(y: Sys, server: Address, io: Io)
    requires Inv(y) && io.reply.Wrote? && y.c.stage == WaitReply
    requires y.sOut == [Control(y.s, Reply)] && y.s.destPort == y.c.srcPort
    ensures y.sOut[0].seg.dest == y.c.srcPort
    ensures ReceiveFrame(y.c, server, y.sOut[0].seg, io) ==
            Effect(y.c.(stage := Connected), [], [], [REPLY_SUCCESS], false)
  {
  }

  /** A probe that reaches the peer is answered, and marks the peer alive. */
  lemma ProbeAnswered(h: State, source: Address, io: Io, dest: Port)
    requires h.stage == Connected && source == h.destAddr && h.destPort < PORT_SPACE
    ensures ReceiveFrame(h, source, MakeSegment(Request, dest, h.destPort, 0, []), io) ==
            Effect(h.(alive := true), [Control(h, Reply)], [], [], false)
  {
  }

  /** An answer that comes back marks the prober alive and costs nothing else. */
  lemma AnswerHeard(h: State, source: Address, io: Io, dest: Port)
    requires h.stage == Connected && source == h.destAddr && h.destPort < PORT_SPACE
    ensures ReceiveFrame(h, source, MakeSegment(Reply, dest, h.destPort, 0, []), io) == Quiet(h.(alive := true))
  {
  }

  /** A probe and its answer, both delivered, mark both ends alive and change nothing else. */
  lemma ProbeRound(h: State, g: State, here: Address, io: Io, io': Io)
    requires h.stage == Connected && g.stage == Connected && g.destAddr == here
    requires g.destPort == h.srcPort < PORT_SPACE && h.destPort == g.srcPort < PORT_SPACE
    ensures ReceiveFrame(g, here, Control(h, Request).seg, io) ==
            Effect(g.(alive := true), [Control(g, Reply)], [], [], false)
    ensures ReceiveFrame(h, h.destAddr, Control(g, Reply).seg, io') == Quiet(h.(alive := true))
  {
    ProbeAnswered(g, here, io, h.destPort);
    AnswerHeard(h, h.destAddr, io', g.destPort);
  }

  /**
   * A tick gives a connection up exactly when nothing was heard since the last one or the socket is gone;
   * otherwise it queues a new probe and waits again.
   */
  lemma TickGivesUp(h: State, io: Io)
    requires h.stage == Connected && h.role != Unset
    ensures var served, e := ServeAndResend(h, io, []), HandleTimer(h, io, []);
      && (e.h.stage == Failure <==> !h.alive || served.h.stage == Failure)
      && (h.alive ==> !e.h.alive && e.out == served.out + [Control(h, Request)])
  {
    hide ServeAndResend;
    ServedKeeps(h, io);
  }

  lemma ServedKeeps(h: State, io: Io)
    requires h.stage == Connected && h.role != Unset
    ensures var e := ServeAndResend(h, io, []);
      && e.h.alive == h.alive && e.h.destAddr == h.destAddr && e.h.destPort == h.destPort && e.h.srcPort == h.srcPort
      && !e.crashed
  {
    hide LoadFrames, SendToSock;
    if h.role == Client {
      LoadKeepsRest(h, io.input);
    } else {
      SendHands(h, io.first, h.destPort);
      SendHands(SendToSock(h, io.first).h, io.second, h.destPort);
    }
  }
}
