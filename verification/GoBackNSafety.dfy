/** What every step of the composed system keeps, and what every run therefore delivers. */
module GoBackNSafety {
  import opened Wire
  import opened Handler
  import opened GoBackN

  // ----- deliveries to the client -----

  /** A delivery the client's handler actually looks at: demultiplexed to it, from the peer it knows. */
  predicate ReachesClient(y: Sys, i: nat, source: Address)
    requires i < |y.sOut|
  {
    && y.sOut[i].seg.dest == y.c.srcPort && y.c.stage == Connected
    && source == y.c.destAddr && y.sOut[i].seg.source == y.c.destPort
  }

  lemma DecodeAck(y: Sys, i: nat)
    requires Inv(y) && i < |y.sOut| && y.sOut[i].seg.kind == Sack
    ensures var n, moves := y.sOut[i].seg.seqNum, (y.sAbs[i] - Base(y)) % SEQUENCE_SIZE;
      && (AckAccepted(y.c.base, n) <==> moves <= WINDOW_SIZE)
      && (n == y.c.base <==> moves == 0)
      && CalcMoves(y.c.base, n) == moves
  {
    Circular(Base(y), y.sAbs[i]);
  }

  lemma AckStep(y: Sys, i: nat, source: Address, io: Io)
    requires Inv(y) && i < |y.sOut| && y.sOut[i].seg.kind == Sack && ReachesClient(y, i, source)
    ensures var moves := (y.sAbs[i] - Base(y)) % SEQUENCE_SIZE;
      var e := ReceiveFrame(y.c, source, y.sOut[i].seg, io);
      && (moves > WINDOW_SIZE ==> e == Quiet(y.c))
      && (moves <= WINDOW_SIZE ==> e.h == MoveWindow(y.c, moves) && e.out == QueuedWindow(e.h))
  {
    DecodeAck(y, i);
  }

  lemma ClientAckKeeps(y: Sys, moves: nat)
    requires Inv(y) && Base(y) + moves <= |y.accepted|
    ensures var h := MoveWindow(y.c, moves);
      Inv(ClientEmits(ClientMoves(y, h), QueuedWindow(h)))
  {
    ClientMoveKeeps(y, moves);
    var y1 := ClientMoves(y, MoveWindow(y.c, moves));
    WindowEmittable(y1);
    ClientEmitsKeep(y1, QueuedWindow(y1.c));
  }

  /** Any other frame at most changes the stage, the liveness flag, and queues a reply. */
  lemma OtherFrameAtClient(h: State, source: Address, seg: Segment, io: Io)
    requires |h.window| <= WINDOW_SIZE && h.role == Client && h.stage != Listen && h.srcPort < PORT_SPACE
    requires seg.kind != Sack || h.stage != Connected
    ensures var e := ReceiveFrame(h, source, seg, io); Loads(h, e.h) && Emittable(e.h, e.out)
  {
  }

  /** An ack that does not reach the client, or is outside its window, is dropped. */
  lemma DroppedAck(y: Sys, i: nat, source: Address, io: Io)
    requires Inv(y) && i < |y.sOut| && y.sOut[i].seg.dest == y.c.srcPort && y.sOut[i].seg.kind == Sack
    requires !ReachesClient(y, i, source) || (y.sAbs[i] - Base(y)) % SEQUENCE_SIZE > WINDOW_SIZE
    ensures ReceiveFrame(y.c, source, y.sOut[i].seg, io) == Quiet(y.c)
  {
    if ReachesClient(y, i, source) {
      AckStep(y, i, source, io);
    }
  }

  lemma ToClientKeeps(y: Sys, i: nat, source: Address, io: Io)
    requires Inv(y) && Enabled(y, ToClient(i, source, io)) && Distinguishable(y, ToClient(i, source, io))
    ensures Inv(Next(y, ToClient(i, source, io)))
  {
    var seg := y.sOut[i].seg;
    if seg.dest == y.c.srcPort {
      if seg.kind != Sack {
        OtherAtClientKeeps(y, i, source, io);
      } else if ReachesClient(y, i, source) && (y.sAbs[i] - Base(y)) % SEQUENCE_SIZE <= WINDOW_SIZE {
        AckStep(y, i, source, io);
        ClientAckKeeps(y, (y.sAbs[i] - Base(y)) % SEQUENCE_SIZE);
      } else {
        DroppedAck(y, i, source, io);
        LoadsNothing(y.c, y.c);
        ClientLoadStep(y, Quiet(y.c));
      }
    }
    hide Inv, ReceiveFrame;
  }

  lemma OtherAtClientKeeps(y: Sys, i: nat, source: Address, io: Io)
    requires Inv(y) && i < |y.sOut| && y.sOut[i].seg.dest == y.c.srcPort && y.sOut[i].seg.kind != Sack
    ensures Inv(Next(y, ToClient(i, source, io)))
  {
    hide Inv, ReceiveFrame, Loads, Emittable, Next, ClientStep;
    ClientShape(y);
    ToClientIs(y, i, source, io);
    OtherFrameAtClient(y.c, source, y.sOut[i].seg, io);
    ClientLoadStep(y, ReceiveFrame(y.c, source, y.sOut[i].seg, io));
  }

  lemma ToClientIs(y: Sys, i: nat, source: Address, io: Io)
    requires i < |y.sOut| && y.sOut[i].seg.dest == y.c.srcPort
    ensures Next(y, ToClient(i, source, io)) == ClientStep(y, ReceiveFrame(y.c, source, y.sOut[i].seg, io))
  {
  }

  lemma ClientShape(y: Sys)
    requires Inv(y)
    ensures |y.c.window| <= WINDOW_SIZE && y.c.role == Client && y.c.stage != Listen && y.c.srcPort < PORT_SPACE
  {
  }

  // ----- the server's steps -----

  lemma ServerHandsStep(y: Sys, e: Effect, arrived: seq<byte>)
    requires Inv(y) && Hands(y.s, e.h, e.toApp, y.c.srcPort)
    requires forall i :: 0 <= i < |e.out| && e.out[i].seg.kind == Sack ==> e.out[i].seg.seqNum == y.s.ack
    ensures Inv(ServerStep(y, e, arrived)) && ServerStep(y, e, arrived).accepted == y.accepted
  {
    HandsOk(y, e.h, e.toApp, arrived);
    hide ServerOk, ChannelsOk, Flat;
    ServerEmitsKeep(ServerMoves(y, e.h, e.toApp, arrived), e.out);
  }

  lemma HandsOk(y: Sys, h: State, toApp: seq<byte>, arrived: seq<byte>)
    requires Inv(y) && Hands(y.s, h, toApp, y.c.srcPort)
    ensures Inv(ServerMoves(y, h, toApp, arrived)) && ServerMoves(y, h, toApp, arrived).accepted == y.accepted
  {
    var y' := ServerMoves(y, h, toApp, arrived);
    assert y'.app + y'.s.buffer == y.app + (toApp + h.buffer);
    assert ChannelsOk(y');
    hide Flat;
  }

  lemma SendHands(h: State, w: Write, client: Port)
    requires h.stage == Connected ==> h.destPort == client
    ensures var e := SendToSock(h, w);
      && Hands(h, e.h, e.toApp, client) && e.out == [] && !e.crashed
      && e.h == h.(stage := e.h.stage, buffer := e.h.buffer)
  {
  }

  lemma ServerSockKeeps(y: Sys, io: Io)
    requires Inv(y)
    ensures Inv(Next(y, ServerSock(io))) && Next(y, ServerSock(io)).accepted == y.accepted
  {
    SendHands(y.s, io.first, y.c.srcPort);
    ServerHandsStep(y, HandleSock(y.s, io, []), []);
  }

  lemma HandsTwice(h: State, h1: State, h2: State, a: seq<byte>, b: seq<byte>, client: Port)
    requires Hands(h, h1, a, client) && Hands(h1, h2, b, client)
    ensures Hands(h, h2, a + b, client)
  {
  }

  /** A tick of a connected server serves the socket, queues one ack, serves it again and probes the peer. */
  lemma TickOfServer(h: State, io: Io, client: Port)
    requires h.role == Server && h.stage == Connected && h.destPort == client
    ensures var e := HandleTimer(h, io, []);
      && Hands(h, e.h, e.toApp, client)
      && (e.out == [AckFrame(h)] || e.out == [AckFrame(h), Control(h, Request)])
      && !e.crashed
  {
    var first := SendToSock(h, io.first);
    SendHands(h, io.first, client);
    var second := SendToSock(first.h, io.second);
    SendHands(first.h, io.second, client);
    HandsTwice(h, first.h, second.h, first.toApp, second.toApp, client);
    var e := HandleTimer(h, io, []);
    assert e.toApp == first.toApp + second.toApp;
    assert e.h == second.h.(stage := e.h.stage, alive := e.h.alive);
    assert first.out + ([AckFrame(first.h)] + second.out) == [AckFrame(h)];
  }

  lemma ServerTickKeeps(y: Sys, io: Io)
    requires Inv(y)
    ensures Inv(Next(y, ServerTick(io))) && Next(y, ServerTick(io)).accepted == y.accepted
  {
    if y.s.stage == Connected {
      TickOfServer(y.s, io, y.c.srcPort);
    }
    ServerHandsStep(y, HandleTimer(y.s, io, []), []);
  }

  /** A delivery the server's handler takes as data. */
  predicate ReachesServer(y: Sys, i: nat, source: Address)
    requires i < |y.cOut|
  {
    && y.cOut[i].seg.dest == y.s.srcPort && y.s.stage == Connected
    && source == y.s.destAddr && y.cOut[i].seg.source == y.s.destPort
  }

  /** A frame the server does not take at most makes it ack again, reply, or change its stage. */
  lemma OtherFrameAtServer(h: State, source: Address, seg: Segment, io: Io, client: Port)
    requires h.role == Server && h.stage != WaitReply && (h.stage == Connected ==> h.destPort == client)
    requires seg.source == client
    requires !(h.stage == Connected && source == h.destAddr && seg.kind == Data && seg.seqNum == h.ack)
    ensures var e := ReceiveFrame(h, source, seg, io);
      && Hands(h, e.h, e.toApp, client)
      && (forall i :: 0 <= i < |e.out| && e.out[i].seg.kind == Sack ==> e.out[i].seg.seqNum == h.ack)
  {
  }

  lemma ServerTakes(y: Sys, i: nat, source: Address, io: Io)
    requires Inv(y) && i < |y.cOut| && y.cOut[i].seg.kind == Data && ReachesServer(y, i, source)
    requires y.cAbs[i] == |y.accepted|
    ensures var y' := Next(y, ToServer(i, source, io));
      Inv(y') && y'.accepted == y.accepted + [y.loaded[y.cAbs[i]]] && y'.sOut == y.sOut && y'.sAbs == y.sAbs
  {
    var seg := y.cOut[i].seg;
    var e := ReceiveFrame(y.s, source, seg, io);
    assert seg.seqNum == y.s.ack && e == AcceptData(y.s, seg);
    ServerAcceptKeeps(y, seg, e.h);
    ServerEmitsKeep(ServerMoves(y, e.h, [], seg.msg), []);
  }

  lemma ToServerKeeps(y: Sys, i: nat, source: Address, io: Io)
    requires Inv(y) && Enabled(y, ToServer(i, source, io)) && Distinguishable(y, ToServer(i, source, io))
    ensures Inv(Next(y, ToServer(i, source, io)))
    ensures var y' := Next(y, ToServer(i, source, io));
      y'.accepted == y.accepted ||
      (y.cOut[i].seg.kind == Data && y.cAbs[i] == |y.accepted| && y'.accepted == y.accepted + [y.loaded[y.cAbs[i]]])
  {
    var seg := y.cOut[i].seg;
    if seg.dest == y.s.srcPort {
      if seg.kind == Data && ReachesServer(y, i, source) && seg.seqNum == y.s.ack {
        SameResidue(|y.accepted|, y.cAbs[i]);
        ServerTakes(y, i, source, io);
      } else {
        OtherFrameAtServer(y.s, source, seg, io, y.c.srcPort);
        ServerHandsStep(y, ReceiveFrame(y.s, source, seg, io), seg.msg);
      }
    }
  }

  lemma SameResidue(a: nat, b: nat)
    ensures a % SEQUENCE_SIZE == b % SEQUENCE_SIZE <==> (a - b) % SEQUENCE_SIZE == 0
  {}

  /** Every step whose delivery, if any, is distinguishable keeps the joint invariant. */
  lemma StepKeeps(y: Sys, e: Event)
    requires Inv(y) && Enabled(y, e) && Distinguishable(y, e)
    ensures Inv(Next(y, e))
  {
    match e
    case ClientSock(io) => ClientSockKeeps(y, io);
    case ClientTick(io) => ClientTickKeeps(y, io);
    case ServerSock(io) => ServerSockKeeps(y, io);
    case ServerTick(io) => ServerTickKeeps(y, io);
    case ToServer(i, source, io) => ToServerKeeps(y, i, source, io);
    case ToClient(i, source, io) => ToClientKeeps(y, i, source, io);
  }

  // ----- how stale a delivery may be -----

  /** A data frame less than 40 behind the expected one, an ack less than 30 behind the window. */
  predicate Fresh(y: Sys, e: Event)
    requires Enabled(y, e) && |y.cAbs| == |y.cOut| && |y.sAbs| == |y.sOut|
  {
    match e
    case ToServer(i, _, _) => y.cOut[i].seg.kind == Data ==> |y.accepted| - y.cAbs[i] < SEQUENCE_SIZE
    case ToClient(i, _, _) => y.sOut[i].seg.kind == Sack ==> Base(y) - y.sAbs[i] < SEQUENCE_SIZE - WINDOW_SIZE
    case _ => true
  }

  lemma FreshIsDistinguishable(y: Sys, e: Event)
    requires Inv(y) && Enabled(y, e) && Fresh(y, e)
    ensures Distinguishable(y, e)
  {
    match e
    case ToServer(i, _, _) =>
      if y.cOut[i].seg.kind == Data {
        DataBehind(y, i);
        FreshData(|y.accepted|, y.cAbs[i], Base(y));
      }
    case ToClient(i, _, _) =>
      if y.sOut[i].seg.kind == Sack {
        FreshAck(Base(y), y.sAbs[i], |y.accepted|);
      }
    case _ =>
  }

  lemma DataBehind(y: Sys, i: nat)
    requires Inv(y) && i < |y.cOut| && y.cOut[i].seg.kind == Data
    ensures |y.cAbs| == |y.cOut| && y.cAbs[i] < Base(y) + WINDOW_SIZE && Base(y) <= |y.accepted|
  {
  }

  /** Less than 40 behind and less than 10 ahead: only the expected frame is 0 modulo 40 away. */
  lemma FreshData(expected: int, n: int, base: int)
    requires expected - n < SEQUENCE_SIZE && n < base + WINDOW_SIZE && base <= expected
    ensures n == expected || (expected - n) % SEQUENCE_SIZE != 0
  {
  }

  /** Less than 30 behind: decoded as a move of at most ten only if it really is one. */
  lemma FreshAck(base: int, ack: int, accepted: int)
    requires base - ack < SEQUENCE_SIZE - WINDOW_SIZE && ack <= accepted
    ensures var moves := (ack - base) % SEQUENCE_SIZE; moves <= WINDOW_SIZE ==> base + moves <= accepted
  {
  }

  // ----- runs -----

  function Run(y: Sys, es: seq<Event>): Sys
    decreases |es|
  {
    if es == [] || !Enabled(y, es[0]) then y else Run(Next(y, es[0]), es[1..])
  }

  /** Any interleaving of the handlers' events, any loss, duplication and reordering, nothing too stale. */
  ghost predicate FreshRun(y: Sys, es: seq<Event>)
    decreases |es|
  {
    es == [] ||
    (Enabled(y, es[0]) && |y.cAbs| == |y.cOut| && |y.sAbs| == |y.sOut| && Fresh(y, es[0]) &&
     FreshRun(Next(y, es[0]), es[1..]))
  }

  lemma {:induction false} FreshRunKeeps(y: Sys, es: seq<Event>)
    requires Inv(y) && FreshRun(y, es)
    ensures Inv(Run(y, es))
    decreases |es|
  {
    if es != [] {
      FreshIsDistinguishable(y, es[0]);
      StepKeeps(y, es[0]);
      FreshRunKeeps(Next(y, es[0]), es[1..]);
    }
  }

  lemma InitOk(y: Sys)
    requires Init(y)
    ensures Inv(y)
  {
  }

  // ----- the bytes the client's application wrote -----

  /** What the client's socket gave to the free slots of its window in one event. */
  function ReadBy(y: Sys, e: Event): seq<seq<byte>> {
    match e
    case ClientSock(io) => ReadNow(y.c, io)
    case ClientTick(io) => ReadNow(y.c, io)
    case _ => []
  }

  function ReadNow(h: State, io: Io): seq<seq<byte>> {
    if h.stage == Connected && h.role == Client && |h.window| <= WINDOW_SIZE
    then Chunks(io.input, WINDOW_SIZE - |h.window|) else []
  }

  /** Everything read from the client's socket over a run, read by read. */
  function ReadOver(y: Sys, es: seq<Event>): seq<seq<byte>>
    decreases |es|
  {
    if es == [] || !Enabled(y, es[0]) then [] else ReadBy(y, es[0]) + ReadOver(Next(y, es[0]), es[1..])
  }

  lemma MessagesBehind(w: seq<Segment>, w': seq<Segment>, read: seq<seq<byte>>)
    requires |w| <= |w'| && Messages(w') == Messages(w) + read
    ensures Messages(w'[|w|..]) == read
  {
    var news := w'[|w|..];
    assert |news| == |read|;
    forall i | 0 <= i < |news|
      ensures Messages(news)[i] == read[i]
    {
      assert Messages(news)[i] == Messages(w')[|w| + i];
    }
  }

  lemma LoadedIsReadNow(y: Sys, io: Io, h: State)
    requires y.c.stage == Connected && y.c.role == Client && |y.c.window| <= WINDOW_SIZE
    requires h.window == LoadFrames(y.c, io.input).window
    ensures ClientMoves(y, h).loaded == y.loaded + ReadNow(y.c, io)
  {
    LoadFramesTakes(y.c, io.input);
    LoadFramesLoads(y.c, io.input);
    MessagesBehind(y.c.window, h.window, ReadNow(y.c, io));
    if |h.window| == |y.c.window| {
      assert ReadNow(y.c, io) == [];
    }
    hide LoadFrames, Chunks, Messages;
  }

  lemma NothingLoaded(y: Sys, h: State)
    requires |h.window| <= |y.c.window|
    ensures ClientMoves(y, h).loaded == y.loaded
  {
  }

  lemma ReceiveShrinks(h: State, source: Address, seg: Segment, io: Io)
    ensures |ReceiveFrame(h, source, seg, io).h.window| <= |h.window|
  {
  }

  /** In every event the stream of loaded frames grows by exactly what the socket gave. */
  lemma StepReads(y: Sys, e: Event)
    requires Inv(y) && Enabled(y, e)
    ensures Next(y, e).loaded == y.loaded + ReadBy(y, e)
  {
    ClientShape(y);
    match e
    case ClientSock(io) => SockReads(y, io);
    case ClientTick(io) => TickReads(y, io);
    case ToClient(i, source, io) =>
      ReceiveShrinks(y.c, source, y.sOut[i].seg, io);
      NothingLoaded(y, ReceiveFrame(y.c, source, y.sOut[i].seg, io).h);
      hide ReceiveFrame, Inv;
    case _ =>
  }

  lemma SockReads(y: Sys, io: Io)
    requires |y.c.window| <= WINDOW_SIZE && y.c.role == Client
    ensures Next(y, ClientSock(io)).loaded == y.loaded + ReadNow(y.c, io)
  {
    var e := HandleSock(y.c, io, []);
    if y.c.stage == Connected {
      LoadedIsReadNow(y, io, e.h);
    } else {
      RequestLoadsNothing(y.c, io.asks);
      NothingLoaded(y, e.h);
    }
    hide LoadFrames, HandleRequest, Messages;
  }

  lemma RequestLoadsNothing(h: State, asks: seq<Ask>)
    ensures HandleRequest(h, asks, []).h.window == h.window
  {
  }

  lemma TickReads(y: Sys, io: Io)
    requires |y.c.window| <= WINDOW_SIZE && y.c.role == Client
    ensures Next(y, ClientTick(io)).loaded == y.loaded + ReadNow(y.c, io)
  {
    var e := HandleTimer(y.c, io, []);
    if y.c.stage == Connected {
      TickOfClient(y.c, io);
      LoadedIsReadNow(y, io, e.h);
    } else {
      NothingLoaded(y, e.h);
    }
    hide LoadFrames, HandleTimer, Messages;
  }

  lemma {:induction false} LoadedIsRead(y: Sys, es: seq<Event>)
    requires Inv(y) && FreshRun(y, es)
    ensures Run(y, es).loaded == y.loaded + ReadOver(y, es)
    decreases |es|
  {
    hide Inv, Enabled, Next, Fresh, Distinguishable, ReadBy;
    if es != [] {
      StepReads(y, es[0]);
      FreshIsDistinguishable(y, es[0]);
      StepKeeps(y, es[0]);
      LoadedIsRead(Next(y, es[0]), es[1..]);
    }
  }

  // ----- delivery -----

  /** What the application got and what is buffered for it are the first whole frames of the stream, in order. */
  ghost predicate DeliversOf(y: Sys, stream: seq<seq<byte>>) {
    exists n :: 0 <= n <= |stream| && y.app + y.s.buffer == Flat(stream[..n])
      && |stream| - |y.c.window| <= n && y.s.ack == n % SEQUENCE_SIZE && y.s.received == |Flat(stream[..n])|
  }

  ghost predicate DeliversPrefix(y: Sys) {
    DeliversOf(y, y.loaded)
  }

  /** In particular the bytes handed to the application are the first ones of the stream. */
  lemma AppIsPrefix(y: Sys, stream: seq<seq<byte>>)
    requires DeliversOf(y, stream)
    ensures y.app <= Flat(stream)
  {
    var n :| 0 <= n <= |stream| && y.app + y.s.buffer == Flat(stream[..n]);
    FlatAppend(stream[..n], stream[n..]);
    assert stream[..n] + stream[n..] == stream;
    assert y.app <= Flat(stream[..n]);
  }

  lemma InvDelivers(y: Sys)
    requires Inv(y)
    ensures DeliversPrefix(y)
  {
    var n := |y.accepted|;
    assert y.loaded[..n] == y.accepted;
  }

  /**
   * Reliable in-order delivery over a network that loses, duplicates and reorders: of what was read from the
   * client's socket the server's application has, or has waiting for it, the first whole reads and no other byte.
   */
  lemma ReliableDelivery(y: Sys, es: seq<Event>)
    requires Init(y) && FreshRun(y, es)
    ensures DeliversOf(Run(y, es), ReadOver(y, es)) && Run(y, es).app <= Flat(ReadOver(y, es))
  {
    hide Inv, Run, FreshRun, ReadOver, DeliversOf;
    InitOk(y);
    FreshRunKeeps(y, es);
    InvDelivers(Run(y, es));
    LoadedIsRead(y, es);
    assert Run(y, es).loaded == ReadOver(y, es);
    AppIsPrefix(Run(y, es), ReadOver(y, es));
  }

  // ----- clean close -----

  /**
   * When a connected client gives up because its application closed the socket, every byte it ever loaded
   * has been accepted by the server, and the two byte counters agree.
   */
  lemma CleanClose(y: Sys, io: Io)
    requires Inv(y) && y.c.stage == Connected
    ensures forall e | e == ClientSock(io) || (e == ClientTick(io) && y.c.alive) ::
      var y' := Next(y, e);
      y'.c.stage == Failure ==>
        y'.accepted == y'.loaded && y'.app + y'.s.buffer == Flat(y'.loaded) && y'.s.received == y'.c.loaded
  {
    ClientSockKeeps(y, io);
    ClientTickKeeps(y, io);
    LoadFramesLoads(y.c, io.input);
    TickOfClient(y.c, io);
    forall e | e == ClientSock(io) || (e == ClientTick(io) && y.c.alive)
      ensures Next(y, e).c.stage == Failure ==> Next(y, e).accepted == Next(y, e).loaded
    {
      if Next(y, e).c.stage == Failure {
        assert Next(y, e).c.window == [];
        assert Inv(Next(y, e));
      }
    }
  }
}
