/**
 * A client and a server handler and the network between them. Everything an endpoint ever queued is kept,
 * with the absolute number it stands for (of a data frame: its place in the stream; of an ack: the number of
 * frames accepted), so that loss, duplication and reordering are all a matter of which index is delivered next.
 */
module GoBackN {
  import opened Wire
  import opened Handler
  import Bits

  datatype Sys = Sys(
    c: State, s: State,
    cOut: seq<Packet>, sOut: seq<Packet>,
    cAbs: seq<int>, sAbs: seq<int>,
    loaded: seq<seq<byte>>, accepted: seq<seq<byte>>, app: seq<byte>)

  datatype Event =
    | ClientSock(io: Io)
    | ClientTick(io: Io)
    | ServerSock(io: Io)
    | ServerTick(io: Io)
    | ToServer(i: nat, source: Address, io: Io)
    | ToClient(i: nat, source: Address, io: Io)

  function Flat(chunks: seq<seq<byte>>): seq<byte> {
    if chunks == [] then [] else chunks[0] + Flat(chunks[1..])
  }

  lemma {:induction false} FlatAppend(a: seq<seq<byte>>, b: seq<seq<byte>>)
    ensures Flat(a + b) == Flat(a) + Flat(b)
  {
    if a == [] {
      assert a + b == b;
    } else {
      assert (a + b)[1..] == a[1..] + b;
      FlatAppend(a[1..], b);
    }
  }

  /** The absolute number of the first frame in the client's window. */
  function Base(y: Sys): int { |y.loaded| - |y.c.window| }

  /** The client's state becomes h; frames that appeared behind its window were loaded just now. */
  function ClientMoves(y: Sys, h: State): Sys {
    var news := if |h.window| > |y.c.window| then h.window[|y.c.window|..] else [];
    y.(c := h, loaded := y.loaded + Messages(news))
  }

  function ClientEmits(y: Sys, out: seq<Packet>): Sys {
    y.(cOut := y.cOut + out, cAbs := y.cAbs + seq(|out|, i => Base(y) + i))
  }

  function ClientStep(y: Sys, e: Effect): Sys {
    ClientEmits(ClientMoves(y, e.h), e.out)
  }

  /** The server's state becomes h; its ack advances exactly when it takes the frame that arrived. */
  function ServerMoves(y: Sys, h: State, toApp: seq<byte>, arrived: seq<byte>): Sys {
    y.(s := h, app := y.app + toApp,
       accepted := if h.ack != y.s.ack then y.accepted + [arrived] else y.accepted)
  }

  function ServerEmits(y: Sys, out: seq<Packet>): Sys {
    y.(sOut := y.sOut + out, sAbs := y.sAbs + seq(|out|, _ => |y.accepted|))
  }

  function ServerStep(y: Sys, e: Effect, arrived: seq<byte>): Sys {
    ServerEmits(ServerMoves(y, e.h, e.toApp, arrived), e.out)
  }

  predicate Enabled(y: Sys, e: Event) {
    (e.ToServer? ==> e.i < |y.cOut|) && (e.ToClient? ==> e.i < |y.sOut|)
  }

  /** A frame reaches a handler only through the daemon's demultiplexer, by destination port. */
  function Next(y: Sys, e: Event): Sys
    requires Enabled(y, e)
  {
    match e
    case ClientSock(io) => ClientStep(y, HandleSock(y.c, io, []))
    case ClientTick(io) => ClientStep(y, HandleTimer(y.c, io, []))
    case ServerSock(io) => ServerStep(y, HandleSock(y.s, io, []), [])
    case ServerTick(io) => ServerStep(y, HandleTimer(y.s, io, []), [])
    case ToServer(i, source, io) =>
      var seg := y.cOut[i].seg;
      if seg.dest == y.s.srcPort then ServerStep(y, ReceiveFrame(y.s, source, seg, io), seg.msg) else y
    case ToClient(i, source, io) =>
      var seg := y.sOut[i].seg;
      if seg.dest == y.c.srcPort then ClientStep(y, ReceiveFrame(y.c, source, seg, io)) else y
  }

  /** A client that has just sent its request to a listening server. */
  predicate Init(y: Sys) {
    && y.c.role == Client && y.c.stage == WaitReply && y.c.window == [] && y.c.base == 0 && y.c.loaded == 0
    && y.s.role == Server && y.s.stage == Listen && y.s.ack == 0 && y.s.buffer == [] && y.s.received == 0
    && y.c.destPort == y.s.srcPort && y.c.srcPort < PORT_SPACE && y.s.srcPort < PORT_SPACE
    && y.cOut == [Control(y.c, Request)] && y.cAbs == [0] && y.sOut == [] && y.sAbs == []
    && y.loaded == [] && y.accepted == [] && y.app == []
  }

  // ----- the joint invariant -----

  ghost predicate ClientOk(y: Sys) {
    && y.c.role == Client && y.c.stage != Application && y.c.stage != Listen
    && |y.c.window| <= WINDOW_SIZE && Base(y) >= 0
    && y.c.base == Base(y) % SEQUENCE_SIZE
    && (y.c.stage == WaitReply ==> y.loaded == [])
    && y.c.destPort == y.s.srcPort && y.c.srcPort < PORT_SPACE && y.s.srcPort < PORT_SPACE
    && (forall i :: 0 <= i < |y.c.window| ==> y.c.window[i] == Numbered(y, Base(y) + i))
    && y.c.loaded == |Flat(y.loaded)|
  }

  /** The data frame with absolute number n. */
  function Numbered(y: Sys, n: int): Segment
    requires 0 <= n < |y.loaded|
  {
    Segment(Data, y.c.destPort, y.c.srcPort, n % SEQUENCE_SIZE, y.loaded[n])
  }

  ghost predicate ServerOk(y: Sys) {
    && y.s.role == Server && y.s.stage != Application && y.s.stage != WaitReply
    && (y.s.stage == Connected ==> y.s.destPort == y.c.srcPort)
    && y.s.ack == |y.accepted| % SEQUENCE_SIZE
    && y.app + y.s.buffer == Flat(y.accepted)
    && y.s.received == |Flat(y.accepted)|
  }

  ghost predicate ChannelsOk(y: Sys) {
    && |y.cAbs| == |y.cOut| && |y.sAbs| == |y.sOut|
    && (forall i :: 0 <= i < |y.cOut| ==> y.cOut[i].seg.source == y.c.srcPort)
    && (forall i :: 0 <= i < |y.cOut| && y.cOut[i].seg.kind == Data ==>
          0 <= y.cAbs[i] < |y.loaded| && y.cOut[i].seg == Numbered(y, y.cAbs[i]))
    && (forall i :: 0 <= i < |y.sOut| && y.sOut[i].seg.kind == Sack ==>
          0 <= y.sAbs[i] <= |y.accepted| && y.sOut[i].seg.seqNum == y.sAbs[i] % SEQUENCE_SIZE)
  }

  /** The server holds a prefix of the stream that reaches at least to the client's window. */
  ghost predicate PrefixOk(y: Sys) {
    && y.accepted <= y.loaded
    && Base(y) <= |y.accepted|
  }

  ghost predicate Inv(y: Sys) {
    ClientOk(y) && ServerOk(y) && ChannelsOk(y) && PrefixOk(y)
  }

  // ----- sequence numbers stand for absolute numbers -----

  /** The circular tests of the client decode an ack as its distance from the base, modulo 40. */
  lemma Circular(base: nat, ack: nat)
    ensures AckAccepted(base % SEQUENCE_SIZE, ack % SEQUENCE_SIZE) <==> (ack - base) % SEQUENCE_SIZE <= WINDOW_SIZE
    ensures CalcMoves(base % SEQUENCE_SIZE, ack % SEQUENCE_SIZE) == (ack - base) % SEQUENCE_SIZE
  {
    CircularResidues(base % SEQUENCE_SIZE, ack % SEQUENCE_SIZE);
    DistanceOfResidues(base, ack);
  }

  lemma CircularResidues(b: nat, a: nat)
    requires b < SEQUENCE_SIZE && a < SEQUENCE_SIZE
    ensures AckAccepted(b, a) <==> CalcMoves(b, a) <= WINDOW_SIZE
    ensures CalcMoves(b, a) == if a < b then a - b + SEQUENCE_SIZE else a - b
  {
  }

  lemma DistanceOfResidues(base: nat, ack: nat)
    ensures var b, a := base % SEQUENCE_SIZE, ack % SEQUENCE_SIZE;
      (ack - base) % SEQUENCE_SIZE == if a < b then a - b + SEQUENCE_SIZE else a - b
  {
    var b, a := base % SEQUENCE_SIZE, ack % SEQUENCE_SIZE;
    assert base == SEQUENCE_SIZE * (base / SEQUENCE_SIZE) + b;
    assert ack == SEQUENCE_SIZE * (ack / SEQUENCE_SIZE) + a;
  }

  lemma SequenceAdd(base: nat, i: nat)
    ensures (base % SEQUENCE_SIZE + i) % SEQUENCE_SIZE == (base + i) % SEQUENCE_SIZE
  {
    var x := base % SEQUENCE_SIZE + i;
    Bits.ModUnique(base + i, SEQUENCE_SIZE, base / SEQUENCE_SIZE + x / SEQUENCE_SIZE, x % SEQUENCE_SIZE);
  }

  // ----- loading -----

  /** h' is h with nothing but frames added behind its window; the stage may have advanced. */
  ghost predicate Loads(h: State, h': State) {
    && |h.window| <= |h'.window| <= WINDOW_SIZE
    && h.window <= h'.window
    && (forall i :: |h.window| <= i < |h'.window| ==> h'.window[i] == Slot(h, i, h'.window[i].msg))
    && h'.loaded == h.loaded + |Flat(Messages(h'.window[|h.window|..]))|
    && h' == h.(stage := h'.stage, alive := h'.alive, window := h'.window, loaded := h'.loaded)
    && (h'.stage == h.stage || h'.stage == Connected || h'.stage == Failure)
    && (h'.stage == WaitReply ==> h'.window == h.window)
  }

  /** What the client puts into slot i of its window. */
  function Slot(h: State, i: nat, bytes: seq<byte>): Segment {
    MakeSegment(Data, h.destPort, h.srcPort, (h.base + i) % SEQUENCE_SIZE, bytes)
  }

  lemma LoadsNothing(h: State, h': State)
    requires |h.window| <= WINDOW_SIZE && h' == h.(stage := h'.stage, alive := h'.alive)
    requires h'.stage == h.stage || h'.stage == Connected || h'.stage == Failure
    ensures Loads(h, h')
  {
  }

  lemma LoadsOneMore(h: State, bytes: Chunk, h1: State, h': State)
    requires |h.window| < WINDOW_SIZE
    requires h1 == h.(window := h.window + [DataSegment(h, bytes)], loaded := h.loaded + |bytes|)
    requires Loads(h1, h') && h.stage != WaitReply
    ensures Loads(h, h')
  {
    hide Flat, Messages;
    MoreBytes(h.window, h1.window, h'.window, DataSegment(h, bytes));
    SlotsOneMore(h, bytes, h1, h');
  }

  lemma MoreBytes(w: seq<Segment>, w1: seq<Segment>, w': seq<Segment>, seg: Segment)
    requires w1 == w + [seg] && w1 <= w'
    ensures w <= w' && |Flat(Messages(w'[|w|..]))| == |seg.msg| + |Flat(Messages(w'[|w1|..]))|
  {
    assert w'[|w|] == w1[|w|] == seg;
    assert w'[|w|..] == [seg] + w'[|w1|..];
    MessagesSplit(seg, w'[|w1|..]);
  }

  lemma SlotsOneMore(h: State, bytes: Chunk, h1: State, h': State)
    requires h1 == h.(window := h.window + [DataSegment(h, bytes)], loaded := h.loaded + |bytes|)
    requires h1.window <= h'.window
    requires forall i :: |h1.window| <= i < |h'.window| ==> h'.window[i] == Slot(h1, i, h'.window[i].msg)
    ensures forall i :: |h.window| <= i < |h'.window| ==> h'.window[i] == Slot(h, i, h'.window[i].msg)
  {
    var n := |h.window|;
    assert h'.window[n] == h1.window[n] == Slot(h, n, bytes);
    forall i | n <= i < |h'.window|
      ensures h'.window[i] == Slot(h, i, h'.window[i].msg)
    {
      if i > n {
        assert h'.window[i] == Slot(h1, i, h'.window[i].msg);
      }
    }
  }

  lemma MessagesSplit(seg: Segment, segs: seq<Segment>)
    ensures Messages([seg] + segs) == [seg.msg] + Messages(segs)
    ensures |Flat(Messages([seg] + segs))| == |seg.msg| + |Flat(Messages(segs))|
  {
  }

  lemma {:induction false} LoadFramesLoads(h: State, input: seq<Read>)
    requires |h.window| <= WINDOW_SIZE && h.stage == Connected
    ensures Loads(h, LoadFrames(h, input))
    ensures LoadFrames(h, input).stage == Failure ==> LoadFrames(h, input).window == []
    decreases input
  {
    if |h.window| < WINDOW_SIZE && input != [] && input[0].Got? {
      var h1 := h.(window := h.window + [DataSegment(h, input[0].bytes)], loaded := h.loaded + |input[0].bytes|);
      LoadFramesLoads(h1, input[1..]);
      LoadsOneMore(h, input[0].bytes, h1, LoadFrames(h, input));
    } else {
      LoadsNothing(h, LoadFrames(h, input));
    }
  }

  // ----- the client's moves keep the invariant -----

  lemma LoadedStream(y: Sys, h: State)
    requires ClientOk(y) && Loads(y.c, h)
    ensures var y' := ClientMoves(y, h);
      && y'.loaded == y.loaded + Messages(h.window[|y.c.window|..])
      && Base(y') == Base(y)
      && h.loaded == |Flat(y'.loaded)|
  {
    var news := Messages(h.window[|y.c.window|..]);
    if |h.window| == |y.c.window| {
      assert news == [];
      assert y.loaded + news == y.loaded;
    }
    FlatAppend(y.loaded, news);
  }

  lemma LoadedWindow(y: Sys, h: State, i: nat)
    requires ClientOk(y) && Loads(y.c, h) && i < |h.window|
    requires ClientMoves(y, h).loaded == y.loaded + Messages(h.window[|y.c.window|..])
    ensures h.window[i] == Numbered(ClientMoves(y, h), Base(y) + i)
  {
    hide Flat, Messages;
    var n := |y.c.window|;
    if i < n {
      assert h.window[i] == y.c.window[i] == Numbered(y, Base(y) + i);
    } else {
      LoadedSlot(y.c, Base(y), h, i);
      LoadedMessage(y.loaded, h.window, n, i);
    }
  }

  lemma LoadedMessage(loaded: seq<seq<byte>>, w: seq<Segment>, n: nat, i: nat)
    requires n <= i < |w|
    ensures (loaded + Messages(w[n..]))[|loaded| - n + i] == w[i].msg
  {
  }

  lemma LoadedSlot(h: State, base: nat, h': State, i: nat)
    requires Loads(h, h') && |h.window| <= i < |h'.window|
    requires h.base == base % SEQUENCE_SIZE && h.srcPort < PORT_SPACE && h.destPort < PORT_SPACE
    ensures h'.window[i] == Segment(Data, h.destPort, h.srcPort, (base + i) % SEQUENCE_SIZE, h'.window[i].msg)
  {
    SequenceAdd(base, i);
  }

  lemma ClientLoadsKeep(y: Sys, h: State)
    requires Inv(y) && Loads(y.c, h)
    ensures Inv(ClientMoves(y, h))
    ensures Base(ClientMoves(y, h)) == Base(y)
  {
    var y' := ClientMoves(y, h);
    LoadedStream(y, h);
    forall i | 0 <= i < |h.window|
      ensures h.window[i] == Numbered(y', Base(y) + i)
    {
      LoadedWindow(y, h, i);
    }
    assert ClientOk(y');
    ChannelsSurviveLoads(y, y');
  }

  lemma ChannelsSurviveLoads(y: Sys, y': Sys)
    requires ChannelsOk(y) && y.loaded <= y'.loaded
    requires y'.c.srcPort == y.c.srcPort && y'.c.destPort == y.c.destPort
    requires y' == y.(c := y'.c, loaded := y'.loaded)
    ensures ChannelsOk(y')
  {
  }

  /** A decoded ack inside what the server accepted moves the window past frames the server has. */
  lemma ClientMoveKeeps(y: Sys, moves: nat)
    requires Inv(y) && Base(y) + moves <= |y.accepted|
    ensures Inv(ClientMoves(y, MoveWindow(y.c, moves)))
    ensures Base(ClientMoves(y, MoveWindow(y.c, moves))) == Base(y) + moves
    ensures ClientMoves(y, MoveWindow(y.c, moves)).loaded == y.loaded
    ensures moves <= |y.c.window|
  {
    var y' := ClientMoves(y, MoveWindow(y.c, moves));
    assert y'.loaded == y.loaded;
    assert y'.c.window == y.c.window[moves..];
    SequenceAdd(Base(y), moves);
    assert ChannelsOk(y') by { ChannelsSurviveLoads(y, y'); }
  }

  ghost predicate Emittable(h: State, out: seq<Packet>) {
    forall i :: 0 <= i < |out| ==>
      && out[i].seg.source == h.srcPort
      && (out[i].seg.kind == Data ==> i < |h.window| && out[i].seg == h.window[i])
  }

  lemma ClientEmitsKeep(y: Sys, out: seq<Packet>)
    requires Inv(y) && Emittable(y.c, out)
    ensures Inv(ClientEmits(y, out))
  {
    EmittedChannels(y, out);
    hide ChannelsOk, Emittable, Flat;
  }

  lemma EmittedChannels(y: Sys, out: seq<Packet>)
    requires ClientOk(y) && ChannelsOk(y) && Emittable(y.c, out)
    ensures ChannelsOk(ClientEmits(y, out))
  {
    hide Flat;
  }

  // ----- the server's moves keep the invariant -----

  /** The server hands some buffered bytes to the application, or only changes its stage or addresses. */
  ghost predicate Hands(h: State, h': State, toApp: seq<byte>, client: Port) {
    && h' == h.(stage := h'.stage, alive := h'.alive, destAddr := h'.destAddr, destPort := h'.destPort,
                buffer := h'.buffer)
    && toApp + h'.buffer == h.buffer
    && (h'.stage == h.stage || h'.stage == Connected || h'.stage == Failure)
    && (h'.stage == Connected ==> h'.destPort == client)
  }

  /** Taking the frame with the expected absolute number extends the accepted prefix by one frame. */
  lemma ServerAcceptKeeps(y: Sys, seg: Segment, h: State)
    requires Inv(y) && |y.accepted| < |y.loaded| && seg == Numbered(y, |y.accepted|)
    requires h == AcceptData(y.s, seg).h
    ensures Inv(ServerMoves(y, h, [], seg.msg))
    ensures ServerMoves(y, h, [], seg.msg).accepted == y.accepted + [seg.msg]
  {
    var y' := ServerMoves(y, h, [], seg.msg);
    NextAck(|y.accepted|);
    assert y'.accepted == y.accepted + [seg.msg];
    AcceptedIsOk(y, seg, h);
    assert ChannelsOk(y');
    hide ServerOk, Flat;
  }

  lemma AcceptedIsOk(y: Sys, seg: Segment, h: State)
    requires ServerOk(y) && seg.seqNum == y.s.ack && h == AcceptData(y.s, seg).h
    ensures ServerOk(ServerMoves(y, h, [], seg.msg))
  {
    NextAck(|y.accepted|);
    AcceptedBytes(y, seg.msg);
    FlatAppend(y.accepted, [seg.msg]);
    FlatOne(seg.msg);
    hide Flat;
  }

  lemma FlatOne(msg: seq<byte>)
    ensures Flat([msg]) == msg
  {
  }

  lemma NextAck(n: nat)
    ensures (n % SEQUENCE_SIZE + 1) % SEQUENCE_SIZE == (n + 1) % SEQUENCE_SIZE != n % SEQUENCE_SIZE
  {}

  lemma AcceptedBytes(y: Sys, bytes: seq<byte>)
    requires ServerOk(y)
    ensures y.app + (y.s.buffer + bytes) == Flat(y.accepted + [bytes])
  {
    FlatAppend(y.accepted, [bytes]);
    assert Flat([bytes]) == bytes;
    assert y.app + (y.s.buffer + bytes) == (y.app + y.s.buffer) + bytes;
  }

  lemma ServerEmitsKeep(y: Sys, out: seq<Packet>)
    requires Inv(y)
    requires forall i :: 0 <= i < |out| && out[i].seg.kind == Sack ==> out[i].seg.seqNum == y.s.ack
    ensures Inv(ServerEmits(y, out))
  {
  }

  // ----- one step -----

  /**
   * A delivery the sequence numbers can tell apart: the data frame is the expected one or not 0 modulo 40
   * away from it; the ack, as decoded, does not point past what the server accepted.
   */
  predicate Distinguishable(y: Sys, e: Event)
    requires Enabled(y, e) && |y.cAbs| == |y.cOut| && |y.sAbs| == |y.sOut|
  {
    match e
    case ToServer(i, _, _) => y.cOut[i].seg.kind == Data ==>
      y.cAbs[i] == |y.accepted| || (|y.accepted| - y.cAbs[i]) % SEQUENCE_SIZE != 0
    case ToClient(i, _, _) => y.sOut[i].seg.kind == Sack ==>
      var moves := (y.sAbs[i] - Base(y)) % SEQUENCE_SIZE;
      moves <= WINDOW_SIZE ==> Base(y) + moves <= |y.accepted|
    case _ => true
  }

  lemma ClientLoadStep(y: Sys, e: Effect)
    requires Inv(y) && Loads(y.c, e.h) && Emittable(e.h, e.out)
    ensures Inv(ClientStep(y, e)) && Base(ClientStep(y, e)) == Base(y)
  {
    ClientLoadsKeep(y, e.h);
    ClientEmitsKeep(ClientMoves(y, e.h), e.out);
  }

  lemma ClientSockKeeps(y: Sys, io: Io)
    requires Inv(y)
    ensures Inv(Next(y, ClientSock(io))) && Base(Next(y, ClientSock(io))) == Base(y)
  {
    var e := HandleSock(y.c, io, []);
    if y.c.stage == Connected {
      LoadFramesLoads(y.c, io.input);
    } else {
      LoadsNothing(y.c, e.h);
    }
    ClientLoadStep(y, e);
  }

  lemma WindowEmittable(y: Sys)
    requires ClientOk(y)
    ensures Emittable(y.c, QueuedWindow(y.c)) && Emittable(y.c, QueuedWindow(y.c) + [Control(y.c, Request)])
  {
  }

  /** A tick of a connected client serves the socket, queues the whole window and probes the peer. */
  lemma TickOfClient(h: State, io: Io)
    requires h.role == Client && h.stage == Connected
    ensures var h1, e := LoadFrames(h, io.input), HandleTimer(h, io, []);
      && e.h == h1.(stage := e.h.stage, alive := e.h.alive)
      && (e.h.stage == h1.stage || e.h.stage == Failure)
      && (e.out == QueuedWindow(h1) || e.out == QueuedWindow(h1) + [Control(h1, Request)])
      && (h.alive ==> e.h.stage == h1.stage && e.out == QueuedWindow(h1) + [Control(h1, Request)])
      && !e.crashed
  {
    LoadKeepsRest(h, io.input);
    var h1 := LoadFrames(h, io.input);
    assert HandleSock(h, io, []) == Quiet(h1);
    assert Retransmit(h1, io) == Effect(h1, QueuedWindow(h1), [], [], false);
    assert [] + QueuedWindow(h1) == QueuedWindow(h1);
  }

  lemma LoadsThenStage(h: State, h1: State, h2: State)
    requires Loads(h, h1) && h2 == h1.(stage := h2.stage, alive := h2.alive)
    requires h2.stage == h1.stage || h2.stage == Failure
    ensures Loads(h, h2)
  {}

  /** The retransmitted window, with or without the probe behind it, is made of the frames of the window. */
  lemma LoadedWindowEmittable(y: Sys, h: State, e: Effect)
    requires Inv(y) && Loads(y.c, h)
    requires e.h.window == h.window && e.h.srcPort == h.srcPort
    requires e.out == QueuedWindow(h) || e.out == QueuedWindow(h) + [Control(h, Request)]
    ensures Emittable(e.h, e.out)
  {
    ClientLoadsKeep(y, h);
    WindowEmittable(ClientMoves(y, h));
  }

  lemma ClientTickKeeps(y: Sys, io: Io)
    requires Inv(y)
    ensures Inv(Next(y, ClientTick(io))) && Base(Next(y, ClientTick(io))) == Base(y)
  {
    var e := HandleTimer(y.c, io, []);
    TickLoads(y, io);
    ClientLoadStep(y, e);
  }

  lemma TickLoads(y: Sys, io: Io)
    requires Inv(y)
    ensures var e := HandleTimer(y.c, io, []); Loads(y.c, e.h) && Emittable(e.h, e.out)
  {
    var e := HandleTimer(y.c, io, []);
    if y.c.stage == Connected {
      var h := LoadFrames(y.c, io.input);
      LoadFramesLoads(y.c, io.input);
      TickOfClient(y.c, io);
      LoadsThenStage(y.c, h, e.h);
      LoadedWindowEmittable(y, h, e);
    } else {
      LoadsNothing(y.c, e.h);
    }
  }
}
