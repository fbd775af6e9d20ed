/**
 * Two runs from the start in which every delivery but the last is fresh: one ends with an ack exactly 30 behind,
 * the other with a data frame exactly 40 behind, and each breaks the promise.
 */
module GoBackNStale {
  import opened Wire
  import opened Handler
  import opened GoBackN
  import opened GoBackNSafety
  import opened GoBackNProgress
  import opened GoBackNLimits

  lemma {:induction false} FreshThen(y: Sys, es: seq<Event>, fs: seq<Event>)
    requires FreshRun(y, es) && FreshRun(Run(y, es), fs)
    ensures FreshRun(y, es + fs) && Run(y, es + fs) == Run(Run(y, es), fs)
    decreases |es|
  {
    hide Enabled, Next, Fresh;
    if es == [] {
      assert es + fs == fs;
    } else {
      assert (es + fs)[1..] == es[1..] + fs;
      FreshThen(Next(y, es[0]), es[1..], fs);
    }
  }

  lemma FreshOne(y: Sys, e: Event)
    requires Inv(y) && Enabled(y, e) && Fresh(y, e)
    ensures FreshRun(y, [e]) && Run(y, [e]) == Next(y, e)
  {
    hide Enabled, Next, Fresh;
    assert [e][1..] == [];
    RunNone(Next(y, e));
  }

  /** Nothing queued is forgotten, and neither end changes its peer. */
  ghost predicate Continues(y: Sys, y': Sys) {
    && y.cOut <= y'.cOut && y.cAbs <= y'.cAbs && y.sOut <= y'.sOut && y.sAbs <= y'.sAbs
    && y'.c.stage == y.c.stage && y'.c.destAddr == y.c.destAddr && y'.c.destPort == y.c.destPort
    && y'.c.srcPort == y.c.srcPort
    && y'.s.stage == y.s.stage && y'.s.destAddr == y.s.destAddr && y'.s.destPort == y.s.destPort
    && y'.s.srcPort == y.s.srcPort
  }

  /** Index i of the server's queue is an ack of n frames that the client would look at. */
  ghost predicate AckAt(y: Sys, i: nat, n: int) {
    && i < |y.sOut| && i < |y.sAbs| && y.sOut[i].seg.kind == Sack && y.sAbs[i] == n
    && ReachesClient(y, i, y.c.destAddr)
  }

  /** Index i of the client's queue is data frame n, which the server would look at. */
  ghost predicate DataAt(y: Sys, i: nat, n: int) {
    && i < |y.cOut| && i < |y.cAbs| && y.cOut[i].seg.kind == Data && y.cAbs[i] == n
    && ReachesServer(y, i, y.s.destAddr)
  }

  ghost predicate Talking(y: Sys) {
    Inv(y) && y.c.stage == Connected && y.s.stage == Connected
  }

  // ----- the parts of a round -----

  lemma {:induction false} TenLoaded(h: State, input: seq<Read>)
    requires |h.window| + |input| == WINDOW_SIZE && forall i :: 0 <= i < |input| ==> input[i].Got?
    ensures |LoadFrames(h, input).window| == WINDOW_SIZE && LoadFrames(h, input).stage == h.stage
    decreases |input|
  {
    if input != [] {
      assert input[0].Got?;
      var h1 := h.(window := h.window + [DataSegment(h, input[0].bytes)], loaded := h.loaded + |input[0].bytes|);
      TenLoaded(h1, input[1..]);
    }
  }

  /** The application offers ten chunks. */
  function TenChunks(): Io {
    Io([], seq(10, _ => Got([0])), WriteBlocked, WriteBlocked, WriteBlocked)
  }

  lemma LoadsTen(y: Sys, io: Io)
    requires Talking(y) && y.c.window == [] && io == TenChunks()
    ensures var y' := Next(y, ClientSock(io));
      && Talking(y') && Continues(y, y') && |y'.c.window| == WINDOW_SIZE && Base(y') == Base(y)
      && y'.s == y.s && y'.accepted == y.accepted && y'.sOut == y.sOut && y'.sAbs == y.sAbs
  {
    ClientSockKeeps(y, io);
    TenLoaded(y.c, io.input);
    LoadKeepsRest(y.c, io.input);
    hide Inv, LoadFrames;
  }

  /** A repeated ack of the frame at the base makes the client queue its whole window. */
  lemma AckRepeats(y: Sys, a: nat, io: Io)
    requires Talking(y) && AckAt(y, a, Base(y))
    ensures var y' := Next(y, ToClient(a, y.c.destAddr, io));
      && Talking(y') && Continues(y, y') && y'.c == y.c && y'.loaded == y.loaded
      && y'.s == y.s && y'.accepted == y.accepted && y'.sOut == y.sOut && y'.sAbs == y.sAbs
      && Consecutive(y', |y.cOut|, |y.c.window|, Base(y))
  {
    AckStep(y, a, y.c.destAddr, io);
    ClientAckKeeps(y, 0);
    WindowAtEnd(y, ClientMoves(y, y.c), QueuedWindow(y.c));
  }

  lemma ExpectedTaken(y: Sys, k: nat, io: Io)
    requires Talking(y) && k < |y.cOut| && y.cOut[k].seg.kind == Data && y.cAbs[k] == |y.accepted|
    ensures var y' := Next(y, ToServer(k, y.s.destAddr, io));
      && Talking(y') && Continues(y, y') && SameClient(y, y') && |y'.accepted| == |y.accepted| + 1
      && y'.sOut == y.sOut && y'.sAbs == y.sAbs
  {
    assert y.cOut[k].seg == Numbered(y, y.cAbs[k]);
    ServerTakes(y, k, y.s.destAddr, io);
    OneDelivery(y, k, y.s.destAddr, io);
  }

  /** In-order delivery of the frames the server waits for. */
  lemma {:induction false} AllTaken(y: Sys, k: nat, n: nat, source: Address, io: Io)
    requires Talking(y) && source == y.s.destAddr && Consecutive(y, k, n, |y.accepted|)
    ensures var es := Deliveries(k, n, source, io);
      FreshRun(y, es) && Taken(y, Run(y, es), n)
    decreases n
  {
    hide Inv, Next, Enabled, Fresh, Continues, SameClient;
    if n == 0 {
      TakenNone(y);
      RunNone(y);
    } else {
      var e, rest := ToServer(k, source, io), Deliveries(k + 1, n - 1, source, io);
      FirstTaken(y, k, n, io);
      FreshOne(y, e);
      AllTaken(Next(y, e), k + 1, n - 1, source, io);
      FreshThen(y, [e], rest);
      TakenMore(y, Next(y, e), Run(Next(y, e), rest), n);
    }
  }

  ghost predicate Taken(y: Sys, y': Sys, n: nat) {
    && Talking(y') && Continues(y, y') && SameClient(y, y') && |y'.accepted| == |y.accepted| + n
    && y'.sOut == y.sOut && y'.sAbs == y.sAbs
  }

  lemma TakenNone(y: Sys)
    requires Talking(y)
    ensures Taken(y, y, 0)
  {
  }

  lemma TakenMore(y: Sys, y1: Sys, y2: Sys, n: nat)
    requires n > 0 && Taken(y, y1, 1) && Taken(y1, y2, n - 1)
    ensures Taken(y, y2, n)
  {
    hide Inv;
  }

  lemma FirstTaken(y: Sys, k: nat, n: nat, io: Io)
    requires Talking(y) && n > 0 && Consecutive(y, k, n, |y.accepted|)
    ensures var e := ToServer(k, y.s.destAddr, io);
      && Enabled(y, e) && |y.cAbs| == |y.cOut| && |y.sAbs| == |y.sOut| && Fresh(y, e) && Taken(y, Next(y, e), 1)
      && Next(y, e).s.destAddr == y.s.destAddr
      && Consecutive(Next(y, e), k + 1, n - 1, |Next(y, e).accepted|)
  {
    assert y.cOut[k].seg.kind == Data && y.cAbs[k] == |y.accepted|;
    ExpectedTaken(y, k, io);
    hide Inv, Next;
  }

  /** A frame the server already has makes it ack again. */
  lemma DuplicateAcked(y: Sys, k: nat, io: Io)
    requires Talking(y) && DataAt(y, k, |y.accepted| - 1)
    ensures var y' := Next(y, ToServer(k, y.s.destAddr, io));
      && Talking(y') && Continues(y, y') && y'.c == y.c && y'.loaded == y.loaded && y'.accepted == y.accepted
      && y'.cOut == y.cOut && y'.cAbs == y.cAbs && AckAt(y', |y.sOut|, |y.accepted|)
  {
    var e := ToServer(k, y.s.destAddr, io);
    FreshIsDistinguishable(y, e);
    ToServerKeeps(y, k, y.s.destAddr, io);
    DuplicateEffect(y, k, io);
    AckFrameReaches(y);
    hide Inv, ReceiveFrame, AckFrame;
  }

  lemma DuplicateEffect(y: Sys, k: nat, io: Io)
    requires Talking(y) && DataAt(y, k, |y.accepted| - 1)
    ensures ReceiveFrame(y.s, y.s.destAddr, y.cOut[k].seg, io) == Effect(y.s, [AckFrame(y.s)], [], [], false)
  {
    NextAck(|y.accepted| - 1);
    assert y.cOut[k].seg == Numbered(y, |y.accepted| - 1);
  }

  lemma AckFrameReaches(y: Sys)
    requires Talking(y)
    ensures var seg := AckFrame(y.s).seg;
      seg.kind == Sack && seg.dest == y.c.srcPort && seg.source == y.c.destPort && |y.sAbs| == |y.sOut|
  {
  }

  lemma AckTakesAll(y: Sys, a: nat, io: Io)
    requires Talking(y) && AckAt(y, a, |y.accepted|) && |y.accepted| == |y.loaded|
    ensures var y' := Next(y, ToClient(a, y.c.destAddr, io));
      && Talking(y') && Continues(y, y') && y'.c.window == [] && y'.accepted == y.accepted && y'.loaded == y.loaded
      && y'.s == y.s && y'.sOut == y.sOut && y'.sAbs == y.sAbs
  {
    AtMostWindow(y);
    var moves := |y.accepted| - Base(y);
    AckAtClient(y, a, moves, io);
    AckStep(y, a, y.c.destAddr, io);
    hide Inv, ReceiveFrame;
  }

  // ----- a whole round -----

  /** r rounds of ten frames are done: nothing is unacknowledged, and the ack of all of it is at index a. */
  ghost predicate Rested(y: Sys, r: nat, a: nat) {
    && Talking(y) && y.c.window == [] && y.accepted == y.loaded && |y.loaded| == WINDOW_SIZE * r
    && AckAt(y, a, |y.loaded|)
  }

  lemma ContinuesOn(y: Sys, y1: Sys, y2: Sys)
    requires Continues(y, y1) && Continues(y1, y2)
    ensures Continues(y, y2)
  {
  }

  lemma AckStays(y: Sys, y': Sys, a: nat, n: int)
    requires AckAt(y, a, n) && Continues(y, y')
    ensures AckAt(y', a, n)
  {
  }

  lemma DataStays(y: Sys, y': Sys, k: nat, n: int)
    requires DataAt(y, k, n) && Continues(y, y')
    ensures DataAt(y', k, n)
  {
  }

  /** Ten frames loaded and queued: the first half of a round. */
  lemma Offer(y: Sys, r: nat, a: nat) returns (es: seq<Event>)
    requires Rested(y, r, a)
    ensures FreshRun(y, es) && var z := Run(y, es);
      && Talking(z) && Continues(y, z) && |z.loaded| == WINDOW_SIZE * (r + 1) && |z.accepted| == WINDOW_SIZE * r
      && |z.c.window| == WINDOW_SIZE && z.s == y.s && Consecutive(z, |y.cOut|, WINDOW_SIZE, WINDOW_SIZE * r)
  {
    var io := TenChunks();
    var e := ClientSock(io);
    LoadsTen(y, io);
    FreshOne(y, e);
    var y1 := Next(y, e);
    var f := ToClient(a, y1.c.destAddr, io);
    AckStays(y, y1, a, |y.loaded|);
    AckRepeats(y1, a, io);
    FreshOne(y1, f);
    hide Inv, Next, Enabled, Fresh, AckAt, Continues, Consecutive, TenChunks;
    FreshThen(y, [e], [f]);
    es := [e] + [f];
    ContinuesOn(y, y1, Next(y1, f));
  }

  /** The offered frames delivered, and the last of them twice, so that the server acks them. */
  lemma Take(y: Sys, r: nat, k: nat) returns (es: seq<Event>)
    requires Talking(y) && |y.accepted| == WINDOW_SIZE * r && Consecutive(y, k, WINDOW_SIZE, WINDOW_SIZE * r)
    ensures FreshRun(y, es) && var z := Run(y, es);
      && Talking(z) && Continues(y, z) && z.loaded == y.loaded && |z.accepted| == WINDOW_SIZE * (r + 1)
      && AckAt(z, |y.sOut|, |z.accepted|) && DataAt(z, k, WINDOW_SIZE * r)
  {
    var io := TenChunks();
    var ds := Deliveries(k, WINDOW_SIZE, y.s.destAddr, io);
    AllTaken(y, k, WINDOW_SIZE, y.s.destAddr, io);
    var z := Run(y, ds);
    FirstAndLast(y, z, k, r);
    var last := k + WINDOW_SIZE - 1;
    var e := ToServer(last, z.s.destAddr, io);
    DuplicateAcked(z, last, io);
    DuplicateIsFresh(z, last, io);
    FreshOne(z, e);
    hide Inv, Next, Enabled, Fresh, AckAt, DataAt, Continues, Consecutive, TenChunks, Deliveries, SameClient;
    FreshThen(y, ds, [e]);
    es := ds + [e];
    ContinuesOn(y, z, Next(z, e));
    DataStays(z, Next(z, e), k, WINDOW_SIZE * r);
  }

  lemma DuplicateIsFresh(y: Sys, k: nat, io: Io)
    requires Talking(y) && DataAt(y, k, |y.accepted| - 1)
    ensures Enabled(y, ToServer(k, y.s.destAddr, io)) && |y.cAbs| == |y.cOut| && |y.sAbs| == |y.sOut|
    ensures Fresh(y, ToServer(k, y.s.destAddr, io))
  {
  }

  lemma FirstAndLast(y: Sys, z: Sys, k: nat, r: nat)
    requires Consecutive(y, k, WINDOW_SIZE, WINDOW_SIZE * r) && |y.accepted| == WINDOW_SIZE * r
    requires Taken(y, z, WINDOW_SIZE)
    ensures DataAt(z, k, WINDOW_SIZE * r) && DataAt(z, k + WINDOW_SIZE - 1, |z.accepted| - 1)
  {
    DataInQueue(z, k);
    DataInQueue(z, k + WINDOW_SIZE - 1);
  }

  /** A data frame in the client's queue is one the connected server would look at. */
  lemma DataInQueue(z: Sys, k: nat)
    requires Talking(z) && k < |z.cOut| && z.cOut[k].seg.kind == Data
    ensures ReachesServer(z, k, z.s.destAddr) && |z.cAbs| == |z.cOut|
  {
    assert z.cOut[k].seg == Numbered(z, z.cAbs[k]);
  }

  /** A whole round: ten more frames loaded, delivered in order and acked. */
  lemma Round(y: Sys, r: nat, a: nat) returns (es: seq<Event>, a': nat, k: nat)
    requires Rested(y, r, a)
    ensures FreshRun(y, es) && var z := Run(y, es);
      Rested(z, r + 1, a') && Continues(y, z) && DataAt(z, k, WINDOW_SIZE * r)
  {
    var offer := Offer(y, r, a);
    var y1 := Run(y, offer);
    k := |y.cOut|;
    var take := Take(y1, r, k);
    var y2 := Run(y1, take);
    a' := |y1.sOut|;
    LengthsMeet(y2);
    var io := TenChunks();
    var e := ToClient(a', y2.c.destAddr, io);
    AckTakesAll(y2, a', io);
    AckIsFresh(y2, a', io);
    FreshOne(y2, e);
    var z := Next(y2, e);
    hide Inv, Next, Enabled, Fresh, AckAt, DataAt, Continues, Consecutive, TenChunks;
    FreshThen(y1, take, [e]);
    FreshThen(y, offer, take + [e]);
    es := offer + (take + [e]);
    ContinuesOn(y, y1, y2);
    ContinuesOn(y, y2, z);
    AckStays(y2, z, a', |z.loaded|);
    DataStays(y2, z, k, WINDOW_SIZE * r);
  }

  lemma AckIsFresh(y: Sys, a: nat, io: Io)
    requires Talking(y) && AckAt(y, a, |y.accepted|)
    ensures Enabled(y, ToClient(a, y.c.destAddr, io)) && |y.cAbs| == |y.cOut| && |y.sAbs| == |y.sOut|
    ensures Fresh(y, ToClient(a, y.c.destAddr, io))
  {
  }

  /** A prefix of the same length is the whole. */
  lemma LengthsMeet(y: Sys)
    requires Inv(y)
    ensures |y.accepted| == |y.loaded| ==> y.accepted == y.loaded
  {
  }

  /** n rounds more. */
  lemma {:induction false} Rounds(y: Sys, r: nat, a: nat, n: nat) returns (es: seq<Event>, a': nat)
    requires Rested(y, r, a)
    ensures FreshRun(y, es) && Rested(Run(y, es), r + n, a') && Continues(y, Run(y, es))
    decreases n
  {
    hide Rested, Continues, FreshRun, Run;
    if n == 0 {
      es, a' := [], a;
      NoEvents(y);
    } else {
      var first, a1, k := Round(y, r, a);
      var y1 := Run(y, first);
      var rest;
      rest, a' := Rounds(y1, r + 1, a1, n - 1);
      FreshThen(y, first, rest);
      ContinuesOn(y, y1, Run(y1, rest));
      es := first + rest;
    }
  }

  lemma NoEvents(y: Sys)
    ensures FreshRun(y, []) && Run(y, []) == y && Continues(y, y)
  {
  }

  // ----- from the start -----

  /** Node 1 port 5 has asked for a connection to node 2 port 6. */
  function Start(): Sys {
    var c := State(Client, WaitReply, 2, 6, 5, [], 0, 0, [], 0, 0, true);
    var s := State(Server, Listen, 0, 0, 6, [], 0, 0, [], 0, 0, true);
    Sys(c, s, [Control(c, Request)], [], [0], [], [], [], [])
  }

  function Told(): Io { Io([], [], Wrote(1), WriteBlocked, WriteBlocked) }

  /** The state after the handshake. */
  function Greeted(): Sys {
    var y := Start();
    var s := y.s.(stage := Connected, destAddr := 1, destPort := 5);
    y.(c := y.c.(stage := Connected), s := s, sOut := [Control(s, Reply)], sAbs := [0])
  }

  lemma StartInit()
    ensures Init(Start()) && Inv(Start())
  {
    InitOk(Start());
  }

  lemma RequestArrives()
    ensures var y, e := Start(), ToServer(0, 1, Told());
      && Enabled(y, e) && Fresh(y, e)
      && Next(y, e) == Greeted().(c := y.c)
  {
  }

  lemma ReplyArrives()
    ensures var y, e := Greeted().(c := Start().c), ToClient(0, 2, Told());
      Enabled(y, e) && Fresh(y, e) && Next(y, e) == Greeted()
  {
  }

  lemma TickAcks()
    ensures var y, e := Greeted(), ServerTick(Told());
      var y' := Next(y, e);
      && y'.c == y.c && y'.s == y.s.(alive := false) && y'.loaded == [] && y'.accepted == []
      && |y'.sOut| > 1 && |y'.sAbs| > 1 && y'.sOut[1] == AckFrame(y.s) && y'.sAbs[1] == 0
  {
  }

  /** Request, reply and the server's first tick: connected, nothing loaded, the ack of nothing at index 1. */
  lemma Opening() returns (es: seq<Event>)
    ensures FreshRun(Start(), es) && Rested(Run(Start(), es), 0, 1)
  {
    hide Start, Greeted, Told, Next, Inv;
    var y0 := Start();
    StartInit();
    RequestArrives();
    AcceptedFromBase(y0);
    var e, f, g := ToServer(0, 1, Told()), ToClient(0, 2, Told()), ServerTick(Told());
    FreshStep(y0, e);
    ReplyArrives();
    var y1 := Next(y0, e);
    AcceptedFromBase(y1);
    FreshStep(y1, f);
    var y2 := Next(y1, f);
    AcceptedFromBase(y2);
    FreshStep(y2, g);
    OpeningRests();
    FreshThen(y1, [f], [g]);
    FreshThen(y0, [e], [f] + [g]);
    es := [e] + ([f] + [g]);
  }

  lemma OpeningRests()
    requires Inv(Next(Greeted(), ServerTick(Told())))
    ensures Rested(Next(Greeted(), ServerTick(Told())), 0, 1)
  {
    hide Inv, Next;
    TickAcks();
  }

  lemma FreshStep(y: Sys, e: Event)
    requires Inv(y) && Enabled(y, e) && |y.cAbs| == |y.cOut| && |y.sAbs| == |y.sOut| && Fresh(y, e)
    ensures FreshRun(y, [e]) && Run(y, [e]) == Next(y, e) && Inv(Next(y, e))
  {
    FreshOne(y, e);
    FreshIsDistinguishable(y, e);
    StepKeeps(y, e);
  }

  /** A run in which every delivery is fresh, and one more delivery of the oldest ack, exactly 30 behind. */
  ghost predicate StaleAck(y: Sys, es: seq<Event>, i: nat, io: Io) {
    && Init(y) && FreshRun(y, es)
    && var z := Run(y, es);
       && AckAt(z, i, Base(z) - (SEQUENCE_SIZE - WINDOW_SIZE))
       && AckForgets(z, i, io)
  }

  /** The client, all ten slots full of frames the server has none of, empties them. */
  ghost predicate AckForgets(z: Sys, i: nat, io: Io)
    requires i < |z.sOut|
  {
    var z' := Next(z, ToClient(i, z.c.destAddr, io));
    && |z.loaded| == |z.accepted| + WINDOW_SIZE && |z.c.window| == WINDOW_SIZE && z'.c.window == []
    && DeliversPrefix(z) && !DeliversPrefix(z')
  }

  /**
   * The bound on acks cannot be raised: after three rounds and ten more frames loaded, the ack of nothing,
   * delivered once more, makes the client drop ten frames the server never got.
   */
  lemma AckTooStale() returns (es: seq<Event>, i: nat)
    ensures StaleAck(Start(), es, i, Told())
  {
    hide Start, Told, TenChunks, Next, Inv, Continues, AckAt, DeliversPrefix, Init;
    i := 1;
    var y0 := Start();
    StartInit();
    var opening := Opening();
    var y1 := Run(y0, opening);
    var rounds, a := Rounds(y1, 0, 1, 3);
    var y2 := Run(y1, rounds);
    var e := ClientSock(TenChunks());
    LoadsTen(y2, TenChunks());
    FreshOne(y2, e);
    var z := Next(y2, e);
    FreshThen(y1, rounds, [e]);
    FreshThen(y0, opening, rounds + [e]);
    es := opening + (rounds + [e]);
    AckStays(y1, y2, 1, 0);
    AckStays(y2, z, 1, 0);
    StaleAckBreaks(z, 1);
  }

  lemma StaleAckBreaks(z: Sys, i: nat)
    requires Talking(z) && AckAt(z, i, 0) && Base(z) == SEQUENCE_SIZE - WINDOW_SIZE
    requires |z.accepted| == Base(z) && |z.c.window| == WINDOW_SIZE
    ensures AckForgets(z, i, Told())
  {
    InvDelivers(z);
    AckThirtyBehind(z, i, z.c.destAddr, Told());
  }

  /** The same with the oldest data frame, exactly 40 behind. */
  ghost predicate StaleData(y: Sys, es: seq<Event>, k: nat, io: Io) {
    && Init(y) && FreshRun(y, es)
    && var z := Run(y, es);
       && DataAt(z, k, |z.accepted| - SEQUENCE_SIZE)
       && DataRepeats(z, k, io)
  }

  /** The server, which has everything, accepts the first frame again. */
  ghost predicate DataRepeats(z: Sys, k: nat, io: Io)
    requires k < |z.cOut|
  {
    var z' := Next(z, ToServer(k, z.s.destAddr, io));
    && z.accepted == z.loaded && z.loaded != [] && z'.accepted == z.accepted + [z.loaded[0]]
    && DeliversPrefix(z) && !DeliversPrefix(z')
  }

  /**
   * Nor can the bound on data: after four rounds the first frame, delivered once more, is handed to the
   * application a second time.
   */
  lemma DataTooStale() returns (es: seq<Event>, k: nat)
    ensures StaleData(Start(), es, k, Told())
  {
    hide Start, Told, Next, Inv, Continues, AckAt, DataAt, DeliversPrefix, Init;
    var y0 := Start();
    StartInit();
    var opening := Opening();
    var y1 := Run(y0, opening);
    var first, a;
    first, a, k := Round(y1, 0, 1);
    var y2 := Run(y1, first);
    var rounds, a' := Rounds(y2, 1, a, 3);
    var z := Run(y2, rounds);
    FreshThen(y1, first, rounds);
    FreshThen(y0, opening, first + rounds);
    es := opening + (first + rounds);
    DataStays(y2, z, k, 0);
    StaleDataBreaks(z, k);
  }

  lemma StaleDataBreaks(z: Sys, k: nat)
    requires Talking(z) && DataAt(z, k, 0) && z.accepted == z.loaded && |z.accepted| == SEQUENCE_SIZE
    ensures DataRepeats(z, k, Told())
  {
    InvDelivers(z);
    DataDeliveryExact(z, k, z.s.destAddr, Told());
    MistakenBytes(z, k, z.s.destAddr, Told());
    hide DeliversPrefix, Next;
  }
}
