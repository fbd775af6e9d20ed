/**
 * Two first-in first-out channels that may drop and duplicate: the indexes delivered never go back.
 * On such channels nothing is ever too stale, so no bound on staleness has to be assumed.
 */
module GoBackNFifo {
  import opened Wire
  import opened Handler
  import opened GoBackN
  import opened GoBackNSafety

  /** How far each channel has been read: an index below its mark is gone. */
  datatype Marks = Marks(toServer: nat, toClient: nat)

  predicate InOrder(m: Marks, e: Event) {
    (e.ToServer? ==> m.toServer <= e.i) && (e.ToClient? ==> m.toClient <= e.i)
  }

  function Advance(m: Marks, e: Event): Marks {
    match e
    case ToServer(i, _, _) => m.(toServer := i)
    case ToClient(i, _, _) => m.(toClient := i)
    case _ => m
  }

  ghost predicate DataQueueOk(y: Sys, from: nat)
    requires |y.cAbs| == |y.cOut|
  {
    && (forall i, j :: 0 <= i < j < |y.cOut| && y.cOut[i].seg.kind == Data && y.cOut[j].seg.kind == Data ==>
          y.cAbs[i] < y.cAbs[j] + WINDOW_SIZE)
    && (forall j :: from <= j < |y.cOut| && y.cOut[j].seg.kind == Data ==> |y.accepted| <= y.cAbs[j] + WINDOW_SIZE)
  }

  ghost predicate AckQueueOk(y: Sys, from: nat)
    requires |y.sAbs| == |y.sOut|
  {
    && (forall i, j :: 0 <= i < j < |y.sOut| && y.sOut[i].seg.kind == Sack && y.sOut[j].seg.kind == Sack ==>
          y.sAbs[i] <= y.sAbs[j])
    && (forall j :: from <= j < |y.sOut| && y.sOut[j].seg.kind == Sack ==> Base(y) <= y.sAbs[j] <= |y.accepted|)
  }

  ghost predicate FifoInv(y: Sys, m: Marks) {
    Inv(y) && DataQueueOk(y, m.toServer) && AckQueueOk(y, m.toClient)
  }

  /**
   * The numbers in absolute terms: the window starts at or before the expected frame, which is in the
   * window or just behind it, and every ack still to come lies between the two.
   */
  lemma NumbersInOrder(y: Sys, m: Marks)
    requires FifoInv(y, m)
    ensures Base(y) <= |y.accepted| <= Base(y) + |y.c.window| <= Base(y) + WINDOW_SIZE
    ensures forall j :: m.toClient <= j < |y.sOut| && y.sOut[j].seg.kind == Sack ==>
              Base(y) <= y.sAbs[j] <= |y.accepted|
  {
  }

  lemma InOrderIsFresh(y: Sys, m: Marks, e: Event)
    requires FifoInv(y, m) && Enabled(y, e) && InOrder(m, e)
    ensures Fresh(y, e)
  {
  }

  /** A step of the client: what it queues is numbered from its new base on. */
  lemma ClientSide(y: Sys, e: Effect, m: Marks, toClient: nat)
    requires FifoInv(y, m) && Inv(ClientStep(y, e)) && Base(y) <= Base(ClientStep(y, e))
    requires toClient >= m.toClient
    requires forall j :: toClient <= j < |y.sOut| && y.sOut[j].seg.kind == Sack ==> Base(ClientStep(y, e)) <= y.sAbs[j]
    ensures FifoInv(ClientStep(y, e), m.(toClient := toClient))
  {
    var y' := ClientStep(y, e);
    forall j | |y.cOut| <= j < |y'.cOut|
      ensures y'.cAbs[j] >= Base(y)
    {
      assert y'.cAbs[j] == Base(y') + (j - |y.cOut|);
    }
    assert y'.accepted == y.accepted && y'.sOut == y.sOut && y'.sAbs == y.sAbs;
    OldDataBounded(y);
    ClientSideData(y, y', m.toServer);
  }

  lemma OldDataBounded(y: Sys)
    requires Inv(y)
    ensures forall i :: 0 <= i < |y.cOut| && y.cOut[i].seg.kind == Data ==> y.cAbs[i] < Base(y) + WINDOW_SIZE
    ensures |y.accepted| <= Base(y) + WINDOW_SIZE
  {
  }

  lemma ClientSideData(y: Sys, y': Sys, from: nat)
    requires |y.cAbs| == |y.cOut| && |y'.cAbs| == |y'.cOut| && DataQueueOk(y, from)
    requires y.cOut <= y'.cOut && y.cAbs <= y'.cAbs && y'.accepted == y.accepted
    requires forall i :: 0 <= i < |y.cOut| && y.cOut[i].seg.kind == Data ==> y.cAbs[i] < Base(y) + WINDOW_SIZE
    requires |y.accepted| <= Base(y) + WINDOW_SIZE && Base(y) <= Base(y')
    requires forall j :: |y.cOut| <= j < |y'.cOut| ==> y'.cAbs[j] == Base(y') + (j - |y.cOut|)
    ensures DataQueueOk(y', from)
  {
  }

  /** A step of the server that accepts nothing: whatever it queues carries the current ack. */
  lemma ServerSide(y: Sys, y': Sys, m: Marks, toServer: nat)
    requires FifoInv(y, m) && Inv(y') && toServer >= m.toServer
    requires y' == y.(s := y'.s, app := y'.app, sOut := y'.sOut, sAbs := y'.sAbs)
    requires |y.sOut| <= |y'.sOut| && y.sOut <= y'.sOut && y.sAbs <= y'.sAbs
    requires forall j :: |y.sOut| <= j < |y'.sOut| ==> y'.sAbs[j] == |y.accepted|
    ensures FifoInv(y', m.(toServer := toServer))
  {
  }

  lemma ServerSideAccepts(y: Sys, m: Marks, i: nat, y': Sys)
    requires FifoInv(y, m) && Inv(y') && m.toServer <= i < |y.cOut|
    requires y.cOut[i].seg.kind == Data && y.cAbs[i] == |y.accepted| && |y'.accepted| == |y.accepted| + 1
    requires y' == y.(s := y'.s, app := y'.app, accepted := y'.accepted)
    ensures FifoInv(y', m.(toServer := i))
  {
  }

  lemma ServerStepShape(y: Sys, e: Effect, arrived: seq<byte>)
    requires |y.sAbs| == |y.sOut|
    ensures var y' := ServerStep(y, e, arrived);
      && y' == y.(s := y'.s, app := y'.app, sOut := y'.sOut, sAbs := y'.sAbs, accepted := y'.accepted)
      && y.sOut <= y'.sOut && y.sAbs <= y'.sAbs
      && (forall j :: |y.sOut| <= j < |y'.sOut| && j < |y'.sAbs| ==> y'.sAbs[j] == |y'.accepted|)
  {
  }

  /** A step of the server that accepts nothing, whatever else it does. */
  lemma FifoServerQuiet(y: Sys, e: Effect, arrived: seq<byte>, m: Marks, toServer: nat)
    requires FifoInv(y, m) && Inv(ServerStep(y, e, arrived)) && ServerStep(y, e, arrived).accepted == y.accepted
    requires toServer >= m.toServer
    ensures FifoInv(ServerStep(y, e, arrived), m.(toServer := toServer))
  {
    LengthsEqual(y);
    hide ClientOk, ServerOk, ChannelsOk, DataQueueOk, AckQueueOk;
    LengthsEqual(ServerStep(y, e, arrived));
    ServerStepShape(y, e, arrived);
    ServerSide(y, ServerStep(y, e, arrived), m, toServer);
  }

  lemma LengthsEqual(y: Sys)
    requires Inv(y)
    ensures |y.cAbs| == |y.cOut| && |y.sAbs| == |y.sOut|
  {
  }

  lemma FifoToServer(y: Sys, m: Marks, i: nat, source: Address, io: Io)
    requires FifoInv(y, m) && m.toServer <= i < |y.cOut|
    ensures FifoInv(Next(y, ToServer(i, source, io)), m.(toServer := i))
  {
    hide Inv, DataQueueOk, AckQueueOk, ReceiveFrame, ServerStep, Distinguishable;
    LengthsEqual(y);
    var e := ToServer(i, source, io);
    InOrderIsFresh(y, m, e);
    FreshIsDistinguishable(y, e);
    ToServerKeeps(y, i, source, io);
    if y.cOut[i].seg.dest != y.s.srcPort {
      MarkOn(y, m, i);
    } else if Next(y, e).accepted == y.accepted {
      FifoServerQuiet(y, ReceiveFrame(y.s, source, y.cOut[i].seg, io), y.cOut[i].seg.msg, m, i);
    } else {
      FifoAccepts(y, m, i, source, io);
    }
  }

  lemma MarkOn(y: Sys, m: Marks, i: nat)
    requires FifoInv(y, m) && m.toServer <= i
    ensures FifoInv(y, m.(toServer := i))
  {
    hide Inv;
  }

  lemma FifoAccepts(y: Sys, m: Marks, i: nat, source: Address, io: Io)
    requires FifoInv(y, m) && m.toServer <= i < |y.cOut|
    requires y.cOut[i].seg.kind == Data && y.cAbs[i] == |y.accepted|
    requires Next(y, ToServer(i, source, io)).accepted != y.accepted
    ensures FifoInv(Next(y, ToServer(i, source, io)), m.(toServer := i))
  {
    AcceptReaches(y, i, source, io);
    hide DataQueueOk, AckQueueOk, ClientOk, ServerOk, ChannelsOk, ReceiveFrame;
    ServerTakes(y, i, source, io);
    ServerSideAccepts(y, m, i, Next(y, ToServer(i, source, io)));
  }

  /** Only a frame from the known peer makes the server accept. */
  lemma AcceptReaches(y: Sys, i: nat, source: Address, io: Io)
    requires Inv(y) && i < |y.cOut| && y.cOut[i].seg.kind == Data
    requires Next(y, ToServer(i, source, io)).accepted != y.accepted
    ensures ReachesServer(y, i, source)
  {
  }

  lemma FifoToClient(y: Sys, m: Marks, i: nat, source: Address, io: Io)
    requires FifoInv(y, m) && m.toClient <= i < |y.sOut|
    ensures FifoInv(Next(y, ToClient(i, source, io)), m.(toClient := i))
  {
    LengthsEqual(y);
    hide Inv, DataQueueOk, AckQueueOk, ReceiveFrame, ClientStep, Distinguishable, Fresh;
    var e := ToClient(i, source, io);
    InOrderIsFresh(y, m, e);
    FreshIsDistinguishable(y, e);
    ToClientKeeps(y, i, source, io);
    ToClientBase(y, i, source, io);
    AcksStillAhead(y, m, i, Base(Next(y, e)));
    if y.sOut[i].seg.dest == y.c.srcPort {
      ClientSide(y, ReceiveFrame(y.c, source, y.sOut[i].seg, io), m, i);
    } else {
      ClientMarkOn(y, m, i);
    }
  }

  lemma AcksStillAhead(y: Sys, m: Marks, i: nat, base: int)
    requires FifoInv(y, m) && m.toClient <= i < |y.sOut| && |y.sAbs| == |y.sOut|
    requires base == Base(y) || (base == y.sAbs[i] && y.sOut[i].seg.kind == Sack)
    ensures forall j :: i <= j < |y.sOut| && y.sOut[j].seg.kind == Sack ==> base <= y.sAbs[j]
  {
    hide Inv, DataQueueOk;
  }

  lemma ClientMarkOn(y: Sys, m: Marks, i: nat)
    requires FifoInv(y, m) && m.toClient <= i
    ensures FifoInv(y, m.(toClient := i))
  {
    hide Inv, DataQueueOk;
  }

  /** A fresh delivery either leaves the window alone or moves it to exactly the absolute number acked. */
  lemma ToClientBase(y: Sys, i: nat, source: Address, io: Io)
    requires Inv(y) && i < |y.sOut| && Fresh(y, ToClient(i, source, io))
    ensures var base := Base(Next(y, ToClient(i, source, io)));
      base == Base(y) || (base == y.sAbs[i] && base > Base(y) && y.sOut[i].seg.kind == Sack)
  {
    if y.sOut[i].seg.dest == y.c.srcPort {
      var near := (y.sAbs[i] - Base(y)) % SEQUENCE_SIZE <= WINDOW_SIZE;
      if y.sOut[i].seg.kind == Sack && ReachesClient(y, i, source) && near {
        AckedBase(y, i, source, io);
      } else {
        UnackedBase(y, i, source, io);
      }
    }
  }

  lemma AckedBase(y: Sys, i: nat, source: Address, io: Io)
    requires Inv(y) && i < |y.sOut| && Fresh(y, ToClient(i, source, io))
    requires y.sOut[i].seg.kind == Sack && ReachesClient(y, i, source)
    requires (y.sAbs[i] - Base(y)) % SEQUENCE_SIZE <= WINDOW_SIZE
    ensures Base(y) <= y.sAbs[i] == Base(Next(y, ToClient(i, source, io)))
  {
    FreshDistance(y.sAbs[i], Base(y));
    AckStep(y, i, source, io);
    ClientMoveKeeps(y, y.sAbs[i] - Base(y));
  }

  lemma FreshDistance(ack: nat, base: nat)
    requires base - ack < SEQUENCE_SIZE - WINDOW_SIZE && ack <= base + WINDOW_SIZE
    requires (ack - base) % SEQUENCE_SIZE <= WINDOW_SIZE
    ensures 0 <= ack - base == (ack - base) % SEQUENCE_SIZE
  {
  }

  lemma UnackedBase(y: Sys, i: nat, source: Address, io: Io)
    requires Inv(y) && i < |y.sOut| && y.sOut[i].seg.dest == y.c.srcPort
    requires y.sOut[i].seg.kind == Sack ==>
      !ReachesClient(y, i, source) || (y.sAbs[i] - Base(y)) % SEQUENCE_SIZE > WINDOW_SIZE
    ensures Base(Next(y, ToClient(i, source, io))) == Base(y)
  {
    if y.sOut[i].seg.kind == Sack {
      DroppedAck(y, i, source, io);
      QuietBase(y);
    } else {
      OtherBase(y, i, source, io);
    }
  }

  lemma QuietBase(y: Sys)
    ensures Base(ClientStep(y, Quiet(y.c))) == Base(y)
  {
  }

  lemma OtherBase(y: Sys, i: nat, source: Address, io: Io)
    requires Inv(y) && i < |y.sOut| && y.sOut[i].seg.kind != Sack
    ensures Base(ClientStep(y, ReceiveFrame(y.c, source, y.sOut[i].seg, io))) == Base(y)
  {
  }

  lemma FifoClient(y: Sys, m: Marks, e: Effect)
    requires FifoInv(y, m) && Inv(ClientStep(y, e)) && Base(ClientStep(y, e)) == Base(y)
    ensures FifoInv(ClientStep(y, e), m)
  {
    AcksAhead(y, m);
    hide Inv, DataQueueOk, AckQueueOk, ClientStep;
    ClientSide(y, e, m, m.toClient);
  }

  lemma AcksAhead(y: Sys, m: Marks)
    requires FifoInv(y, m)
    ensures |y.sAbs| == |y.sOut|
    ensures forall j :: m.toClient <= j < |y.sOut| && y.sOut[j].seg.kind == Sack ==> Base(y) <= y.sAbs[j]
  {
  }

  /** Every in-order step keeps both queues in order. */
  lemma FifoStep(y: Sys, m: Marks, e: Event)
    requires FifoInv(y, m) && Enabled(y, e) && InOrder(m, e)
    ensures FifoInv(Next(y, e), Advance(m, e))
  {
    hide Inv, DataQueueOk, AckQueueOk, ClientStep, ServerStep, HandleSock, HandleTimer, ReceiveFrame;
    match e
    case ClientSock(io) =>
      ClientSockKeeps(y, io);
      FifoClient(y, m, HandleSock(y.c, io, []));
    case ClientTick(io) =>
      ClientTickKeeps(y, io);
      FifoClient(y, m, HandleTimer(y.c, io, []));
    case ServerSock(io) =>
      ServerSockKeeps(y, io);
      FifoServerQuiet(y, HandleSock(y.s, io, []), [], m, m.toServer);
    case ServerTick(io) =>
      ServerTickKeeps(y, io);
      FifoServerQuiet(y, HandleTimer(y.s, io, []), [], m, m.toServer);
    case ToServer(i, source, io) => FifoToServer(y, m, i, source, io);
    case ToClient(i, source, io) => FifoToClient(y, m, i, source, io);
  }

  /** A run over two channels that keep order but may drop and duplicate whatever they carry. */
  ghost predicate FifoRun(y: Sys, m: Marks, es: seq<Event>)
    decreases |es|
  {
    es == [] || (Enabled(y, es[0]) && InOrder(m, es[0]) && FifoRun(Next(y, es[0]), Advance(m, es[0]), es[1..]))
  }

  function MarksAfter(m: Marks, es: seq<Event>): Marks
    decreases |es|
  {
    if es == [] then m else MarksAfter(Advance(m, es[0]), es[1..])
  }

  lemma {:induction false} FifoRunKeeps(y: Sys, m: Marks, es: seq<Event>)
    requires FifoInv(y, m) && FifoRun(y, m, es)
    ensures FifoInv(Run(y, es), MarksAfter(m, es)) && FreshRun(y, es)
    decreases |es|
  {
    if es != [] {
      InOrderIsFresh(y, m, es[0]);
      FifoStep(y, m, es[0]);
      FifoRunKeeps(Next(y, es[0]), Advance(m, es[0]), es[1..]);
    }
  }

  /**
   * Over channels that may drop and duplicate but keep order, the server's bytes are always a whole number
   * of the reads made from the client's socket, in order, at least up to the client's window; no assumption on age.
   */
  lemma ReliableOverFifo(y: Sys, es: seq<Event>)
    requires Init(y) && FifoRun(y, Marks(0, 0), es)
    ensures DeliversOf(Run(y, es), ReadOver(y, es)) && Run(y, es).app <= Flat(ReadOver(y, es))
    ensures FifoInv(Run(y, es), MarksAfter(Marks(0, 0), es))
  {
    InitOk(y);
    FifoRunKeeps(y, Marks(0, 0), es);
    ReliableDelivery(y, es);
  }
}
