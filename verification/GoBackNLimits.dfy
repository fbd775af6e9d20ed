/**
 * Where the promise ends: which stale deliveries break the application's prefix, and runs from the start whose
 * last delivery is one step too stale.
 */
module GoBackNLimits {
  import opened Wire
  import opened Handler
  import opened GoBackN
  import opened GoBackNSafety
  import opened GoBackNProgress

  // ----- acks -----

  /** An ack decoded as moves past the accepted frames moves the window that far, or empties it. */
  lemma OverrunBase(y: Sys, moves: nat, i: nat, source: Address, io: Io)
    requires Inv(y) && i < |y.sOut| && y.sOut[i].seg.dest == y.c.srcPort && 0 < moves
    requires ReceiveFrame(y.c, source, y.sOut[i].seg, io).h == MoveWindow(y.c, moves)
    ensures var y' := Next(y, ToClient(i, source, io));
      && y'.loaded == y.loaded && y'.accepted == y.accepted && y'.s == y.s && y'.app == y.app
      && Base(y') == (if moves < |y.c.window| then Base(y) + moves else |y.loaded|)
      && y'.c.base == (Base(y) + moves) % SEQUENCE_SIZE
  {
    WindowFacts(y);
    hide Inv, ReceiveFrame;
    MovedBase(y, moves);
  }

  lemma MovedBase(y: Sys, moves: nat)
    requires 0 < moves && 0 <= Base(y) && y.c.base == Base(y) % SEQUENCE_SIZE
    ensures var y' := ClientMoves(y, MoveWindow(y.c, moves));
      && y'.loaded == y.loaded && y'.c.base == (Base(y) + moves) % SEQUENCE_SIZE
      && Base(y') == (if moves < |y.c.window| then Base(y) + moves else |y.loaded|)
  {
    SequenceAdd(Base(y), moves);
  }

  /** A window that starts behind everything the server accepted leaves no prefix that reaches it. */
  lemma WindowTooFar(y: Sys, y': Sys)
    requires Inv(y) && y'.loaded == y.loaded && y'.s == y.s && |y.accepted| < Base(y')
    ensures !DeliversPrefix(y')
  {
    assert |y.loaded| <= |y.accepted| + WINDOW_SIZE;
    forall n: nat | |y.accepted| < n <= |y.accepted| + WINDOW_SIZE
      ensures n % SEQUENCE_SIZE != |y.accepted| % SEQUENCE_SIZE
    {
      SameResidue(n, |y.accepted|);
    }
  }

  lemma AllAccepted(y: Sys, y': Sys)
    requires Inv(y) && y'.loaded == y.loaded && y'.s == y.s && y'.app == y.app && y.accepted == y.loaded
    ensures DeliversPrefix(y')
  {
    var n := |y.loaded|;
    assert y.loaded[..n] == y.loaded;
  }

  lemma OverrunPrefix(y: Sys, moves: nat, i: nat, source: Address, io: Io)
    requires Inv(y) && i < |y.sOut| && y.sOut[i].seg.dest == y.c.srcPort
    requires 0 < moves <= WINDOW_SIZE && Base(y) + moves > |y.accepted|
    requires ReceiveFrame(y.c, source, y.sOut[i].seg, io).h == MoveWindow(y.c, moves)
    ensures DeliversPrefix(Next(y, ToClient(i, source, io))) <==> y.accepted == y.loaded
  {
    hide DeliversPrefix, Next, ReceiveFrame, MoveWindow, ClientOk, ServerOk, ChannelsOk;
    OverrunBase(y, moves, i, source, io);
    if y.accepted == y.loaded {
      AllAccepted(y, Next(y, ToClient(i, source, io)));
    } else {
      WindowTooFar(y, Next(y, ToClient(i, source, io)));
    }
  }

  lemma NearResidue(n: nat, m: nat)
    requires n % SEQUENCE_SIZE == m % SEQUENCE_SIZE && n < m + SEQUENCE_SIZE && m < n + SEQUENCE_SIZE
    ensures n == m
  {
  }

  /** The window the ack leaves does not fit the frames it should start with. */
  lemma OverrunBreaks(y: Sys, moves: nat, i: nat, source: Address, io: Io)
    requires Inv(y) && i < |y.sOut| && y.sOut[i].seg.dest == y.c.srcPort
    requires 0 < moves <= WINDOW_SIZE && Base(y) + moves > |y.accepted|
    requires ReceiveFrame(y.c, source, y.sOut[i].seg, io).h == MoveWindow(y.c, moves)
    ensures !Inv(Next(y, ToClient(i, source, io)))
  {
    hide Inv, Next, ReceiveFrame, MoveWindow;
    var y' := Next(y, ToClient(i, source, io));
    OverrunBase(y, moves, i, source, io);
    WindowFacts(y);
    if Inv(y') {
      WindowFacts(y');
      NearResidue(Base(y) + moves, Base(y'));
    }
  }

  lemma WindowFacts(y: Sys)
    requires Inv(y)
    ensures 0 <= Base(y) <= |y.accepted| <= |y.loaded| && |y.c.window| <= WINDOW_SIZE
    ensures y.c.base == Base(y) % SEQUENCE_SIZE
  {
  }

  /**
   * Exactly which acks may reach the client: the application still has a prefix that covers everything before
   * the window if and only if the ack was distinguishable or nothing was unacknowledged by the server anyway.
   */
  lemma AckDeliveryExact(y: Sys, i: nat, source: Address, io: Io)
    requires Inv(y) && i < |y.sOut| && y.sOut[i].seg.kind == Sack && ReachesClient(y, i, source)
    ensures var e := ToClient(i, source, io);
      && (DeliversPrefix(Next(y, e)) <==> Distinguishable(y, e) || y.accepted == y.loaded)
      && (Inv(Next(y, e)) <==> Distinguishable(y, e))
  {
    hide DeliversPrefix, Next, ReceiveFrame, MoveWindow, ClientOk, ServerOk;
    AcceptedFromBase(y);
    if Distinguishable(y, ToClient(i, source, io)) {
      ToClientKeeps(y, i, source, io);
      InvDelivers(Next(y, ToClient(i, source, io)));
    } else {
      var moves := (y.sAbs[i] - Base(y)) % SEQUENCE_SIZE;
      AckStep(y, i, source, io);
      OverrunPrefix(y, moves, i, source, io);
      OverrunBreaks(y, moves, i, source, io);
    }
  }

  lemma AcceptedFromBase(y: Sys)
    requires Inv(y)
    ensures Base(y) <= |y.accepted| && y.c.stage != Listen && |y.cAbs| == |y.cOut| && |y.sAbs| == |y.sOut|
  {
  }

  /**
   * The bound on acks is tight: an ack exactly 30 behind is taken for one of the whole window, which empties
   * whatever the server has of it; the prefix survives only if the server has everything.
   */
  lemma AckThirtyBehind(y: Sys, i: nat, source: Address, io: Io)
    requires Inv(y) && i < |y.sOut| && y.sOut[i].seg.kind == Sack && ReachesClient(y, i, source)
    requires Base(y) - y.sAbs[i] == SEQUENCE_SIZE - WINDOW_SIZE
    ensures var y' := Next(y, ToClient(i, source, io));
      && y'.c.window == [] && y'.c.base == (y.c.base + WINDOW_SIZE) % SEQUENCE_SIZE
      && (DeliversPrefix(y') <==> y.accepted == y.loaded)
      && (Inv(y') <==> |y.accepted| == Base(y) + WINDOW_SIZE)
  {
    hide DeliversPrefix, ClientOk, ServerOk, ChannelsOk, ReceiveFrame, MoveWindow;
    AcceptedFromBase(y);
    AckStep(y, i, source, io);
    AckDeliveryExact(y, i, source, io);
    WindowFacts(y);
    TenMoved(y, ReceiveFrame(y.c, source, y.sOut[i].seg, io));
  }

  lemma TenMoved(y: Sys, e: Effect)
    requires |y.c.window| <= WINDOW_SIZE && e.h == MoveWindow(y.c, WINDOW_SIZE)
    ensures var y' := ClientStep(y, e);
      y'.c.window == [] && y'.c.base == (y.c.base + WINDOW_SIZE) % SEQUENCE_SIZE
  {
  }

  // ----- data -----

  /** The frame is taken for the expected one, although it is another. */
  lemma Mistaken(y: Sys, i: nat, source: Address, io: Io)
    requires Inv(y) && i < |y.cOut| && y.cOut[i].seg.kind == Data && ReachesServer(y, i, source)
    requires (|y.accepted| - y.cAbs[i]) % SEQUENCE_SIZE == 0
    ensures y.cOut[i].seg.msg == y.loaded[y.cAbs[i]]
    ensures Next(y, ToServer(i, source, io)) ==
            ServerEmits(ServerMoves(y, AcceptData(y.s, y.cOut[i].seg).h, [], y.loaded[y.cAbs[i]]), [])
    ensures y.cOut[i].seg.seqNum == y.s.ack
  {
    SameResidue(|y.accepted|, y.cAbs[i]);
  }

  lemma MistakenBytes(y: Sys, i: nat, source: Address, io: Io)
    requires Inv(y) && i < |y.cOut| && y.cOut[i].seg.kind == Data && ReachesServer(y, i, source)
    requires (|y.accepted| - y.cAbs[i]) % SEQUENCE_SIZE == 0
    ensures var y', msg := Next(y, ToServer(i, source, io)), y.loaded[y.cAbs[i]];
      && y'.app + y'.s.buffer == Flat(y.accepted) + msg && y'.s.ack == (|y.accepted| + 1) % SEQUENCE_SIZE
      && y'.accepted == y.accepted + [msg] && y'.loaded == y.loaded && y'.c == y.c
  {
    Mistaken(y, i, source, io);
    TakenBytes(y, y.cOut[i].seg);
    hide Inv, Next, AcceptData, Flat;
  }

  lemma TakenBytes(y: Sys, seg: Segment)
    requires ServerOk(y) && seg.seqNum == y.s.ack
    ensures var y' := ServerMoves(y, AcceptData(y.s, seg).h, [], seg.msg);
      && y'.app + y'.s.buffer == Flat(y.accepted) + seg.msg && y'.s.ack == (|y.accepted| + 1) % SEQUENCE_SIZE
      && y'.accepted == y.accepted + [seg.msg]
  {
    NextAck(|y.accepted|);
    var y' := ServerMoves(y, AcceptData(y.s, seg).h, [], seg.msg);
    assert y'.app + y'.s.buffer == (y.app + y.s.buffer) + seg.msg;
  }

  /** The same bytes as the expected frame's: nobody can tell. */
  lemma TwinKeeps(y: Sys, i: nat, source: Address, io: Io)
    requires Inv(y) && i < |y.cOut| && y.cOut[i].seg.kind == Data && ReachesServer(y, i, source)
    requires (|y.accepted| - y.cAbs[i]) % SEQUENCE_SIZE == 0
    requires |y.accepted| < |y.loaded| && y.loaded[y.cAbs[i]] == y.loaded[|y.accepted|]
    ensures Inv(Next(y, ToServer(i, source, io)))
  {
    Mistaken(y, i, source, io);
    var twin := Numbered(y, |y.accepted|);
    assert y.cOut[i].seg == twin;
    ServerAcceptKeeps(y, twin, AcceptData(y.s, twin).h);
    ServerEmitsKeep(ServerMoves(y, AcceptData(y.s, twin).h, [], twin.msg), []);
  }

  /** A prefix with the ack advanced by one can only be one frame longer. */
  lemma OneFrameLonger(y: Sys, y': Sys, msg: seq<byte>)
    requires Inv(y) && y'.loaded == y.loaded && y'.c == y.c && DeliversPrefix(y')
    requires y'.app + y'.s.buffer == Flat(y.accepted) + msg && y'.s.ack == (|y.accepted| + 1) % SEQUENCE_SIZE
    ensures |y.accepted| < |y.loaded| && msg == y.loaded[|y.accepted|]
  {
    var a := |y.accepted|;
    var n :| 0 <= n <= |y.loaded| && y'.app + y'.s.buffer == Flat(y.loaded[..n]) && Base(y) <= n
      && y'.s.ack == n % SEQUENCE_SIZE;
    assert |y.loaded| <= Base(y) + WINDOW_SIZE;
    NearResidue(n, a + 1);
    assert y.loaded[..n] == y.accepted + [y.loaded[a]];
    FlatAppend(y.accepted, [y.loaded[a]]);
    SameTail(Flat(y.accepted), msg, Flat([y.loaded[a]]));
    assert Flat([y.loaded[a]]) == y.loaded[a];
  }

  lemma SameTail(a: seq<byte>, b: seq<byte>, c: seq<byte>)
    requires a + b == a + c
    ensures b == c
  {
    assert b == (a + b)[|a|..];
    assert c == (a + c)[|a|..];
  }

  /**
   * Exactly which data frames may reach the server: the application still has a prefix of the stream if and
   * only if the frame is distinguishable, or happens to hold the very bytes the expected frame holds.
   */
  lemma DataDeliveryExact(y: Sys, i: nat, source: Address, io: Io)
    requires Inv(y) && i < |y.cOut| && y.cOut[i].seg.kind == Data && ReachesServer(y, i, source)
    ensures var e := ToServer(i, source, io);
      var harmless := Distinguishable(y, e)
        || (|y.accepted| < |y.loaded| && y.loaded[y.cAbs[i]] == y.loaded[|y.accepted|]);
      (DeliversPrefix(Next(y, e)) <==> harmless) && (Inv(Next(y, e)) <==> harmless)
  {
    var y' := Next(y, ToServer(i, source, io));
    if Distinguishable(y, ToServer(i, source, io)) {
      ToServerKeeps(y, i, source, io);
      InvDelivers(y');
    } else {
      MistakenExact(y, i, source, io);
    }
  }

  lemma MistakenExact(y: Sys, i: nat, source: Address, io: Io)
    requires Inv(y) && i < |y.cOut| && y.cOut[i].seg.kind == Data && ReachesServer(y, i, source)
    requires (|y.accepted| - y.cAbs[i]) % SEQUENCE_SIZE == 0
    ensures var y' := Next(y, ToServer(i, source, io));
      var twin := |y.accepted| < |y.loaded| && y.loaded[y.cAbs[i]] == y.loaded[|y.accepted|];
      (DeliversPrefix(y') <==> twin) && (Inv(y') <==> twin)
  {
    var y' := Next(y, ToServer(i, source, io));
    MistakenBytes(y, i, source, io);
    if |y.accepted| < |y.loaded| && y.loaded[y.cAbs[i]] == y.loaded[|y.accepted|] {
      TwinKeeps(y, i, source, io);
      InvDelivers(y');
    } else {
      if DeliversPrefix(y') {
        OneFrameLonger(y, y', y.loaded[y.cAbs[i]]);
      }
      if Inv(y') {
        InvDelivers(y');
      }
    }
  }
}
