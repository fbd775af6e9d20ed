/** The handler object: a slot array rotated in place, shared output queue, one method per event. */
module ClientHandlers {
  import opened Wire
  import opened MIPTP
  import H = Handler

  /** The daemon's output queue, shared by all handlers. It holds copies of frames. */
  class OutQueue {
    var items: seq<Packet>

    constructor ()
      ensures items == []
    {
      items := [];
    }
  }

  /** The sequence number i places after base. */
  function Around(base: nat, i: nat): nat {
    (base + i) % H.SEQUENCE_SIZE
  }

  lemma InsideIsNear(base: nat, seqNum: nat)
    requires base < H.SEQUENCE_SIZE
    ensures H.SeqInsideWindow(base, seqNum) <==>
            (seqNum - base) % H.SEQUENCE_SIZE < H.WINDOW_SIZE && seqNum < base + H.WINDOW_SIZE
  {
  }

  lemma InsideIsAround(base: nat, seqNum: nat)
    requires base < H.SEQUENCE_SIZE && seqNum < H.SEQUENCE_SIZE
    ensures H.SeqInsideWindow(base, seqNum) <==> exists i :: 0 <= i < H.WINDOW_SIZE && seqNum == Around(base, i)
  {
    DistanceAround(base, seqNum);
    if H.SeqInsideWindow(base, seqNum) {
      assert seqNum == Around(base, H.CalcMoves(base, seqNum));
    }
  }

  lemma DistanceAround(base: nat, seqNum: nat)
    requires base < H.SEQUENCE_SIZE
    ensures seqNum < base + H.SEQUENCE_SIZE ==> H.CalcMoves(base, seqNum) == (seqNum - base) % H.SEQUENCE_SIZE
    ensures seqNum < H.SEQUENCE_SIZE ==>
              0 <= H.CalcMoves(base, seqNum) < H.SEQUENCE_SIZE && Around(base, H.CalcMoves(base, seqNum)) == seqNum
  {
  }

  class ClientHandler {
    var role: H.Role
    var stage: H.Stage
    var destAddr: Address
    var destPort: Port
    var srcPort: Port
    var used: nat
    var base: nat
    var ack: nat
    var buffer: seq<byte>
    var loaded: nat
    var received: nat
    var alive: bool
    const slots: array<MIPTPFrame?>
    const outQueue: OutQueue
    ghost var frames: set<MIPTPFrame>

    /** All ten slots hold different, well-formed frames. */
    ghost predicate Framed()
      reads this, slots, frames
    {
      && slots.Length == H.WINDOW_SIZE
      && (forall i :: 0 <= i < slots.Length ==> slots[i] != null && slots[i] in frames && slots[i].Valid())
      && (forall i, j :: 0 <= i < j < slots.Length ==> slots[i] != slots[j])
    }

    ghost predicate Valid()
      reads this, slots, frames
    {
      && slots.Length == H.WINDOW_SIZE
      && used <= H.WINDOW_SIZE && base < H.SEQUENCE_SIZE && ack < H.SEQUENCE_SIZE
      && (used > 0 ==> Framed())
      && (role == H.Client && stage == H.Connected ==> Framed())
      && (stage in {H.Application, H.Listen, H.WaitReply} ==> used == 0)
      && (stage == H.Listen ==> role == H.Server)
    }

    /** The handler as a value; slot i of the first `used` is the i-th frame of the window. */
    ghost function Abs(): H.State
      requires Valid()
      reads this, slots, frames
    {
      H.State(role, stage, destAddr, destPort, srcPort, Window(), base, ack, buffer, loaded, received, alive)
    }

    ghost function Window(): (w: seq<Segment>)
      requires Valid()
      reads this, slots, frames
      ensures |w| == used
      ensures forall i :: 0 <= i < used ==> w[i] == slots[i].View()
    {
      seq(used, i requires 0 <= i < used && Valid() reads this, slots, frames => slots[i].View())
    }

    constructor (q: OutQueue)
      ensures Valid() && Abs() == H.NewState() && outQueue == q && fresh(slots) && frames == {}
    {
      role, stage := H.Unset, H.Application;
      destAddr, destPort, srcPort := 0, 0, 0;
      used, base, ack := 0, 0, 0;
      buffer, loaded, received, alive := [], 0, 0, true;
      slots := new MIPTPFrame?[H.WINDOW_SIZE](_ => null);
      outQueue := q;
      frames := {};
    }

    /** Whether seqNum is one of the ten numbers from the base on, counted around the circle of 40. */
    method SeqInsideWindow(seqNum: nat) returns (inside: bool)
      requires base < H.SEQUENCE_SIZE
      ensures inside <==> (seqNum - base) % H.SEQUENCE_SIZE < H.WINDOW_SIZE && seqNum < base + H.WINDOW_SIZE
      ensures seqNum < H.SEQUENCE_SIZE ==> (inside <==> exists i :: 0 <= i < H.WINDOW_SIZE && seqNum == Around(base, i))
      ensures inside == H.SeqInsideWindow(base, seqNum)
    {
      InsideIsNear(base, seqNum);
      if seqNum < H.SEQUENCE_SIZE {
        InsideIsAround(base, seqNum);
      }
      if seqNum < base {
        if seqNum + H.SEQUENCE_SIZE < base + H.WINDOW_SIZE {
          return true;
        } else {
          return false;
        }
      } else {
        if seqNum < base + H.WINDOW_SIZE {
          return true;
        } else {
          return false;
        }
      }
    }

    /** How far seqNum is from the base, going up around the circle of 40. */
    method CalcMoves(seqNum: nat) returns (moves: int)
      requires base < H.SEQUENCE_SIZE
      ensures seqNum < base + H.SEQUENCE_SIZE ==> moves == (seqNum - base) % H.SEQUENCE_SIZE
      ensures seqNum < H.SEQUENCE_SIZE ==> 0 <= moves < H.SEQUENCE_SIZE && Around(base, moves) == seqNum
      ensures seqNum >= base ==> moves == seqNum - base
      ensures moves == H.CalcMoves(base, seqNum)
    {
      DistanceAround(base, seqNum);
      if seqNum < base {
        return (seqNum + H.SEQUENCE_SIZE) - base;
      } else {
        return seqNum - base;
      }
    }

    /** std::rotate on the slots: the first `moves` go to the back, in order. */
    method Rotate(moves: nat)
      requires slots.Length == H.WINDOW_SIZE && moves <= H.WINDOW_SIZE
      modifies slots
      ensures slots[..] == old(slots[moves..] + slots[..moves])
      ensures forall i :: 0 <= i < H.WINDOW_SIZE - moves ==> slots[i] == old(slots[moves + i])
      ensures old(Framed()) ==> Framed()
    {
      ghost var was := slots[..];
      var rotated := slots[moves..] + slots[..moves];
      forall i | 0 <= i < slots.Length {
        slots[i] := rotated[i];
      }
      assert slots[..] == rotated;
      RotatedDistinct(was, moves);
      assert forall i :: 0 <= i < |rotated| ==> rotated[i] in was;
    }

    method MoveWindow(moves: int)
      requires Valid() && moves <= H.WINDOW_SIZE
      modifies this`used, this`base, slots
      ensures Valid() && Abs() == H.MoveWindow(old(Abs()), moves)
      ensures moves > 0 ==> slots[..] == old(slots[moves..] + slots[..moves])
      ensures moves <= 0 ==> slots[..] == old(slots[..])
    {
      hide Parse, WellFormed;
      if moves > 0 {
        DropSlots(moves);
        base := (base + moves) % H.SEQUENCE_SIZE;
      }
    }

    /** The slots part of moving the window: rotate, and free the slots that went to the back. */
    method DropSlots(moves: nat)
      requires Valid() && moves <= H.WINDOW_SIZE
      modifies this`used, slots
      ensures Valid() && slots[..] == old(slots[moves..] + slots[..moves])
      ensures Window() == if moves < old(used) then old(Window())[moves..] else []
    {
      hide Parse, WellFormed;
      ghost var w := Window();
      Rotate(moves);
      if moves < used {
        used := used - moves;
        assert Window() == w[moves..];
      } else {
        used := 0;
      }
    }

    method QueueWindow()
      requires Valid()
      modifies outQueue
      ensures outQueue.items == old(outQueue.items) + H.QueuedWindow(Abs())
    {
      hide Parse, WellFormed;
      for i := 0 to used
        invariant outQueue.items == old(outQueue.items) + H.QueuedWindow(Abs())[..i]
      {
        outQueue.items := outQueue.items + [Packet(destAddr, slots[i].View())];
      }
    }

    method QueueAck()
      requires Valid()
      modifies outQueue
      ensures outQueue.items == old(outQueue.items) + [H.AckFrame(Abs())]
    {
      QueueControl(Sack, ack);
    }

    /** A frame without a message, built field by field and copied into the output queue. */
    method QueueControl(kind: Kind, seqNum: nat)
      requires seqNum < H.SEQUENCE_SIZE
      modifies outQueue
      ensures outQueue.items ==
              old(outQueue.items) + [Packet(destAddr, MakeSegment(kind, destPort, srcPort, seqNum, []))]
    {
      hide Parse, WellFormed;
      var frame := new MIPTPFrame();
      frame.SetKind(kind);
      frame.SetDest(destPort);
      frame.SetSource(srcPort);
      frame.SetSequenceNumber(seqNum);
      frame.SetMsgSize(0);
      assert frame.View().msg == [];
      outQueue.items := outQueue.items + [Packet(destAddr, frame.View())];
    }

    /** One chunk read into a slot and made a data frame. */
    method FillFrame(frame: MIPTPFrame, bytes: Chunk, seqNum: nat)
      requires frame.Valid() && seqNum < H.SEQUENCE_SIZE
      requires |frame.View().msg| == MAX_MSG
      modifies frame
      ensures frame.Valid() && frame.View() == MakeSegment(Data, destPort, srcPort, seqNum, bytes)
    {
      hide Parse, WellFormed;
      frame.WriteMsg(bytes);
      frame.SetKind(Data);
      frame.SetDest(destPort);
      frame.SetSource(srcPort);
      frame.SetSequenceNumber(seqNum);
      ghost var full := frame.View().msg;
      frame.SetMsgSize(|bytes|);
      assert frame.View().msg == full[..|bytes|] == bytes;
    }

    /** The slot behind the window is opened to the largest message before it is read into. */
    method OpenSlot()
      requires Valid() && Framed() && used < H.WINDOW_SIZE
      modifies slots[used]
      ensures Valid() && Framed() && Abs() == old(Abs())
      ensures |slots[used].View().msg| == MAX_MSG
    {
      hide Parse, WellFormed;
      var frame := slots[used];
      frame.SetMsgSize(MAX_MSG);
      assert Window() == old(Window());
    }

    method LoadSlot(bytes: Chunk)
      requires Valid() && Framed() && used < H.WINDOW_SIZE && stage == H.Connected
      requires |slots[used].View().msg| == MAX_MSG
      modifies this`used, this`loaded, slots[used]
      ensures Valid() && Framed()
      ensures var h := old(Abs());
        Abs() == h.(window := h.window + [H.DataSegment(h, bytes)], loaded := h.loaded + |bytes|)
    {
      hide Parse, WellFormed;
      ghost var h := Abs();
      var frame := slots[used];
      FillFrame(frame, bytes, (base + used) % H.SEQUENCE_SIZE);
      used := used + 1;
      loaded := loaded + |frame.View().msg|;
      assert Window() == h.window + [H.DataSegment(h, bytes)];
    }

    /** Read into the free slots until the socket blocks or is gone. */
    method LoadFrames(input: seq<H.Read>)
      requires Valid() && role == H.Client && stage == H.Connected
      modifies this`used, this`loaded, this`stage, frames
      ensures Valid() && Abs() == H.LoadFrames(old(Abs()), input)
      ensures H.Takes(old(Abs()), Abs(), input)
      ensures slots[..] == old(slots[..])
    {
      hide Parse, WellFormed, H.Takes, H.LoadFrames;
      H.LoadFramesTakes(Abs(), input);
      ReadSlots(input);
    }

    method ReadSlots(input: seq<H.Read>)
      requires Valid() && role == H.Client && stage == H.Connected
      modifies this`used, this`loaded, this`stage, frames
      ensures Valid() && Abs() == H.LoadFrames(old(Abs()), input)
      ensures slots[..] == old(slots[..])
    {
      hide Parse, WellFormed;
      ghost var h := Abs();
      var k := 0;
      while used < H.WINDOW_SIZE
        invariant k <= |input| && Valid() && Framed() && slots[..] == old(slots[..])
        invariant stage == H.Connected
        invariant H.LoadFrames(h, input) == H.LoadFrames(Abs(), input[k..])
        decreases H.WINDOW_SIZE - used
      {
        OpenSlot();
        if k == |input| || input[k].ReadBlocked? {
          return;
        }
        if input[k].ReadBroken? {
          if used == 0 {
            stage := H.Failure;
          }
          return;
        }
        LoadSlot(input[k].bytes);
        k := k + 1;
      }
    }

    method SendToSock(w: H.Write) returns (toApp: seq<byte>)
      requires Valid()
      modifies this`buffer, this`stage
      ensures Valid() && Abs() == H.SendToSock(old(Abs()), w).h
      ensures toApp == H.SendToSock(old(Abs()), w).toApp
      ensures toApp + buffer == old(buffer)
      ensures |toApp| == if !w.Wrote? then 0 else if w.n < |old(buffer)| then w.n else |old(buffer)|
      ensures stage == if w.WriteBroken? && old(buffer) != [] then H.Failure else old(stage)
    {
      hide Parse, WellFormed;
      toApp := [];
      if buffer != [] {
        match w
        case Wrote(n) =>
          toApp := if n < |buffer| then buffer[..n] else buffer;
          if n < |buffer| {
            buffer := buffer[n..];
          } else {
            buffer := [];
          }
        case WriteBlocked =>
        case WriteBroken =>
          stage := H.Failure;
      }
    }

    /** The application's request, one field at a time; a field that is not there yet ends the event. */
    method HandleRequest(asks: seq<H.Ask>, ports: seq<Port>) returns (replies: seq<byte>, crashed: bool)
      requires Valid() && stage == H.Application
      modifies this`role, this`stage, this`destAddr, this`destPort, this`srcPort, outQueue
      ensures Valid()
      ensures var e := H.HandleRequest(old(Abs()), asks, ports);
        Abs() == e.h && outQueue.items == old(outQueue.items) + e.out && replies == e.replies && crashed == e.crashed
    {
      hide Parse, WellFormed;
      replies, crashed := [], false;
      var rest := asks;
      if role == H.Unset {
        if asks == [] || asks[0].AskBlocked? {
          return;
        }
        if asks[0].AskBroken? {
          stage := H.Failure;
          return;
        }
        if asks[0].v == H.REQUEST_LISTEN {
          role := H.Server;
        } else if asks[0].v == H.REQUEST_CONNECT {
          role := H.Client;
        } else {
          crashed := true;
          return;
        }
        rest := asks[1..];
      }
      if role == H.Server {
        replies := AskListen(rest, ports);
      } else {
        replies := AskConnect(rest, ports);
      }
    }

    method AskListen(asks: seq<H.Ask>, ports: seq<Port>) returns (replies: seq<byte>)
      requires Valid() && stage == H.Application && role == H.Server
      modifies this`stage, this`srcPort
      ensures Valid()
      ensures var e := H.AskListen(old(Abs()), asks, ports); Abs() == e.h && e.out == [] && replies == e.replies
    {
      hide Parse, WellFormed;
      replies := [];
      if srcPort == 0 {
        if asks == [] || asks[0].AskBlocked? {
          return;
        }
        if asks[0].AskBroken? {
          stage := H.Failure;
          return;
        }
        if asks[0].v !in ports {
          srcPort := asks[0].v;
          stage := H.Listen;
        } else {
          stage := H.Failure;
          replies := [H.REPLY_USEDPORT];
        }
      }
    }

    method AskDestination(asks: seq<H.Ask>) returns (ready: bool)
      requires Valid() && stage == H.Application
      modifies this`stage, this`destAddr, this`destPort
      ensures Valid() && (Abs(), ready) == H.AskDestination(old(Abs()), asks)
      ensures ready ==> stage == H.Application
    {
      hide Parse, WellFormed;
      var k := 0;
      if destAddr == 0 {
        if asks == [] || asks[0].AskBlocked? {
          return false;
        }
        if asks[0].AskBroken? {
          stage := H.Failure;
          return false;
        }
        destAddr := asks[0].v % 0x100;
        k := 1;
      }
      if destPort == 0 {
        if k == |asks| || asks[k].AskBlocked? {
          return false;
        }
        if asks[k].AskBroken? {
          stage := H.Failure;
          return false;
        }
        destPort := asks[k].v;
      }
      return true;
    }

    method AskConnect(asks: seq<H.Ask>, ports: seq<Port>) returns (replies: seq<byte>)
      requires Valid() && stage == H.Application
      modifies this`stage, this`destAddr, this`destPort, this`srcPort, outQueue
      ensures Valid()
      ensures var e := H.AskConnect(old(Abs()), asks, ports);
        Abs() == e.h && outQueue.items == old(outQueue.items) + e.out && replies == e.replies
    {
      hide Parse, WellFormed;
      replies := [];
      var ready := AskDestination(asks);
      if !ready {
        return;
      }
      if srcPort == 0 {
        srcPort := H.FreePort(ports, 1);
      }
      if srcPort > 0 {
        QueueControl(Request, 0);
        stage := H.WaitReply;
      } else {
        stage := H.Failure;
        replies := [H.REPLY_USEDPORT];
      }
    }

    method HandleSock(io: H.Io, ports: seq<Port>) returns (toApp: seq<byte>, replies: seq<byte>, crashed: bool)
      requires Valid()
      modifies this, frames, outQueue
      ensures Valid() && frames == old(frames)
      ensures var e := H.HandleSock(old(Abs()), io, ports);
        && Abs() == e.h && outQueue.items == old(outQueue.items) + e.out
        && toApp == e.toApp && replies == e.replies && crashed == e.crashed
    {
      hide Parse, WellFormed;
      toApp, replies, crashed := [], [], false;
      if stage == H.Application {
        replies, crashed := HandleRequest(io.asks, ports);
      } else if stage == H.Connected {
        if role == H.Server {
          toApp := SendToSock(io.first);
        } else if role == H.Client {
          LoadFrames(io.input);
        }
      }
    }

    /** The retransmission of a tick: an ack and another write for a server, the whole window for a client. */
    method Retransmit(io: H.Io) returns (toApp: seq<byte>, crashed: bool)
      requires Valid()
      modifies this`buffer, this`stage, outQueue
      ensures Valid()
      ensures var e := H.Retransmit(old(Abs()), io);
        && Abs() == e.h && outQueue.items == old(outQueue.items) + e.out && toApp == e.toApp && crashed == e.crashed
    {
      hide Parse, WellFormed;
      toApp, crashed := [], false;
      match role
      case Server =>
        QueueAck();
        toApp := SendToSock(io.second);
      case Client => QueueWindow();
      case Unset => crashed := true;
    }

    method HandleTimer(io: H.Io, ports: seq<Port>) returns (toApp: seq<byte>, replies: seq<byte>, crashed: bool)
      requires Valid()
      modifies this, frames, outQueue
      ensures Valid() && frames == old(frames)
      ensures var e := H.HandleTimer(old(Abs()), io, ports);
        && Abs() == e.h && outQueue.items == old(outQueue.items) + e.out
        && toApp == e.toApp && replies == e.replies && crashed == e.crashed
    {
      hide Parse, WellFormed;
      toApp, replies, crashed := [], [], false;
      if stage == H.WaitReply {
        replies := [H.REPLY_TIMEOUT];
        stage := H.Failure;
      } else if stage == H.Connected {
        ghost var e := H.ServeAndResend(Abs(), io, ports);
        toApp, crashed := ServeAndResend(io, ports);
        if !crashed {
          CheckAlive(e);
        }
      }
    }

    method ServeAndResend(io: H.Io, ports: seq<Port>) returns (toApp: seq<byte>, crashed: bool)
      requires Valid() && stage == H.Connected
      modifies this, frames, outQueue
      ensures Valid() && frames == old(frames)
      ensures var e := H.ServeAndResend(old(Abs()), io, ports);
        && Abs() == e.h && toApp == e.toApp && e.replies == [] && crashed == e.crashed
        && outQueue.items == old(outQueue.items) + e.out
    {
      hide Parse, WellFormed;
      var replies;
      ghost var h, items := Abs(), outQueue.items;
      toApp, replies, crashed := HandleSock(io, ports);
      ghost var served := H.HandleSock(h, io, ports);
      hide H.HandleSock, H.Retransmit;
      var more;
      more, crashed := Retransmit(io);
      ghost var resent := H.Retransmit(served.h, io);
      toApp := toApp + more;
      SeqAssoc(items, served.out, resent.out);
      ResentReplies(served.h, io);
    }

    /** `probe` is what the check queues: a request when something was heard since the last tick. */
    method CheckAlive(ghost e: H.Effect)
      requires Valid() && e.h == Abs()
      modifies this`alive, this`stage, outQueue
      ensures Valid() && Abs() == H.CheckAlive(e).h
      ensures exists probe :: outQueue.items == old(outQueue.items) + probe && H.CheckAlive(e).out == e.out + probe
    {
      hide Parse, WellFormed;
      if !alive {
        stage := H.Failure;
        assert outQueue.items == old(outQueue.items) + [] && H.CheckAlive(e).out == e.out + [];
      } else {
        QueueControl(Request, 0);
        alive := false;
        ghost var probe := [H.Control(e.h, Request)];
        assert outQueue.items == old(outQueue.items) + probe && H.CheckAlive(e).out == e.out + probe;
      }
    }

    method Establish(reply: H.Write) returns (replies: seq<byte>)
      requires Valid() && stage in {H.Listen, H.WaitReply}
      modifies this`stage, this`frames, slots
      ensures Valid() && fresh(frames - old(frames))
      ensures Abs() == H.Establish(old(Abs()), [], reply).h && replies == H.Establish(old(Abs()), [], reply).replies
    {
      hide Parse, WellFormed;
      if !reply.Wrote? {
        stage := H.Failure;
        return [];
      }
      if stage == H.WaitReply {
        InitWindow();
      }
      stage := H.Connected;
      return [H.REPLY_SUCCESS];
    }

    /** Put a new frame into every slot. */
    method InitWindow()
      requires Valid() && used == 0
      modifies this`frames, slots
      ensures Valid() && Framed() && fresh(frames - old(frames))
    {
      hide Parse, WellFormed;
      for i := 0 to slots.Length
        invariant fresh(frames - old(frames))
        invariant forall j :: 0 <= j < i ==>
          slots[j] != null && slots[j] in frames && fresh(slots[j]) && slots[j].Valid()
        invariant forall j, k :: 0 <= j < k < i ==> slots[j] != slots[k]
      {
        var frame := new MIPTPFrame();
        slots[i] := frame;
        frames := frames + {frame};
      }
    }

    method AcceptData(seg: Segment)
      requires Valid()
      modifies this`ack, this`buffer, this`received, outQueue
      ensures Valid()
      ensures var e := H.AcceptData(old(Abs()), seg);
        Abs() == e.h && outQueue.items == old(outQueue.items) + e.out
    {
      hide Parse, WellFormed;
      if seg.seqNum == ack {
        ack := (ack + 1) % H.SEQUENCE_SIZE;
        buffer := buffer + seg.msg;
        received := received + |seg.msg|;
      } else {
        QueueAck();
      }
    }

    method AcceptAck(seqNum: nat)
      requires Valid()
      modifies this`used, this`base, slots, outQueue
      ensures Valid()
      ensures var e := H.AcceptAck(old(Abs()), seqNum);
        Abs() == e.h && outQueue.items == old(outQueue.items) + e.out
    {
      hide Parse, WellFormed, Around;
      var inside := SeqInsideWindow(seqNum);
      if inside || seqNum == (base + H.WINDOW_SIZE) % H.SEQUENCE_SIZE {
        if seqNum != base {
          var moves := CalcMoves(seqNum);
          MoveWindow(moves);
        }
        QueueWindow();
      }
    }

    method ReceiveFrame(source: Address, inFrame: MIPTPFrame, io: H.Io) returns (replies: seq<byte>)
      requires Valid() && inFrame.Valid() && inFrame !in frames
      modifies this, slots, outQueue
      ensures Valid() && fresh(frames - old(frames))
      ensures var e := H.ReceiveFrame(old(Abs()), source, old(inFrame.View()), io);
        Abs() == e.h && outQueue.items == old(outQueue.items) + e.out && replies == e.replies
    {
      hide Parse, WellFormed, H.TakeFrame, H.KeepAlive;
      var seg := inFrame.View();
      replies := [];
      if stage == H.Listen {
        if seg.kind == Request {
          destAddr := source;
          destPort := seg.source;
          QueueControl(Reply, 0);
          replies := Establish(io.reply);
        }
      } else if stage == H.WaitReply {
        if seg.kind == Reply {
          replies := Establish(io.reply);
        }
      } else if stage == H.Connected {
        if source == destAddr && seg.source == destPort {
          ReceiveFromPeer(seg);
        }
      }
    }

    method ReceiveFromPeer(seg: Segment)
      requires Valid() && stage == H.Connected
      modifies this`used, this`base, this`ack, this`buffer, this`received, this`alive, slots, outQueue
      ensures Valid()
      ensures var e := H.KeepAlive(H.TakeFrame(old(Abs()), seg), seg.kind);
        Abs() == e.h && outQueue.items == old(outQueue.items) + e.out && e.replies == []
    {
      hide Parse, WellFormed, H.TakeFrame;
      ghost var e := H.TakeFrame(Abs(), seg);
      TakeFrame(seg);
      KeepAlive(e, seg.kind);
    }

    method TakeFrame(seg: Segment)
      requires Valid() && stage == H.Connected
      modifies this`used, this`base, this`ack, this`buffer, this`received, slots, outQueue
      ensures Valid()
      ensures var e := H.TakeFrame(old(Abs()), seg);
        Abs() == e.h && outQueue.items == old(outQueue.items) + e.out && e.replies == []
    {
      hide Parse, WellFormed;
      if role == H.Server {
        if seg.kind == Data {
          AcceptData(seg);
        }
      } else if role == H.Client {
        if seg.kind == Sack {
          AcceptAck(seg.seqNum);
        }
      }
    }

    /** `e` is what the event did so far. */
    method KeepAlive(ghost e: H.Effect, kind: Kind)
      requires Valid() && e.h == Abs()
      modifies this`alive, outQueue
      ensures Valid() && Abs() == H.KeepAlive(e, kind).h && H.KeepAlive(e, kind).replies == e.replies
      ensures forall items ::
        old(outQueue.items) == items + e.out ==> outQueue.items == items + H.KeepAlive(e, kind).out
    {
      hide Parse, WellFormed;
      if kind == Request {
        QueueControl(Reply, 0);
        alive := true;
      } else if kind == Reply {
        alive := true;
      }
    }
  }

  lemma SeqAssoc<T>(a: seq<T>, b: seq<T>, c: seq<T>)
    ensures (a + b) + c == a + (b + c)
  {
  }

  lemma ResentReplies(h: H.State, io: H.Io)
    ensures H.Retransmit(h, io).replies == []
  {
  }

  lemma RotatedDistinct<T>(s: seq<T>, k: nat)
    requires k <= |s|
    ensures (forall i, j :: 0 <= i < j < |s| ==> s[i] != s[j]) ==>
              (forall i, j :: 0 <= i < j < |s| ==> (s[k..] + s[..k])[i] != (s[k..] + s[..k])[j])
  {
  }
}
