/** One MIP daemon: its neighbour (ARP) table, the frames waiting for a lookup, and what each event sends. */
module MipDaemon {
  import opened Wire
  import opened MIP
  import opened MIPTP
  import opened Bits

  /** `reply` tells whether the neighbour was heard since the last sweep; `sock` is the interface it is on. */
  datatype ArpPair = ArpPair(reply: bool, mip: Address, mac: nat, sock: nat)

  /** A network frame by its fields; `mac` is the link address it came from. */
  datatype Frame = Frame(tra: nat, dest: Address, source: Address, ttl: nat, mac: nat, msg: seq<byte>)

  /** What the MIP daemon tells its routing daemon. */
  datatype Notice =
    | ArpDiscovery(mip: Address)
    | LostConnection(mip: Address)
    | Advertisement(source: Address, ad: seq<byte>)

  datatype Sent = Sent(sock: nat, to: nat, frame: Frame)

  /** A frame waiting for its lookup; `forwarded` frames keep the source address they came with. */
  datatype Waiting = Waiting(forwarded: bool, frame: Frame)

  datatype Delivery = Delivery(source: Address, msg: seq<byte>)

  /** `locals[i]` is the address of interface i. */
  datatype State = State(locals: seq<Address>, arp: seq<ArpPair>, waiting: seq<Waiting>)

  /** New state, notices to routing, lookup requests, deliveries to transport, frames on the wire. */
  datatype Effect = Effect(m: State, notices: seq<Notice>, requests: seq<Address>, up: seq<Delivery>, wire: seq<Sent>)

  function Quiet(m: State): Effect { Effect(m, [], [], [], []) }

  function FindArp(arp: seq<ArpPair>, mip: Address): (i: nat)
    ensures i <= |arp|
    ensures forall j :: 0 <= j < i ==> arp[j].mip != mip
    ensures i < |arp| ==> arp[i].mip == mip
  {
    if arp == [] || arp[0].mip == mip then 0 else 1 + FindArp(arp[1..], mip)
  }

  /** Every known pair is on an interface the daemon has. */
  predicate SocksOk(m: State) { SocksBelow(m.arp, |m.locals|) }

  predicate SocksBelow(arp: seq<ArpPair>, n: nat) {
    forall i :: 0 <= i < |arp| ==> arp[i].sock < n
  }

  function Response(m: State, p: ArpPair): Sent
    requires p.sock < |m.locals|
  {
    Sent(p.sock, p.mac, Frame(TRA_ZERO, p.mip, m.locals[p.sock], TTL_MAX, 0, []))
  }

  /** A neighbour was heard: remember it, or mark it as still there; answer if it asked. */
  function Heard(m: State, sock: nat, f: Frame, answer: bool): Effect
    requires SocksOk(m) && sock < |m.locals|
  {
    var i := FindArp(m.arp, f.source);
    if i == |m.arp| then
      var p := ArpPair(true, f.source, f.mac, sock);
      Effect(m.(arp := m.arp + [p]), [ArpDiscovery(f.source)], [], [], if answer then [Response(m, p)] else [])
    else
      var p := m.arp[i].(reply := true);
      Effect(m.(arp := m.arp[i := p]), [], [], [], if answer then [Response(m, p)] else [])
  }

  /** A transport frame off the wire: deliver it, drop it when its TTL is used up, or queue it for a lookup. */
  function Transit(m: State, f: Frame): Effect {
    if f.dest in m.locals then Effect(m, [], [], [Delivery(f.source, f.msg)], [])
    else if f.ttl <= 0 then Quiet(m)
    else Effect(m.(waiting := m.waiting + [Waiting(true, f.(ttl := (f.ttl - 1) % 16))]), [], [f.dest], [], [])
  }

  predicate KnownTra(tra: nat) { tra == TRA_A || tra == TRA_ZERO || tra == TRA_R || tra == TRA_T }

  /** The daemon throws on other TRA values. */
  function OnWire(m: State, sock: nat, f: Frame): Effect
    requires SocksOk(m) && sock < |m.locals| && KnownTra(f.tra)
  {
    if f.tra == TRA_A then Heard(m, sock, f, true)
    else if f.tra == TRA_ZERO then Heard(m, sock, f, false)
    else if f.tra == TRA_R then Effect(m, [Advertisement(f.source, f.msg)], [], [], [])
    else Transit(m, f)
  }

  /** A frame from the transport daemon. */
  function OnTransport(m: State, dest: Address, msg: seq<byte>): Effect {
    if dest in m.locals then Effect(m, [], [], [Delivery(dest, msg)], [])
    else
      var w := Waiting(false, Frame(TRA_T, dest, 0, 0xff % 16, 0, msg));
      Effect(m.(waiting := m.waiting + [w]), [], [dest], [], [])
  }

  /** A lookup answer: it is for the frame that has waited longest. */
  function OnLookup(m: State, via: Option<Address>): Effect
    requires SocksOk(m) && m.waiting != []
  {
    var w := m.waiting[0];
    var m1 := m.(waiting := m.waiting[1..]);
    match via
    case None => Quiet(m1)
    case Some(a) =>
      var i := FindArp(m.arp, a);
      if i == |m.arp| then Quiet(m1)
      else
        var p := m.arp[i];
        var f := if w.forwarded then w.frame else w.frame.(source := m.locals[p.sock]);
        Effect(m1, [], [], [], [Sent(p.sock, p.mac, f)])
  }

  /** The message of a reused frame resized for n bytes, which the length field rounds up, and filled with ad. */
  function Refilled(held: seq<byte>, ad: seq<byte>): (msg: seq<byte>)
    ensures |msg| == |ad| + CalcPadding(|ad|) && ad <= msg
  {
    ad + Resize(held, |ad| + CalcPadding(|ad|))[|ad|..]
  }

  function Advert(m: State, p: ArpPair, msg: seq<byte>): Sent
    requires p.sock < |m.locals|
  {
    Sent(p.sock, p.mac, Frame(TRA_R, p.mip, m.locals[p.sock], TTL_MAX, 0, msg))
  }

  /** An advertisement from the routing daemon, for one neighbour; msg is the refilled message. */
  function OnUpdate(m: State, dest: Address, msg: seq<byte>): Effect
    requires SocksOk(m)
  {
    var i := FindArp(m.arp, dest);
    if i == |m.arp| then Quiet(m) else Effect(m, [], [], [], [Advert(m, m.arp[i], msg)])
  }

  // ----- the timer sweep -----

  /** The pairs heard since the last sweep, waiting to be heard again. */
  function Kept(arp: seq<ArpPair>): seq<ArpPair> {
    if arp == [] then [] else
    (if arp[0].reply then [arp[0].(reply := false)] else []) + Kept(arp[1..])
  }

  /** A notice for every silent pair, in order. */
  function Lost(arp: seq<ArpPair>): seq<Notice> {
    if arp == [] then [] else
    (if arp[0].reply then [] else [LostConnection(arp[0].mip)]) + Lost(arp[1..])
  }

  function OnTimer(m: State): Effect {
    Effect(m.(arp := Kept(m.arp)), Lost(m.arp), [], [], Broadcasts(m.locals))
  }

  /** One broadcast for each interface, in order. */
  function Broadcasts(locals: seq<Address>): (b: seq<Sent>)
    ensures |b| == |locals|
  {
    seq(|locals|, i requires 0 <= i < |locals| =>
      Sent(i, 0xffff_ffff_ffff, Frame(TRA_A, 0xff, locals[i], TTL_MAX, 0, [])))
  }

  lemma NoneSwept()
    ensures Kept([]) == [] && Lost([]) == []
  {
  }

  lemma OneSwept(arp: seq<ArpPair>)
    requires arp != []
    ensures Kept(arp) == (if arp[0].reply then [arp[0].(reply := false)] else []) + Kept(arp[1..])
    ensures Lost(arp) == (if arp[0].reply then [] else [LostConnection(arp[0].mip)]) + Lost(arp[1..])
  {
  }

  // ----- the daemon object -----

  class Daemon {
    const locals: seq<Address>
    var arp: seq<ArpPair>
    var waiting: seq<Waiting>
    var updateMsg: seq<byte>   // the message of the frame object that advertisements are sent with
    // what it has written to its sockets
    var notices: seq<Notice>
    var requests: seq<Address>
    var up: seq<Delivery>
    var wire: seq<Sent>

    function Abs(): State
      reads this
    {
      State(locals, arp, waiting)
    }

    /** The writes of one event are those of e, behind the earlier ones. */
    twostate predicate Wrote(e: Effect)
      reads this
    {
      && Abs() == e.m && updateMsg == old(updateMsg)
      && notices == old(notices) + e.notices && requests == old(requests) + e.requests
      && up == old(up) + e.up && wire == old(wire) + e.wire
    }

    constructor (addresses: seq<Address>)
      ensures Abs() == State(addresses, [], []) && notices == [] && requests == [] && up == [] && wire == []
    {
      locals, arp, waiting, updateMsg := addresses, [], [], [];
      notices, requests, up, wire := [], [], [], [];
    }

    /** std::find_if over the ARP table. */
    method FindPair(mip: Address) returns (i: nat)
      ensures i == FindArp(arp, mip)
    {
      i := 0;
      while i < |arp| && arp[i].mip != mip
        invariant i <= |arp| && forall j :: 0 <= j < i ==> arp[j].mip != mip
      {
        i := i + 1;
      }
    }

    method AddARPPair(sock: nat, mip: Address, mac: nat)
      modifies this`arp
      ensures arp == old(arp) + [ArpPair(true, mip, mac, sock)]
    {
      arp := arp + [ArpPair(true, mip, mac, sock)];
    }

    method ReceiveRawSock(sock: nat, f: Frame)
      requires SocksOk(Abs()) && sock < |locals| && KnownTra(f.tra)
      modifies this
      ensures Wrote(OnWire(old(Abs()), sock, f)) && SocksOk(Abs())
    {
      if f.tra == TRA_A || f.tra == TRA_ZERO {
        var i := FindPair(f.source);
        if i == |arp| {
          AddARPPair(sock, f.source, f.mac);
          notices := notices + [ArpDiscovery(f.source)];
        } else {
          arp := arp[i := arp[i].(reply := true)];
        }
        if f.tra == TRA_A {
          wire := wire + [Response(Abs(), arp[i])];
        }
      } else if f.tra == TRA_R {
        notices := notices + [Advertisement(f.source, f.msg)];
      } else if f.dest !in locals {
        if f.ttl > 0 {
          waiting := waiting + [Waiting(true, f.(ttl := (f.ttl - 1) % 16))];
          requests := requests + [f.dest];
        }
      } else {
        up := up + [Delivery(f.source, f.msg)];
      }
    }

    method ReceiveTransportSock(dest: Address, msg: seq<byte>)
      modifies this
      ensures Wrote(OnTransport(old(Abs()), dest, msg))
    {
      if dest in locals {
        up := up + [Delivery(dest, msg)];
      } else {
        waiting := waiting + [Waiting(false, Frame(TRA_T, dest, 0, 0xff % 16, 0, msg))];
        requests := requests + [dest];
      }
    }

    method ReceiveLookupSock(via: Option<Address>)
      requires SocksOk(Abs()) && waiting != []
      modifies this
      ensures Wrote(OnLookup(old(Abs()), via)) && SocksOk(Abs())
    {
      if via.Some? {
        var i := FindPair(via.value);
        if i < |arp| {
          var frame := waiting[0].frame;
          if !waiting[0].forwarded {
            frame := frame.(source := locals[arp[i].sock]);
          }
          wire := wire + [Sent(arp[i].sock, arp[i].mac, frame)];
        }
      }
      waiting := waiting[1..];
    }

    /** The reused frame is resized by the length field before the bytes are read into it. */
    method ReceiveUpdateSock(dest: Address, ad: seq<byte>)
      requires SocksOk(Abs()) && |ad| <= 2040
      modifies this`wire, this`updateMsg
      ensures updateMsg == Refilled(old(updateMsg), ad)
      ensures OnUpdate(old(Abs()), dest, updateMsg).m == Abs()
      ensures wire == old(wire) + OnUpdate(old(Abs()), dest, updateMsg).wire
    {
      var header := seq(32, _ => false);
      SizeRoundedUp(header, |ad|);
      updateMsg := Resize(updateMsg, MsgSizeOf(SetField(header, 19, 9, PayloadWords(|ad|))));
      updateMsg := ad + updateMsg[|ad|..];
      var i := FindPair(dest);
      if i < |arp| {
        var frame := Frame(TRA_R, arp[i].mip, locals[arp[i].sock], TTL_MAX, 0, updateMsg);
        wire := wire + [Sent(arp[i].sock, arp[i].mac, frame)];
      }
    }

    /** The sweep erases silent pairs while it walks over the table. */
    method Sweep()
      modifies this`arp, this`notices
      ensures arp == Kept(old(arp)) && notices == old(notices) + Lost(old(arp))
    {
      hide Kept, Lost;
      NoneSwept();
      var it := 0;
      ghost var rest := arp;
      while it < |arp|
        invariant it <= |arp| && arp[it..] == rest
        invariant arp[..it] + Kept(rest) == Kept(old(arp))
        invariant notices + Lost(rest) == old(notices) + Lost(old(arp))
        decreases |arp| - it
      {
        OneSwept(rest);
        rest := rest[1..];
        if !arp[it].reply {
          notices := notices + [LostConnection(arp[it].mip)];
          arp := arp[..it] + arp[it + 1..];
        } else {
          arp := arp[it := arp[it].(reply := false)];
          it := it + 1;
        }
      }
    }

    /** A broadcast on every interface. */
    method Broadcast()
      modifies this`wire
      ensures wire == old(wire) + Broadcasts(locals)
    {
      for i := 0 to |locals|
        invariant wire == old(wire) + Broadcasts(locals)[..i]
      {
        wire := wire + [Sent(i, 0xffff_ffff_ffff, Frame(TRA_A, 0xff, locals[i], TTL_MAX, 0, []))];
      }
    }

    method Timeout()
      modifies this
      ensures Wrote(OnTimer(old(Abs())))
    {
      Sweep();
      Broadcast();
    }
  }
}
