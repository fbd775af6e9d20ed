/**
 * One endpoint of a transport connection: the state of a ClientHandler and what each of its event handlers
 * makes of it, given what the sockets do. `window` is the used part of the slot array.
 */
module Handler {
  import opened Wire

  const WINDOW_SIZE := 10
  const SEQUENCE_SIZE := 40

  const REQUEST_LISTEN := 1
  const REQUEST_CONNECT := 2
  const REPLY_SUCCESS: byte := 1
  const REPLY_TIMEOUT: byte := 2
  const REPLY_USEDPORT: byte := 3

  datatype Role = Unset | Server | Client

  datatype Stage = Application | Listen | WaitReply | Connected | Failure

  datatype State = State(
    role: Role, stage: Stage, destAddr: Address, destPort: Port, srcPort: Port,
    window: seq<Segment>, base: nat, ack: nat, buffer: seq<byte>,
    loaded: nat, received: nat, alive: bool)

  /** One read of the application socket while data is being loaded. */
  datatype Read = Got(bytes: Chunk) | ReadBlocked | ReadBroken

  /** One read of a request field. */
  datatype Ask = Value(v: Port) | AskBlocked | AskBroken

  datatype Write = Wrote(n: nat) | WriteBlocked | WriteBroken

  /** The new state, the frames queued, the data bytes and the reply codes given to the application. */
  datatype Effect = Effect(h: State, out: seq<Packet>, toApp: seq<byte>, replies: seq<byte>, crashed: bool)

  function Quiet(h: State): Effect { Effect(h, [], [], [], false) }

  function NewState(): State {
    State(Unset, Application, 0, 0, 0, [], 0, 0, [], 0, 0, true)
  }

  function Control(h: State, kind: Kind): Packet {
    Packet(h.destAddr, MakeSegment(kind, h.destPort, h.srcPort, 0, []))
  }

  function AckFrame(h: State): Packet {
    Packet(h.destAddr, MakeSegment(Sack, h.destPort, h.srcPort, h.ack, []))
  }

  function DataSegment(h: State, bytes: seq<byte>): Segment {
    MakeSegment(Data, h.destPort, h.srcPort, (h.base + |h.window|) % SEQUENCE_SIZE, bytes)
  }

  function QueuedWindow(h: State): (out: seq<Packet>)
    ensures |out| == |h.window|
    ensures forall i :: 0 <= i < |out| ==> out[i] == Packet(h.destAddr, h.window[i])
  {
    seq(|h.window|, i requires 0 <= i < |h.window| => Packet(h.destAddr, h.window[i]))
  }

  // ----- sequence arithmetic -----

  predicate SeqInsideWindow(base: nat, seqNum: nat) {
    if seqNum < base then seqNum + SEQUENCE_SIZE < base + WINDOW_SIZE else seqNum < base + WINDOW_SIZE
  }

  function CalcMoves(base: nat, seqNum: nat): int {
    if seqNum < base then (seqNum + SEQUENCE_SIZE) - base else seqNum - base
  }

  predicate AckAccepted(base: nat, seqNum: nat) {
    SeqInsideWindow(base, seqNum) || seqNum == (base + WINDOW_SIZE) % SEQUENCE_SIZE
  }

  function MoveWindow(h: State, moves: int): State {
    if moves > 0 then
      h.(window := if moves < |h.window| then h.window[moves..] else [],
         base := (h.base + moves) % SEQUENCE_SIZE)
    else h
  }

  // ----- application data -----

  function LoadFrames(h: State, input: seq<Read>): State
    decreases input
  {
    if |h.window| >= WINDOW_SIZE || input == [] then h else
    match input[0]
    case Got(bytes) =>
      LoadFrames(h.(window := h.window + [DataSegment(h, bytes)], loaded := h.loaded + |bytes|), input[1..])
    case ReadBlocked => h
    case ReadBroken => if h.window == [] then h.(stage := Failure) else h
  }

  function Messages(segs: seq<Segment>): (m: seq<seq<byte>>)
    ensures |m| == |segs|
  {
    seq(|segs|, i requires 0 <= i < |segs| => segs[i].msg)
  }

  /** What the socket gives to at most `room` reads before one blocks or breaks. */
  function Chunks(input: seq<Read>, room: nat): seq<seq<byte>>
    decreases room
  {
    if room == 0 || input == [] || !input[0].Got? then [] else [input[0].bytes] + Chunks(input[1..], room - 1)
  }

  /** The free slots of h are filled with exactly what the socket gave, read by read. */
  ghost predicate Takes(h: State, h': State, input: seq<Read>)
    requires |h.window| <= WINDOW_SIZE
  {
    Messages(h'.window) == Messages(h.window) + Chunks(input, WINDOW_SIZE - |h.window|)
  }

  lemma {:induction false} LoadFramesTakes(h: State, input: seq<Read>)
    requires |h.window| <= WINDOW_SIZE
    ensures Takes(h, LoadFrames(h, input), input)
    ensures h.stage != Failure ==>
              (LoadFrames(h, input).stage == Failure <==> h.window == [] && input != [] && input[0].ReadBroken?)
    decreases |input|
  {
    if |h.window| < WINDOW_SIZE && input != [] && input[0].Got? {
      var seg := DataSegment(h, input[0].bytes);
      var h1 := h.(window := h.window + [seg], loaded := h.loaded + |input[0].bytes|);
      LoadFramesTakes(h1, input[1..]);
      assert Messages(h1.window) == Messages(h.window) + [input[0].bytes];
    }
  }

  lemma {:induction false} LoadKeepsRest(h: State, input: seq<Read>)
    ensures var h' := LoadFrames(h, input);
      h' == h.(stage := h'.stage, window := h'.window, loaded := h'.loaded)
    decreases input
  {
    if |h.window| < WINDOW_SIZE && input != [] && input[0].Got? {
      var h1 := h.(window := h.window + [DataSegment(h, input[0].bytes)], loaded := h.loaded + |input[0].bytes|);
      LoadKeepsRest(h1, input[1..]);
    }
  }

  function SendToSock(h: State, w: Write): Effect {
    if h.buffer == [] then Quiet(h) else
    match w
    case Wrote(n) =>
      var ret := if n < |h.buffer| then n else |h.buffer|;
      Effect(h.(buffer := h.buffer[ret..]), [], h.buffer[..ret], [], false)
    case WriteBlocked => Quiet(h)
    case WriteBroken => Quiet(h.(stage := Failure))
  }

  /**
   * What the socket takes is the front of the buffer, as much as it has room for, and the rest stays; a socket
   * that blocks or is gone takes nothing, and only a socket found gone ends the connection.
   */
  lemma SentToApp(h: State, w: Write)
    ensures var e := SendToSock(h, w);
      && e.toApp + e.h.buffer == h.buffer
      && |e.toApp| == (if !w.Wrote? then 0 else if w.n < |h.buffer| then w.n else |h.buffer|)
      && e.h == h.(buffer := e.h.buffer, stage := if w.WriteBroken? && h.buffer != [] then Failure else h.stage)
      && e.out == [] && e.replies == [] && !e.crashed
  {
  }

  // ----- the application's request -----

  /** The first port from `from` on that no handler holds, 0 when the ports below 16383 are exhausted. */
  function FreePort(ports: seq<Port>, from: Port): Port
    decreases 0x3fff - from
  {
    if from >= 0x3fff then 0 else if from !in ports then from else FreePort(ports, from + 1)
  }

  function AskListen(h: State, input: seq<Ask>, ports: seq<Port>): Effect {
    if h.srcPort != 0 || input == [] || input[0].AskBlocked? then Quiet(h)
    else if input[0].AskBroken? then Quiet(h.(stage := Failure))
    else if input[0].v !in ports then Quiet(h.(srcPort := input[0].v, stage := Listen))
    else Effect(h.(stage := Failure), [], [], [REPLY_USEDPORT], false)
  }

  /** Read the destination fields still missing; the second result says whether all of them are there now. */
  function AskDestination(h: State, input: seq<Ask>): (State, bool) {
    var needAddr := h.destAddr == 0;
    if needAddr && (input == [] || input[0].AskBlocked?) then (h, false)
    else if needAddr && input[0].AskBroken? then (h.(stage := Failure), false)
    else
      var h1 := if needAddr then h.(destAddr := input[0].v % 0x100) else h;
      var rest := if needAddr then input[1..] else input;
      if h.destPort != 0 then (h1, true)
      else if rest == [] || rest[0].AskBlocked? then (h1, false)
      else if rest[0].AskBroken? then (h1.(stage := Failure), false)
      else (h1.(destPort := rest[0].v), true)
  }

  function AskConnect(h: State, input: seq<Ask>, ports: seq<Port>): Effect {
    var (h1, ready) := AskDestination(h, input);
    if !ready then Quiet(h1) else
    var h2 := if h1.srcPort == 0 then h1.(srcPort := FreePort(ports, 1)) else h1;
    if h2.srcPort > 0
    then Effect(h2.(stage := WaitReply), [Control(h2, Request)], [], [], false)
    else Effect(h2.(stage := Failure), [], [], [REPLY_USEDPORT], false)
  }

  /** `ports` are the source ports of every live handler, this one included. An unknown request aborts. */
  function HandleRequest(h: State, input: seq<Ask>, ports: seq<Port>): Effect {
    if h.role != Unset then HandleKnownRole(h, input, ports)
    else if input == [] || input[0].AskBlocked? then Quiet(h)
    else if input[0].AskBroken? then Quiet(h.(stage := Failure))
    else if input[0].v == REQUEST_LISTEN then HandleKnownRole(h.(role := Server), input[1..], ports)
    else if input[0].v == REQUEST_CONNECT then HandleKnownRole(h.(role := Client), input[1..], ports)
    else Effect(h, [], [], [], true)
  }

  function HandleKnownRole(h: State, input: seq<Ask>, ports: seq<Port>): Effect
    requires h.role != Unset
  {
    if h.role == Server then AskListen(h, input, ports) else AskConnect(h, input, ports)
  }

  // ----- events -----

  /** What the sockets do during one event. */
  datatype Io = Io(asks: seq<Ask>, input: seq<Read>, reply: Write, first: Write, second: Write)

  function HandleSock(h: State, io: Io, ports: seq<Port>): Effect {
    if h.stage == Application then HandleRequest(h, io.asks, ports)
    else if h.stage == Connected && h.role == Server then SendToSock(h, io.first)
    else if h.stage == Connected && h.role == Client then Quiet(LoadFrames(h, io.input))
    else Quiet(h)
  }

  /** The retransmission a timer tick queues, after the socket has been served once. */
  function Retransmit(h: State, io: Io): Effect {
    match h.role
    case Server =>
      var sent := SendToSock(h, io.second);
      sent.(out := [AckFrame(h)] + sent.out)
    case Client => Effect(h, QueuedWindow(h), [], [], false)
    case Unset => Effect(h, [], [], [], true)
  }

  /** The connection is given up when nothing was heard since the last tick; else it is probed again. */
  function CheckAlive(e: Effect): Effect {
    if e.h.alive
    then e.(h := e.h.(alive := false), out := e.out + [Control(e.h, Request)])
    else e.(h := e.h.(stage := Failure))
  }

  /** Serve the socket once more, then retransmit. */
  function ServeAndResend(h: State, io: Io, ports: seq<Port>): Effect {
    var served := HandleSock(h, io, ports);
    var resent := Retransmit(served.h, io);
    resent.(out := served.out + resent.out, toApp := served.toApp + resent.toApp)
  }

  function HandleTimer(h: State, io: Io, ports: seq<Port>): Effect {
    match h.stage
    case WaitReply => Effect(h.(stage := Failure), [], [], [REPLY_TIMEOUT], false)
    case Connected =>
      var e := ServeAndResend(h, io, ports);
      if e.crashed then e else CheckAlive(e)
    case _ => Quiet(h)
  }

  /** Tell the application the connection stands; the connection is dropped if it cannot be told. */
  function Establish(h: State, out: seq<Packet>, reply: Write): Effect {
    if reply.Wrote? then Effect(h.(stage := Connected), out, [], [REPLY_SUCCESS], false)
    else Effect(h.(stage := Failure), out, [], [], false)
  }

  function AcceptData(h: State, seg: Segment): Effect {
    if seg.seqNum == h.ack
    then Quiet(h.(ack := (h.ack + 1) % SEQUENCE_SIZE, buffer := h.buffer + seg.msg, received := h.received + |seg.msg|))
    else Effect(h, [AckFrame(h)], [], [], false)
  }

  function AcceptAck(h: State, seqNum: nat): Effect {
    if AckAccepted(h.base, seqNum) then
      var moved := if seqNum != h.base then MoveWindow(h, CalcMoves(h.base, seqNum)) else h;
      Effect(moved, QueuedWindow(moved), [], [], false)
    else Quiet(h)
  }

  /** A server takes data, a client takes acks. */
  function TakeFrame(h: State, seg: Segment): Effect {
    if h.role == Server && seg.kind == Data then AcceptData(h, seg)
    else if h.role == Client && seg.kind == Sack then AcceptAck(h, seg.seqNum)
    else Quiet(h)
  }

  function KeepAlive(e: Effect, kind: Kind): Effect {
    match kind
    case Request => e.(h := e.h.(alive := true), out := e.out + [Control(e.h, Reply)])
    case Reply => e.(h := e.h.(alive := true))
    case _ => e
  }

  function ReceiveFrame(h: State, source: Address, seg: Segment, io: Io): Effect {
    match h.stage
    case Listen =>
      if seg.kind == Request then
        var h1 := h.(destAddr := source, destPort := seg.source);
        Establish(h1, [Control(h1, Reply)], io.reply)
      else Quiet(h)
    case WaitReply => if seg.kind == Reply then Establish(h, [], io.reply) else Quiet(h)
    case Connected =>
      if source == h.destAddr && seg.source == h.destPort then
        KeepAlive(TakeFrame(h, seg), seg.kind)
      else Quiet(h)
    case _ => Quiet(h)
  }
}
