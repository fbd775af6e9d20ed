/**
 * One node: its MIP daemon, its routing daemon and the two sockets between them. The update socket carries
 * notices one way, the lookup socket requests one way and answers the other.
 */
module MipRouting {
  import opened Wire
  import opened MipDaemon
  import opened RoutingNode
  import MIP

  /** An answer on its way back, with the destination it was asked for. */
  datatype Answer = Answer(dest: Address, via: Option<Address>)

  /**
   * `notices` and `requests` are what the routing daemon has not read yet; `lookups` and `held` are its
   * lookup queue and the request its lookup thread has taken; `answers` are on their way back.
   */
  datatype Node = Node(
    mip: State, notices: seq<Notice>, requests: seq<Address>,
    neighbours: seq<Address>, lookups: seq<Address>, held: Option<Address>, answers: seq<Answer>)

  /** What the routing daemon makes of a notice in its neighbour list. */
  function Note(neighbours: seq<Address>, n: Notice): seq<Address> {
    match n
    case ArpDiscovery(mip) => if mip in neighbours then neighbours else neighbours + [mip]
    case LostConnection(mip) => Without(neighbours, mip)
    case Advertisement(_, _) => neighbours
  }

  function NoteAll(neighbours: seq<Address>, ns: seq<Notice>): seq<Address> {
    if ns == [] then neighbours else Note(NoteAll(neighbours, ns[..|ns| - 1]), ns[|ns| - 1])
  }

  datatype Step =
    | Wire(sock: nat, f: Frame)                       // MIP: frame from the link
    | Transport(dest: Address, msg: seq<byte>)        // MIP: frame from the transport daemon
    | Timer                                           // MIP: sweep
    | AnswerIn                                        // MIP: lookup answer
    | UpdateOut(dest: Address, msg: seq<byte>)        // MIP: advertisement to send
    | NoticeIn                                        // routing: notice
    | RequestIn                                       // routing: lookup request into the queue
    | Take                                            // lookup thread: next request
    | Reply(via: Option<Address>)                     // lookup thread: answer it

  predicate Enabled(x: Node, s: Step) {
    match s
    case Wire(sock, f) => sock < |x.mip.locals| && KnownTra(f.tra)
    case AnswerIn => x.answers != []
    case NoticeIn => x.notices != []
    case RequestIn => x.requests != []
    case Take => x.held.None? && x.lookups != []
    case Reply(_) => x.held.Some?
    case _ => true
  }

  function AfterMip(x: Node, e: Effect): Node {
    x.(mip := e.m, notices := x.notices + e.notices, requests := x.requests + e.requests)
  }

  function Next(x: Node, s: Step): Node
    requires Inv(x) && Enabled(x, s)
  {
    match s
    case Wire(sock, f) => AfterMip(x, OnWire(x.mip, sock, f))
    case Transport(dest, msg) => AfterMip(x, OnTransport(x.mip, dest, msg))
    case Timer => AfterMip(x, OnTimer(x.mip))
    case AnswerIn =>
      AnswersHaveFrames(x);
      AfterMip(x.(answers := x.answers[1..]), OnLookup(x.mip, x.answers[0].via))
    case UpdateOut(dest, msg) => AfterMip(x, OnUpdate(x.mip, dest, msg))
    case NoticeIn => x.(neighbours := Note(x.neighbours, x.notices[0]), notices := x.notices[1..])
    case RequestIn => x.(lookups := x.lookups + [x.requests[0]], requests := x.requests[1..])
    case Take => x.(held := Some(x.lookups[0]), lookups := x.lookups[1..])
    case Reply(via) => x.(answers := x.answers + [Answer(x.held.value, via)], held := None)
  }

  function Dests(ws: seq<Waiting>): (d: seq<Address>)
    ensures |d| == |ws|
  {
    seq(|ws|, i requires 0 <= i < |ws| => ws[i].frame.dest)
  }

  function Asked(answers: seq<Answer>): (d: seq<Address>)
    ensures |d| == |answers|
  {
    seq(|answers|, i requires 0 <= i < |answers| => answers[i].dest)
  }

  function Mips(arp: seq<ArpPair>): (d: seq<Address>)
    ensures |d| == |arp|
  {
    seq(|arp|, i requires 0 <= i < |arp| => arp[i].mip)
  }

  ghost predicate Distinct(s: seq<Address>) {
    forall i, j :: 0 <= i < j < |s| ==> s[i] != s[j]
  }

  /** The waiting frames' destinations, in order, are those of answers, held request, queue and requests. */
  predicate Pipeline(x: Node) {
    Dests(x.mip.waiting) ==
      Asked(x.answers) + (if x.held.Some? then [x.held.value] else []) + x.lookups + x.requests
  }

  /** The neighbour list, once every notice has been read, is the ARP table's addresses in order. */
  ghost predicate Mirror(x: Node) {
    Distinct(Mips(x.mip.arp)) && NoteAll(x.neighbours, x.notices) == Mips(x.mip.arp)
  }

  ghost predicate Inv(x: Node) {
    SocksOk(x.mip) && Pipeline(x) && Mirror(x)
  }

  lemma AnswersHaveFrames(x: Node)
    requires Pipeline(x) && x.answers != []
    ensures x.mip.waiting != [] && x.mip.waiting[0].frame.dest == x.answers[0].dest
  {
    assert Dests(x.mip.waiting)[0] == Asked(x.answers)[0];
  }

  // ----- notices -----

  lemma {:induction false} NoteAllAppend(neighbours: seq<Address>, a: seq<Notice>, b: seq<Notice>)
    ensures NoteAll(neighbours, a + b) == NoteAll(NoteAll(neighbours, a), b)
    decreases |b|
  {
    if b == [] {
      assert a + b == a;
    } else {
      var init := b[..|b| - 1];
      assert (a + b)[..|a + b| - 1] == a + init;
      NoteAllAppend(neighbours, a, init);
    }
  }

  lemma NoteFirst(neighbours: seq<Address>, ns: seq<Notice>)
    requires ns != []
    ensures NoteAll(Note(neighbours, ns[0]), ns[1..]) == NoteAll(neighbours, ns)
  {
    NoteAllAppend(neighbours, ns[..1], ns[1..]);
    assert ns[..1] + ns[1..] == ns;
    assert NoteAll(neighbours, ns[..1]) == Note(neighbours, ns[0]);
  }

  lemma {:induction false} WithoutBehind(front: seq<Address>, a: Address, rest: seq<Address>)
    requires a !in front
    ensures Without(front + [a] + rest, a) == front + rest
  {
    if front == [] {
      assert front + [a] + rest == [a] + rest;
    } else {
      assert (front + [a] + rest)[1..] == front[1..] + [a] + rest;
      WithoutBehind(front[1..], a, rest);
    }
  }

  lemma NoteLost(front: seq<Address>, p: ArpPair, rest: seq<ArpPair>, ns: seq<Notice>)
    requires p.mip !in front
    ensures NoteAll(front + [p.mip] + Mips(rest), [LostConnection(p.mip)] + ns) == NoteAll(front + Mips(rest), ns)
  {
    var all := [LostConnection(p.mip)] + ns;
    NoteFirst(front + [p.mip] + Mips(rest), all);
    assert all[1..] == ns;
    WithoutBehind(front, p.mip, Mips(rest));
  }

  lemma MipsSplit(p: ArpPair, rest: seq<ArpPair>)
    ensures Mips([p] + rest) == [p.mip] + Mips(rest)
  {
  }

  /** Reading the loss notices of a sweep removes exactly the addresses the sweep removed, order kept. */
  lemma {:induction false} SweepMirrored(front: seq<Address>, arp: seq<ArpPair>)
    requires Distinct(front + Mips(arp))
    ensures NoteAll(front + Mips(arp), Lost(arp)) == front + Mips(Kept(arp))
    decreases |arp|
  {
    if arp != [] {
      var p, rest := arp[0], arp[1..];
      assert arp == [p] + rest;
      MipsSplit(p, rest);
      assert front + Mips(arp) == front + [p.mip] + Mips(rest);
      NotInFront(front, p.mip, Mips(rest));
      if p.reply {
        SweepMirrored(front + [p.mip], rest);
        MipsSplit(p.(reply := false), Kept(rest));
        assert front + [p.mip] + Mips(Kept(rest)) == front + Mips(Kept(arp));
        assert Lost(arp) == Lost(rest);
      } else {
        DistinctWithout(front, p.mip, Mips(rest));
        SweepMirrored(front, rest);
        NoteLost(front, p, rest, Lost(rest));
        assert Kept(arp) == Kept(rest);
      }
    } else {
      assert front + Mips(arp) == front;
    }
  }

  lemma NotInFront(front: seq<Address>, a: Address, rest: seq<Address>)
    requires Distinct(front + [a] + rest)
    ensures a !in front
  {
    var s := front + [a] + rest;
    assert s[|front|] == a;
    assert forall i :: 0 <= i < |front| ==> s[i] == front[i];
  }

  lemma DistinctWithout(front: seq<Address>, a: Address, rest: seq<Address>)
    requires Distinct(front + [a] + rest)
    ensures Distinct(front + rest)
  {
    var s, r := front + [a] + rest, front + rest;
    assert forall i :: 0 <= i < |r| ==> r[i] == s[if i < |front| then i else i + 1];
  }

  /** A sweep keeps exactly the pairs heard since the last one, in order, and starts their next period. */
  lemma {:induction false} SweepKeepsHeard(arp: seq<ArpPair>)
    ensures forall p :: p in Kept(arp) <==> !p.reply && p.(reply := true) in arp
    ensures forall mip :: LostConnection(mip) in Lost(arp) <==> exists p :: p in arp && !p.reply && p.mip == mip
    ensures |Kept(arp)| + |Lost(arp)| == |arp|
  {
    if arp != [] {
      SweepKeepsHeard(arp[1..]);
      assert arp == [arp[0]] + arp[1..];
    }
  }

  // ----- every step keeps both correspondences -----

  lemma NoteOne(neighbours: seq<Address>, ns: seq<Notice>, n: Notice)
    ensures NoteAll(neighbours, ns + [n]) == Note(NoteAll(neighbours, ns), n)
  {
  }

  lemma MipsKnown(arp: seq<ArpPair>, mip: Address)
    ensures FindArp(arp, mip) == |arp| ==> mip !in Mips(arp)
  {
  }

  lemma HeardNew(x: Node, sock: nat, f: Frame, answer: bool)
    requires Inv(x) && sock < |x.mip.locals| && FindArp(x.mip.arp, f.source) == |x.mip.arp|
    ensures Inv(AfterMip(x, Heard(x.mip, sock, f, answer)))
  {
    var arp := x.mip.arp;
    var p := ArpPair(true, f.source, f.mac, sock);
    MipsKnown(arp, f.source);
    assert Mips(arp + [p]) == Mips(arp) + [f.source];
    NoteOne(x.neighbours, x.notices, ArpDiscovery(f.source));
    assert x.requests + [] == x.requests;
    var x' := AfterMip(x, Heard(x.mip, sock, f, answer));
    assert x'.mip == x.mip.(arp := arp + [p]);
    assert x' == x.(mip := x'.mip, notices := x.notices + [ArpDiscovery(f.source)]);
  }

  lemma HeardAgain(x: Node, sock: nat, f: Frame, answer: bool)
    requires Inv(x) && sock < |x.mip.locals| && FindArp(x.mip.arp, f.source) < |x.mip.arp|
    ensures Inv(AfterMip(x, Heard(x.mip, sock, f, answer)))
  {
    var i := FindArp(x.mip.arp, f.source);
    var arp' := x.mip.arp[i := x.mip.arp[i].(reply := true)];
    assert Mips(arp') == Mips(x.mip.arp);
    assert x.notices + [] == x.notices && x.requests + [] == x.requests;
    var x' := AfterMip(x, Heard(x.mip, sock, f, answer));
    assert x' == x.(mip := x.mip.(arp := arp'));
  }

  /** A frame that starts waiting has its request put behind all others. */
  lemma WaitingRequested(x: Node, w: Waiting, e: Effect)
    requires Inv(x)
    requires e.m == x.mip.(waiting := x.mip.waiting + [w]) && e.notices == [] && e.requests == [w.frame.dest]
    ensures Inv(AfterMip(x, e))
  {
    var x' := AfterMip(x, e);
    assert Dests(x'.mip.waiting) == Dests(x.mip.waiting) + [w.frame.dest];
    assert x.notices + [] == x.notices;
    assert Pipeline(x');
  }

  lemma QuietKeeps(x: Node, e: Effect)
    requires Inv(x) && e.m == x.mip && e.requests == []
    requires forall i :: 0 <= i < |e.notices| ==> e.notices[i].Advertisement?
    requires |e.notices| <= 1
    ensures Inv(AfterMip(x, e))
  {
    assert x.requests + [] == x.requests;
    if e.notices == [] {
      assert x.notices + [] == x.notices;
    } else {
      assert e.notices == [e.notices[0]];
      NoteOne(x.neighbours, x.notices, e.notices[0]);
    }
  }

  lemma WireKeeps(x: Node, sock: nat, f: Frame)
    requires Inv(x) && sock < |x.mip.locals| && KnownTra(f.tra)
    ensures Inv(AfterMip(x, OnWire(x.mip, sock, f)))
  {
    if f.tra == MIP.TRA_A || f.tra == MIP.TRA_ZERO {
      if FindArp(x.mip.arp, f.source) == |x.mip.arp| {
        HeardNew(x, sock, f, f.tra == MIP.TRA_A);
      } else {
        HeardAgain(x, sock, f, f.tra == MIP.TRA_A);
      }
    } else if f.tra != MIP.TRA_R && f.dest !in x.mip.locals && f.ttl > 0 {
      WaitingRequested(x, Waiting(true, f.(ttl := (f.ttl - 1) % 16)), Transit(x.mip, f));
    } else {
      QuietKeeps(x, OnWire(x.mip, sock, f));
    }
  }

  lemma TimerKeeps(x: Node)
    requires Inv(x)
    ensures Inv(AfterMip(x, OnTimer(x.mip)))
  {
    var arp := x.mip.arp;
    assert [] + Mips(arp) == Mips(arp) && [] + Mips(Kept(arp)) == Mips(Kept(arp));
    NoteAllAppend(x.neighbours, x.notices, Lost(arp));
    SweepMirrored([], arp);
    KeptDistinct(arp);
    KeptSocks(arp, |x.mip.locals|);
    assert x.requests + [] == x.requests;
    var x' := AfterMip(x, OnTimer(x.mip));
    assert x' == x.(mip := x.mip.(arp := Kept(arp)), notices := x.notices + Lost(arp));
    hide Kept, Lost, Mips, NoteAll;
  }

  lemma {:induction false} KeptSocks(arp: seq<ArpPair>, n: nat)
    requires SocksBelow(arp, n)
    ensures SocksBelow(Kept(arp), n)
  {
    if arp != [] {
      KeptSocks(arp[1..], n);
    }
  }

  lemma {:induction false} KeptAmong(arp: seq<ArpPair>, a: Address)
    requires a in Mips(Kept(arp))
    ensures a in Mips(arp)
  {
    if arp != [] {
      var p, rest := arp[0], arp[1..];
      assert arp == [p] + rest;
      MipsSplit(p, rest);
      if p.reply {
        MipsSplit(p.(reply := false), Kept(rest));
      } else {
        assert Kept(arp) == Kept(rest);
      }
      if a in Mips(Kept(rest)) {
        KeptAmong(rest, a);
      }
    }
  }

  lemma {:induction false} KeptDistinct(arp: seq<ArpPair>)
    requires Distinct(Mips(arp))
    ensures Distinct(Mips(Kept(arp)))
  {
    if arp != [] {
      var p, rest := arp[0], arp[1..];
      assert arp == [p] + rest;
      MipsSplit(p, rest);
      assert Mips(arp) == [] + [p.mip] + Mips(rest);
      DistinctWithout([], p.mip, Mips(rest));
      assert [] + Mips(rest) == Mips(rest);
      KeptDistinct(rest);
      if p.reply {
        MipsSplit(p.(reply := false), Kept(rest));
        NotBehind(p.mip, Mips(rest));
        if p.mip in Mips(Kept(rest)) {
          KeptAmong(rest, p.mip);
        }
      } else {
        assert Kept(arp) == Kept(rest);
      }
    }
  }

  lemma NotBehind(a: Address, rest: seq<Address>)
    requires Distinct([a] + rest)
    ensures a !in rest
  {
    var s := [a] + rest;
    assert s[0] == a;
    assert forall i :: 0 <= i < |rest| ==> s[i + 1] == rest[i];
  }

  lemma AnswerKeeps(x: Node)
    requires Inv(x) && x.answers != []
    ensures Inv(Next(x, AnswerIn))
  {
    var x' := Next(x, AnswerIn);
    assert Dests(x'.mip.waiting) == Dests(x.mip.waiting)[1..];
    assert Asked(x'.answers) == Asked(x.answers)[1..];
    assert x.notices + [] == x.notices && x.requests + [] == x.requests;
    assert Pipeline(x');
  }

  lemma RoutingKeeps(x: Node, s: Step)
    requires Inv(x) && Enabled(x, s) && (s.RequestIn? || s.Take? || s.Reply?)
    ensures Inv(Next(x, s))
  {
  }

  /** Every step of the two daemons, in whatever order they run, keeps both correspondences. */
  lemma StepKeeps(x: Node, s: Step)
    requires Inv(x) && Enabled(x, s)
    ensures Inv(Next(x, s))
  {
    match s
    case Wire(sock, f) => WireKeeps(x, sock, f);
    case Transport(dest, msg) =>
      if dest in x.mip.locals {
        QuietKeeps(x, OnTransport(x.mip, dest, msg));
      } else {
        var e := OnTransport(x.mip, dest, msg);
        WaitingRequested(x, e.m.waiting[|x.mip.waiting|], e);
      }
    case Timer => TimerKeeps(x);
    case AnswerIn => AnswerKeeps(x);
    case UpdateOut(dest, msg) => QuietKeeps(x, OnUpdate(x.mip, dest, msg));
    case NoticeIn => NoteFirst(x.neighbours, x.notices);
    case RequestIn => RoutingKeeps(x, s);
    case Take => RoutingKeeps(x, s);
    case Reply(_) => RoutingKeeps(x, s);
  }

  function Run(x: Node, steps: seq<Step>): (x': Node)
    requires Inv(x)
    ensures Inv(x')
    decreases |steps|
  {
    if steps == [] || !Enabled(x, steps[0]) then x
    else
      StepKeeps(x, steps[0]);
      Run(Next(x, steps[0]), steps[1..])
  }

  predicate Start(x: Node) {
    x.mip.arp == [] && x.mip.waiting == [] && x.notices == [] && x.requests == [] &&
    x.neighbours == [] && x.lookups == [] && x.held == None && x.answers == []
  }

  lemma StartOk(x: Node)
    requires Start(x)
    ensures Inv(x)
  {
  }

  /**
   * In every reachable state the answer that comes in next was asked for the frame it is used on, and the
   * frame it releases is sent to the answered neighbour or dropped, no other.
   */
  lemma AnsweredForOwnDestination(x: Node, steps: seq<Step>)
    requires Start(x)
    ensures Inv(x)
    ensures var y := Run(x, steps);
      y.answers != [] ==>
        && y.mip.waiting != [] && y.mip.waiting[0].frame.dest == y.answers[0].dest
        && Next(y, AnswerIn).mip.waiting == y.mip.waiting[1..]
        && (forall i :: 0 <= i < |OnLookup(y.mip, y.answers[0].via).wire| ==>
              OnLookup(y.mip, y.answers[0].via).wire[i].frame.dest == y.answers[0].dest)
  {
    StartOk(x);
    var y := Run(x, steps);
    if y.answers != [] {
      AnswersHaveFrames(y);
    }
  }

  /** In every reachable state the notices on their way turn the neighbour list into the ARP table's addresses. */
  lemma NeighboursMirrored(x: Node, steps: seq<Step>)
    requires Start(x)
    ensures Inv(x)
    ensures var y := Run(x, steps);
      && NoteAll(y.neighbours, y.notices) == Mips(y.mip.arp)
      && (y.notices == [] ==> y.neighbours == Mips(y.mip.arp))
  {
  }

  // ----- frames leave in the order they came -----

  /** A frame that stops waiting, the answer it was released by, and what that put on the wire. */
  datatype Departure = Departure(w: Waiting, answer: Answer, wire: seq<Sent>)

  function Leaving(x: Node, s: Step): seq<Departure>
    requires Inv(x) && Enabled(x, s)
  {
    if s.AnswerIn? then
      AnswersHaveFrames(x);
      [Departure(x.mip.waiting[0], x.answers[0], OnLookup(x.mip, x.answers[0].via).wire)]
    else []
  }

  /** The frames that start waiting in this step: those behind the ones there were. */
  function Entering(x: Node, s: Step): seq<Waiting>
    requires Inv(x) && Enabled(x, s)
  {
    var after := Next(x, s).mip.waiting;
    if |x.mip.waiting| <= |after| then after[|x.mip.waiting|..] else []
  }

  function Frames(ds: seq<Departure>): (ws: seq<Waiting>)
    ensures |ws| == |ds|
  {
    seq(|ds|, i requires 0 <= i < |ds| => ds[i].w)
  }

  lemma FramesSplit(a: seq<Departure>, b: seq<Departure>)
    ensures Frames(a + b) == Frames(a) + Frames(b)
  {
  }

  function LeavingOver(x: Node, steps: seq<Step>): seq<Departure>
    requires Inv(x)
    decreases |steps|
  {
    if steps == [] || !Enabled(x, steps[0]) then []
    else
      StepKeeps(x, steps[0]);
      Leaving(x, steps[0]) + LeavingOver(Next(x, steps[0]), steps[1..])
  }

  function EnteringOver(x: Node, steps: seq<Step>): seq<Waiting>
    requires Inv(x)
    decreases |steps|
  {
    if steps == [] || !Enabled(x, steps[0]) then []
    else
      StepKeeps(x, steps[0]);
      Entering(x, steps[0]) + EnteringOver(Next(x, steps[0]), steps[1..])
  }

  lemma StepInOrder(x: Node, s: Step)
    requires Inv(x) && Enabled(x, s)
    ensures Frames(Leaving(x, s)) + Next(x, s).mip.waiting == x.mip.waiting + Entering(x, s)
  {
    var after := Next(x, s).mip.waiting;
    if s.AnswerIn? {
      AnswersHaveFrames(x);
      assert after == x.mip.waiting[1..];
      assert [x.mip.waiting[0]] + after == x.mip.waiting;
    } else {
      WaitingGrows(x, s);
      assert Frames([]) == [];
    }
  }

  lemma WaitingGrows(x: Node, s: Step)
    requires Inv(x) && Enabled(x, s) && !s.AnswerIn?
    ensures x.mip.waiting <= Next(x, s).mip.waiting
  {
  }

  /** First in, first out: what has left, then what still waits, is what waited first, then what came. */
  lemma {:induction false} LeaveInOrder(x: Node, steps: seq<Step>)
    requires Inv(x)
    ensures Frames(LeavingOver(x, steps)) + Run(x, steps).mip.waiting == x.mip.waiting + EnteringOver(x, steps)
    decreases |steps|
  {
    hide Inv, Next, Enabled, Frames, Leaving, Entering;
    if steps == [] || !Enabled(x, steps[0]) {
      NoFrames();
    } else {
      var s, rest := steps[0], steps[1..];
      StepKeeps(x, s);
      var x1 := Next(x, s);
      StepInOrder(x, s);
      LeaveInOrder(x1, rest);
      FramesSplit(Leaving(x, s), LeavingOver(x1, rest));
      Rebracket(Frames(Leaving(x, s)), Frames(LeavingOver(x1, rest)), Run(x1, rest).mip.waiting,
                x1.mip.waiting, x.mip.waiting, Entering(x, s), EnteringOver(x1, rest));
    }
  }

  lemma NoFrames()
    ensures Frames([]) == []
  {
  }

  lemma Rebracket<T>(l: seq<T>, l': seq<T>, end: seq<T>, mid: seq<T>, start: seq<T>, e: seq<T>, e': seq<T>)
    requires l + mid == start + e && l' + end == mid + e'
    ensures l + l' + end == start + (e + e')
  {
    assert l + l' + end == l + (l' + end);
    assert l + (mid + e') == (l + mid) + e';
    assert (start + e) + e' == start + (e + e');
  }

  /** Each frame leaves by the answer asked for its own destination, as at most one frame, itself. */
  ghost predicate LeavesAsItself(d: Departure) {
    && d.answer.dest == d.w.frame.dest && |d.wire| <= 1
    && (d.wire != [] ==> d.wire[0].frame == d.w.frame.(source := d.wire[0].frame.source))
  }

  lemma {:induction false} LeaveAsThemselves(x: Node, steps: seq<Step>)
    requires Inv(x)
    ensures forall d :: d in LeavingOver(x, steps) ==> LeavesAsItself(d)
    decreases |steps|
  {
    hide Inv, Next, Enabled, Leaving, LeavesAsItself;
    if steps != [] && Enabled(x, steps[0]) {
      StepKeeps(x, steps[0]);
      OneLeaves(x, steps[0]);
      LeaveAsThemselves(Next(x, steps[0]), steps[1..]);
    }
  }

  lemma OneLeaves(x: Node, s: Step)
    requires Inv(x) && Enabled(x, s)
    ensures forall d :: d in Leaving(x, s) ==> LeavesAsItself(d)
  {
    if s.AnswerIn? {
      AnswersHaveFrames(x);
    }
  }

  /** The frames for one destination, in order. */
  function Bound(ws: seq<Waiting>, dest: Address): seq<Waiting> {
    if ws == [] then [] else
    Bound(ws[..|ws| - 1], dest) + if ws[|ws| - 1].frame.dest == dest then [ws[|ws| - 1]] else []
  }

  lemma {:induction false} BoundAppend(a: seq<Waiting>, b: seq<Waiting>, dest: Address)
    ensures Bound(a + b, dest) == Bound(a, dest) + Bound(b, dest)
    decreases |b|
  {
    if b == [] {
      assert a + b == a;
    } else {
      var init := b[..|b| - 1];
      assert (a + b)[..|a + b| - 1] == a + init;
      BoundAppend(a, init, dest);
    }
  }

  /**
   * Over every run of the two daemons the frames for one destination leave the node, or are dropped, in the
   * order they arrived, each on the answer asked for that destination.
   */
  lemma SameDestinationInOrder(x: Node, steps: seq<Step>, dest: Address)
    requires Start(x)
    ensures Inv(x)
    ensures var left := LeavingOver(x, steps);
      && Bound(Frames(left), dest) + Bound(Run(x, steps).mip.waiting, dest) == Bound(EnteringOver(x, steps), dest)
      && forall d :: d in left ==> LeavesAsItself(d)
  {
    StartOk(x);
    LeaveInOrder(x, steps);
    LeaveAsThemselves(x, steps);
    BoundAppend(Frames(LeavingOver(x, steps)), Run(x, steps).mip.waiting, dest);
    assert x.mip.waiting + EnteringOver(x, steps) == EnteringOver(x, steps);
  }

  /** A frame behind n others is at the front once n have left, with whatever came later behind it. */
  lemma TurnComes(x: Node, steps: seq<Step>, n: nat)
    requires Inv(x) && n < |x.mip.waiting| && |LeavingOver(x, steps)| == n
    ensures Run(x, steps).mip.waiting == x.mip.waiting[n..] + EnteringOver(x, steps)
  {
    LeaveInOrder(x, steps);
    var left, still := Frames(LeavingOver(x, steps)), Run(x, steps).mip.waiting;
    assert still == (left + still)[n..];
    assert (x.mip.waiting + EnteringOver(x, steps))[n..] == x.mip.waiting[n..] + EnteringOver(x, steps);
  }

  // ----- neighbours over time -----

  /** Whoever was heard survives the next sweep. */
  lemma HeardSurvivesSweep(m: State, sock: nat, f: Frame, answer: bool)
    requires SocksOk(m) && sock < |m.locals|
    ensures f.source in Mips(Kept(Heard(m, sock, f, answer).m.arp))
  {
    var arp' := Heard(m, sock, f, answer).m.arp;
    var i := FindArp(m.arp, f.source);
    var p := arp'[i];
    assert p.reply && p in arp';
    SweepKeepsHeard(arp');
    assert p.(reply := false) in Kept(arp');
    var j :| 0 <= j < |Kept(arp')| && Kept(arp')[j] == p.(reply := false);
    assert Mips(Kept(arp'))[j] == f.source;
  }

  /** After a sweep nobody counts as heard: a second sweep in silence removes and reports everyone. */
  lemma {:induction false} SecondSweepEmpties(arp: seq<ArpPair>)
    ensures Kept(Kept(arp)) == [] && |Lost(Kept(arp))| == |Kept(arp)|
  {
    if arp != [] {
      SecondSweepEmpties(arp[1..]);
      if arp[0].reply {
        assert Kept(arp)[1..] == Kept(arp[1..]);
      } else {
        assert Kept(arp) == Kept(arp[1..]);
      }
    }
  }

  /** A waiting frame on its way over the interface of pair i. */
  function Released(m: State, w: Waiting, i: nat): Sent
    requires SocksOk(m) && i < |m.arp|
  {
    var p := m.arp[i];
    Sent(p.sock, p.mac, if w.forwarded then w.frame else w.frame.(source := m.locals[p.sock]))
  }

  /**
   * What a lookup answer releases: one frame if the answer names a known neighbour, over that neighbour's
   * interface; a forwarded frame unchanged, one that started here with that interface's address as source.
   */
  lemma ReleasedFrame(m: State, via: Option<Address>)
    requires SocksOk(m) && m.waiting != []
    ensures var wire, w := OnLookup(m, via).wire, m.waiting[0];
      && |wire| == (if via.Some? && via.value in Mips(m.arp) then 1 else 0)
      && (wire != [] ==> exists i :: 0 <= i < |m.arp| && m.arp[i].mip == via.value && wire[0] == Released(m, w, i))
  {
    if via.Some? {
      var i := FindArp(m.arp, via.value);
      if i < |m.arp| {
        assert Mips(m.arp)[i] == via.value;
      } else {
        MipsKnown(m.arp, via.value);
      }
    }
  }
}

/** An advertisement from table to table, through both nodes' daemons and the link between them. */
module AdvertPath {
  import opened Wire
  import opened MipDaemon
  import opened DistanceVector
  import opened MipNetwork
  import RoutingNode
  import R = RoutingNet
  import Routes

  /** What v's MIP daemon puts on the wire when its routing daemon has packed a table for address a. */
  function Advertised(m: State, a: Address, held: seq<byte>, data: seq<Column>): seq<Sent>
    requires SocksOk(m)
  {
    OnUpdate(m, a, Refilled(held, PackBytes(data, a))).wire
  }

  lemma AdvertSent(c: Site, v: nat, m: State, a: Address, held: seq<byte>, data: seq<Column>)
    requires SiteOk(c) && v < |c.homes| && SocksOk(m) && m.locals == c.homes[v] && ArpTrue(c, v, m.arp)
    requires FindArp(m.arp, a) < |m.arp|
    ensures R.Edge(c.t, v, a) && a in c.t.owner
    ensures var wire, p := Advertised(m, a, held, data), m.arp[FindArp(m.arp, a)];
      && PairTrue(c, v, p) && |wire| == 1 && wire[0].sock == p.sock && wire[0].to == p.mac
      && wire[0].frame.source == c.t.near[(v, a)] && wire[0].frame.tra == MIP.TRA_R
      && wire[0].frame.msg == Refilled(held, PackBytes(data, a))
  {
    assert PairTrue(c, v, m.arp[FindArp(m.arp, a)]);
  }

  /** The bytes, whatever the rounded length appended to them, unpack to the sender's split-horizon view. */
  lemma AdvertUnpacks(a: Address, held: seq<byte>, data: seq<Column>, before: seq<Column>)
    requires Unique(data)
    ensures |PackBytes(data, a)| <= 2040
    ensures var msg := Refilled(held, PackBytes(data, a));
      && |msg| >= 2 && |msg| >= 2 + 2 * Count(msg) && Unique(Unpack(before, msg))
      && AdView(Unpack(before, msg)) == Routes.Pack(View(data), a)
  {
    hide Count, Unpack, PackBytes;
    PackedSize(data, a);
    var ad := PackBytes(data, a);
    var msg := Refilled(held, ad);
    assert msg == ad + msg[|ad|..];
    AdvertRoundTrip(data, a, before, msg[|ad|..]);
  }

  lemma PackedSize(data: seq<Column>, dest: Address)
    requires Unique(data)
    ensures |PackBytes(data, dest)| <= 514
  {
    AtMost(data, 0x100);
  }

  /** The one frame arrives at interface j of node u, and is all that u's MIP daemon has to do with it. */
  ghost predicate ReportedAs(c: Site, wire: seq<Sent>, v: nat, u: nat, j: nat, there: State, n: Notice)
    requires SocksOk(there) && u < |c.homes| && there.locals == c.homes[u]
  {
    && |wire| == 1 && Arrives(c, OnLink(v, wire[0]), u, j) && KnownTra(wire[0].frame.tra)
    && OnWire(there, j, Received(c, OnLink(v, wire[0]))) == Effect(there, [n], [], [], [])
  }

  /**
   * What v's routing daemon packs for a listed neighbour, its MIP daemon sends over the interface and to the link
   * address of that neighbour; it arrives there and nowhere else, is reported under v's own address on the link,
   * and unpacks to v's split-horizon view for that neighbour.
   */
  lemma AdvertArrives(c: Site, v: nat, m: State, a: Address, held: seq<byte>, data: seq<Column>,
        there: State, u: nat, j: nat, before: seq<Column>)
    requires SiteOk(c) && v < |c.homes| && SocksOk(m) && m.locals == c.homes[v] && ArpTrue(c, v, m.arp)
    requires FindArp(m.arp, a) < |m.arp| && Unique(data)
    requires u < |c.homes| && SocksOk(there) && there.locals == c.homes[u]
    ensures R.Edge(c.t, v, a) && a in c.t.owner && |Advertised(m, a, held, data)| == 1
    ensures var wire := Advertised(m, a, held, data);
      Arrives(c, OnLink(v, wire[0]), u, j) <==> u == c.t.owner[a] && j < |c.homes[u]| && c.homes[u][j] == a
    ensures var wire, msg := Advertised(m, a, held, data), Refilled(held, PackBytes(data, a));
      && |msg| >= 2 && |msg| >= 2 + 2 * Count(msg)
      && AdView(Unpack(before, msg)) == Routes.Pack(View(data), a)
      && (Arrives(c, OnLink(v, wire[0]), u, j) ==>
            ReportedAs(c, wire, v, u, j, there, Advertisement(c.t.near[(v, a)], msg)))
  {
    hide SiteOk, PackBytes, Count, Unpack;
    AdvertSent(c, v, m, a, held, data);
    AdvertUnpacks(a, held, data, before);
    var wire, p := Advertised(m, a, held, data), m.arp[FindArp(m.arp, a)];
    UnicastReaches(c, v, p, wire[0].frame, u, j);
  }

  /**
   * So the two MIP daemons and the link are a channel of the network of routing nodes: what v sends for its
   * neighbour's address a is what the step Deliver(u, b) delivers to u, b being v's end of the link and a u's.
   */
  lemma AdvertIsDelivered(c: Site, net: R.Net, v: nat, m: State, a: Address, held: seq<byte>, data: seq<Column>,
        there: State, u: nat, j: nat, before: seq<Column>)
    requires SiteOk(c) && v < |c.homes| && SocksOk(m) && m.locals == c.homes[v] && ArpTrue(c, v, m.arp)
    requires FindArp(m.arp, a) < |m.arp| && Unique(data)
    requires u < |c.homes| && SocksOk(there) && there.locals == c.homes[u]
    requires R.Edge(c.t, v, a) && u == c.t.owner[a] && j < |c.homes[u]| && c.homes[u][j] == a
    requires var k := (u, c.t.near[(v, a)]);
      u < |net.nodes| && k in net.chans && net.chans[k] != [] && net.chans[k][0] == Routes.Pack(View(data), a)
    ensures var b, msg := c.t.near[(v, a)], Refilled(held, PackBytes(data, a));
      && R.Edge(c.t, u, b) && c.t.near[(u, b)] == a && c.t.owner[b] == v
      && ReportedAs(c, Advertised(m, a, held, data), v, u, j, there, Advertisement(b, msg))
      && |msg| >= 2 && |msg| >= 2 + 2 * Count(msg)
      && RoutingNode.OnAdvert(net.nodes[u], b, AdView(Unpack(before, msg))) ==
         R.Next(c.t, net, R.Deliver(u, b)).nodes[u]
  {
    AdvertArrives(c, v, m, a, held, data, there, u, j, before);
    hide PackBytes, Count, Unpack, Routes.Pack, View;
  }
}
