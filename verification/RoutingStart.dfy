/** Runs from the start: links appear one by one while advertisements already travel. */
module RoutingStart {
  import opened Wire
  import opened Routes
  import opened RoutingNode
  import opened RoutingNet
  import opened RoutingConvergence

  /** A link is noticed that was not; the MIP daemon gives notice of no other. */
  predicate News(net: Net, s: Step) {
    s.Appear? && s.u < |net.nodes| && s.b !in net.nodes[s.u].neighbours
  }

  /** One more event without loss, in any order; only a network at rest may have none. */
  ghost predicate GoesOn(t: Topology, run: nat -> Net, i: nat) {
    || (Quiescent(run(i)) && run(i + 1) == run(i))
    || exists s :: (Settling(s) || News(run(i), s)) && Enabled(t, run(i), s) && run(i + 1) == Next(t, run(i), s)
  }

  ghost predicate RunFromStart(t: Topology, run: nat -> Net) {
    Init(t, run(0)) && forall i: nat :: GoesOn(t, run, i)
  }

  ghost predicate NoticedSometime(t: Topology, run: nat -> Net, u: nat, b: Address)
    requires Edge(t, u, b)
  {
    exists i: nat :: Noticed(t, run(i), u, b)
  }

  ghost predicate EveryLinkNoticed(t: Topology, run: nat -> Net) {
    forall u: nat, b: Address :: Edge(t, u, b) ==> NoticedSometime(t, run, u, b)
  }

  lemma {:induction false} CoverOverRun(t: Topology, run: nat -> Net, i: nat)
    requires RunFromStart(t, run)
    ensures Safe(t, run(i)) && Cover(t, run(i))
  {
    hide Safe, Cover, Init, Quiescent, Next, Enabled;
    if i == 0 {
      InitCovers(t, run(0));
    } else {
      CoverOverRun(t, run, i - 1);
      assert GoesOn(t, run, i - 1);
      if run(i) != run(i - 1) {
        var s :| (Settling(s) || News(run(i - 1), s)) && Enabled(t, run(i - 1), s) && run(i) == Next(t, run(i - 1), s);
        StepCovers(t, run(i - 1), s);
      }
    }
  }

  lemma StepNoticed(t: Topology, net: Net, s: Step, u: nat, b: Address)
    requires Enabled(t, net, s) && Lossless(s) && Edge(t, u, b) && Noticed(t, net, u, b)
    ensures Noticed(t, Next(t, net, s), u, b)
  {
  }

  /** Without lost links, what has been noticed stays noticed. */
  lemma {:induction false} NoticedStays(t: Topology, run: nat -> Net, i: nat, j: nat, u: nat, b: Address)
    requires RunFromStart(t, run) && Edge(t, u, b) && i <= j && Noticed(t, run(i), u, b)
    ensures Noticed(t, run(j), u, b)
    decreases j - i
  {
    hide Noticed, Init, Quiescent, Next, Enabled;
    if i < j {
      assert GoesOn(t, run, i);
      if run(i + 1) != run(i) {
        var s :| (Settling(s) || News(run(i), s)) && Enabled(t, run(i), s) && run(i + 1) == Next(t, run(i), s);
        StepNoticed(t, run(i), s, u, b);
      }
      NoticedStays(t, run, i + 1, j, u, b);
    }
  }

  /** Finitely many links, each noticed at some time: a time by which all are. */
  lemma {:induction false} AllNoticedBy(t: Topology, run: nat -> Net, links: set<(nat, Address)>) returns (n: nat)
    requires RunFromStart(t, run) && EveryLinkNoticed(t, run) && links <= t.near.Keys
    ensures forall u: nat, b: Address :: (u, b) in links ==> Noticed(t, run(n), u, b)
    decreases |links|
  {
    hide Noticed, RunFromStart;
    if links == {} {
      n := 0;
    } else {
      var k :| k in links;
      var (v, c) := k;
      var m := AllNoticedBy(t, run, links - {k});
      assert Edge(t, v, c) && NoticedSometime(t, run, v, c);
      var i: nat :| Noticed(t, run(i), v, c);
      n := if m < i then i else m;
      forall u: nat, b: Address | (u, b) in links
        ensures Noticed(t, run(n), u, b)
      {
        NoticedStays(t, run, if (u, b) == k then i else m, n, u, b);
      }
    }
  }

  /** Once all links are listed at both ends there is no news. */
  lemma NoMoreNews(t: Topology, net: Net, s: Step)
    requires WellFormed(t) && AllAppeared(t, net) && Enabled(t, net, s)
    ensures !News(net, s)
  {
    if s.Appear? {
      var v, a := t.owner[s.b], t.near[(s.u, s.b)];
      assert Edge(t, v, a) && Noticed(t, net, v, a);
    }
  }

  lemma AppearedStays(t: Topology, run: nat -> Net, n: nat, j: nat)
    requires RunFromStart(t, run) && AllAppeared(t, run(n)) && n <= j
    ensures AllAppeared(t, run(j))
  {
    forall u: nat, b: Address | Edge(t, u, b)
      ensures Noticed(t, run(j), u, b)
    {
      NoticedStays(t, run, n, j, u, b);
    }
  }

  lemma SettlingThen(t: Topology, run: nat -> Net, n: nat)
    requires RunFromStart(t, run) && AllAppeared(t, run(n))
    ensures SettlingFrom(t, run, n)
  {
    hide AllAppeared, Init, Safe, Cover, Quiescent, Next, Enabled;
    forall j: nat | j >= n
      ensures SettlesAt(t, run, j)
    {
      assert GoesOn(t, run, j);
      if !Quiescent(run(j)) {
        var s :| (Settling(s) || News(run(j), s)) && Enabled(t, run(j), s) && run(j + 1) == Next(t, run(j), s);
        AppearedStays(t, run, n, j);
        CoverOverRun(t, run, j);
        SafeIsWellFormed(t, run(j));
        NoMoreNews(t, run(j), s);
      }
    }
  }

  /** At rest with all links noticed nothing can happen any more. */
  lemma {:induction false} RestLasts(t: Topology, run: nat -> Net, n: nat, m: nat)
    requires RunFromStart(t, run) && Ready(t, run(n)) && Quiescent(run(n)) && n <= m
    ensures run(m) == run(n)
    decreases m - n
  {
    hide Safe, Cover, AllAppeared, Exact, Next, Init;
    if n < m {
      RestLasts(t, run, n, m - 1);
      assert GoesOn(t, run, m - 1);
      if run(m) != run(m - 1) {
        var s :| (Settling(s) || News(run(n), s)) && Enabled(t, run(n), s) && run(m) == Next(t, run(n), s);
        SafeIsWellFormed(t, run(n));
        NoMoreNews(t, run(n), s);
        NothingToSettle(t, run(n), s);
      }
    }
  }

  lemma NothingToSettle(t: Topology, net: Net, s: Step)
    requires Quiescent(net) && Enabled(t, net, s)
    ensures !Settling(s)
  {
  }

  ghost predicate RestsExactly(t: Topology, run: nat -> Net, n: nat) {
    && Quiescent(run(n)) && AllAppeared(t, run(n)) && |run(n).nodes| == t.n && Exact(t, run(n))
    && forall m: nat :: m >= n ==> run(m) == run(n)
  }

  /**
   * From local addresses only to exact costs: however the events interleave, links appearing one by one at
   * either end while advertisements are sent and delivered, once every link has been noticed the network comes
   * to rest for good, exact.
   */
  lemma ConvergesFromStart(t: Topology, run: nat -> Net)
    requires RunFromStart(t, run) && EveryLinkNoticed(t, run)
    ensures exists n: nat :: RestsExactly(t, run, n)
  {
    hide Exact, Quiescent, RunFromStart, EveryLinkNoticed;
    var m := AllNoticedBy(t, run, t.near.Keys);
    CoverOverRun(t, run, m);
    SettlingThen(t, run, m);
    var n := ComesToRest(t, run, m);
    SettledIsExact(t, run(n));
    forall k: nat | k >= n
      ensures run(k) == run(n)
    {
      RestLasts(t, run, n, k);
    }
    assert RestsExactly(t, run, n);
  }

  // ----- there are such runs -----

  /** Finitely many events of a run from the start. */
  ghost predicate Events(t: Topology, net: Net, steps: seq<Step>)
    decreases |steps|
  {
    steps == [] ||
    ((Settling(steps[0]) || News(net, steps[0])) && Enabled(t, net, steps[0]) &&
     Events(t, Next(t, net, steps[0]), steps[1..]))
  }

  lemma {:induction false} EventsRun(t: Topology, net: Net, steps: seq<Step>)
    requires Events(t, net, steps)
    ensures IsRun(t, net, steps) && forall s :: s in steps ==> Lossless(s)
    decreases |steps|
  {
    if steps != [] {
      EventsRun(t, Next(t, net, steps[0]), steps[1..]);
      assert steps == [steps[0]] + steps[1..];
    }
  }

  lemma {:induction false} SettlingEvents(t: Topology, net: Net, steps: seq<Step>)
    requires IsRun(t, net, steps) && forall s :: s in steps ==> Settling(s)
    ensures Events(t, net, steps)
    decreases |steps|
  {
    if steps != [] {
      assert steps[0] in steps;
      SettlingEvents(t, Next(t, net, steps[0]), steps[1..]);
    }
  }

  lemma {:induction false} EventsThen(t: Topology, net: Net, front: seq<Step>, back: seq<Step>)
    requires Events(t, net, front) && Events(t, Run(t, net, front), back)
    ensures Events(t, net, front + back)
    decreases |front|
  {
    hide Settling, News, Enabled, Next;
    if front == [] {
      assert front + back == back;
    } else {
      assert (front + back)[1..] == front[1..] + back;
      EventsThen(t, Next(t, net, front[0]), front[1..], back);
    }
  }

  ghost predicate Covered(t: Topology, net: Net) {
    Safe(t, net) && Cover(t, net)
  }

  lemma CoveredStep(t: Topology, net: Net, s: Step)
    requires Covered(t, net) && Enabled(t, net, s) && Lossless(s)
    ensures Covered(t, Next(t, net, s))
  {
    StepCovers(t, net, s);
  }

  /** The event by which b's node notices u. */
  function Notice(t: Topology, u: nat, b: Address): Step
    requires Edge(t, u, b) && b in t.owner
  {
    Appear(t.owner[b], t.near[(u, b)])
  }

  lemma NoticeIsNews(t: Topology, net: Net, u: nat, b: Address)
    requires Safe(t, net) && Edge(t, u, b) && !Noticed(t, net, u, b)
    ensures b in t.owner && Enabled(t, net, Notice(t, u, b)) && News(net, Notice(t, u, b))
    ensures Noticed(t, Next(t, net, Notice(t, u, b)), u, b)
  {
  }

  ghost predicate Noticing(t: Topology, net: Net, net': Net, links: set<(nat, Address)>) {
    forall u: nat, b: Address :: Edge(t, u, b) && ((u, b) in links || Noticed(t, net, u, b)) ==> Noticed(t, net', u, b)
  }

  lemma NoticingMore(t: Topology, net: Net, net1: Net, net': Net, links: set<(nat, Address)>, k: (nat, Address))
    requires Noticing(t, net1, net', links - {k}) && k in t.near && Noticed(t, net1, k.0, k.1)
    requires Noticing(t, net, net1, {})
    ensures Noticing(t, net, net', links)
  {
    forall u: nat, b: Address | Edge(t, u, b) && ((u, b) in links || Noticed(t, net, u, b))
      ensures Noticed(t, net', u, b)
    {
      assert (u, b) == k || (u, b) in links - {k} || Noticed(t, net1, u, b);
    }
  }

  lemma StepNoticing(t: Topology, net: Net, s: Step)
    requires Enabled(t, net, s) && Lossless(s)
    ensures Noticing(t, net, Next(t, net, s), {})
  {
    forall u: nat, b: Address | Edge(t, u, b) && Noticed(t, net, u, b)
      ensures Noticed(t, Next(t, net, s), u, b)
    {
      StepNoticed(t, net, s, u, b);
    }
  }

  lemma SafeOfCovered(t: Topology, net: Net)
    requires Covered(t, net)
    ensures Safe(t, net)
  {
  }

  /** The given links are noticed one after another. */
  lemma {:induction false} NoticeAll(t: Topology, net: Net, links: set<(nat, Address)>) returns (steps: seq<Step>)
    requires Covered(t, net) && links <= t.near.Keys
    ensures Events(t, net, steps) && Covered(t, Run(t, net, steps))
    ensures Noticing(t, net, Run(t, net, steps), links)
    decreases |links|, 1
  {
    hide Covered, Noticing, Noticed, Notice, News, Next, Enabled;
    if links == {} {
      steps := [];
      NoticingNone(t, net);
    } else {
      var k :| k in links;
      SafeOfCovered(t, net);
      if Noticed(t, net, k.0, k.1) {
        NoticingNone(t, net);
        steps := NoticeAll(t, net, links - {k});
        NoticingMore(t, net, net, Run(t, net, steps), links, k);
      } else {
        steps := NoticeThenAll(t, net, links, k);
      }
    }
  }

  lemma {:induction false} NoticeThenAll(t: Topology, net: Net, links: set<(nat, Address)>, k: (nat, Address))
    returns (steps: seq<Step>)
    requires Covered(t, net) && links <= t.near.Keys && k in links && !Noticed(t, net, k.0, k.1)
    ensures Events(t, net, steps) && Covered(t, Run(t, net, steps))
    ensures Noticing(t, net, Run(t, net, steps), links)
    decreases |links|, 0
  {
    hide Covered, Noticing, Noticed, Notice, News, Next, Enabled;
    SafeOfCovered(t, net);
    NoticeIsNews(t, net, k.0, k.1);
    var s := Notice(t, k.0, k.1);
    NoticeLossless(t, k.0, k.1);
    CoveredStep(t, net, s);
    StepNoticing(t, net, s);
    var rest := NoticeAll(t, Next(t, net, s), links - {k});
    NoticingMore(t, net, Next(t, net, s), Run(t, Next(t, net, s), rest), links, k);
    steps := [s] + rest;
    assert steps[1..] == rest;
  }

  lemma NoticeLossless(t: Topology, u: nat, b: Address)
    requires Edge(t, u, b) && b in t.owner
    ensures Lossless(Notice(t, u, b))
  {
  }

  lemma NoticingNone(t: Topology, net: Net)
    ensures Noticing(t, net, net, {})
  {
  }

  /**
   * From the start of any network the events can go on until every link is noticed and nothing is left to do,
   * so neither convergence nor the exactness it ends in is claimed of nothing.
   */
  lemma StartSettles(t: Topology, net: Net) returns (steps: seq<Step>)
    requires Init(t, net)
    ensures Events(t, net, steps)
    ensures Ready(t, Run(t, net, steps)) && Quiescent(Run(t, net, steps)) && Exact(t, Run(t, net, steps))
  {
    hide Exact, Quiescent, Safe, Cover;
    InitCovers(t, net);
    var front := NoticeAll(t, net, t.near.Keys);
    var middle := Run(t, net, front);
    assert Ready(t, middle);
    var back := SettlesInSteps(t, middle);
    SettlingEvents(t, middle, back);
    EventsThen(t, net, front, back);
    EventsRun(t, net, front);
    RunThen(t, net, front, back);
    steps := front + back;
    SettledIsExact(t, Run(t, net, steps));
  }

  // ----- and infinite ones -----

  /** The given events, then rest. */
  ghost function Stay(t: Topology, net: Net, steps: seq<Step>): nat -> Net {
    (i: nat) => Run(t, net, steps[..if i < |steps| then i else |steps|])
  }

  lemma {:induction false} EventAt(t: Topology, net: Net, steps: seq<Step>, i: nat)
    requires Events(t, net, steps) && i < |steps|
    ensures var now := Run(t, net, steps[..i]);
      && (Settling(steps[i]) || News(now, steps[i])) && Enabled(t, now, steps[i])
      && Run(t, net, steps[..i + 1]) == Next(t, now, steps[i])
    decreases i
  {
    hide News, Next, Enabled;
    if i == 0 {
      assert steps[..1] == [steps[0]];
    } else {
      EventAt(t, Next(t, net, steps[0]), steps[1..], i - 1);
      assert steps[..i][1..] == steps[1..][..i - 1];
      assert steps[..i + 1][1..] == steps[1..][..i];
    }
  }

  /** Every network has a run from the start in which every link is noticed. */
  lemma RunFromStartExists(t: Topology, net: Net)
    requires Init(t, net)
    ensures exists run: nat -> Net :: run(0) == net && RunFromStart(t, run) && EveryLinkNoticed(t, run)
  {
    hide Init, Quiescent, Events, Run, News, Next, Enabled, Exact, Safe, Cover;
    var steps := StartSettles(t, net);
    var run := Stay(t, net, steps);
    assert steps[..0] == [];
    RunOfNone(t, net);
    assert run(0) == net;
    var last := Run(t, net, steps);
    assert steps[..|steps|] == steps;
    forall i: nat
      ensures GoesOn(t, run, i)
    {
      if i < |steps| {
        EventAt(t, net, steps, i);
      }
    }
    forall u: nat, b: Address | Edge(t, u, b)
      ensures NoticedSometime(t, run, u, b)
    {
      assert run(|steps|) == last && Noticed(t, run(|steps|), u, b);
    }
  }

  lemma RunOfNone(t: Topology, net: Net)
    ensures IsRun(t, net, []) && Run(t, net, []) == net
  {
  }
}
