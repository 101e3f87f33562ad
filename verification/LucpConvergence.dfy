// LUCP over whole runs: which warm-up is enough, and where a fixed set of flows settles.
module LucpConvergence {
  import opened Arithmetic
  import opened Lucp
  import opened LucpRounds

  // ---------------------------------------------------------------- the warm-up

  // A round in which the flows make their requests one sweep after the other.
  function Plain(s: Setting, net: Net, stays: seq<bool>, joins: nat): Change
    requires |net.flows| == |stays|
  {
    Change(stays, joins, Repeat(SEND_TIMES, Caches(Live(s, net, Change(stays, joins, [])))))
  }

  lemma PairSums(a: Client, b: Client, now: nat)
    ensures SumTrue([a, b]) == a.trueRate + b.trueRate
    ensures SumX([a, b]) == a.cache.xR + b.cache.xR
    ensures Older([a, b], now, 1) == Older([a], now, 1) + Older([b], now, 1)
  {
    var rest := [a, b][1..];
    assert rest == [b] && rest[1..] == [];
    assert SumTrue(rest) == b.trueRate && SumX(rest) == b.cache.xR;
  }

  // A port without overload whose fair rate is the whole line.
  ghost predicate Unloaded(s: Setting, net: Net, now: nat) {
    Loose(s, net) && net.port.nIter == now && net.port.oL == 0.0 && net.port.gL == s.lineRate
  }

  // A flow that had its first reply at collection first and asks for the whole line.
  predicate Greedy(s: Setting, c: Client, first: nat) {
    c.initIter && c.cache.nIter == first && c.cache.xR == s.lineRate
  }

  function Joining(s: Setting, net: Net): Change {
    Plain(s, net, seq(|net.flows|, _ => true), 1)
  }

  function Carrying(s: Setting, net: Net): Change {
    Plain(s, net, seq(|net.flows|, _ => true), 0)
  }

  lemma LiveWhenAllStay(s: Setting, net: Net, joins: nat)
    requires net.port.lineRate > 0.0
    ensures var ch := Plain(s, net, seq(|net.flows|, _ => true), joins);
            Allowed(s, net, ch) && Live(s, net, ch) == net.flows + Newcomers(s, joins)
  {
    AllStay(net.flows, seq(|net.flows|, _ => true));
  }

  lemma FirstFlowJoins(s: Setting)
    requires 0.0 < s.lineRate < s.initRate
    ensures var ch := Joining(s, Idle(s));
            && Allowed(s, Idle(s), ch)
            && var net := Round(s, Idle(s), ch);
            && Unloaded(s, net, 1) && |net.flows| == 1 && Greedy(s, net.flows[0], 0)
  {
    var ch := Joining(s, Idle(s));
    LiveWhenAllStay(s, Idle(s), 1);
    var live := Live(s, Idle(s), ch);
    assert live == [NewClient(s.initRate, s.initInterval)] + Newcomers(s, 0);
    RoundPort(s, Idle(s), ch);
    RoundFlows(s, Idle(s), ch);
  }

  lemma SecondFlowJoins(s: Setting, net: Net)
    requires Unloaded(s, net, 1) && |net.flows| == 1 && Greedy(s, net.flows[0], 0)
    ensures var ch := Joining(s, net);
            && Allowed(s, net, ch)
            && var next := Round(s, net, ch);
            && Unloaded(s, next, 2) && |next.flows| == 2
            && Greedy(s, next.flows[0], 0) && Greedy(s, next.flows[1], 1)
  {
    var ch := Joining(s, net);
    LiveWhenAllStay(s, net, 1);
    var live := Live(s, net, ch);
    var joiner := NewClient(s.initRate, s.initInterval);
    assert Newcomers(s, 1) == [joiner] + Newcomers(s, 0);
    assert live == [net.flows[0], joiner];
    PairSums(net.flows[0], joiner, 1);
    RoundPort(s, net, ch);
    RoundFlows(s, net, ch);
  }

  lemma BothSendAtFullRate(s: Setting, net: Net)
    requires Unloaded(s, net, 2) && |net.flows| == 2 && s.warmUp < 2
    requires Greedy(s, net.flows[0], 0) && Greedy(s, net.flows[1], 1)
    ensures var ch := Carrying(s, net);
            Allowed(s, net, ch) && SumTrue(Round(s, net, ch).flows) == 2.0 * s.lineRate
  {
    var ch := Carrying(s, net);
    LiveWhenAllStay(s, net, 0);
    assert Live(s, net, ch) == net.flows;
    RoundFlows(s, net, ch);
    var after := Round(s, net, ch).flows;
    PairSums(after[0], after[1], 2);
    assert after == [after[0], after[1]];
  }

  // One flow starts, a second joins one round later, and the newcomer is not yet in the fair rate
  // when a warm-up below two lets it send.
  lemma {:induction false} ShortWarmUpExceedsLine(s: Setting) returns (changes: seq<Change>)
    requires 0.0 < s.lineRate < s.initRate && s.warmUp < 2
    ensures |changes| == 3 && IsRun(s, Idle(s), changes)
    ensures SumTrue(After(s, Idle(s), changes).flows) == 2.0 * s.lineRate
  {
    var n0 := Idle(s);
    FirstFlowJoins(s);
    var n1 := Round(s, n0, Joining(s, n0));
    SecondFlowJoins(s, n1);
    var n2 := Round(s, n1, Joining(s, n1));
    BothSendAtFullRate(s, n2);
    var c1, c2, c3 := Joining(s, n0), Joining(s, n1), Carrying(s, n2);
    OneMore(s, n2, c3, []);
    OneMore(s, n1, c2, [c3]);
    OneMore(s, n0, c1, [c2] + ([c3] + []));
    changes := [c1] + ([c2] + ([c3] + []));
    assert [c3] + [] == [c3];
  }

  lemma OneMore(s: Setting, net: Net, ch: Change, rest: seq<Change>)
    requires Allowed(s, net, ch) && net.port.oL != EPS && IsRun(s, Round(s, net, ch), rest)
    ensures IsRun(s, net, [ch] + rest) && After(s, net, [ch] + rest) == After(s, Round(s, net, ch), rest)
  {
    assert ([ch] + rest)[1..] == rest;
  }

  // Over every schedule of joining and leaving and every interleaving, the clients stay within the
  // line rate if and only if the warm-up is at least two collections; the source waits for three.
  lemma WarmUpOfTwoIsNeeded(s: Setting)
    requires 0.0 < s.lineRate < s.initRate
    ensures (forall changes: seq<Change> | IsRun(s, Idle(s), changes) && |changes| < WORD64 ::
               SumTrue(After(s, Idle(s), changes).flows) <= s.lineRate)
            <==> s.warmUp >= 2
  {
    if s.warmUp >= 2 {
      forall changes: seq<Change> | IsRun(s, Idle(s), changes) && |changes| < WORD64
        ensures SumTrue(After(s, Idle(s), changes).flows) <= s.lineRate
      {
        RunSafe(s, Idle(s), changes);
      }
    } else {
      var changes := ShortWarmUpExceedsLine(s);
      assert !(SumTrue(After(s, Idle(s), changes).flows) <= s.lineRate);
    }
  }

  // ---------------------------------------------------------------- no flow is held two rounds running

  ghost predicate Steady(ch: Change) {
    ch.joins == 0 && forall k :: 0 <= k < |ch.stays| ==> ch.stays[k]
  }

  function Equal(s: Setting, net: Net): real {
    Share(s.lineRate, |net.flows|)
  }

  // A state a run can reach, top being the fair rate of its last round's replies: no flow asks for
  // more than top, and none that is held back at an overloaded port asks for less.
  ghost predicate Tame(s: Setting, net: Net, top: real) {
    && Loose(s, net) && top >= 0.0 && net.port.gL >= Equal(s, net)
    && (forall k :: 0 <= k < |net.flows| ==> net.flows[k].initIter && net.flows[k].cache.xR <= top)
    && (net.port.oL > 0.0 ==> forall k :: 0 <= k < |net.flows| ==>
          net.flows[k].cache.xR == top || net.flows[k].cache.xR >= net.port.gL)
  }

  lemma {:induction false} StayingMembers(flows: seq<Client>, stays: seq<bool>)
    requires |flows| == |stays|
    ensures forall c :: c in Staying(flows, stays) ==> c in flows
  {
    if flows == [] {
    } else {
      StayingMembers(flows[1..], stays[1..]);
    }
  }

  lemma {:induction false} NewcomersAre(s: Setting, joins: nat)
    ensures |Newcomers(s, joins)| == joins
    ensures forall c :: c in Newcomers(s, joins) ==> c == NewClient(s.initRate, s.initInterval)
  {
    if joins == 0 {
    } else {
      NewcomersAre(s, joins - 1);
    }
  }

  lemma LiveMembers(s: Setting, net: Net, ch: Change)
    requires |net.flows| == |ch.stays|
    ensures forall c :: c in Live(s, net, ch) ==> c in net.flows || c == NewClient(s.initRate, s.initInterval)
  {
    StayingMembers(net.flows, ch.stays);
    NewcomersAre(s, ch.joins);
  }

  lemma {:induction false} OlderAtMost(flows: seq<Client>, now: nat, age: nat)
    ensures Older(flows, now, age) <= |flows|
  {
    if flows == [] {
    } else {
      OlderAtMost(flows[1..], now, age);
    }
  }

  // What is asked for comes from the flows that are counted.
  lemma {:induction false} SumXCounted(s: Setting, flows: seq<Client>, now: nat, top: real)
    requires AllOk(s, flows, now) && top >= 0.0 && forall k :: 0 <= k < |flows| ==> flows[k].cache.xR <= top
    ensures SumX(flows) <= Times(Older(flows, now, 1), top)
  {
    if flows == [] {
    } else {
      SumXCounted(s, flows[1..], now, top);
    }
  }

  lemma ShareBelow(line: real, n: nat, top: real)
    requires line > 0.0 && line < Times(n, top)
    ensures Share(line, n) <= top
  {
    TimesIsProduct(n, top);
    DivAtMost(line, n as real, top);
  }

  lemma ShareAntitone(line: real, m: nat, n: nat)
    requires line > 0.0 && m <= n
    ensures Share(line, n) <= Share(line, m)
  {
    if n > 0 {
      var share := Share(line, m);
      if m > 0 { DivTimes(line, m as real); }
      MulMonoR(if m > 0 then m as real else 1.0, n as real, share);
      DivAtMost(line, n as real, share);
    }
  }

  lemma RoundKeepsTame(s: Setting, net: Net, ch: Change, top: real)
    requires Tame(s, net, top) && Allowed(s, net, ch) && s.warmUp > 0
    requires net.port.oL != EPS && net.port.nIter + 1 < WORD64
    ensures Tame(s, Round(s, net, ch), net.port.gL)
  {
    var live, next := Live(s, net, ch), Round(s, net, ch);
    var counted := Older(live, net.port.nIter, 1);
    RoundPort(s, net, ch);
    RoundFlows(s, net, ch);
    LiveMembers(s, net, ch);
    OlderAtMost(live, net.port.nIter, 1);
    ShareAntitone(s.lineRate, counted, |live|);
    forall k | 0 <= k < |live| ensures live[k].cache.xR <= top {
      assert live[k] in live;
    }
    if next.port.oL > 0.0 {
      SumXCounted(s, live, net.port.nIter, top);
      ShareBelow(s.lineRate, counted, top);
      forall k | 0 <= k < |live|
        ensures next.flows[k].cache.xR == net.port.gL || next.flows[k].cache.xR >= next.port.gL
      {
        assert live[k] in live;
      }
    }
  }

  lemma {:induction false} RunKeepsTame(s: Setting, net: Net, changes: seq<Change>, top: real) returns (last: real)
    requires Tame(s, net, top) && s.warmUp > 0 && IsRun(s, net, changes) && net.port.nIter + |changes| < WORD64
    ensures Tame(s, After(s, net, changes), last)
    decreases |changes|
  {
    if changes == [] {
      last := top;
    } else {
      RoundKeepsTame(s, net, changes[0], top);
      RoundPort(s, net, changes[0]);
      last := RunKeepsTame(s, Round(s, net, changes[0]), changes[1..], net.port.gL);
    }
  }

  // ---------------------------------------------------------------- a fixed set of flows

  lemma {:induction false} AllStay(flows: seq<Client>, stays: seq<bool>)
    requires |flows| == |stays| && forall k :: 0 <= k < |stays| ==> stays[k]
    ensures Staying(flows, stays) == flows
  {
    if flows == [] {
    } else {
      AllStay(flows[1..], stays[1..]);
    }
  }

  lemma SteadyLive(s: Setting, net: Net, ch: Change)
    requires |net.flows| == |ch.stays| && Steady(ch)
    ensures Live(s, net, ch) == net.flows
  {
    AllStay(net.flows, ch.stays);
  }

  lemma {:induction false} AllCounted(flows: seq<Client>, now: nat, age: nat)
    requires forall k :: 0 <= k < |flows| ==> flows[k].initIter && flows[k].cache.nIter + age <= now
    ensures Older(flows, now, age) == |flows|
  {
    if flows == [] {
    } else {
      AllCounted(flows[1..], now, age);
    }
  }

  lemma {:induction false} SumXAtMost(flows: seq<Client>, x: real)
    requires forall k :: 0 <= k < |flows| ==> flows[k].cache.xR <= x
    ensures SumX(flows) <= Times(|flows|, x)
  {
    if flows == [] {
    } else {
      SumXAtMost(flows[1..], x);
    }
  }

  lemma {:induction false} SumTrueIs(flows: seq<Client>, x: real)
    requires forall k :: 0 <= k < |flows| ==> flows[k].trueRate == x
    ensures SumTrue(flows) == Times(|flows|, x)
  {
    if flows == [] {
    } else {
      SumTrueIs(flows[1..], x);
    }
  }

  ghost predicate AllReplied(net: Net) {
    forall k :: 0 <= k < |net.flows| ==> net.flows[k].initIter
  }

  // A round with the same flows, all of which name the port.
  lemma SteadyRound(s: Setting, net: Net, ch: Change)
    requires Loose(s, net) && AllReplied(net) && Steady(ch) && Allowed(s, net, ch)
    requires net.port.oL != EPS && net.port.nIter + 1 < WORD64
    ensures var next := Round(s, net, ch);
            && Loose(s, next) && AllReplied(next) && |next.flows| == |net.flows|
            && next.port.nIter == net.port.nIter + 1 && next.port.gL == Equal(s, net)
            && (next.port.oL == 0.0 <==> SumX(net.flows) <= s.lineRate)
            && forall k :: 0 <= k < |net.flows| ==>
                 && next.flows[k].cache.nIter == net.flows[k].cache.nIter
                 && next.flows[k].cache.xR == Held(s, net.port, net.flows[k]) <= net.port.gL
                 && next.flows[k].trueRate ==
                      if Age(net.flows[k], net.port.nIter) >= s.warmUp then next.flows[k].cache.xR else 0.0
  {
    SteadyLive(s, net, ch);
    RoundPort(s, net, ch);
    RoundFlows(s, net, ch);
    AllCounted(net.flows, net.port.nIter, 1);
  }

  // Every flow asks for no more than the equal share, so the next collection finds no overload.
  lemma SharesFit(s: Setting, net: Net)
    requires s.lineRate > 0.0 && net.flows != []
    requires forall k :: 0 <= k < |net.flows| ==> net.flows[k].cache.xR <= Equal(s, net)
    ensures SumX(net.flows) <= s.lineRate
  {
    SumXAtMost(net.flows, Equal(s, net));
    ShareFits(s.lineRate, |net.flows|);
  }

  // The steady state: no overload, and every flow asks for and sends at exactly the equal share.
  ghost predicate Settled(s: Setting, net: Net) {
    && Loose(s, net) && AllReplied(net) && net.flows != []
    && net.port.oL == 0.0 && net.port.gL == Equal(s, net)
    && forall k :: 0 <= k < |net.flows| ==>
         net.flows[k].cache.xR == net.flows[k].trueRate == Equal(s, net)
         && net.flows[k].cache.nIter + s.warmUp < net.port.nIter
  }

  lemma SettledStays(s: Setting, net: Net, ch: Change)
    requires Settled(s, net) && Steady(ch) && Allowed(s, net, ch) && net.port.nIter + 1 < WORD64
    ensures Settled(s, Round(s, net, ch))
  {
    SteadyRound(s, net, ch);
    SharesFit(s, net);
  }

  lemma {:induction false} RunStaysSettled(s: Setting, net: Net, changes: seq<Change>)
    requires Settled(s, net) && IsRun(s, net, changes) && net.port.nIter + |changes| < WORD64
    requires forall k :: 0 <= k < |changes| ==> Steady(changes[k])
    ensures Settled(s, After(s, net, changes)) && |After(s, net, changes).flows| == |net.flows|
    decreases |changes|
  {
    if changes == [] {
    } else {
      SettledStays(s, net, changes[0]);
      SteadyRound(s, net, changes[0]);
      RunStaysSettled(s, Round(s, net, changes[0]), changes[1..]);
    }
  }

  // After one steady round a flow that asks for less than the share was held back at the old rate,
  // above which nobody asks; so the overload has gone and it is not held again.
  lemma TwoRounds(s: Setting, net: Net, top: real, c1: Change, c2: Change)
    requires Tame(s, net, top) && net.flows != [] && s.warmUp == WARM_UP && net.port.nIter + 2 < WORD64
    requires Steady(c1) && Allowed(s, net, c1) && net.port.oL != EPS
    requires var n1 := Round(s, net, c1); Steady(c2) && Allowed(s, n1, c2) && n1.port.oL != EPS
    ensures var n1 := Round(s, net, c1);
            var n2 := Round(s, n1, c2);
            && Loose(s, n2) && AllReplied(n2) && |n2.flows| == |net.flows|
            && n2.port.nIter == net.port.nIter + 2 && n2.port.gL == Equal(s, net)
            && (net.port.gL == Equal(s, net) ==> n2.port.oL == 0.0)
            && forall k :: 0 <= k < |net.flows| ==>
                 && n2.flows[k].cache.nIter == net.flows[k].cache.nIter && n2.flows[k].cache.xR == Equal(s, net)
                 && n2.flows[k].trueRate ==
                      if net.port.nIter + 1 - net.flows[k].cache.nIter >= WARM_UP then Equal(s, net) else 0.0
  {
    SteadyRound(s, net, c1);
    var n1 := Round(s, net, c1);
    SteadyRound(s, n1, c2);
    if net.port.gL == Equal(s, net) { SharesFit(s, n1); }
    forall k | 0 <= k < |net.flows| ensures Held(s, n1.port, n1.flows[k]) == Equal(s, net) {
      if n1.flows[k].cache.xR < Equal(s, net) {
        assert net.flows[k].cache.xR == top;
        SharesFit(s, net);
      }
    }
  }

  // ---------------------------------------------------------------- how long it takes

  lemma {:induction false} RunSnoc(s: Setting, net: Net, changes: seq<Change>, last: Change)
    requires IsRun(s, net, changes + [last])
    ensures IsRun(s, net, changes)
    ensures var end := After(s, net, changes);
            && Allowed(s, end, last) && end.port.oL != EPS
            && After(s, net, changes + [last]) == Round(s, end, last)
    decreases |changes|
  {
    if changes == [] {
      assert (changes + [last])[0] == last && (changes + [last])[1..] == [];
    } else {
      assert (changes + [last])[1..] == changes[1..] + [last];
      RunSnoc(s, Round(s, net, changes[0]), changes[1..], last);
    }
  }

  // What the last round leaves behind: only the flows that joined in it have just had their first
  // reply, and without them the fair rate is already the equal share.
  lemma LastRound(s: Setting, net: Net, ch: Change)
    requires Loose(s, net) && AllReplied(net) && Allowed(s, net, ch)
    requires net.port.oL != EPS && net.port.nIter + 1 < WORD64
    ensures var next := Round(s, net, ch);
            && (ch.joins == 0 ==>
                  next.port.gL == Equal(s, next)
                  && forall k :: 0 <= k < |next.flows| ==> next.flows[k].cache.nIter + 2 <= next.port.nIter)
            && (ch.joins > 0 ==>
                  next.flows != [] && next.flows[|next.flows| - 1].cache.nIter + 1 == next.port.nIter)
  {
    RoundPort(s, net, ch);
    RoundFlows(s, net, ch);
    NewcomersAre(s, ch.joins);
    var live := Live(s, net, ch);
    StayingMembers(net.flows, ch.stays);
    if ch.joins == 0 {
      assert live == Staying(net.flows, ch.stays);
      forall k | 0 <= k < |live| ensures live[k].initIter && live[k].cache.nIter + 1 <= net.port.nIter {
        assert live[k] in live;
      }
      AllCounted(live, net.port.nIter, 1);
    } else {
      assert live[|live| - 1] in Newcomers(s, ch.joins);
    }
  }

  lemma StartTame(s: Setting)
    requires 0.0 < s.lineRate < s.initRate
    ensures Tame(s, Idle(s), 0.0)
  {
  }

  lemma FirstRound(s: Setting, net: Net, changes: seq<Change>)
    requires IsRun(s, net, changes) && changes != []
    ensures Allowed(s, net, changes[0]) && net.port.oL != EPS
    ensures var next := Round(s, net, changes[0]);
            IsRun(s, next, changes[1..]) && After(s, net, changes) == After(s, next, changes[1..])
  {
  }

  lemma TwoRoundsOf(s: Setting, net: Net, c1: Change, c2: Change)
    requires IsRun(s, net, [c1, c2])
    ensures Allowed(s, net, c1) && net.port.oL != EPS
    ensures var n1 := Round(s, net, c1);
            Allowed(s, n1, c2) && n1.port.oL != EPS && After(s, net, [c1, c2]) == Round(s, n1, c2)
  {
    FirstRound(s, net, [c1, c2]);
    assert [c1, c2][1..] == [c2];
    FirstRound(s, Round(s, net, c1), [c2]);
    assert [c2][1..] == [];
  }

  // After any run whatever, two rounds with the same flows bring every flow to ask for exactly the
  // equal share, and they bring the steady state if and only if no flow joined in the last round
  // of the run: one that did is still in its warm-up.
  lemma SettledAfterTwoExactly(s: Setting, before: seq<Change>, last: Change, c1: Change, c2: Change)
    requires 0.0 < s.lineRate < s.initRate && s.warmUp == WARM_UP && |before| + 3 < WORD64
    requires IsRun(s, Idle(s), before + [last])
    requires var start := After(s, Idle(s), before + [last]);
             start.flows != [] && IsRun(s, start, [c1, c2]) && Steady(c1) && Steady(c2)
    ensures var start := After(s, Idle(s), before + [last]);
            var end := After(s, start, [c1, c2]);
            && |end.flows| == |start.flows| && end.port.gL == Equal(s, start)
            && (forall k :: 0 <= k < |end.flows| ==> end.flows[k].cache.xR == Equal(s, start))
            && (Settled(s, end) <==> last.joins == 0)
  {
    StartTame(s);
    RunSnoc(s, Idle(s), before, last);
    var top := RunKeepsTame(s, Idle(s), before, 0.0);
    RunFair(s, Idle(s), before);
    SettledAfterTwo(s, After(s, Idle(s), before), top, last, c1, c2);
  }

  lemma SettledAfterTwo(s: Setting, prior: Net, top: real, last: Change, c1: Change, c2: Change)
    requires Tame(s, prior, top) && s.warmUp == WARM_UP && prior.port.nIter + 3 < WORD64
    requires Allowed(s, prior, last) && prior.port.oL != EPS
    requires var start := Round(s, prior, last);
             start.flows != [] && IsRun(s, start, [c1, c2]) && Steady(c1) && Steady(c2)
    ensures var start := Round(s, prior, last);
            var end := After(s, start, [c1, c2]);
            && |end.flows| == |start.flows| && end.port.gL == Equal(s, start)
            && (forall k :: 0 <= k < |end.flows| ==> end.flows[k].cache.xR == Equal(s, start))
            && (Settled(s, end) <==> last.joins == 0)
  {
    RoundKeepsTame(s, prior, last, top);
    RoundPort(s, prior, last);
    LastRound(s, prior, last);
    var start := Round(s, prior, last);
    TwoRoundsOf(s, start, c1, c2);
    TwoRounds(s, start, prior.port.gL, c1, c2);
    SharePositive(s.lineRate, |start.flows|);
  }

  lemma SharePositive(line: real, n: nat)
    requires line > 0.0
    ensures Share(line, n) > 0.0
  {
    if n > 0 { DivTimes(line, n as real); }
  }

  // After any run whatever, three rounds with the same flows are enough, and the steady state lasts
  // for as long as the flows stay: every client sends at the equal share and the line is exactly full.
  lemma {:induction false} EqualSharesAfterThree(s: Setting, before: seq<Change>, changes: seq<Change>)
    requires 0.0 < s.lineRate < s.initRate && s.warmUp == WARM_UP && |before| + |changes| < WORD64
    requires IsRun(s, Idle(s), before) && After(s, Idle(s), before).flows != []
    requires IsRun(s, After(s, Idle(s), before), changes) && |changes| >= 3
    requires forall k :: 0 <= k < |changes| ==> Steady(changes[k])
    ensures var start := After(s, Idle(s), before);
            var end := After(s, start, changes);
            && |end.flows| == |start.flows| && Settled(s, end)
            && (forall k :: 0 <= k < |end.flows| ==> end.flows[k].trueRate == s.lineRate / |end.flows| as real)
            && SumTrue(end.flows) == s.lineRate
  {
    StartTame(s);
    var top := RunKeepsTame(s, Idle(s), before, 0.0);
    RunFair(s, Idle(s), before);
    var start := After(s, Idle(s), before);
    SettledByThree(s, start, top, changes);
    var end := After(s, start, changes);
    SumTrueIs(end.flows, Equal(s, end));
    ShareFits(s.lineRate, |end.flows|);
  }

  lemma SettledByThree(s: Setting, net: Net, top: real, changes: seq<Change>)
    requires Tame(s, net, top) && net.flows != [] && s.warmUp == WARM_UP && net.port.nIter + |changes| < WORD64
    requires IsRun(s, net, changes) && |changes| >= 3 && forall k :: 0 <= k < |changes| ==> Steady(changes[k])
    ensures Settled(s, After(s, net, changes)) && |After(s, net, changes).flows| == |net.flows|
  {
    FirstRound(s, net, changes);
    var n1, rest := Round(s, net, changes[0]), changes[1..];
    FirstRound(s, n1, rest);
    TwoRounds(s, net, top, changes[0], rest[0]);
    SettledByOneMore(s, net, Round(s, n1, rest[0]), rest[1..]);
  }

  // Every flow asks for the equal share and is past its warm-up by the next round.
  lemma SettledByOneMore(s: Setting, net: Net, n2: Net, changes: seq<Change>)
    requires Loose(s, net) && Loose(s, n2) && AllReplied(n2) && net.flows != [] && |n2.flows| == |net.flows|
    requires n2.port.nIter == net.port.nIter + 2 && n2.port.gL == Equal(s, net) && s.warmUp == WARM_UP
    requires forall k :: 0 <= k < |net.flows| ==>
               n2.flows[k].cache.nIter < net.port.nIter && n2.flows[k].cache.xR == Equal(s, net)
    requires IsRun(s, n2, changes) && changes != [] && forall k :: 0 <= k < |changes| ==> Steady(changes[k])
    requires n2.port.nIter + |changes| < WORD64
    ensures Settled(s, After(s, n2, changes)) && |After(s, n2, changes).flows| == |net.flows|
  {
    FirstRound(s, n2, changes);
    SharesFit(s, n2);
    SteadyRound(s, n2, changes[0]);
    RunStaysSettled(s, Round(s, n2, changes[0]), changes[1..]);
  }

  // Two rounds are not enough: one flow that joins the idle network asks for the whole line after them
  // but does not send yet.
  lemma {:induction false} TwoRoundsAreNotEnough(s: Setting) returns (join: Change, c1: Change, c2: Change)
    requires 0.0 < s.lineRate < s.initRate && s.warmUp == WARM_UP
    ensures IsRun(s, Idle(s), [] + [join]) && After(s, Idle(s), [] + [join]).flows != []
    ensures var start := After(s, Idle(s), [] + [join]);
            && Steady(c1) && Steady(c2) && IsRun(s, start, [c1, c2])
            && !Settled(s, After(s, start, [c1, c2]))
  {
    join := Joining(s, Idle(s));
    FirstFlowJoins(s);
    OneMore(s, Idle(s), join, []);
    assert [] + [join] == [join] + [];
    var start := Round(s, Idle(s), join);
    c1 := Carrying(s, start);
    OneFlowCarries(s, start);
    var n1 := Round(s, start, c1);
    c2 := Carrying(s, n1);
    LiveWhenAllStay(s, n1, 0);
    OneMore(s, n1, c2, []);
    OneMore(s, start, c1, [c2] + []);
    assert [c1, c2] == [c1] + ([c2] + []);
    SettledAfterTwoExactly(s, [], join, c1, c2);
  }

  lemma OneFlowCarries(s: Setting, net: Net)
    requires Unloaded(s, net, 1) && |net.flows| == 1 && Greedy(s, net.flows[0], 0)
    ensures var c := Carrying(s, net);
            Steady(c) && Allowed(s, net, c) && Loose(s, Round(s, net, c)) && Round(s, net, c).port.oL == 0.0
  {
    LiveWhenAllStay(s, net, 0);
    SteadyRound(s, net, Carrying(s, net));
    assert net.flows[1..] == [];
    assert SumX(net.flows) == s.lineRate;
  }
}
