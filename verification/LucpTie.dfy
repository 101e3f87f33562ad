// The overload that the update test of switch.cpp:318-319 overlooks, reached from an idle network.
module LucpTie {
  import opened Arithmetic
  import opened Lucp
  import opened LucpRounds
  import opened LucpConvergence

  // n flows that all ask for x.
  ghost predicate Crowd(s: Setting, net: Net, n: nat, x: real) {
    && Loose(s, net) && AllReplied(net) && |net.flows| == n
    && forall k :: 0 <= k < n ==> net.flows[k].cache.xR == x
  }

  lemma {:induction false} SumXIs(flows: seq<Client>, x: real)
    requires forall k :: 0 <= k < |flows| ==> flows[k].cache.xR == x
    ensures SumX(flows) == Times(|flows|, x)
  {
    if flows == [] {
    } else {
      SumXIs(flows[1..], x);
    }
  }

  // A collection whose overload is o after traffic of x.
  ghost predicate Overloads(line: real, x: real, o: real) {
    (o == 0.0 <==> x <= line) && (x > line ==> (1.0 - o) * x == line)
  }

  lemma CrowdRound(s: Setting, net: Net, n: nat, x: real)
    requires Crowd(s, net, n, x) && net.port.oL != EPS && net.port.nIter + 1 < WORD64
    requires net.port.oL > 0.0 ==> x >= net.port.gL
    ensures var ch := Carrying(s, net);
            var next := Round(s, net, ch);
            && Steady(ch) && Allowed(s, net, ch) && Crowd(s, next, n, net.port.gL)
            && next.port.nIter == net.port.nIter + 1 && next.port.gL == Share(s.lineRate, n)
            && Overloads(s.lineRate, Times(n, x), next.port.oL)
            && forall k :: 0 <= k < n ==> next.flows[k].cache.nIter == net.flows[k].cache.nIter
  {
    var ch := Carrying(s, net);
    LiveWhenAllStay(s, net, 0);
    SteadyRound(s, net, ch);
    SteadyOverload(s, net, ch);
    SumXIs(net.flows, x);
  }

  lemma SteadyOverload(s: Setting, net: Net, ch: Change)
    requires Loose(s, net) && Steady(ch) && Allowed(s, net, ch) && net.port.nIter + 1 < WORD64
    ensures Overloads(s.lineRate, SumX(net.flows), Round(s, net, ch).port.oL)
  {
    SteadyLive(s, net, ch);
    RoundPort(s, net, ch);
  }

  // n flows join an idle network at once.
  function Together(s: Setting, n: nat): Change {
    Plain(s, Idle(s), [], n)
  }

  lemma AllJoin(s: Setting, n: nat)
    requires 0.0 < s.lineRate < s.initRate
    ensures var ch := Together(s, n);
            && Allowed(s, Idle(s), ch)
            && var next := Round(s, Idle(s), ch);
            && Crowd(s, next, n, s.lineRate) && next.port.oL == 0.0 && next.port.nIter == 1
            && next.port.gL == s.lineRate && forall k :: 0 <= k < n ==> next.flows[k].cache.nIter == 0
  {
    var ch := Together(s, n);
    NewcomersAre(s, n);
    var live := Live(s, Idle(s), ch);
    assert live == Newcomers(s, n);
    NewcomersOk(s, n, 0, 1);
    RoundPort(s, Idle(s), ch);
    RoundFlows(s, Idle(s), ch);
    forall k | 0 <= k < n ensures !live[k].initIter && live[k].cache.xR == 0.0 {
      assert live[k] in live;
    }
    SumXIs(live, 0.0);
    TimesIsProduct(n, 0.0);
  }

  // A settled crowd takes in one more: everyone is offered the old share.
  lemma OneJoins(s: Setting, net: Net, n: nat)
    requires Crowd(s, net, n, Share(s.lineRate, n)) && n > 0 && net.port.oL == 0.0
    requires net.port.gL == Share(s.lineRate, n) && net.port.nIter + 1 < WORD64
    ensures var ch := Joining(s, net);
            && Allowed(s, net, ch)
            && var next := Round(s, net, ch);
            && Crowd(s, next, n + 1, Share(s.lineRate, n)) && next.port.oL == 0.0
            && next.port.nIter == net.port.nIter + 1
            && (forall k :: 0 <= k < n ==> next.flows[k].cache.nIter == net.flows[k].cache.nIter)
            && next.flows[n].cache.nIter == net.port.nIter
  {
    var ch := Joining(s, net);
    var joiner := NewClient(s.initRate, s.initInterval);
    LiveWhenAllStay(s, net, 1);
    assert Newcomers(s, 1) == [joiner] + Newcomers(s, 0);
    var live := Live(s, net, ch);
    assert live == net.flows + [joiner];
    RoundPort(s, net, ch);
    RoundFlows(s, net, ch);
    SumXIs(net.flows, Share(s.lineRate, n));
    SumXSnoc(net.flows, joiner);
    ShareFits(s.lineRate, n);
  }

  lemma {:induction false} SumXSnoc(flows: seq<Client>, c: Client)
    ensures SumX(flows + [c]) == SumX(flows) + c.cache.xR
  {
    if flows == [] {
      assert (flows + [c])[1..] == [];
    } else {
      assert (flows + [c])[1..] == flows[1..] + [c];
      SumXSnoc(flows[1..], c);
    }
  }

  // n flows that ask for the whole line each overload it by far, or not at all.
  lemma CrowdNotTied(line: real, n: nat, o: real)
    requires line > 0.0 && Overloads(line, Times(n, line), o)
    ensures o != EPS
  {
    TimesIsProduct(n, line);
    if n >= 2 {
      TimesMono(2, n, line);
      assert Times(2, line) == 2.0 * line by { TimesIsProduct(2, line); }
      if o == EPS { MulMonoR(2.0 * line, Times(n, line), 0.5); }
    } else {
      TimesMono(n, 1, line);
      TimesIsProduct(1, line);
    }
  }

  // One flow too many at the old share overloads the line by one in n + 1.
  lemma OneTooMany(line: real, n: nat, o: real)
    requires line > 0.0 && n > 0 && Overloads(line, Times(n + 1, Share(line, n)), o)
    ensures o * (n + 1) as real == 1.0
  {
    var share := Share(line, n);
    DivTimes(line, n as real);
    TimesIsProduct(n, share);
    assert n as real * share == line;
    OneInAll(line, n as real, share, Times(n + 1, share), o);
  }

  lemma OneInAll(line: real, n: real, x: real, y: real, o: real)
    requires n > 0.0 && x > 0.0 && n * x == line && y == x + line && (1.0 - o) * y == line
    ensures o * (n + 1.0) == 1.0
  {
    MulSucc(n, x);
    assert (1.0 - o) * y == y - o * y;
    assert o * y == (o * (n + 1.0)) * x;
    MulCancel(o * (n + 1.0), x, 1.0);
    MulCancel(1.0, x, o * (n + 1.0));
  }

  ghost predicate Link(s: Setting, net: Net, ch: Change, next: Net) {
    Allowed(s, net, ch) && net.port.oL != EPS && next == Round(s, net, ch)
  }

  // States linked by rounds make a run.
  lemma {:induction false} Chain(s: Setting, nets: seq<Net>, changes: seq<Change>)
    requires |nets| == |changes| + 1 && forall k :: 0 <= k < |changes| ==> Link(s, nets[k], changes[k], nets[k + 1])
    ensures IsRun(s, nets[0], changes) && After(s, nets[0], changes) == nets[|changes|]
  {
    if changes == [] {
    } else {
      assert Link(s, nets[0], changes[0], nets[1]);
      forall k | 0 <= k < |changes| - 1 ensures Link(s, nets[1..][k], changes[1..][k], nets[1..][k + 1]) {
        assert Link(s, nets[k + 1], changes[k + 1], nets[k + 2]);
      }
      Chain(s, nets[1..], changes[1..]);
    }
  }

  lemma CrowdCarried(s: Setting, net: Net, n: nat, x: real) returns (next: Net)
    requires Crowd(s, net, n, x) && net.port.oL != EPS && net.port.nIter + 1 < WORD64
    requires net.port.oL > 0.0 ==> x >= net.port.gL
    requires forall k :: 0 <= k < n ==> net.flows[k].cache.nIter == 0
    ensures Allowed(s, net, Carrying(s, net)) && next == Round(s, net, Carrying(s, net))
    ensures Crowd(s, next, n, net.port.gL) && next.port.nIter == net.port.nIter + 1
    ensures next.port.gL == Share(s.lineRate, n) && Overloads(s.lineRate, Times(n, x), next.port.oL)
    ensures forall k :: 0 <= k < n ==> next.flows[k].cache.nIter == 0
  {
    CrowdRound(s, net, n, x);
    next := Round(s, net, Carrying(s, net));
  }

  // n flows join together, and four rounds later they have settled.
  lemma CrowdSettles(s: Setting, n: nat) returns (nets: seq<Net>, changes: seq<Change>)
    requires 0.0 < s.lineRate < s.initRate && n > 0
    ensures |nets| == 5 && |changes| == 4 && nets[0] == Idle(s)
    ensures forall k :: 0 <= k < 4 ==> Link(s, nets[k], changes[k], nets[k + 1])
    ensures var net := nets[4];
            && Crowd(s, net, n, Share(s.lineRate, n)) && net.port.oL == 0.0 && net.port.gL == Share(s.lineRate, n)
            && net.port.nIter == 4 && forall k :: 0 <= k < n ==> net.flows[k].cache.nIter == 0
  {
    var line := s.lineRate;
    AllJoin(s, n);
    var n1 := Round(s, Idle(s), Together(s, n));
    ShareAntitone(line, 1, n);
    assert Share(line, 1) == line by { DivTimes(line, 1.0); }
    var n2 := CrowdCarried(s, n1, n, line);
    CrowdNotTied(line, n, n2.port.oL);
    var n3 := CrowdCarried(s, n2, n, line);
    CrowdNotTied(line, n, n3.port.oL);
    var n4 := CrowdCarried(s, n3, n, Share(line, n));
    ShareFits(line, n);
    nets, changes := [Idle(s), n1, n2, n3, n4], [Together(s, n), Carrying(s, n1), Carrying(s, n2), Carrying(s, n3)];
  }

  // The round after: the n older flows send at their initial rates, the newcomer not yet.
  lemma OlderFlowsLetGo(s: Setting, net: Net, n: nat)
    requires Loose(s, net) && AllReplied(net) && |net.flows| == n + 1 && net.port.oL == EPS && net.port.nIter == 6
    requires s.warmUp == WARM_UP && net.flows[n].cache.nIter == 4
    requires forall k :: 0 <= k < n ==> net.flows[k].cache.nIter == 0
    ensures var ch := Carrying(s, net);
            Allowed(s, net, ch) && SumTrue(Round(s, net, ch).flows) == Times(n, s.initRate)
  {
    var ch := Carrying(s, net);
    LiveWhenAllStay(s, net, 0);
    SteadyLive(s, net, ch);
    RoundAtTie(s, net, ch);
    assert net.flows == net.flows[..n] + [net.flows[n]];
    AllCounted(net.flows[..n], 6, WARM_UP);
    OlderConcat(net.flows[..n], [net.flows[n]], 6, WARM_UP);
    assert Older([net.flows[n]][1..], 6, WARM_UP) == 0;
  }

  // One more joins a settled crowd, and the round after that is overloaded by its share.
  lemma OneMoreOverloads(s: Setting, n4: Net, n: nat) returns (n5: Net, n6: Net, c5: Change, c6: Change)
    requires Crowd(s, n4, n, Share(s.lineRate, n)) && n > 0 && n4.port.oL == 0.0
    requires n4.port.gL == Share(s.lineRate, n) && n4.port.nIter == 4
    requires forall k :: 0 <= k < n ==> n4.flows[k].cache.nIter == 0
    ensures Link(s, n4, c5, n5) && Link(s, n5, c6, n6)
    ensures Loose(s, n6) && AllReplied(n6) && |n6.flows| == n + 1 && n6.port.nIter == 6
    ensures n6.port.oL * (n + 1) as real == 1.0
    ensures n6.flows[n].cache.nIter == 4 && forall k :: 0 <= k < n ==> n6.flows[k].cache.nIter == 0
  {
    OneJoins(s, n4, n);
    c5 := Joining(s, n4);
    n5 := Round(s, n4, c5);
    CrowdRound(s, n5, n + 1, Share(s.lineRate, n));
    c6 := Carrying(s, n5);
    n6 := Round(s, n5, c6);
    OneTooMany(s.lineRate, n, n6.port.oL);
  }

  // From an idle network: n flows join and settle, one more joins, and the overload of the round after
  // that is exactly one in n + 1.
  lemma {:induction false} OverloadOfOneMore(s: Setting, n: nat) returns (net: Net, changes: seq<Change>)
    requires 0.0 < s.lineRate < s.initRate && n > 0
    ensures IsRun(s, Idle(s), changes) && After(s, Idle(s), changes) == net
    ensures Loose(s, net) && AllReplied(net) && |net.flows| == n + 1 && net.port.nIter == 6
    ensures net.port.oL * (n + 1) as real == 1.0
    ensures net.flows[n].cache.nIter == 4 && forall k :: 0 <= k < n ==> net.flows[k].cache.nIter == 0
  {
    var nets, first := CrowdSettles(s, n);
    var n5, n6, c5, c6 := OneMoreOverloads(s, nets[4], n);
    net, changes := n6, first + [c5, c6];
    Chain(s, nets + [n5, n6], changes);
  }

  // With 999999 flows the overload is the one the test overlooks, and in the next round those flows
  // all send at their initial rates.
  lemma {:induction false} TieIsReached(s: Setting) returns (changes: seq<Change>, ch: Change)
    requires 0.0 < s.lineRate < s.initRate && s.warmUp == WARM_UP
    ensures IsRun(s, Idle(s), changes)
    ensures var net := After(s, Idle(s), changes);
            && net.port.oL == EPS && Allowed(s, net, ch)
            && SumTrue(Round(s, net, ch).flows) == 999999.0 * s.initRate > s.lineRate
  {
    var net;
    net, changes := OverloadOfOneMore(s, 999999);
    ch := Carrying(s, net);
    OlderFlowsLetGo(s, net, 999999);
    TimesIsProduct(999999, s.initRate);
  }
}
