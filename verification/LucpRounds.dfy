// LUCP closed over one bottleneck, in lockstep rounds: between two collections every live flow makes
// SEND_TIMES requests from its cached packet, in any interleaving with the others, and takes the
// replies at the end of the round.
module LucpRounds {
  import opened Lucp
  import opened Arithmetic

  datatype Net = Net(port: Port, flows: seq<Client>)

  // Between two rounds some flows leave and new ones join; order is how the requests interleave.
  datatype Change = Change(stays: seq<bool>, joins: nat, order: seq<Packet>)

  // The settings shared by all clients, and the warm-up they use.
  datatype Setting = Setting(lineRate: real, initRate: real, initInterval: real, warmUp: nat)

  function Staying(flows: seq<Client>, stays: seq<bool>): seq<Client>
    requires |flows| == |stays|
  {
    if flows == [] then []
    else if stays[0] then [flows[0]] + Staying(flows[1..], stays[1..])
    else Staying(flows[1..], stays[1..])
  }

  function Kept(stays: seq<bool>): nat {
    if stays == [] then 0 else Kept(stays[1..]) + if stays[0] then 1 else 0
  }

  // The flows that stay are those marked, in their order.
  lemma {:induction false} StayingExactly(flows: seq<Client>, stays: seq<bool>, k: nat)
    requires |flows| == |stays| && k < |stays|
    ensures |Staying(flows, stays)| == Kept(stays)
    ensures stays[k] ==> Kept(stays[..k]) < Kept(stays) && Staying(flows, stays)[Kept(stays[..k])] == flows[k]
  {
    if k == 0 {
      assert stays[..0] == [];
      StayingCount(flows, stays);
    } else {
      StayingExactly(flows[1..], stays[1..], k - 1);
      assert stays[..k][1..] == stays[1..][..k - 1];
    }
  }

  lemma {:induction false} StayingCount(flows: seq<Client>, stays: seq<bool>)
    requires |flows| == |stays|
    ensures |Staying(flows, stays)| == Kept(stays)
  {
    if flows == [] {
    } else {
      StayingCount(flows[1..], stays[1..]);
    }
  }

  function Newcomers(s: Setting, joins: nat): seq<Client> {
    if joins == 0 then [] else [NewClient(s.initRate, s.initInterval)] + Newcomers(s, joins - 1)
  }

  function Live(s: Setting, net: Net, ch: Change): seq<Client>
    requires |net.flows| == |ch.stays|
  {
    Staying(net.flows, ch.stays) + Newcomers(s, ch.joins)
  }

  function Caches(flows: seq<Client>): (ks: seq<Packet>)
  {
    if flows == [] then [] else [flows[0].cache] + Caches(flows[1..])
  }

  function Repeat(n: nat, ks: seq<Packet>): seq<Packet> {
    if n == 0 then [] else ks + Repeat(n - 1, ks)
  }

  function RepliedTimes(n: nat, warmUp: nat, c: Client, k: Packet): Client {
    if n == 0 then c else RepliedTimes(n - 1, warmUp, Replied(warmUp, c, k), k)
  }

  function Answer(w: nat, port: Port, c: Client): Client {
    RepliedTimes(SEND_TIMES, w, c, Mark(port, c.cache))
  }

  function Answered(w: nat, port: Port, flows: seq<Client>): seq<Client> {
    seq(|flows|, k requires 0 <= k < |flows| => Answer(w, port, flows[k]))
  }

  ghost predicate Allowed(s: Setting, net: Net, ch: Change) {
    && |net.flows| == |ch.stays| && net.port.lineRate > 0.0
    && multiset(ch.order) == multiset(Repeat(SEND_TIMES, Caches(Live(s, net, ch))))
  }

  function Round(s: Setting, net: Net, ch: Change): (next: Net)
    requires |net.flows| == |ch.stays| && net.port.lineRate > 0.0
    ensures next.port.lineRate == net.port.lineRate
  {
    CountKeepsLine(net.port, ch.order);
    Net(Collected(CountAll(net.port, ch.order)), Answered(s.warmUp, net.port, Live(s, net, ch)))
  }

  lemma CountKeepsLine(p: Port, ks: seq<Packet>)
    ensures CountAll(p, ks).lineRate == p.lineRate
  {
    CountConserves(p, ks);
  }

  function SumTrue(flows: seq<Client>): real {
    if flows == [] then 0.0 else flows[0].trueRate + SumTrue(flows[1..])
  }

  function SumX(flows: seq<Client>): real {
    if flows == [] then 0.0 else flows[0].cache.xR + SumX(flows[1..])
  }

  // The flows whose first reply carried a collection count at least age behind now.
  function Older(flows: seq<Client>, now: nat, age: nat): nat {
    if flows == [] then 0
    else (if flows[0].initIter && flows[0].cache.nIter + age <= now then 1 else 0) + Older(flows[1..], now, age)
  }

  // n flows at rate x, as a sum.
  function Times(n: nat, x: real): real {
    if n == 0 then 0.0 else x + Times(n - 1, x)
  }

  lemma {:induction false} TimesIsProduct(n: nat, x: real)
    ensures Times(n, x) == n as real * x
  {
    if n == 0 {
    } else {
      TimesIsProduct(n - 1, x);
      MulSucc((n - 1) as real, x);
    }
  }

  lemma {:induction false} TimesMono(a: nat, b: nat, x: real)
    requires a <= b && x >= 0.0
    ensures 0.0 <= Times(a, x) <= Times(b, x)
    decreases b
  {
    if a < b {
      TimesMono(a, b - 1, x);
    } else if a > 0 {
      TimesMono(a - 1, a - 1, x);
    }
  }

  // ---------------------------------------------------------------- what a round counts

  lemma {:induction false} SumsConcat(a: seq<Packet>, b: seq<Packet>)
    ensures SumRates(a + b) == SumRates(a) + SumRates(b)
    ensures OwnFlows(a + b) == OwnFlows(a) + OwnFlows(b)
    ensures OwnRates(a + b) == OwnRates(a) + OwnRates(b)
  {
    if a == [] {
      assert a + b == b;
    } else {
      assert (a + b)[1..] == a[1..] + b;
      SumsConcat(a[1..], b);
    }
  }

  lemma {:induction false} SumsPickOut(b: seq<Packet>, i: nat)
    requires i < |b|
    ensures var rest := b[..i] + b[i + 1..];
            && SumRates(b) == b[i].xR + SumRates(rest)
            && OwnFlows(b) == OwnFlows([b[i]]) + OwnFlows(rest)
            && OwnRates(b) == OwnRates([b[i]]) + OwnRates(rest)
  {
    SumsConcat(b[..i], b[i + 1..]);
    SumsConcat(b[..i], b[i..]);
    assert b == b[..i] + b[i..];
    assert b[i..] == [b[i]] + b[i + 1..];
    SumsConcat([b[i]], b[i + 1..]);
  }

  lemma MultisetPickOut(b: seq<Packet>, i: nat)
    requires i < |b|
    ensures multiset(b) - multiset{b[i]} == multiset(b[..i] + b[i + 1..])
  {
    assert b == b[..i] + [b[i]] + b[i + 1..];
  }

  lemma SameHead(a: seq<Packet>, b: seq<Packet>) returns (i: nat)
    requires a != [] && multiset(a) == multiset(b)
    ensures i < |b| && b[i] == a[0] && multiset(a[1..]) == multiset(b[..i] + b[i + 1..])
  {
    assert a[0] in multiset(b);
    i :| 0 <= i < |b| && b[i] == a[0];
    assert multiset(a) - multiset{a[0]} == multiset(a[1..]) by {
      MultisetPickOut(a, 0);
      assert a[..0] + a[1..] == a[1..];
    }
    MultisetPickOut(b, i);
  }

  // The order in which a round's requests arrive does not matter.
  lemma {:induction false} SumsPermute(a: seq<Packet>, b: seq<Packet>)
    requires multiset(a) == multiset(b)
    ensures SumRates(a) == SumRates(b) && OwnFlows(a) == OwnFlows(b) && OwnRates(a) == OwnRates(b)
    decreases |a|
  {
    if a == [] {
      assert |b| == |multiset(b)|;
    } else {
      var i := SameHead(a, b);
      SumsPermute(a[1..], b[..i] + b[i + 1..]);
      SumsPickOut(b, i);
    }
  }

  lemma {:induction false} SumsRepeat(n: nat, ks: seq<Packet>)
    ensures SumRates(Repeat(n, ks)) == Times(n, SumRates(ks))
    ensures OwnFlows(Repeat(n, ks)) == n * OwnFlows(ks)
    ensures OwnRates(Repeat(n, ks)) == Times(n, OwnRates(ks))
  {
    if n == 0 {
    } else {
      SumsRepeat(n - 1, ks);
      SumsConcat(ks, Repeat(n - 1, ks));
      MulPred(n, OwnFlows(ks));
    }
  }

  // ---------------------------------------------------------------- between rounds

  ghost predicate PortOk(s: Setting, p: Port) {
    && 0.0 < p.lineRate == s.lineRate < s.initRate
    && p.nL == 0 && p.uL == 0.0 && p.yL == 0.0 && p.nIter < WORD64
    && 0.0 <= p.oL < 1.0 && 0.0 <= p.gL <= s.lineRate
  }

  // A flow that has had no reply asks for nothing; any other names this port as its bottleneck.
  ghost predicate FlowOk(s: Setting, c: Client, now: nat) {
    && c.initRate == s.initRate && c.cache.xR >= 0.0 && IsFresh(c.cache, s.initRate)
    && if c.initIter then c.cache.nIter < now && c.cache.rT == 1 else c.cache.rT == 0 && c.cache.xR == 0.0
  }

  ghost predicate AllOk(s: Setting, flows: seq<Client>, now: nat) {
    forall k :: 0 <= k < |flows| ==> FlowOk(s, flows[k], now)
  }

  // Any state between rounds, its counters just collected.
  ghost predicate Loose(s: Setting, net: Net) {
    PortOk(s, net.port) && AllOk(s, net.flows, net.port.nIter)
  }

  // The fair rate, given to every flow that was counted, fits the line.
  ghost predicate Fair(s: Setting, net: Net) {
    Loose(s, net) && Times(Older(net.flows, net.port.nIter, 2), net.port.gL) <= s.lineRate
  }

  lemma {:induction false} StayingOk(s: Setting, flows: seq<Client>, stays: seq<bool>, now: nat, age: nat)
    requires |flows| == |stays| && AllOk(s, flows, now)
    ensures AllOk(s, Staying(flows, stays), now)
    ensures Older(Staying(flows, stays), now, age) <= Older(flows, now, age)
  {
    if flows == [] {
    } else {
      StayingOk(s, flows[1..], stays[1..], now, age);
    }
  }

  lemma {:induction false} NewcomersOk(s: Setting, joins: nat, now: nat, age: nat)
    ensures AllOk(s, Newcomers(s, joins), now) && Older(Newcomers(s, joins), now, age) == 0
  {
    if joins == 0 {
    } else {
      NewcomersOk(s, joins - 1, now, age);
    }
  }

  lemma {:induction false} OlderConcat(a: seq<Client>, b: seq<Client>, now: nat, age: nat)
    ensures Older(a + b, now, age) == Older(a, now, age) + Older(b, now, age)
  {
    if a == [] {
      assert a + b == b;
    } else {
      assert (a + b)[1..] == a[1..] + b;
      OlderConcat(a[1..], b, now, age);
    }
  }

  lemma LiveOk(s: Setting, net: Net, ch: Change, age: nat)
    requires |net.flows| == |ch.stays| && AllOk(s, net.flows, net.port.nIter)
    ensures AllOk(s, Live(s, net, ch), net.port.nIter)
    ensures Older(Live(s, net, ch), net.port.nIter, age) <= Older(net.flows, net.port.nIter, age)
  {
    StayingOk(s, net.flows, ch.stays, net.port.nIter, age);
    NewcomersOk(s, ch.joins, net.port.nIter, age);
    OlderConcat(Staying(net.flows, ch.stays), Newcomers(s, ch.joins), net.port.nIter, age);
  }

  // One request of every flow: the flows that have had a reply are the ones counted, and theirs is all the traffic.
  lemma {:induction false} SweepSums(s: Setting, flows: seq<Client>, now: nat)
    requires AllOk(s, flows, now)
    ensures SumRates(Caches(flows)) == OwnRates(Caches(flows)) == SumX(flows) >= 0.0
    ensures OwnFlows(Caches(flows)) == Older(flows, now, 1)
  {
    if flows == [] {
    } else {
      SweepSums(s, flows[1..], now);
    }
  }

  // The fair rate of n counted flows.
  function Share(line: real, n: nat): real {
    if n == 0 then line else line / n as real
  }

  // What a collection makes of a round, whatever the interleaving of its requests.
  lemma {:induction false} RoundPort(s: Setting, net: Net, ch: Change)
    requires Loose(s, net) && Allowed(s, net, ch) && net.port.nIter + 1 < WORD64
    ensures var live := Live(s, net, ch);
            var p := Round(s, net, ch).port;
            && PortOk(s, p) && p.nIter == net.port.nIter + 1
            && p.gL == Share(s.lineRate, Older(live, net.port.nIter, 1))
            && (p.oL == 0.0 <==> SumX(live) <= s.lineRate)
            && (SumX(live) > s.lineRate ==> (1.0 - p.oL) * SumX(live) == s.lineRate)
  {
    var live := Live(s, net, ch);
    RoundCounts(s, net, ch);
    CollectedRound(CountAll(net.port, ch.order), SumX(live), Older(live, net.port.nIter, 1));
  }

  // What the port has counted when a round is collected.
  lemma RoundCounts(s: Setting, net: Net, ch: Change)
    requires Loose(s, net) && Allowed(s, net, ch)
    ensures var live := Live(s, net, ch);
            var q := CountAll(net.port, ch.order);
            && q.lineRate == s.lineRate && q.nIter == net.port.nIter
            && q.nL == SEND_TIMES * Older(live, net.port.nIter, 1) && q.uL == 0.0 && q.yL == 5.0 * SumX(live)
  {
    var live := Live(s, net, ch);
    LiveOk(s, net, ch, 1);
    SweepSums(s, live, net.port.nIter);
    SumsRepeat(SEND_TIMES, Caches(live));
    SumsPermute(ch.order, Repeat(SEND_TIMES, Caches(live)));
    CountConserves(net.port, ch.order);
    TimesIsProduct(SEND_TIMES, SumX(live));
  }

  // The collection after n flows made SEND_TIMES requests each, for the rate x together.
  lemma CollectedRound(q: Port, x: real, n: nat)
    requires q.lineRate > 0.0 && q.nL == SEND_TIMES * n && q.uL == 0.0 && q.yL == 5.0 * x
    ensures var p := Collected(q);
            && 0.0 <= p.oL < 1.0 && 0.0 <= p.gL <= q.lineRate && p.gL == Share(q.lineRate, n)
            && (p.oL == 0.0 <==> x <= q.lineRate)
            && (x > q.lineRate ==> (1.0 - p.oL) * x == q.lineRate)
  {
    CollectMeaning(q);
    if n > 0 { ShareOfFive(q.lineRate, n); }
    FifthOf(1.0 - Collected(q).oL, x, q.lineRate);
  }

  lemma FifthOf(a: real, x: real, c: real)
    ensures a * (5.0 * x) == c * 5.0 ==> a * x == c
  {
    assert a * (5.0 * x) == 5.0 * (a * x);
  }

  lemma ShareOfFive(line: real, n: nat)
    requires n > 0
    ensures (line * 5.0 - 0.0) / (5 * n) as real == line / n as real
  {
    var g := line / n as real;
    DivTimes(line, n as real);
    assert (5 * n) as real == 5.0 * n as real;
    assert g * (5.0 * n as real) == line * 5.0;
    QuotientIs(line * 5.0, 5.0 * n as real, g);
  }

  lemma QuotientIs(a: real, b: real, q: real)
    requires b > 0.0 && q * b == a
    ensures a / b == q
  {
    DivTimes(a, b);
    MulCancel(a / b, b, q);
    MulCancel(q, b, a / b);
  }

  lemma {:induction false} RepliedOnce(n: nat, w: nat, c: Client, k: Packet)
    requires n > 0
    ensures RepliedTimes(n, w, c, k) == Replied(w, c, k)
  {
    if n == 1 {
    } else {
      RepliedTwice(w, c, k);
      RepliedOnce(n - 1, w, Replied(w, c, k), k);
    }
  }

  // The collections since the first reply, as the reply of this round shows them.
  function Age(c: Client, now: nat): int {
    if c.initIter then now - c.cache.nIter else 0
  }

  // The fair rate, except that a flow past its warm-up does not grow into an overloaded port.
  function Held(s: Setting, port: Port, c: Client): real {
    if Age(c, port.nIter) >= s.warmUp && port.oL > 0.0 && port.gL > c.cache.xR then c.cache.xR else port.gL
  }

  // What one flow makes of a round, but for the overload value that the update test overlooks.
  lemma AnswerOk(s: Setting, port: Port, c: Client)
    requires PortOk(s, port) && port.oL != EPS && FlowOk(s, c, port.nIter)
    ensures var d := Answer(s.warmUp, port, c);
            && FlowOk(s, d, port.nIter + 1) && d.initIter
            && d.cache.nIter == (if c.initIter then c.cache.nIter else port.nIter)
            && d.cache.xR == Held(s, port, c) <= port.gL
            && d.trueRate == if Age(c, port.nIter) >= s.warmUp then d.cache.xR else 0.0
  {
    RepliedOnce(SEND_TIMES, s.warmUp, c, Mark(port, c.cache));
  }

  // At exactly that value every flow is offered its initial rate.
  lemma AnswerAtTie(s: Setting, port: Port, c: Client)
    requires PortOk(s, port) && port.oL == EPS && FlowOk(s, c, port.nIter)
    ensures Answer(s.warmUp, port, c).trueRate == if Age(c, port.nIter) >= s.warmUp then s.initRate else 0.0
  {
    RepliedOnce(SEND_TIMES, s.warmUp, c, Mark(port, c.cache));
  }

  // The flows that a round's replies find past an age are those it finds past the next age at its end.
  lemma {:induction false} OlderNext(live: seq<Client>, after: seq<Client>, now: nat, age: nat)
    requires |after| == |live| && age > 0
    requires forall k :: 0 <= k < |live| ==>
               after[k].initIter && after[k].cache.nIter == if live[k].initIter then live[k].cache.nIter else now
    ensures Older(after, now + 1, age + 1) == Older(live, now, age)
  {
    if live == [] {
    } else {
      OlderNext(live[1..], after[1..], now, age);
    }
  }

  lemma {:induction false} SumTrueBounded(live: seq<Client>, after: seq<Client>, now: nat, age: nat, top: real)
    requires |after| == |live| && age > 0
    requires forall k :: 0 <= k < |live| ==>
               0.0 <= after[k].trueRate <= if Age(live[k], now) >= age then top else 0.0
    ensures 0.0 <= SumTrue(after) <= Times(Older(live, now, age), top)
  {
    if live == [] {
    } else {
      SumTrueBounded(live[1..], after[1..], now, age, top);
    }
  }

  lemma {:induction false} SumTrueExact(live: seq<Client>, after: seq<Client>, now: nat, age: nat, top: real)
    requires |after| == |live| && age > 0
    requires forall k :: 0 <= k < |live| ==>
               after[k].trueRate == if Age(live[k], now) >= age then top else 0.0
    ensures SumTrue(after) == Times(Older(live, now, age), top)
  {
    if live == [] {
    } else {
      SumTrueExact(live[1..], after[1..], now, age, top);
    }
  }

  lemma {:induction false} OlderAntitone(flows: seq<Client>, now: nat, a: nat, b: nat)
    requires a <= b
    ensures Older(flows, now, b) <= Older(flows, now, a)
  {
    if flows == [] {
    } else {
      OlderAntitone(flows[1..], now, a, b);
    }
  }

  // What the flows make of a round.
  lemma RoundFlows(s: Setting, net: Net, ch: Change)
    requires Loose(s, net) && Allowed(s, net, ch) && net.port.oL != EPS
    ensures var live := Live(s, net, ch);
            var after := Round(s, net, ch).flows;
            && |after| == |live| && AllOk(s, live, net.port.nIter) && AllOk(s, after, net.port.nIter + 1)
            && forall k :: 0 <= k < |live| ==>
                 && after[k].initIter
                 && after[k].cache.nIter == (if live[k].initIter then live[k].cache.nIter else net.port.nIter)
                 && after[k].cache.xR == Held(s, net.port, live[k]) <= net.port.gL
                 && after[k].trueRate == if Age(live[k], net.port.nIter) >= s.warmUp then after[k].cache.xR else 0.0
  {
    var live := Live(s, net, ch);
    LiveOk(s, net, ch, 1);
    forall k | 0 <= k < |live| {
      AnswerOk(s, net.port, live[k]);
    }
  }

  lemma RoundKeepsFair(s: Setting, net: Net, ch: Change)
    requires Loose(s, net) && Allowed(s, net, ch) && net.port.oL != EPS && net.port.nIter + 1 < WORD64
    ensures Fair(s, Round(s, net, ch))
  {
    var live := Live(s, net, ch);
    RoundPort(s, net, ch);
    RoundFlows(s, net, ch);
    OlderNext(live, Round(s, net, ch).flows, net.port.nIter, 1);
    FairFrom(s, Round(s, net, ch), Older(live, net.port.nIter, 1));
  }

  lemma FairFrom(s: Setting, net: Net, n: nat)
    requires Loose(s, net) && Older(net.flows, net.port.nIter, 2) == n && net.port.gL == Share(s.lineRate, n)
    ensures Fair(s, net)
  {
    ShareFits(s.lineRate, n);
  }

  lemma ShareFits(line: real, n: nat)
    requires line > 0.0
    ensures Times(n, Share(line, n)) == if n == 0 then 0.0 else line
  {
    if n > 0 {
      DivTimes(line, n as real);
      TimesIsProduct(n, Share(line, n));
    }
  }

  // One round, from any state where the fair rate fits: the clients together stay within the line
  // if and only if the overload is not the one value the update test overlooks, or no flow that
  // stays is past its warm-up.
  lemma RoundSafeExactly(s: Setting, net: Net, ch: Change)
    requires Fair(s, net) && Allowed(s, net, ch) && s.warmUp >= 2
    ensures SumTrue(Round(s, net, ch).flows) <= s.lineRate
            <==> net.port.oL != EPS || Older(Live(s, net, ch), net.port.nIter, s.warmUp) == 0
  {
    if net.port.oL != EPS {
      RoundSafe(s, net, ch);
    } else {
      RoundAtTie(s, net, ch);
      var n := Older(Live(s, net, ch), net.port.nIter, s.warmUp);
      if n > 0 { TimesMono(1, n, s.initRate); }
    }
  }

  lemma RoundSafe(s: Setting, net: Net, ch: Change)
    requires Fair(s, net) && Allowed(s, net, ch) && s.warmUp >= 2 && net.port.oL != EPS
    ensures SumTrue(Round(s, net, ch).flows) <= s.lineRate
  {
    var live := Live(s, net, ch);
    var now := net.port.nIter;
    RoundFlows(s, net, ch);
    SumTrueBounded(live, Round(s, net, ch).flows, now, s.warmUp, net.port.gL);
    OlderAntitone(live, now, 2, s.warmUp);
    LiveOk(s, net, ch, 2);
    TimesMono(Older(live, now, s.warmUp), Older(net.flows, now, 2), net.port.gL);
  }

  lemma FlowsAtTie(s: Setting, net: Net, ch: Change)
    requires Loose(s, net) && Allowed(s, net, ch) && net.port.oL == EPS
    ensures var live := Live(s, net, ch);
            var after := Round(s, net, ch).flows;
            && |after| == |live|
            && forall k :: 0 <= k < |live| ==>
                 after[k].trueRate == if Age(live[k], net.port.nIter) >= s.warmUp then s.initRate else 0.0
  {
    var live := Live(s, net, ch);
    LiveOk(s, net, ch, 1);
    forall k | 0 <= k < |live| {
      AnswerAtTie(s, net.port, live[k]);
    }
  }

  lemma RoundAtTie(s: Setting, net: Net, ch: Change)
    requires Loose(s, net) && Allowed(s, net, ch) && s.warmUp > 0 && net.port.oL == EPS
    ensures SumTrue(Round(s, net, ch).flows) == Times(Older(Live(s, net, ch), net.port.nIter, s.warmUp), s.initRate)
  {
    var live := Live(s, net, ch);
    FlowsAtTie(s, net, ch);
    SumTrueExact(live, Round(s, net, ch).flows, net.port.nIter, s.warmUp, s.initRate);
  }

  // ---------------------------------------------------------------- whole runs

  // A run of rounds whose overload is never exactly the overlooked value.
  ghost predicate IsRun(s: Setting, net: Net, changes: seq<Change>)
    decreases |changes|
  {
    changes == [] || (Allowed(s, net, changes[0]) && net.port.oL != EPS
                      && IsRun(s, Round(s, net, changes[0]), changes[1..]))
  }

  ghost function After(s: Setting, net: Net, changes: seq<Change>): Net
    requires IsRun(s, net, changes)
    decreases |changes|
  {
    if changes == [] then net else After(s, Round(s, net, changes[0]), changes[1..])
  }

  function Idle(s: Setting): Net {
    Net(Port(s.lineRate, 0.0, s.lineRate, 0, 0.0, 0.0, 0), [])
  }

  lemma {:induction false} RunFair(s: Setting, net: Net, changes: seq<Change>)
    requires Fair(s, net) && IsRun(s, net, changes) && net.port.nIter + |changes| < WORD64
    ensures Fair(s, After(s, net, changes))
    ensures After(s, net, changes).port.nIter == net.port.nIter + |changes|
    decreases |changes|
  {
    if changes == [] {
    } else {
      RoundKeepsFair(s, net, changes[0]);
      RoundPort(s, net, changes[0]);
      RunFair(s, Round(s, net, changes[0]), changes[1..]);
    }
  }

  lemma {:induction false} RunSafe(s: Setting, net: Net, changes: seq<Change>)
    requires Fair(s, net) && IsRun(s, net, changes) && net.port.nIter + |changes| < WORD64
    requires s.warmUp >= 2 && SumTrue(net.flows) <= s.lineRate
    ensures SumTrue(After(s, net, changes).flows) <= s.lineRate
    decreases |changes|
  {
    if changes == [] {
    } else {
      RoundSafe(s, net, changes[0]);
      RoundKeepsFair(s, net, changes[0]);
      RoundPort(s, net, changes[0]);
      RunSafe(s, Round(s, net, changes[0]), changes[1..]);
    }
  }

  // With the source's warm-up, whatever flows join and leave and however their requests interleave,
  // the rates the clients send at never add up to more than the line rate.
  lemma {:induction false} LineNeverExceeded(s: Setting, changes: seq<Change>)
    requires 0.0 < s.lineRate < s.initRate && s.warmUp == WARM_UP
    requires IsRun(s, Idle(s), changes) && |changes| < WORD64
    ensures SumTrue(After(s, Idle(s), changes).flows) <= s.lineRate
  {
    RunSafe(s, Idle(s), changes);
  }
}
