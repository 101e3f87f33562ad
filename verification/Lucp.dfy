// The LUCP rate control of switch.cpp and MessageSwap.h: what a port counts and collects, what a
// request picks up along its path, and what a client makes of the reply.
module Lucp {
  import opened Arithmetic
  import opened Pacing

  const SEND_TIMES := 5
  const WARM_UP := 3
  const EPS: real := 0.000001

  // LucpPayload: hop counter, suggested and actual bottleneck hop, worst overload and fair rate seen,
  // the flow's rate, the collection count of the last hop.
  datatype Packet = Packet(rC: nat, rS: nat, rT: nat, oS: real, gS: real, xR: real, nIter: nat)

  // SwitchCache.
  datatype Port = Port(lineRate: real, oL: real, gL: real, nL: nat, uL: real, yL: real, nIter: nat)

  // r_c is a byte.
  function Hop(k: Packet): nat {
    (k.rC + 1) % 256
  }

  // Lines 318-319: this port is worse than what the packet carries.
  predicate Worse(p: Port, k: Packet) {
    || (p.oL > k.oS && Abs(p.oL - k.oS) > EPS)
    || (Abs(p.oL - k.oS) < EPS && p.gL < k.gS)
  }

  function Mark(p: Port, k: Packet): Packet {
    var m := k.(rC := Hop(k), nIter := p.nIter);
    if Worse(p, k) then m.(rS := Hop(k), gS := p.gL, oS := p.oL) else m
  }

  function Count(p: Port, k: Packet): Port {
    if Hop(k) == k.rT then p.(nL := p.nL + 1, yL := p.yL + k.xR)
    else p.(uL := p.uL + k.xR, yL := p.yL + k.xR)
  }

  function Collected(p: Port): Port
    requires p.lineRate > 0.0
  {
    var cap := p.lineRate * (SEND_TIMES as real);
    var o := if p.yL <= cap then 0.0 else (p.yL - cap) / p.yL;
    var g := if p.nL < SEND_TIMES then p.lineRate else (cap - p.uL) / (p.nL as real);
    p.(oL := o, gL := if g < 0.0 then 0.0 else g, nL := 0, uL := 0.0, yL := 0.0, nIter := p.nIter + 1)
  }

  class SwitchCache {
    var lineRate: real
    var oL: real
    var gL: real
    var nL: nat
    var uL: real
    var yL: real
    var nIter: nat

    ghost function View(): Port
      reads this
    {
      Port(lineRate, oL, gL, nL, uL, yL, nIter)
    }

    constructor (lineRate: real)
      ensures View() == Port(lineRate, 0.0, lineRate, 0, 0.0, 0.0, 0)
    {
      this.lineRate, oL, gL, nL, uL, yL, nIter := lineRate, 0.0, lineRate, 0, 0.0, 0.0, 0;
    }

    method Collect()
      requires lineRate > 0.0
      modifies this
      ensures View() == Collected(old(View()))
    {
      if yL <= lineRate * (SEND_TIMES as real) {
        oL := 0.0;
      } else {
        assert lineRate * (SEND_TIMES as real) > 0.0;
        oL := (yL - lineRate * (SEND_TIMES as real)) / yL;
      }
      if nL < SEND_TIMES {
        gL := lineRate;
      } else {
        gL := (lineRate * (SEND_TIMES as real) - uL) / (nL as real);
      }
      if gL < 0.0 {
        gL := 0.0;
      }
      nL, uL, yL, nIter := 0, 0.0, 0.0, nIter + 1;
    }

    // A request passing through; k is the packet as it leaves.
    method OnRequest(request: Packet) returns (k: Packet)
      modifies this
      ensures k == Mark(old(View()), request) && View() == Count(old(View()), request)
    {
      k := request.(rC := (request.rC + 1) % 256);
      if (oL > k.oS && Abs(oL - k.oS) > EPS) || (Abs(oL - k.oS) < EPS && gL < k.gS) {
        k := k.(rS := k.rC, gS := gL, oS := oL);
      }
      if k.rC == k.rT {
        nL := nL + 1;
      } else {
        uL := uL + k.xR;
      }
      yL := yL + k.xR;
      k := k.(nIter := nIter);
    }
  }

  // ---------------------------------------------------------------- one port between two collections

  function CountAll(p: Port, ks: seq<Packet>): Port
    decreases |ks|
  {
    if ks == [] then p else CountAll(Count(p, ks[0]), ks[1..])
  }

  // The requests that name this hop as their bottleneck: how many, and their rates.
  function OwnFlows(ks: seq<Packet>): nat {
    if ks == [] then 0 else (if Hop(ks[0]) == ks[0].rT then 1 else 0) + OwnFlows(ks[1..])
  }

  function OwnRates(ks: seq<Packet>): real {
    if ks == [] then 0.0 else (if Hop(ks[0]) == ks[0].rT then ks[0].xR else 0.0) + OwnRates(ks[1..])
  }

  function SumRates(ks: seq<Packet>): real {
    if ks == [] then 0.0 else ks[0].xR + SumRates(ks[1..])
  }

  // All traffic is counted once: as traffic bound elsewhere, or as a flow of this bottleneck.
  lemma {:induction false} CountConserves(p: Port, ks: seq<Packet>)
    ensures var q := CountAll(p, ks);
            && q == p.(nL := q.nL, uL := q.uL, yL := q.yL)
            && q.nL == p.nL + OwnFlows(ks)
            && q.yL == p.yL + SumRates(ks)
            && q.yL - q.uL == p.yL - p.uL + OwnRates(ks)
    decreases |ks|
  {
    if ks == [] {
    } else {
      CountConserves(Count(p, ks[0]), ks[1..]);
    }
  }

  // The collection in terms of the traffic: the overload is the share of the traffic above the line
  // rate, and the fair rates of the counted flows together with the other traffic fill the line.
  lemma CollectMeaning(p: Port)
    requires p.lineRate > 0.0 && p.uL >= 0.0
    ensures var q := Collected(p);
            var cap := p.lineRate * (SEND_TIMES as real);
            && 0.0 <= q.oL < 1.0 && 0.0 <= q.gL <= p.lineRate
            && (q.oL > 0.0 <==> p.yL > cap)
            && (p.nL < SEND_TIMES ==> q.gL == p.lineRate)
            && (p.yL > cap ==> (1.0 - q.oL) * p.yL == cap)
            && (p.nL >= SEND_TIMES && p.uL <= cap ==> q.gL * (p.nL as real) + p.uL == cap)
            && (p.nL >= SEND_TIMES && p.uL >= cap ==> q.gL == 0.0)
  {
    var cap := p.lineRate * (SEND_TIMES as real);
    if p.yL > cap {
      OverloadMeaning(p.yL, cap);
    }
    if p.nL >= SEND_TIMES {
      FairRateMeaning(p.lineRate, cap, p.uL, p.nL as real);
    }
  }

  // The port q collects after so many counted flows with so much traffic of theirs and in all.
  // With fewer than SEND_TIMES of them the fair rate is the whole line; otherwise that many fair rates
  // and the rates of the other requests fill it, if those leave room.
  ghost predicate Shared(q: Port, lineRate: real, flows: nat, own: real, all: real) {
    var cap := lineRate * (SEND_TIMES as real);
    && q.lineRate == lineRate && q.nL == 0 && q.uL == q.yL == 0.0
    && (flows < SEND_TIMES ==> q.gL == lineRate)
    && (flows >= SEND_TIMES && all - own <= cap ==> q.gL * (flows as real) + (all - own) == cap)
    && (flows >= SEND_TIMES && all - own >= cap ==> q.gL == 0.0)
    && (if all <= cap then q.oL == 0.0 else (1.0 - q.oL) * all == cap)
  }

  // What any requests leave behind between two collections, the counters having been cleared.
  lemma CollectedAfter(p: Port, ks: seq<Packet>)
    requires p.lineRate > 0.0 && p.nL == 0 && p.uL == p.yL == 0.0
    requires forall k :: 0 <= k < |ks| ==> ks[k].xR >= 0.0
    ensures CountAll(p, ks).lineRate == p.lineRate && Collected(CountAll(p, ks)).nIter == p.nIter + 1
    ensures Shared(Collected(CountAll(p, ks)), p.lineRate, OwnFlows(ks), OwnRates(ks), SumRates(ks))
  {
    CountConserves(p, ks);
    OwnAtMostAll(ks);
    CollectedFrom(CountAll(p, ks), OwnFlows(ks), OwnRates(ks), SumRates(ks));
  }

  lemma CollectedFrom(p: Port, flows: nat, own: real, all: real)
    requires p.lineRate > 0.0 && p.nL == flows && p.yL == all && p.yL - p.uL == own && own <= all
    ensures Shared(Collected(p), p.lineRate, flows, own, all)
  {
    CollectMeaning(p);
    assert p.uL == all - own;
  }

  lemma {:induction false} OwnAtMostAll(ks: seq<Packet>)
    requires forall k :: 0 <= k < |ks| ==> ks[k].xR >= 0.0
    ensures OwnRates(ks) <= SumRates(ks)
  {
    if ks == [] {
    } else {
      OwnAtMostAll(ks[1..]);
    }
  }

  lemma OverloadMeaning(y: real, cap: real)
    requires y > cap > 0.0
    ensures var o := (y - cap) / y; 0.0 < o < 1.0 && (1.0 - o) * y == cap
  {
    var o := (y - cap) / y;
    DivTimes(y - cap, y);
    assert (1.0 - o) * y == y - o * y;
    if o >= 1.0 { MulCancel(1.0, y, o); }
  }

  lemma FairRateMeaning(line: real, cap: real, u: real, n: real)
    requires line > 0.0 && cap == line * 5.0 && u >= 0.0 && n >= 5.0
    ensures var g := (cap - u) / n;
            g <= line && g * n + u == cap && (u <= cap ==> g >= 0.0) && (u >= cap ==> g <= 0.0)
  {
    DivTimes(cap - u, n);
    MulMonoR(5.0, n, line);
    DivAtMost(cap - u, n, line);
    if u >= cap { DivAtMost(cap - u, n, 0.0); }
  }

  // ---------------------------------------------------------------- a path of ports

  function Fresh(k: Packet, rate: real): Packet {
    k.(rC := 0, rS := 0, oS := 0.0, gS := rate)
  }

  function Walk(path: seq<Port>, k: Packet): Packet {
    if path == [] then k else Mark(path[|path| - 1], Walk(path[..|path| - 1], k))
  }

  ghost predicate IsFresh(k: Packet, rate: real) {
    k == Fresh(k, rate)
  }

  // The hop counter is a byte: it is back at 0 after 256 hops.
  lemma {:induction false} WalkCounts(path: seq<Port>, k: Packet)
    requires k.rC == 0
    ensures Walk(path, k).rC == |path| % 256 && Walk(path, k).rT == k.rT && Walk(path, k).xR == k.xR
  {
    if path == [] {
    } else {
      WalkCounts(path[..|path| - 1], k);
    }
  }

  // A port with a fair rate below the client's initial rate marks every new request, whatever its
  // overload, but for the single value at which neither test of lines 318-319 holds.
  lemma MarkedUnlessTied(p: Port, k: Packet, rate: real)
    requires IsFresh(k, rate) && p.oL >= 0.0 && p.gL < rate
    ensures Mark(p, k).rS == 1 && Mark(p, k).gS == p.gL && Mark(p, k).oS == p.oL <==> p.oL != EPS
  {
    assert Hop(k) == 1;
  }

  // After a path of at most 255 hops the packet carries the overload and fair rate of the hop it
  // names, and the count of the last hop; that overload is short of no hop's by more than EPS a hop.
  lemma {:induction false} WalkCarriesWorst(path: seq<Port>, k: Packet, rate: real)
    requires |path| <= 255 && IsFresh(k, rate)
    ensures var w := Walk(path, k);
            && w.rC == |path| && w.rS <= |path| && w.rT == k.rT && w.xR == k.xR
            && w.nIter == (if path == [] then k.nIter else path[|path| - 1].nIter)
            && (if w.rS == 0 then w.oS == 0.0 && w.gS == rate
                else w.oS == path[w.rS - 1].oL && w.gS == path[w.rS - 1].gL)
            && forall j :: 0 <= j < |path| ==> w.oS >= path[j].oL - (|path| - j) as real * EPS
  {
    if path == [] {
    } else {
      var front := path[..|path| - 1];
      WalkCarriesWorst(front, k, rate);
      var v := Walk(front, k);
      var w := Walk(path, k);
      assert w.oS >= v.oS - EPS;
      forall j | 0 <= j < |path| ensures w.oS >= path[j].oL - (|path| - j) as real * EPS {
        if j < |front| { assert path[j] == front[j]; }
      }
    }
  }

  // A hop whose overload stands out by more than EPS a hop is the one named.
  lemma DominantHopIsNamed(path: seq<Port>, k: Packet, rate: real, b: nat)
    requires |path| <= 255 && IsFresh(k, rate) && b < |path|
    requires path[b].oL > |path| as real * EPS
    requires forall j :: 0 <= j < |path| && j != b ==> path[b].oL > path[j].oL + |path| as real * EPS
    ensures Walk(path, k).rS == b + 1
  {
    WalkCarriesWorst(path, k, rate);
    assert (|path| - b) as real * EPS <= |path| as real * EPS;
  }

  // Overloads that a comparison of lines 318-319 takes for equal.
  predicate Near(a: real, b: real) {
    Abs(a - b) < EPS
  }

  // The overloads of a path fall into groups: near within one, further than EPS apart between two. No
  // overload at all, which a new request carries, belongs to one of them.
  ghost predicate Grouped(path: seq<Port>) {
    && (forall i :: 0 <= i < |path| ==> path[i].oL >= 0.0 && path[i].oL != EPS)
    && (forall i, j :: 0 <= i < |path| && 0 <= j < |path| ==> Abs(path[i].oL - path[j].oL) != EPS)
    && (forall i, j :: 0 <= i < |path| && 0 <= j < |path| && Near(path[i].oL, path[j].oL) ==>
          (Near(path[i].oL, 0.0) <==> Near(path[j].oL, 0.0)))
    && (forall i, j, k :: 0 <= i < |path| && 0 <= j < |path| && 0 <= k < |path| ==>
          Near(path[i].oL, path[j].oL) && Near(path[j].oL, path[k].oL) ==> Near(path[i].oL, path[k].oL))
  }

  // Hop j is no match for the hop that w names: its overload is further down, or near and its fair rate
  // is not less, nor the same if it comes first.
  predicate Outdone(w: Packet, j: nat, p: Port) {
    || w.oS - p.oL > EPS
    || (Near(p.oL, w.oS) && if j + 1 < w.rS then w.gS < p.gL else w.gS <= p.gL)
  }

  // The packet names the first hop with the least fair rate among those of the greatest overload; a hop
  // without overload only when its fair rate is below the client's initial rate.
  ghost predicate NamesWorst(path: seq<Port>, w: Packet, rate: real) {
    && w.rS <= |path|
    && (if w.rS == 0 then w.oS == 0.0 && w.gS == rate
        else w.oS == path[w.rS - 1].oL && w.gS == path[w.rS - 1].gL && (Near(w.oS, 0.0) ==> w.gS < rate))
    && forall j :: 0 <= j < |path| ==> Outdone(w, j, path[j])
  }

  lemma {:induction false} WalkNamesWorst(path: seq<Port>, k: Packet, rate: real)
    requires |path| <= 255 && IsFresh(k, rate) && Grouped(path)
    ensures NamesWorst(path, Walk(path, k), rate)
  {
    if path == [] {
    } else {
      var front, p := path[..|path| - 1], path[|path| - 1];
      assert front + [p] == path;
      GroupedFront(front, p);
      WalkNamesWorst(front, k, rate);
      WalkCarriesWorst(front, k, rate);
      MarkNamesWorst(front, p, Walk(front, k), rate);
    }
  }

  lemma MarkNamesWorst(front: seq<Port>, p: Port, v: Packet, rate: real)
    requires |front| < 255 && v.rC == |front| && Grouped(front + [p]) && NamesWorst(front, v, rate)
    ensures NamesWorst(front + [p], Mark(p, v), rate)
  {
    var path := front + [p];
    forall j | 0 <= j < |front| ensures path[j] == front[j] && Outdone(Mark(p, v), j, path[j]) {
      StaysOutdone(front, p, v, j);
    }
    LastHop(front, p, v, rate);
  }

  lemma StaysOutdone(front: seq<Port>, p: Port, v: Packet, j: nat)
    requires j < |front| < 255 && v.rC == |front| && Outdone(v, j, front[j]) && Grouped(front + [p])
    requires v.rS <= |front| && if v.rS == 0 then v.oS == 0.0 else v.oS == front[v.rS - 1].oL
    ensures Outdone(Mark(p, v), j, front[j])
  {
    var path := front + [p];
    assert path[j] == front[j] && path[|front|] == p;
    if v.rS > 0 { assert path[v.rS - 1] == front[v.rS - 1]; }
  }

  lemma LastHop(front: seq<Port>, p: Port, v: Packet, rate: real)
    requires |front| < 255 && v.rC == |front| && Grouped(front + [p]) && v.rS <= |front|
    requires if v.rS == 0 then v.oS == 0.0 && v.gS == rate
             else v.oS == front[v.rS - 1].oL && v.gS == front[v.rS - 1].gL && (Near(v.oS, 0.0) ==> v.gS < rate)
    ensures var w := Mark(p, v);
            var path := front + [p];
            && w.rS <= |path| && Outdone(w, |front|, p)
            && (if w.rS == 0 then w.oS == 0.0 && w.gS == rate
                else w.oS == path[w.rS - 1].oL && w.gS == path[w.rS - 1].gL && (Near(w.oS, 0.0) ==> w.gS < rate))
  {
    var path := front + [p];
    assert path[|front|] == p;
    if v.rS > 0 { assert path[v.rS - 1] == front[v.rS - 1]; }
  }

  lemma GroupedFront(front: seq<Port>, p: Port)
    requires Grouped(front + [p])
    ensures Grouped(front)
  {
    var path := front + [p];
    assert forall i :: 0 <= i < |front| ==> path[i] == front[i];
  }

  // With no overload anywhere the packet carries the smallest fair rate, of the first hop that has it.
  lemma WalkCarriesLeastRate(path: seq<Port>, k: Packet, rate: real)
    requires |path| <= 255 && IsFresh(k, rate)
    requires forall j :: 0 <= j < |path| ==> path[j].oL == 0.0
    ensures var w := Walk(path, k);
            && w.rC == |path| && w.rS <= |path| && w.oS == 0.0 && w.gS <= rate
            && (forall j :: 0 <= j < |path| ==> w.gS <= path[j].gL)
            && (if w.rS == 0 then w.gS == rate
                else w.gS == path[w.rS - 1].gL < rate && forall j :: 0 <= j < w.rS - 1 ==> w.gS < path[j].gL)
  {
    UnloadedGrouped(path);
    WalkNamesWorst(path, k, rate);
    WalkCarriesWorst(path, k, rate);
    LeastRate(path, Walk(path, k), rate);
  }

  lemma UnloadedGrouped(path: seq<Port>)
    requires forall j :: 0 <= j < |path| ==> path[j].oL == 0.0
    ensures Grouped(path)
  {
  }

  lemma LeastRate(path: seq<Port>, w: Packet, rate: real)
    requires NamesWorst(path, w, rate) && forall j :: 0 <= j < |path| ==> path[j].oL == 0.0
    ensures w.oS == 0.0 && w.gS <= rate && (w.rS > 0 ==> w.gS < rate)
    ensures forall j :: 0 <= j < |path| ==> if j + 1 < w.rS then w.gS < path[j].gL else w.gS <= path[j].gL
  {
    forall j | 0 <= j < |path|
      ensures if j + 1 < w.rS then w.gS < path[j].gL else w.gS <= path[j].gL
    {
      assert Outdone(w, j, path[j]);
    }
  }

  // The hops of a path at which a request is counted as a flow.
  function CountingHops(path: seq<Port>, k: Packet): set<nat> {
    set j | 0 <= j < |path| && Hop(Walk(path[..j], k)) == k.rT
  }

  // A request is counted as a flow at its own bottleneck hop and nowhere else.
  lemma CountedAtBottleneckOnly(path: seq<Port>, k: Packet, rate: real)
    requires |path| <= 255 && IsFresh(k, rate)
    ensures CountingHops(path, k) == if 1 <= k.rT <= |path| then {k.rT - 1} else {}
  {
    forall j | 0 <= j < |path| ensures Walk(path[..j], k).rC == j {
      WalkCarriesWorst(path[..j], k, rate);
    }
  }

  // ---------------------------------------------------------------- the client

  // MessageSwap without its sockets: interval is the pacing interval its timer runs at.
  datatype Client = Client(initRate: real, initInterval: real, trueRate: real, initIter: bool,
                           rateInit: bool, cache: Packet, interval: real)

  function NewClient(initRate: real, initInterval: real): Client {
    Client(initRate, initInterval, 0.0, false, false, Packet(0, 0, 0, 0.0, initRate, 0.0, 0), initInterval)
  }

  // Unsigned 64-bit difference.
  function Since(a: nat, b: nat): nat {
    (a - b) % WORD64
  }

  function Min(a: real, b: real): real {
    if b < a then b else a
  }

  // The reply k as a client with a warm-up of warmUp collections takes it; the source's is WARM_UP.
  function Replied(warmUp: nat, c: Client, k: Packet): Client {
    var first := if c.initIter then c.cache.nIter else k.nIter;
    var offer := Min(c.initRate, k.gS);
    var warm := Since(k.nIter, first) >= warmUp;
    var x := if warm && k.oS > 0.0 && offer > c.cache.xR then c.cache.xR else offer;
    var rate := if warm then x else 0.0;
    c.(trueRate := rate, initIter := true, rateInit := c.rateInit || rate > 0.0,
       cache := Packet(0, 0, k.rS, 0.0, c.initRate, x, first),
       interval := if rate > 0.0 then c.initInterval * c.initRate / rate else c.interval)
  }

  function GivenRate(c: Client): real {
    if c.rateInit then c.trueRate else 0.0
  }

  class MessageSwap {
    const initRate: real
    const initInterval: real
    const timer: Timer
    var trueRate: real
    var initIter: bool
    var rateInit: bool
    var cache: Packet

    ghost function View(): Client
      reads this, timer
    {
      Client(initRate, initInterval, trueRate, initIter, rateInit, cache, timer.interval)
    }

    constructor (rate: real, initInterval: real, now: int)
      ensures View() == NewClient(rate, initInterval) && fresh(timer)
    {
      initRate, this.initInterval, trueRate, initIter, rateInit := rate, initInterval, 0.0, false, false;
      timer := new Timer(initInterval, now);
      cache := Packet(0, 0, 0, 0.0, rate, 0.0, 0);
    }

    // A reply; the timer starts with the first positive rate.
    method OnReply(reply: Packet, now: int)
      modifies this, timer
      ensures View() == Replied(WARM_UP, old(View()), reply)
      ensures var starts := !old(rateInit) && trueRate > 0.0;
              && timer.timeout == (if starts && now > old(timer.timeout) then now else old(timer.timeout))
              && timer.valid == (starts || old(timer.valid))
    {
      if !initIter {
        cache := cache.(nIter := reply.nIter);
        initIter := true;
      }
      var k := reply.(rC := 0, rT := reply.rS, rS := 0, xR := Min(initRate, reply.gS));
      if Since(k.nIter, cache.nIter) >= WARM_UP {
        if k.oS > 0.0 && k.xR > cache.xR {
          k := k.(xR := cache.xR);
        }
        trueRate := k.xR;
      } else {
        trueRate := 0.0;
      }
      k := k.(oS := 0.0, gS := initRate);
      if trueRate > 0.0 {
        timer.UpdateInterval(initInterval * initRate / trueRate);
      }
      if trueRate > 0.0 && !rateInit {
        timer.Start(now);
        rateInit := true;
      }
      cache := k.(nIter := cache.nIter);
    }

    // RateController.getRate: nothing may be sent before the first positive rate.
    method GetRate() returns (rate: real)
      ensures rate == GivenRate(View())
    {
      rate := if rateInit then trueRate else 0.0;
    }
  }

  // Whatever reply comes, the rate in force is at most the initial one, and the timer then runs at an
  // interval worth one block at that rate.
  lemma ReplySetsPace(s: Setting, warmUp: nat, c: Client, k: Packet)
    requires s.initRate == c.initRate > 0.0 && c.initInterval == InitInterval(s)
    ensures var d := Replied(warmUp, c, k);
            && d.trueRate <= c.initRate && (warmUp > 0 && !c.initIter ==> d.trueRate == 0.0)
            && (d.trueRate > 0.0 ==> Worth(s, d.interval, d.trueRate) && d.rateInit)
            && (d.trueRate <= 0.0 ==> d.interval == c.interval)
  {
    var rate := Replied(warmUp, c, k).trueRate;
    if rate > 0.0 { RateSetsInterval(s, rate); }
  }

  // A request goes down a path of at most 255 hops and is replied to. The next request is a new one, and
  // on whatever path it takes it is counted as a flow at the hop whose overload and fair rate the reply
  // carried, and at no other; at none if the reply carried none.
  lemma NextRequestNamesBottleneck(warmUp: nat, c: Client, path: seq<Port>, next: seq<Port>)
    requires |path| <= 255 && |next| <= 255 && IsFresh(c.cache, c.initRate)
    ensures var w := Walk(path, c.cache);
            var k := Replied(warmUp, c, w).cache;
            && IsFresh(k, c.initRate) && w.rS <= |path|
            && CountingHops(next, k) == (if 1 <= w.rS <= |next| then {w.rS - 1} else {})
            && (if w.rS == 0 then w.oS == 0.0 && w.gS == c.initRate
                else w.oS == path[w.rS - 1].oL && w.gS == path[w.rS - 1].gL)
  {
    WalkCarriesWorst(path, c.cache, c.initRate);
    CountedAtBottleneckOnly(next, Replied(warmUp, c, Walk(path, c.cache)).cache, c.initRate);
  }

  // So a flow is counted where the overload stands out.
  lemma DominantHopCounts(warmUp: nat, c: Client, path: seq<Port>, b: nat)
    requires |path| <= 255 && IsFresh(c.cache, c.initRate) && b < |path|
    requires path[b].oL > |path| as real * EPS
    requires forall j :: 0 <= j < |path| && j != b ==> path[b].oL > path[j].oL + |path| as real * EPS
    ensures CountingHops(path, Replied(warmUp, c, Walk(path, c.cache)).cache) == {b}
  {
    DominantHopIsNamed(path, c.cache, c.initRate, b);
    NextRequestNamesBottleneck(warmUp, c, path, path);
  }

  // The further replies of a round change nothing.
  lemma RepliedTwice(warmUp: nat, c: Client, k: Packet)
    ensures Replied(warmUp, Replied(warmUp, c, k), k) == Replied(warmUp, c, k)
  {
  }

  // ---------------------------------------------------------------- any replies, in any order

  function RepliedAll(warmUp: nat, c: Client, ks: seq<Packet>): Client {
    if ks == [] then c else Replied(warmUp, RepliedAll(warmUp, c, ks[..|ks| - 1]), ks[|ks| - 1])
  }

  // A reply that a client with a warm-up of warmUp, whose first reply was first, sends on.
  predicate Warm(warmUp: nat, first: Packet, k: Packet) {
    Since(k.nIter, first.nIter) >= warmUp
  }

  // The first reply sets the count that every later warm-up test compares with.
  lemma {:induction false} FirstReplyKept(warmUp: nat, c: Client, ks: seq<Packet>)
    requires !c.initIter && ks != []
    ensures var d := RepliedAll(warmUp, c, ks);
            d.initIter && d.cache.nIter == ks[0].nIter && d.initRate == c.initRate
  {
    if |ks| == 1 {
      assert ks[..0] == [];
    } else {
      FirstReplyKept(warmUp, c, ks[..|ks| - 1]);
    }
  }

  // Over any replies: the gate of getRate opens with the first reply that sets a positive rate and
  // stays open; before it the rate is not positive, so the gate never holds one back; and a positive
  // rate is given out only after a reply at least warmUp collections behind the first.
  lemma {:induction false} RateGate(warmUp: nat, initRate: real, initInterval: real, ks: seq<Packet>)
    ensures var c := NewClient(initRate, initInterval);
            var d := RepliedAll(warmUp, c, ks);
            && (d.rateInit <==> exists j :: 0 < j <= |ks| && RepliedAll(warmUp, c, ks[..j]).trueRate > 0.0)
            && (!d.rateInit ==> d.trueRate <= 0.0)
            && (GivenRate(d) > 0.0 ==> ks != [] && Warm(warmUp, ks[0], ks[|ks| - 1]))
            && (GivenRate(d) > 0.0 <==> d.trueRate > 0.0)
            && (if d.rateInit then GivenRate(d) == d.trueRate else GivenRate(d) == 0.0)
  {
    var c := NewClient(initRate, initInterval);
    if ks == [] {
    } else {
      var front, k := ks[..|ks| - 1], ks[|ks| - 1];
      RateGate(warmUp, initRate, initInterval, front);
      FirstReplyKept(warmUp, c, ks);
      if front != [] { FirstReplyKept(warmUp, c, front); }
      assert forall j :: 0 < j < |ks| ==> ks[..j] == front[..j];
      assert ks[..|ks|] == ks;
    }
  }
}
