// StreamControl::statistic: the rate stream one client sends to the collector.
module RateLog {
  import opened RateMerge

  // The byte counter belongs to another thread. A tick reads it three times: in the loop guard (line
  // 863), for the rate (line 868), and again for the next tick's base (line 880).
  datatype Tick = Tick(guard: nat, seen: nat, kept: nat)

  function Base(ticks: seq<Tick>): nat {
    if ticks == [] then 0 else ticks[|ticks| - 1].kept
  }

  // A run of the loop: the counter never goes back, every tick's guard reads less than total, and the
  // guard that reads end stops the loop. Blocks sent again can take the counter beyond total.
  ghost predicate IsTrace(ticks: seq<Tick>, total: nat, end: nat) {
    && (forall k :: 0 <= k < |ticks| ==>
          Base(ticks[..k]) <= ticks[k].guard <= ticks[k].seen <= ticks[k].kept && ticks[k].guard < total)
    && Base(ticks) <= end && total <= end
  }

  // Mbit/s over the 10 ms of a tick.
  function RateOf(bytes: int): real {
    bytes as real * 8.0 / 0.01 * 0.000001
  }

  // The records before the closing one.
  function Readings(ticks: seq<Tick>): (rates: seq<real>)
    ensures |rates| == |ticks| + 1
  {
    if ticks == [] then [0.0]
    else
      var front := ticks[..|ticks| - 1];
      Readings(front) + [RateOf(ticks[|ticks| - 1].seen - Base(front))]
  }

  // The bytes that records at these rates stand for.
  function Reported(rates: seq<real>): real {
    if rates == [] then 0.0 else Reported(rates[..|rates| - 1]) + rates[|rates| - 1] * 1000000.0 * 0.01 / 8.0
  }

  lemma ReportedSnoc(rates: seq<real>, rate: real)
    ensures Reported(rates + [rate]) == Reported(rates) + rate * 1000000.0 * 0.01 / 8.0
  {
    assert (rates + [rate])[..|rates|] == rates;
  }

  // The bytes that came between the last two readings of a tick.
  function Missed(ticks: seq<Tick>): int {
    if ticks == [] then 0
    else Missed(ticks[..|ticks| - 1]) + (ticks[|ticks| - 1].kept - ticks[|ticks| - 1].seen)
  }

  ghost predicate Still(ticks: seq<Tick>) {
    forall k :: 0 <= k < |ticks| ==> ticks[k].seen == ticks[k].kept
  }

  lemma {:induction false} ReportedIs(ticks: seq<Tick>)
    ensures Reported(Readings(ticks)) + Missed(ticks) as real == Base(ticks) as real
  {
    if ticks == [] {
      ReportedSnoc([], 0.0);
      assert [] + [0.0] == Readings(ticks);
    } else {
      var front := ticks[..|ticks| - 1];
      ReportedIs(front);
      ReportedSnoc(Readings(front), RateOf(ticks[|ticks| - 1].seen - Base(front)));
    }
  }

  lemma {:induction false} MissedSign(ticks: seq<Tick>)
    requires forall k :: 0 <= k < |ticks| ==> ticks[k].seen <= ticks[k].kept
    ensures Missed(ticks) >= 0 && (Missed(ticks) == 0 <==> Still(ticks))
  {
    if ticks == [] {
    } else {
      MissedSign(ticks[..|ticks| - 1]);
    }
  }

  // Every byte counted when the loop ends is in the records, or came between two readings of a tick, or
  // came after the last tick. The records stand for all of them if and only if the counter stood still
  // between the readings of every tick and did not move after the last one.
  lemma BytesAccounted(ticks: seq<Tick>, total: nat, end: nat)
    requires IsTrace(ticks, total, end)
    ensures Reported(Readings(ticks)) + Missed(ticks) as real + (end - Base(ticks)) as real == end as real
    ensures Reported(Readings(ticks)) == end as real <==> Still(ticks) && Base(ticks) == end
  {
    ReportedIs(ticks);
    MissedSign(ticks);
  }

  // A file acknowledged before the first tick is in no record at all.
  lemma NoTickReportsNothing(total: nat, end: nat)
    requires 0 < total <= end
    ensures IsTrace([], total, end) && Reported(Readings([])) == 0.0 < end as real
  {
    BytesAccounted([], total, end);
  }

  function Rates(log: seq<RateInfo>): (rates: seq<real>)
    ensures |rates| == |log| && forall k :: 0 <= k < |log| ==> rates[k] == log[k].rate
  {
    seq(|log|, k requires 0 <= k < |log| => log[k].rate)
  }

  // What the loop guard reads when k ticks are done.
  function GuardAt(ticks: seq<Tick>, end: nat, k: nat): nat
    requires k <= |ticks|
  {
    if k < |ticks| then ticks[k].guard else end
  }

  // The records are numbered 0, 1, 2, ..., none but the closing one is negative, and those before it
  // are the readings.
  method Statistic(ticks: seq<Tick>, total: nat, end: nat) returns (log: seq<RateInfo>)
    requires IsTrace(ticks, total, end)
    ensures |log| == |ticks| + 2 && forall k :: 0 <= k < |log| ==> log[k].seqNum == k
    ensures IsStream(Rates(log)) && Rates(log) == Readings(ticks) + [-1.0]
  {
    log := [RateInfo(0, 0.0)];
    var seqNum, lastBytes := 0, 0;
    while GuardAt(ticks, end, seqNum) < total
      invariant seqNum <= |ticks| && |log| == seqNum + 1 && lastBytes == Base(ticks[..seqNum])
      invariant forall j :: 0 <= j < |log| ==> log[j].seqNum == j && log[j].rate >= 0.0
      invariant Rates(log) == Readings(ticks[..seqNum])
      decreases |ticks| - seqNum
    {
      assert ticks[..seqNum + 1][..seqNum] == ticks[..seqNum];
      var rate := RateOf(ticks[seqNum].seen - lastBytes);
      lastBytes := ticks[seqNum].kept;
      seqNum := seqNum + 1;
      log := log + [RateInfo(seqNum, rate)];
    }
    assert ticks[..|ticks|] == ticks;
    seqNum := seqNum + 1;
    log := log + [RateInfo(seqNum, -1.0)];
  }
}
