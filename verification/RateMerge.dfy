// master.cpp: the rate streams of several clients, merged under a lock into numbered rows that
// another thread drains.
module RateMerge {

  // A record of StreamControl::statistic.
  datatype RateInfo = RateInfo(seqNum: nat, rate: real)

  const UNSET := RateInfo(0, -2.0)
  const OFFSET := 100

  // RateQueueElem.
  datatype Row = Row(rates: seq<RateInfo>, ready: bool, seqNum: nat)

  // The shared state of RateCollector, without its lock.
  datatype Shared = Shared(queue: seq<Row>, waitSeq: nat, finishedCount: nat, finishedArr: seq<bool>, finished: bool)

  // Failed: an index outside the queue.
  datatype Outcome = Failed | Done(c: Shared)

  function Blank(n: nat, r: nat): Row {
    Row(seq(n, _ => UNSET), false, r)
  }

  // Lines 363-366: rows up to the wanted one, and at least one row.
  function Extended(c: Shared, r: nat): (d: Shared)
    ensures d == c.(queue := d.queue, waitSeq := d.waitSeq)
    decreases (if c.queue == [] then 1 else 0) + (if c.waitSeq <= r then r - c.waitSeq + 1 else 0)
  {
    if c.queue != [] && c.waitSeq > r then c
    else Extended(c.(queue := c.queue + [Blank(|c.finishedArr|, c.waitSeq)], waitSeq := c.waitSeq + 1), r)
  }

  // Lines 372-382, from client i on.
  predicate ReadyFrom(row: Row, finishedArr: seq<bool>, idx: nat, i: nat)
    requires |row.rates| == |finishedArr|
    decreases |finishedArr| - i
  {
    if i >= |finishedArr| then true
    else if i == idx then ReadyFrom(row, finishedArr, idx, i + 1)
    else if row.seqNum < i * OFFSET then true
    else if finishedArr[i] then ReadyFrom(row, finishedArr, idx, i + 1)
    else if row.rates[i].seqNum == 0 && row.rates[i].rate < 0.0 then false
    else ReadyFrom(row, finishedArr, idx, i + 1)
  }

  function Filled(row: Row, finishedArr: seq<bool>, idx: nat, info: RateInfo): (filled: Row)
    requires idx < |row.rates| == |finishedArr|
  {
    var wide := row.(rates := row.rates[idx := info]);
    wide.(ready := wide.ready || ReadyFrom(wide, finishedArr, idx, 0))
  }

  // One record of client idx.
  function Place(c: Shared, idx: nat, info: RateInfo): Outcome
    requires idx < |c.finishedArr|
  {
    var r := info.seqNum + idx * OFFSET;
    var d := Extended(c, r);
    if d.queue == [] || r < d.queue[0].seqNum || r - d.queue[0].seqNum >= |d.queue| then Failed
    else
      var k := r - d.queue[0].seqNum;
      if |d.queue[k].rates| != |c.finishedArr| then Failed
      else
        var e := d.(queue := d.queue[k := Filled(d.queue[k], c.finishedArr, idx, info)]);
        if r > idx * OFFSET + 5 && info.rate < 0.0 then
          Done(e.(finishedCount := e.finishedCount + 1, finishedArr := e.finishedArr[idx := true]))
        else Done(e)
  }

  // Lines 394-397: a client's thread ends.
  function Closed(c: Shared): Shared {
    if c.finishedCount == |c.finishedArr| then c.(finished := true) else c
  }

  // Line 314 lets the draining thread take the front row.
  predicate CanDrain(c: Shared) {
    c.queue != [] && (c.finished || c.queue[0].ready)
  }

  class RateCollector {
    const clientNum: nat
    var rateQueue: seq<Row>
    var waitSeqNum: nat
    var finishedCount: nat
    var finishedArr: seq<bool>
    var finished: bool

    ghost function View(): Shared
      reads this
    {
      Shared(rateQueue, waitSeqNum, finishedCount, finishedArr, finished)
    }

    ghost predicate Valid()
      reads this
    {
      |finishedArr| == clientNum && forall k :: 0 <= k < |rateQueue| ==> |rateQueue[k].rates| == clientNum
    }

    constructor (clientNum: nat)
      ensures Valid() && this.clientNum == clientNum
      ensures View() == Shared([], 0, 0, seq(clientNum, _ => false), false)
    {
      this.clientNum := clientNum;
      rateQueue, waitSeqNum, finishedCount, finished := [], 0, 0, false;
      finishedArr := seq(clientNum, _ => false);
    }

    method ExtendTo(r: nat)
      requires Valid()
      modifies this`rateQueue, this`waitSeqNum
      ensures Valid() && View() == Extended(old(View()), r)
    {
      while rateQueue == [] || waitSeqNum <= r
        invariant Valid() && Extended(View(), r) == Extended(old(View()), r)
        decreases (if rateQueue == [] then 1 else 0) + (if waitSeqNum <= r then r - waitSeqNum + 1 else 0)
      {
        rateQueue := rateQueue + [Row(seq(clientNum, _ => UNSET), false, waitSeqNum)];
        waitSeqNum := waitSeqNum + 1;
      }
    }

    method AllReady(row: Row, idx: nat) returns (allReady: bool)
      requires |row.rates| == |finishedArr| == clientNum
      ensures allReady == ReadyFrom(row, finishedArr, idx, 0)
    {
      allReady := true;
      var i := 0;
      while i < clientNum
        invariant i <= clientNum && allReady
        invariant ReadyFrom(row, finishedArr, idx, i) == ReadyFrom(row, finishedArr, idx, 0)
      {
        if i != idx {
          if row.seqNum < i * OFFSET {
            break;
          }
          if !finishedArr[i] && row.rates[i].seqNum == 0 && row.rates[i].rate < 0.0 {
            return false;
          }
        }
        i := i + 1;
      }
    }

    // The locked part of one turn of collect_rate_info.
    method PlaceRecord(idx: nat, info: RateInfo)
      requires Valid() && idx < clientNum && Place(View(), idx, info).Done?
      modifies this
      ensures Valid() && Done(View()) == Place(old(View()), idx, info)
    {
      var r := info.seqNum + idx * OFFSET;
      ExtendTo(r);
      var k := r - rateQueue[0].seqNum;
      var row := rateQueue[k].(rates := rateQueue[k].rates[idx := info]);
      var allReady := AllReady(row, idx);
      if allReady {
        row := row.(ready := true);
      }
      rateQueue := rateQueue[k := row];
      if r > idx * OFFSET + 5 && info.rate < 0.0 {
        finishedCount := finishedCount + 1;
        finishedArr := finishedArr[idx := true];
      }
    }

    method CloseClient()
      requires Valid()
      modifies this`finished
      ensures Valid() && View() == Closed(old(View()))
    {
      if finishedCount == clientNum {
        finished := true;
      }
    }

    method DrainRow() returns (row: Row)
      requires Valid() && CanDrain(View())
      modifies this`rateQueue
      ensures Valid() && row == old(rateQueue)[0] && rateQueue == old(rateQueue)[1..]
    {
      row := rateQueue[0];
      rateQueue := rateQueue[1..];
    }
  }

  // ---------------------------------------------------------------- all threads together

  // What one client sends: a rate for every sequence number from 0 on, the last one negative.
  ghost predicate IsStream(rates: seq<real>) {
    && |rates| >= 2 && rates[|rates| - 1] < 0.0
    && forall s :: 0 <= s < |rates| - 1 ==> rates[s] >= 0.0
  }

  ghost predicate AreStreams(streams: seq<seq<real>>) {
    forall i :: 0 <= i < |streams| ==> IsStream(streams[i])
  }

  // sent counts the records of each client placed so far; closed says whose thread has ended; emitted
  // holds the rows drained.
  datatype System = System(c: Shared, sent: seq<nat>, closed: seq<bool>, emitted: seq<Row>, failed: bool)

  datatype Step = Record(i: nat) | Close(i: nat) | Drain

  ghost predicate Start(streams: seq<seq<real>>, y: System) {
    var n := |streams|;
    y == System(Shared([], 0, 0, seq(n, _ => false), false), seq(n, _ => 0), seq(n, _ => false), [], false)
  }

  predicate Sized(n: nat, y: System) {
    |y.sent| == |y.closed| == |y.c.finishedArr| == n
  }

  predicate Enabled(streams: seq<seq<real>>, y: System, step: Step)
    requires Sized(|streams|, y)
  {
    match step
    case Record(i) => i < |streams| && y.sent[i] < |streams[i]|
    case Close(i) => i < |streams| && y.sent[i] == |streams[i]| && !y.closed[i]
    case Drain => CanDrain(y.c)
  }

  function RecordOf(streams: seq<seq<real>>, i: nat, s: nat): RateInfo
    requires i < |streams| && s < |streams[i]|
  {
    RateInfo(s, streams[i][s])
  }

  function Do(streams: seq<seq<real>>, y: System, step: Step): System
    requires Sized(|streams|, y) && Enabled(streams, y, step)
  {
    match step
    case Record(i) =>
      (match Place(y.c, i, RecordOf(streams, i, y.sent[i]))
       case Failed => y.(failed := true)
       case Done(c) => y.(c := c, sent := y.sent[i := y.sent[i] + 1]))
    case Close(i) => y.(c := Closed(y.c), closed := y.closed[i := true])
    case Drain => y.(c := y.c.(queue := y.c.queue[1..]), emitted := y.emitted + [y.c.queue[0]])
  }

  ghost predicate IsRun(streams: seq<seq<real>>, y: System, steps: seq<Step>)
    decreases |steps|
  {
    steps == [] || (Sized(|streams|, y) && Enabled(streams, y, steps[0])
                    && IsRun(streams, Do(streams, y, steps[0]), steps[1..]))
  }

  ghost function After(streams: seq<seq<real>>, y: System, steps: seq<Step>): System
    requires IsRun(streams, y, steps)
    decreases |steps|
  {
    if steps == [] then y else After(streams, Do(streams, y, steps[0]), steps[1..])
  }

  // ---------------------------------------------------------------- the invariant

  // What slot i of row r holds when client i has had cnt records placed.
  function Slot(streams: seq<seq<real>>, i: nat, r: nat, cnt: nat): RateInfo
    requires i < |streams| && cnt <= |streams[i]|
  {
    if i * OFFSET <= r < i * OFFSET + cnt then RecordOf(streams, i, r - i * OFFSET) else UNSET
  }

  ghost predicate Counts(streams: seq<seq<real>>, sent: seq<nat>) {
    |sent| == |streams| && forall i :: 0 <= i < |sent| ==> sent[i] <= |streams[i]|
  }

  ghost predicate RowsKept(streams: seq<seq<real>>, sent: seq<nat>, rows: seq<Row>)
    requires Counts(streams, sent)
  {
    forall r :: 0 <= r < |rows| ==>
      && rows[r].seqNum == r && |rows[r].rates| == |streams|
      && forall i :: 0 <= i < |streams| ==> rows[r].rates[i] == Slot(streams, i, r, sent[i])
  }

  // No client has a record for row r that is still to come.
  ghost predicate Settled(streams: seq<seq<real>>, sent: seq<nat>, r: nat)
    requires Counts(streams, sent)
  {
    forall i :: 0 <= i < |streams| && i * OFFSET <= r ==> r < i * OFFSET + sent[i] || sent[i] == |streams[i]|
  }

  function Rows(y: System): seq<Row> {
    y.emitted + y.c.queue
  }

  ghost predicate FinishKept(streams: seq<seq<real>>, y: System)
    requires Sized(|streams|, y) && Counts(streams, y.sent)
  {
    && (forall i :: 0 <= i < |streams| ==>
          (y.c.finishedArr[i] <==> y.sent[i] == |streams[i]| && |streams[i]| - 1 > 5))
    && y.c.finishedCount == CountTrue(y.c.finishedArr)
    && (y.c.finished ==> forall i :: 0 <= i < |streams| ==> y.c.finishedArr[i])
    && (forall i :: 0 <= i < |streams| && y.closed[i] ==> y.sent[i] == |streams[i]|)
    && (streams != [] && (forall i :: 0 <= i < |streams| ==> y.c.finishedArr[i] && y.closed[i]) ==> y.c.finished)
  }

  function CountTrue(b: seq<bool>): nat {
    if b == [] then 0 else (if b[0] then 1 else 0) + CountTrue(b[1..])
  }

  ghost predicate Inv(streams: seq<seq<real>>, y: System) {
    && !y.failed && Sized(|streams|, y) && Counts(streams, y.sent)
    && y.c.waitSeq == |Rows(y)|
    && RowsKept(streams, y.sent, Rows(y))
    && (forall i :: 0 <= i < |streams| && y.sent[i] > 0 ==> i * OFFSET + y.sent[i] <= |Rows(y)|)
    && (forall r :: 0 <= r < |Rows(y)| && (r < |y.emitted| || Rows(y)[r].ready) ==> Settled(streams, y.sent, r))
    && FinishKept(streams, y)
  }

  lemma {:induction false} CountTrueAll(b: seq<bool>)
    ensures CountTrue(b) <= |b|
    ensures CountTrue(b) == |b| <==> forall i :: 0 <= i < |b| ==> b[i]
  {
    if b == [] {
    } else {
      CountTrueAll(b[1..]);
      if forall i :: 0 <= i < |b| ==> b[i] {
        assert forall i :: 0 <= i < |b| - 1 ==> b[1..][i] == b[i + 1];
      }
      if CountTrue(b) == |b| {
        forall i | 0 <= i < |b| ensures b[i] { assert i > 0 ==> b[i] == b[1..][i - 1]; }
      }
    }
  }

  lemma {:induction false} CountTrueSet(b: seq<bool>, i: nat)
    requires i < |b| && !b[i]
    ensures CountTrue(b[i := true]) == CountTrue(b) + 1
  {
    if i == 0 {
      assert b[0 := true][1..] == b[1..];
    } else {
      assert b[i := true][1..] == b[1..][i - 1 := true];
      CountTrueSet(b[1..], i - 1);
    }
  }

  // The rows created are blank and numbered on; the wanted row is among them.
  lemma {:induction false} ExtendedRows(c: Shared, base: nat, r: nat)
    requires c.waitSeq == base + |c.queue| && base <= r
    ensures var d := Extended(c, r);
            && d.waitSeq == base + |d.queue| && |c.queue| <= |d.queue| && r < d.waitSeq
            && d.queue[..|c.queue|] == c.queue
            && forall k :: |c.queue| <= k < |d.queue| ==> d.queue[k] == Blank(|c.finishedArr|, base + k)
    decreases r + 1 - c.waitSeq + (if c.queue == [] then 1 else 0)
  {
    if c.queue != [] && c.waitSeq > r {
    } else {
      var e := c.(queue := c.queue + [Blank(|c.finishedArr|, c.waitSeq)], waitSeq := c.waitSeq + 1);
      ExtendedRows(e, base, r);
      var d := Extended(c, r);
      assert d.queue[..|c.queue|] == e.queue[..|c.queue|];
      assert d.queue[|c.queue|] == e.queue[|c.queue|];
    }
  }

  // A row found ready has every record of the clients that have started by it, or they are finished.
  lemma {:induction false} ReadyMeaning(row: Row, finishedArr: seq<bool>, idx: nat, i: nat)
    requires |row.rates| == |finishedArr| && ReadyFrom(row, finishedArr, idx, i)
    ensures forall j :: i <= j < |finishedArr| && j != idx && j * OFFSET <= row.seqNum ==>
              finishedArr[j] || row.rates[j].seqNum != 0 || row.rates[j].rate >= 0.0
    decreases |finishedArr| - i
  {
    if i >= |finishedArr| || (i != idx && i * OFFSET > row.seqNum) {
    } else {
      ReadyMeaning(row, finishedArr, idx, i + 1);
    }
  }

  lemma SettledStays(streams: seq<seq<real>>, sent: seq<nat>, more: seq<nat>, r: nat)
    requires Counts(streams, sent) && Counts(streams, more) && Settled(streams, sent, r)
    requires forall i :: 0 <= i < |streams| ==> sent[i] <= more[i]
    ensures Settled(streams, more, r)
  {
  }

  // A record placed: row r gets it, and no other row changes.
  lemma RowsGain(streams: seq<seq<real>>, sent: seq<nat>, rows: seq<Row>, idx: nat, row: Row)
    requires Counts(streams, sent) && RowsKept(streams, sent, rows)
    requires idx < |streams| && sent[idx] < |streams[idx]|
    requires var r := idx * OFFSET + sent[idx];
             && r < |rows| && row.seqNum == r
             && row.rates == rows[r].rates[idx := RecordOf(streams, idx, sent[idx])]
    ensures RowsKept(streams, sent[idx := sent[idx] + 1], rows[idx * OFFSET + sent[idx] := row])
  {
  }

  lemma FilledSettled(streams: seq<seq<real>>, sent: seq<nat>, row: Row, finishedArr: seq<bool>, idx: nat)
    requires AreStreams(streams) && Counts(streams, sent) && |row.rates| == |finishedArr| == |streams|
    requires idx < |streams| && sent[idx] < |streams[idx]| && row.seqNum == idx * OFFSET + sent[idx]
    requires forall i :: 0 <= i < |streams| && i != idx ==> row.rates[i] == Slot(streams, i, row.seqNum, sent[i])
    requires forall i :: 0 <= i < |streams| && finishedArr[i] ==> sent[i] == |streams[i]|
    requires ReadyFrom(row, finishedArr, idx, 0)
    ensures Settled(streams, sent[idx := sent[idx] + 1], row.seqNum)
  {
    ReadyMeaning(row, finishedArr, idx, 0);
  }

  // A row already drained or ready has nothing more to come, so the next record of any client belongs
  // to a row still in the queue or not yet made.
  lemma NextRowNotDrained(streams: seq<seq<real>>, y: System, i: nat)
    requires Inv(streams, y) && i < |streams| && y.sent[i] < |streams[i]|
    ensures |y.emitted| <= i * OFFSET + y.sent[i]
  {
    var r := i * OFFSET + y.sent[i];
    assert r < |y.emitted| ==> Settled(streams, y.sent, r);
  }

  // Every row there is once the queue reaches to row r.
  function Reaching(y: System, r: nat): seq<Row> {
    y.emitted + Extended(y.c, r).queue
  }

  lemma ReachingRows(y: System, r: nat)
    requires y.c.waitSeq == |Rows(y)| && |y.emitted| <= r
    ensures var rows := Reaching(y, r);
            && r < |rows| == Extended(y.c, r).waitSeq && |Rows(y)| <= |rows|
            && forall q :: 0 <= q < |rows| ==>
                 rows[q] == if q < |Rows(y)| then Rows(y)[q] else Blank(|y.c.finishedArr|, q)
  {
    ExtendedRows(y.c, |y.emitted|, r);
    var d := Extended(y.c, r);
    var rows := Reaching(y, r);
    forall q | 0 <= q < |rows| ensures rows[q] == if q < |Rows(y)| then Rows(y)[q] else Blank(|y.c.finishedArr|, q) {
      if |y.emitted| <= q < |Rows(y)| {
        assert d.queue[..|y.c.queue|][q - |y.emitted|] == y.c.queue[q - |y.emitted|];
      }
    }
  }

  lemma ReachingKept(streams: seq<seq<real>>, sent: seq<nat>, rows: seq<Row>, more: seq<Row>)
    requires Counts(streams, sent) && RowsKept(streams, sent, rows) && |rows| <= |more|
    requires forall q :: 0 <= q < |more| ==> more[q] == if q < |rows| then rows[q] else Blank(|streams|, q)
    requires forall i :: 0 <= i < |streams| && sent[i] > 0 ==> i * OFFSET + sent[i] <= |rows|
    ensures RowsKept(streams, sent, more)
  {
  }

  // The index is in range, and only the wanted row changes.
  lemma PlaceInRow(y: System, i: nat, info: RateInfo)
    requires y.c.waitSeq == |Rows(y)| && i < |y.c.finishedArr|
    requires forall q :: 0 <= q < |Rows(y)| ==> Rows(y)[q].seqNum == q && |Rows(y)[q].rates| == |y.c.finishedArr|
    requires |y.emitted| <= i * OFFSET + info.seqNum
    ensures var r := i * OFFSET + info.seqNum;
            var rows := Reaching(y, r);
            var o := Place(y.c, i, info);
            && r < |rows| && |rows[r].rates| == |y.c.finishedArr|
            && o.Done? && o.c.waitSeq == |rows| == |y.emitted + o.c.queue|
            && y.emitted + o.c.queue == rows[r := Filled(rows[r], y.c.finishedArr, i, info)]
  {
    var r := i * OFFSET + info.seqNum;
    ReachingRows(y, r);
    var rows := Reaching(y, r);
    var d := Extended(y.c, r);
    assert rows[|y.emitted|] == d.queue[0];
    assert rows[r] == d.queue[r - |y.emitted|];
  }

  lemma FinishKeptByRecord(streams: seq<seq<real>>, y: System, i: nat, c: Shared)
    requires AreStreams(streams) && Sized(|streams|, y) && Counts(streams, y.sent) && FinishKept(streams, y)
    requires i < |streams| && y.sent[i] < |streams[i]|
    requires Place(y.c, i, RecordOf(streams, i, y.sent[i])) == Done(c)
    ensures var z := y.(c := c, sent := y.sent[i := y.sent[i] + 1]);
            Sized(|streams|, z) && Counts(streams, z.sent) && FinishKept(streams, z)
  {
    assert IsStream(streams[i]);
    CountTrueSet(y.c.finishedArr, i);
    var z := y.(c := c, sent := y.sent[i := y.sent[i] + 1]);
    assert z.c.finished == y.c.finished;
    assert !y.c.finishedArr[i] && !y.closed[i];
  }

  lemma SettledByRecord(streams: seq<seq<real>>, y: System, i: nat, rows: seq<Row>, row: Row)
    requires AreStreams(streams) && Inv(streams, y) && i < |streams| && y.sent[i] < |streams[i]|
    requires var r := i * OFFSET + y.sent[i];
             && r < |rows| && |Rows(y)| <= |rows| && RowsKept(streams, y.sent, rows)
             && (forall q :: 0 <= q < |rows| ==> rows[q] == if q < |Rows(y)| then Rows(y)[q] else Blank(|streams|, q))
             && row == Filled(rows[r], y.c.finishedArr, i, RecordOf(streams, i, y.sent[i]))
    ensures var r := i * OFFSET + y.sent[i];
            var sent := y.sent[i := y.sent[i] + 1];
            forall q :: 0 <= q < |rows| && (q < |y.emitted| || rows[r := row][q].ready) ==> Settled(streams, sent, q)
  {
    var r := i * OFFSET + y.sent[i];
    var sent := y.sent[i := y.sent[i] + 1];
    forall q | 0 <= q < |rows| && (q < |y.emitted| || rows[r := row][q].ready) ensures Settled(streams, sent, q) {
      if q == r && !rows[r].ready && r >= |y.emitted| {
        FilledSettled(streams, y.sent, row.(ready := rows[r].ready), y.c.finishedArr, i);
      } else {
        assert Settled(streams, y.sent, q);
        SettledStays(streams, y.sent, sent, q);
      }
    }
  }

  // The invariant put together again after a record.
  lemma InvWithRecord(streams: seq<seq<real>>, y: System, i: nat, c: Shared, rows: seq<Row>)
    requires Inv(streams, y) && i < |streams| && y.sent[i] < |streams[i]| && y.emitted + c.queue == rows
    requires i * OFFSET + y.sent[i] < |rows| == c.waitSeq && |Rows(y)| <= |rows|
    requires var sent := y.sent[i := y.sent[i] + 1];
             && RowsKept(streams, sent, rows)
             && (forall q :: 0 <= q < |rows| && (q < |y.emitted| || rows[q].ready) ==> Settled(streams, sent, q))
    requires var z := y.(c := c, sent := y.sent[i := y.sent[i] + 1]); Sized(|streams|, z) && FinishKept(streams, z)
    ensures Inv(streams, y.(c := c, sent := y.sent[i := y.sent[i] + 1]))
  {
    assert Rows(y.(c := c, sent := y.sent[i := y.sent[i] + 1])) == rows;
  }

  lemma RecordInv(streams: seq<seq<real>>, y: System, i: nat)
    requires AreStreams(streams) && Inv(streams, y) && Enabled(streams, y, Record(i))
    ensures Inv(streams, Do(streams, y, Record(i)))
  {
    RecordGoesIn(streams, y, i);
  }

  // The rows a record goes into, its own reached.
  lemma RowsForRecord(streams: seq<seq<real>>, y: System, i: nat)
    requires Inv(streams, y) && i < |streams| && y.sent[i] < |streams[i]|
    ensures var info := RecordOf(streams, i, y.sent[i]);
            var r := i * OFFSET + y.sent[i];
            var rows := Reaching(y, r);
            var o := Place(y.c, i, info);
            && r < |rows| && |Rows(y)| <= |rows| && RowsKept(streams, y.sent, rows)
            && (forall q :: 0 <= q < |rows| ==> rows[q] == if q < |Rows(y)| then Rows(y)[q] else Blank(|streams|, q))
            && o.Done? && o.c.waitSeq == |rows|
            && y.emitted + o.c.queue == rows[r := Filled(rows[r], y.c.finishedArr, i, info)]
  {
    var r := i * OFFSET + y.sent[i];
    NextRowNotDrained(streams, y, i);
    ReachingRows(y, r);
    ReachingKept(streams, y.sent, Rows(y), Reaching(y, r));
    PlaceInRow(y, i, RecordOf(streams, i, y.sent[i]));
  }

  lemma RecordGoesIn(streams: seq<seq<real>>, y: System, i: nat)
    requires AreStreams(streams) && Inv(streams, y) && i < |streams| && y.sent[i] < |streams[i]|
    ensures var o := Place(y.c, i, RecordOf(streams, i, y.sent[i]));
            o.Done? && Inv(streams, y.(c := o.c, sent := y.sent[i := y.sent[i] + 1]))
  {
    var info := RecordOf(streams, i, y.sent[i]);
    var r := i * OFFSET + y.sent[i];
    RowsForRecord(streams, y, i);
    var rows := Reaching(y, r);
    var row := Filled(rows[r], y.c.finishedArr, i, info);
    SettledByRecord(streams, y, i, rows, row);
    RowsGain(streams, y.sent, rows, i, row);
    var c := Place(y.c, i, info).c;
    FinishKeptByRecord(streams, y, i, c);
    InvWithRecord(streams, y, i, c, rows[r := row]);
  }

  lemma CloseInv(streams: seq<seq<real>>, y: System, i: nat)
    requires Inv(streams, y) && Enabled(streams, y, Close(i))
    ensures Inv(streams, Do(streams, y, Close(i)))
  {
    CountTrueAll(y.c.finishedArr);
    var z := Do(streams, y, Close(i));
    assert Rows(z) == Rows(y);
    assert FinishKept(streams, z);
  }

  lemma DrainInv(streams: seq<seq<real>>, y: System)
    requires Inv(streams, y) && Enabled(streams, y, Drain)
    ensures Inv(streams, Do(streams, y, Drain))
  {
    var z := Do(streams, y, Drain);
    assert Rows(z) == Rows(y);
    assert Rows(y)[|y.emitted|] == y.c.queue[0];
    assert FinishKept(streams, z);
  }

  lemma {:induction false} RunInv(streams: seq<seq<real>>, y: System, steps: seq<Step>)
    requires AreStreams(streams) && Inv(streams, y) && IsRun(streams, y, steps)
    ensures Inv(streams, After(streams, y, steps))
    decreases |steps|
  {
    if steps == [] {
    } else {
      match steps[0] {
        case Record(i) => RecordInv(streams, y, i);
        case Close(i) => CloseInv(streams, y, i);
        case Drain => DrainInv(streams, y);
      }
      RunInv(streams, Do(streams, y, steps[0]), steps[1..]);
    }
  }

  lemma StartInv(streams: seq<seq<real>>, y: System)
    requires AreStreams(streams) && Start(streams, y)
    ensures Inv(streams, y)
  {
    CountTrueNone(y.c.finishedArr);
  }

  lemma {:induction false} CountTrueNone(b: seq<bool>)
    requires forall i :: 0 <= i < |b| ==> !b[i]
    ensures CountTrue(b) == 0
  {
    if b == [] {
    } else {
      CountTrueNone(b[1..]);
    }
  }

  // ---------------------------------------------------------------- the theorems, over every interleaving

  // The row index is in range for every record to come, and every record placed is in its own slot of
  // its own row, drained or not: none is lost or overwritten.
  lemma NoRecordLost(streams: seq<seq<real>>, y: System, steps: seq<Step>)
    requires AreStreams(streams) && Start(streams, y) && IsRun(streams, y, steps)
    ensures var z := After(streams, y, steps);
            && !z.failed && Sized(|streams|, z) && Counts(streams, z.sent)
            && forall i, s :: 0 <= i < |streams| && 0 <= s < z.sent[i] ==>
                 && i * OFFSET + s < |Rows(z)|
                 && |Rows(z)[i * OFFSET + s].rates| == |streams|
                 && Rows(z)[i * OFFSET + s].rates[i] == RecordOf(streams, i, s)
    ensures var z := After(streams, y, steps);
            && |z.c.finishedArr| == |z.sent| == |streams|
            && forall i: nat :: i < |streams| && z.sent[i] < |streams[i]| ==>
                 Place(z.c, i, RecordOf(streams, i, z.sent[i])).Done?
  {
    StartInv(streams, y);
    RunInv(streams, y, steps);
    var z := After(streams, y, steps);
    forall i: nat | i < |streams| && z.sent[i] < |streams[i]|
      ensures Place(z.c, i, RecordOf(streams, i, z.sent[i])).Done?
    {
      RecordGoesIn(streams, z, i);
    }
  }

  // The rows drained are numbered 0, 1, 2, ... and each is the same whatever the interleaving: it
  // holds the record of every client that ever has one for it, and nothing else.
  lemma DrainedRowsAreTheMerge(streams: seq<seq<real>>, y: System, steps: seq<Step>)
    requires AreStreams(streams) && Start(streams, y) && IsRun(streams, y, steps)
    ensures var z := After(streams, y, steps);
            forall r :: 0 <= r < |z.emitted| ==>
              && z.emitted[r].seqNum == r && |z.emitted[r].rates| == |streams|
              && forall i :: 0 <= i < |streams| ==> z.emitted[r].rates[i] == Slot(streams, i, r, |streams[i]|)
  {
    StartInv(streams, y);
    RunInv(streams, y, steps);
    var z := After(streams, y, steps);
    forall r | 0 <= r < |z.emitted|
      ensures z.emitted[r].seqNum == r && |z.emitted[r].rates| == |streams|
      ensures forall i :: 0 <= i < |streams| ==> z.emitted[r].rates[i] == Slot(streams, i, r, |streams[i]|)
    {
      assert Rows(z)[r] == z.emitted[r];
      assert Settled(streams, z.sent, r);
    }
  }

  // Once every client's thread has ended, the draining thread is told to empty the queue if and only
  // if every stream runs past sequence number 5.
  lemma FinishesExactly(streams: seq<seq<real>>, y: System, steps: seq<Step>)
    requires AreStreams(streams) && streams != [] && Start(streams, y) && IsRun(streams, y, steps)
    requires var z := After(streams, y, steps);
             |z.closed| == |streams| && forall i :: 0 <= i < |streams| ==> z.closed[i]
    ensures After(streams, y, steps).c.finished <==> forall i :: 0 <= i < |streams| ==> |streams[i]| - 1 > 5
  {
    StartInv(streams, y);
    RunInv(streams, y, steps);
  }

  // A draining thread that stops has drained every record of every client.
  lemma StopsWithEverythingDrained(streams: seq<seq<real>>, y: System, steps: seq<Step>)
    requires AreStreams(streams) && Start(streams, y) && IsRun(streams, y, steps)
    requires var z := After(streams, y, steps); z.c.finished && z.c.queue == []
    ensures var z := After(streams, y, steps);
            forall i, s :: 0 <= i < |streams| && 0 <= s < |streams[i]| ==>
              && i * OFFSET + s < |z.emitted| && |z.emitted[i * OFFSET + s].rates| == |streams|
              && z.emitted[i * OFFSET + s].rates[i] == RecordOf(streams, i, s)
  {
    StartInv(streams, y);
    RunInv(streams, y, steps);
    var z := After(streams, y, steps);
    assert Rows(z) == z.emitted;
  }
}
