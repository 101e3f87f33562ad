// Which rows of the merged rate log can be drained while clients are still sending. A row is tested
// for readiness only when a record is placed in it.
module RateProgress {
  import opened RateMerge

  // Client i has a record for row r.
  predicate HasRecord(streams: seq<seq<real>>, i: nat, r: nat)
    requires i < |streams|
  {
    i * OFFSET <= r < i * OFFSET + |streams[i]|
  }

  // That record has not been placed yet.
  predicate ToCome(streams: seq<seq<real>>, y: System, i: nat, r: nat)
    requires i < |streams| == |y.sent|
  {
    HasRecord(streams, i, r) && i * OFFSET + y.sent[i] <= r
  }

  // Client j has started by row r, ended before it, and is never marked as finished.
  predicate Blocks(streams: seq<seq<real>>, j: nat, r: nat)
    requires j < |streams|
  {
    j * OFFSET <= r && !HasRecord(streams, j, r) && |streams[j]| - 1 <= 5
  }

  ghost predicate CanBecomeReady(streams: seq<seq<real>>, y: System, r: nat)
    requires |y.sent| == |streams|
  {
    && (exists i: nat :: i < |streams| && ToCome(streams, y, i, r))
    && forall j: nat :: j < |streams| ==> !Blocks(streams, j, r)
  }

  predicate FrontReady(y: System) {
    y.c.queue != [] && y.c.queue[0].ready
  }

  // ---------------------------------------------------------------- a front row that never gets ready

  ghost predicate Stuck(streams: seq<seq<real>>, y: System, r: nat) {
    Inv(streams, y) && |y.emitted| == r && !FrontReady(y) && !CanBecomeReady(streams, y, r)
  }

  // A blocked row is not found ready, whoever fills it.
  lemma BlockedNotReady(streams: seq<seq<real>>, y: System, i: nat, j: nat, row: Row)
    requires Inv(streams, y) && i < |streams| && j < |streams| && i != j
    requires |row.rates| == |streams| && Blocks(streams, j, row.seqNum)
    requires row.rates[j] == Slot(streams, j, row.seqNum, y.sent[j])
    ensures !ReadyFrom(row, y.c.finishedArr, i, 0)
  {
    assert row.rates[j] == UNSET && !y.c.finishedArr[j];
    if ReadyFrom(row, y.c.finishedArr, i, 0) {
      ReadyMeaning(row, y.c.finishedArr, i, 0);
    }
  }

  lemma RecordKeepsStuck(streams: seq<seq<real>>, y: System, r: nat, i: nat)
    requires AreStreams(streams) && Stuck(streams, y, r) && Enabled(streams, y, Record(i))
    ensures Stuck(streams, Do(streams, y, Record(i)), r)
  {
    var z := Do(streams, y, Record(i));
    RecordInv(streams, y, i);
    RecordGoesIn(streams, y, i);
    FrontStaysUnready(streams, y, r, i);
    StillToCome(streams, y, z, r);
  }

  lemma FrontStaysUnready(streams: seq<seq<real>>, y: System, r: nat, i: nat)
    requires AreStreams(streams) && Stuck(streams, y, r) && Enabled(streams, y, Record(i))
    ensures !FrontReady(Do(streams, y, Record(i)))
  {
    var q := i * OFFSET + y.sent[i];
    var info := RecordOf(streams, i, y.sent[i]);
    RowsForRecord(streams, y, i);
    var rows := Reaching(y, q);
    FrontOf(y, Rows(y));
    if q == r { BlockedRow(streams, y, r, i, rows[r]); }
    FrontOf(Do(streams, y, Record(i)), rows[q := Filled(rows[q], y.c.finishedArr, i, info)]);
  }

  // The front row stays unready even when its last record to come is placed.
  lemma BlockedRow(streams: seq<seq<real>>, y: System, r: nat, i: nat, row: Row)
    requires Stuck(streams, y, r) && i < |streams| && y.sent[i] < |streams[i]| && r == i * OFFSET + y.sent[i]
    requires row.seqNum == r && !row.ready && |row.rates| == |streams|
    requires forall j :: 0 <= j < |streams| ==> row.rates[j] == Slot(streams, j, r, y.sent[j])
    ensures !Filled(row, y.c.finishedArr, i, RecordOf(streams, i, y.sent[i])).ready
  {
    assert ToCome(streams, y, i, r);
    var j: nat :| j < |streams| && Blocks(streams, j, r);
    BlockedNotReady(streams, y, i, j, row.(rates := row.rates[i := RecordOf(streams, i, y.sent[i])]));
  }

  lemma FrontOf(z: System, rows: seq<Row>)
    requires Rows(z) == rows
    ensures FrontReady(z) <==> |z.emitted| < |rows| && rows[|z.emitted|].ready
  {
    if z.c.queue != [] { assert rows[|z.emitted|] == z.c.queue[0]; }
  }

  lemma StillToCome(streams: seq<seq<real>>, y: System, z: System, r: nat)
    requires |y.sent| == |z.sent| == |streams| && forall i :: 0 <= i < |streams| ==> y.sent[i] <= z.sent[i]
    ensures CanBecomeReady(streams, z, r) ==> CanBecomeReady(streams, y, r)
  {
    if CanBecomeReady(streams, z, r) {
      var i: nat :| i < |streams| && ToCome(streams, z, i, r);
      assert ToCome(streams, y, i, r);
    }
  }

  lemma StepKeepsStuck(streams: seq<seq<real>>, y: System, r: nat, step: Step)
    requires AreStreams(streams) && Stuck(streams, y, r) && !y.c.finished && Enabled(streams, y, step)
    ensures Do(streams, y, step).c.finished || Stuck(streams, Do(streams, y, step), r)
  {
    match step {
      case Record(i) => RecordKeepsStuck(streams, y, r, i);
      case Close(i) =>
        CloseInv(streams, y, i);
        StillToCome(streams, y, Do(streams, y, step), r);
      case Drain =>
    }
  }

  lemma StepKeepsFinished(streams: seq<seq<real>>, y: System, step: Step)
    requires AreStreams(streams) && Inv(streams, y) && Enabled(streams, y, step)
    ensures Inv(streams, Do(streams, y, step)) && (y.c.finished ==> Do(streams, y, step).c.finished)
  {
    match step {
      case Record(i) =>
        RecordInv(streams, y, i);
        RecordGoesIn(streams, y, i);
      case Close(i) => CloseInv(streams, y, i);
      case Drain => DrainInv(streams, y);
    }
  }

  lemma {:induction false} RunKeepsFinished(streams: seq<seq<real>>, y: System, steps: seq<Step>)
    requires AreStreams(streams) && Inv(streams, y) && IsRun(streams, y, steps) && y.c.finished
    ensures After(streams, y, steps).c.finished
    decreases |steps|
  {
    if steps == [] {
    } else {
      StepKeepsFinished(streams, y, steps[0]);
      RunKeepsFinished(streams, Do(streams, y, steps[0]), steps[1..]);
    }
  }

  lemma {:induction false} RunKeepsStuck(streams: seq<seq<real>>, y: System, r: nat, steps: seq<Step>)
    requires AreStreams(streams) && Stuck(streams, y, r) && !y.c.finished && IsRun(streams, y, steps)
    ensures After(streams, y, steps).c.finished || |After(streams, y, steps).emitted| == r
    decreases |steps|
  {
    if steps == [] {
    } else {
      var z := Do(streams, y, steps[0]);
      StepKeepsFinished(streams, y, steps[0]);
      StepKeepsStuck(streams, y, r, steps[0]);
      if z.c.finished {
        RunKeepsFinished(streams, z, steps[1..]);
      } else {
        RunKeepsStuck(streams, z, r, steps[1..]);
      }
    }
  }

  // ---------------------------------------------------------------- a front row that can be drained

  // What sending records leaves as it was.
  ghost predicate OnlySent(streams: seq<seq<real>>, y: System, z: System) {
    && Inv(streams, z) && |z.sent| == |y.sent| && z.emitted == y.emitted
    && z.c.finished == y.c.finished && z.closed == y.closed
  }

  lemma RecordOnlySends(streams: seq<seq<real>>, y: System, i: nat)
    requires AreStreams(streams) && Inv(streams, y) && Enabled(streams, y, Record(i))
    ensures var z := Do(streams, y, Record(i));
            OnlySent(streams, y, z) && z.sent == y.sent[i := y.sent[i] + 1]
  {
    RecordInv(streams, y, i);
    RecordGoesIn(streams, y, i);
  }

  lemma {:induction false} RunConcat(streams: seq<seq<real>>, y: System, a: seq<Step>, b: seq<Step>)
    requires IsRun(streams, y, a) && IsRun(streams, After(streams, y, a), b)
    ensures IsRun(streams, y, a + b) && After(streams, y, a + b) == After(streams, After(streams, y, a), b)
    decreases |a|
  {
    if a == [] {
      assert a + b == b;
    } else {
      assert (a + b)[1..] == a[1..] + b;
      RunConcat(streams, Do(streams, y, a[0]), a[1..], b);
    }
  }

  lemma OneStep(streams: seq<seq<real>>, y: System, step: Step)
    requires Sized(|streams|, y) && Enabled(streams, y, step)
    ensures IsRun(streams, y, [step]) && After(streams, y, [step]) == Do(streams, y, step)
  {
    assert [step][1..] == [];
  }

  lemma {:induction false} SendUpTo(streams: seq<seq<real>>, y: System, i: nat, count: nat) returns (steps: seq<Step>)
    requires AreStreams(streams) && Inv(streams, y) && i < |streams| && y.sent[i] <= count <= |streams[i]|
    ensures IsRun(streams, y, steps)
    ensures var z := After(streams, y, steps); OnlySent(streams, y, z) && z.sent == y.sent[i := count]
    decreases count - y.sent[i]
  {
    if y.sent[i] == count {
      steps := [];
    } else {
      RecordOnlySends(streams, y, i);
      OneStep(streams, y, Record(i));
      var rest := SendUpTo(streams, Do(streams, y, Record(i)), i, count);
      RunConcat(streams, y, [Record(i)], rest);
      steps := [Record(i)] + rest;
    }
  }

  // The clients below m other than i send all they have.
  lemma {:induction false} SendOthers(streams: seq<seq<real>>, y: System, i: nat, m: nat) returns (steps: seq<Step>)
    requires AreStreams(streams) && Inv(streams, y) && i < |streams| && m <= |streams|
    ensures IsRun(streams, y, steps)
    ensures var z := After(streams, y, steps);
            && OnlySent(streams, y, z) && z.sent[i] == y.sent[i]
            && forall j :: 0 <= j < m && j != i ==> z.sent[j] == |streams[j]|
  {
    if m == 0 {
      steps := [];
    } else {
      steps := SendOthers(streams, y, i, m - 1);
      if m - 1 != i {
        var z := After(streams, y, steps);
        var more := SendUpTo(streams, z, m - 1, |streams[m - 1]|);
        RunConcat(streams, y, steps, more);
        steps := steps + more;
      }
    }
  }

  lemma {:induction false} ReadyWhen(row: Row, finishedArr: seq<bool>, idx: nat, i: nat)
    requires |row.rates| == |finishedArr|
    requires forall j :: i <= j < |finishedArr| && j != idx && j * OFFSET <= row.seqNum ==>
               finishedArr[j] || row.rates[j].seqNum != 0 || row.rates[j].rate >= 0.0
    ensures ReadyFrom(row, finishedArr, idx, i)
    decreases |finishedArr| - i
  {
    if i >= |finishedArr| {
    } else {
      ReadyWhen(row, finishedArr, idx, i + 1);
    }
  }

  // Client i places the last record that row r, the front row, waits for.
  lemma LastRecordMakesReady(streams: seq<seq<real>>, y: System, i: nat)
    requires AreStreams(streams) && Inv(streams, y) && i < |streams| && HasRecord(streams, i, |y.emitted|)
    requires i * OFFSET + y.sent[i] == |y.emitted|
    requires forall j: nat :: j < |streams| && j != i ==> y.sent[j] == |streams[j]|
    requires forall j: nat :: j < |streams| ==> !Blocks(streams, j, |y.emitted|)
    ensures FrontReady(Do(streams, y, Record(i)))
  {
    var r := |y.emitted|;
    var info := RecordOf(streams, i, y.sent[i]);
    RowsForRecord(streams, y, i);
    var rows := Reaching(y, r);
    var wide := rows[r].(rates := rows[r].rates[i := info]);
    forall j: nat | j < |streams| && j != i && j * OFFSET <= r
      ensures y.c.finishedArr[j] || wide.rates[j].seqNum != 0 || wide.rates[j].rate >= 0.0
    {
      assert !Blocks(streams, j, r) && IsStream(streams[j]);
      assert wide.rates[j] == Slot(streams, j, r, y.sent[j]);
    }
    ReadyWhen(wide, y.c.finishedArr, i, 0);
    FrontOf(Do(streams, y, Record(i)), rows[r := Filled(rows[r], y.c.finishedArr, i, info)]);
  }

  lemma DrainFront(streams: seq<seq<real>>, y: System)
    requires Inv(streams, y) && FrontReady(y)
    ensures IsRun(streams, y, [Drain])
    ensures var z := After(streams, y, [Drain]); z.c.finished == y.c.finished && |z.emitted| == |y.emitted| + 1
  {
    OneStep(streams, y, Drain);
  }

  lemma FrontComes(streams: seq<seq<real>>, y: System, i: nat) returns (steps: seq<Step>)
    requires AreStreams(streams) && Inv(streams, y) && i < |streams| && ToCome(streams, y, i, |y.emitted|)
    requires forall j: nat :: j < |streams| ==> !Blocks(streams, j, |y.emitted|)
    ensures IsRun(streams, y, steps)
    ensures var z := After(streams, y, steps); z.c.finished == y.c.finished && |z.emitted| == |y.emitted| + 1
  {
    var first := SendOthers(streams, y, i, |streams|);
    var a := After(streams, y, first);
    var second := SendUpTo(streams, a, i, |y.emitted| - i * OFFSET);
    var b := After(streams, a, second);
    LastRecordMakesReady(streams, b, i);
    RecordOnlySends(streams, b, i);
    OneStep(streams, b, Record(i));
    var c := Do(streams, b, Record(i));
    DrainFront(streams, c);
    RunConcat(streams, b, [Record(i)], [Drain]);
    RunConcat(streams, a, second, [Record(i)] + [Drain]);
    RunConcat(streams, y, first, second + ([Record(i)] + [Drain]));
    steps := first + (second + ([Record(i)] + [Drain]));
  }

  ghost predicate DrainsBeforeFinish(streams: seq<seq<real>>, y: System, steps: seq<Step>) {
    && IsRun(streams, y, steps)
    && !After(streams, y, steps).c.finished && |After(streams, y, steps).emitted| > |y.emitted|
  }

  // From any state not yet finished, the front row can be drained before the clients have all finished
  // if and only if it is ready, or some client's record for it is still to come and no client that
  // ended before it is too short to be marked as finished. Otherwise the draining thread waits to the end.
  lemma FrontDrainsExactly(streams: seq<seq<real>>, y: System)
    requires AreStreams(streams) && Inv(streams, y) && !y.c.finished
    ensures (exists steps :: DrainsBeforeFinish(streams, y, steps))
            <==> FrontReady(y) || CanBecomeReady(streams, y, |y.emitted|)
  {
    if FrontReady(y) {
      DrainFront(streams, y);
      assert DrainsBeforeFinish(streams, y, [Drain]);
    } else if CanBecomeReady(streams, y, |y.emitted|) {
      var i: nat :| i < |streams| && ToCome(streams, y, i, |y.emitted|);
      var steps := FrontComes(streams, y, i);
      assert DrainsBeforeFinish(streams, y, steps);
    } else {
      forall steps | IsRun(streams, y, steps) ensures !DrainsBeforeFinish(streams, y, steps) {
        RunKeepsStuck(streams, y, |y.emitted|, steps);
      }
    }
  }
}
