// How the merge of the rate streams ends: every run can be brought to the end of all client threads, and
// then to an empty queue if the draining thread is told to finish.
module RateEnd {
  import opened RateMerge
  import opened RateProgress

  ghost predicate AllSent(streams: seq<seq<real>>, y: System)
    requires |y.sent| == |streams|
  {
    forall i :: 0 <= i < |streams| ==> y.sent[i] == |streams[i]|
  }

  lemma SendAll(streams: seq<seq<real>>, y: System) returns (steps: seq<Step>)
    requires AreStreams(streams) && streams != [] && Inv(streams, y)
    ensures IsRun(streams, y, steps)
    ensures var z := After(streams, y, steps); Inv(streams, z) && AllSent(streams, z)
  {
    var others := SendOthers(streams, y, 0, |streams|);
    var a := After(streams, y, others);
    var rest := SendUpTo(streams, a, 0, |streams[0]|);
    RunConcat(streams, y, others, rest);
    steps := others + rest;
  }

  // The threads of the first m clients end.
  lemma {:induction false} CloseFirst(streams: seq<seq<real>>, y: System, m: nat) returns (steps: seq<Step>)
    requires Inv(streams, y) && AllSent(streams, y) && m <= |streams|
    ensures IsRun(streams, y, steps)
    ensures var z := After(streams, y, steps);
            Inv(streams, z) && AllSent(streams, z) && forall i :: 0 <= i < m ==> z.closed[i]
  {
    if m == 0 {
      steps := [];
    } else {
      steps := CloseFirst(streams, y, m - 1);
      var z := After(streams, y, steps);
      if !z.closed[m - 1] {
        CloseInv(streams, z, m - 1);
        OneStep(streams, z, Close(m - 1));
        RunConcat(streams, y, steps, [Close(m - 1)]);
        steps := steps + [Close(m - 1)];
      }
    }
  }

  // Once told to finish, the draining thread can empty the queue.
  lemma {:induction false} DrainAll(streams: seq<seq<real>>, y: System) returns (steps: seq<Step>)
    requires Inv(streams, y) && y.c.finished
    ensures IsRun(streams, y, steps)
    ensures var z := After(streams, y, steps);
            Inv(streams, z) && z.c.finished && z.c.queue == [] && z.closed == y.closed && z.sent == y.sent
    decreases |y.c.queue|
  {
    if y.c.queue == [] {
      steps := [];
    } else {
      DrainInv(streams, y);
      OneStep(streams, y, Drain);
      var rest := DrainAll(streams, Do(streams, y, Drain));
      RunConcat(streams, y, [Drain], rest);
      steps := [Drain] + rest;
    }
  }

  // Every record is placed, every client thread has ended, and the draining thread has been told to
  // finish exactly if every stream runs past sequence number 5; if so the queue is empty.
  ghost predicate Ended(streams: seq<seq<real>>, z: System) {
    && |z.sent| == |z.closed| == |streams| && AllSent(streams, z)
    && (forall i :: 0 <= i < |streams| ==> z.closed[i])
    && (z.c.finished <==> forall i :: 0 <= i < |streams| ==> |streams[i]| - 1 > 5)
    && (z.c.finished ==> z.c.queue == [])
  }

  lemma Stops(streams: seq<seq<real>>, y: System) returns (steps: seq<Step>)
    requires streams != [] && Inv(streams, y) && AllSent(streams, y) && forall i :: 0 <= i < |streams| ==> y.closed[i]
    ensures IsRun(streams, y, steps) && Ended(streams, After(streams, y, steps))
  {
    if y.c.finished {
      steps := DrainAll(streams, y);
    } else {
      steps := [];
    }
  }

  lemma AllEnd(streams: seq<seq<real>>, y: System) returns (steps: seq<Step>)
    requires AreStreams(streams) && streams != [] && Inv(streams, y)
    ensures IsRun(streams, y, steps) && Ended(streams, After(streams, y, steps))
  {
    var first := SendAll(streams, y);
    var a := After(streams, y, first);
    var second := CloseFirst(streams, a, |streams|);
    var third := Stops(streams, After(streams, a, second));
    RunConcat(streams, a, second, third);
    RunConcat(streams, y, first, second + third);
    steps := first + (second + third);
  }

  // From every state of every run some continuation brings it to its end.
  lemma {:induction false} EveryRunCanEnd(streams: seq<seq<real>>, y: System, steps: seq<Step>)
    returns (more: seq<Step>)
    requires AreStreams(streams) && streams != [] && Start(streams, y) && IsRun(streams, y, steps)
    ensures IsRun(streams, y, steps + more) && Ended(streams, After(streams, y, steps + more))
  {
    StartInv(streams, y);
    RunInv(streams, y, steps);
    more := AllEnd(streams, After(streams, y, steps));
    RunConcat(streams, y, steps, more);
  }
}
