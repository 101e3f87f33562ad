// No deadlock: whatever has happened, the transfer can still finish.
module Completion {
  import opened Arithmetic
  import opened BlockWindow
  import opened BlockReceiver
  import opened TailPadding
  import opened RequestExactness
  import opened BlockSender
  import opened Transfer

  function StillDue(c: Config, y: System): int
    requires y.read <= |y.asked| && (y.s.finished ==> y.read > 0)
  {
    |Due(c.n, RoundsOf(y))| - y.s.sendCnt
  }

  // What the sender's posts and completions leave as it was.
  ghost predicate OnlySender(c: Config, y: System, z: System) {
    && z == y.(s := z.s, posted := z.posted) && z.read <= |z.asked| && z.s.finished == y.s.finished == false
    && OnSchedule(z.s, c.blockSize, c.n, RoundsOf(z), z.posted)
  }

  // The sender posts all that is due, taking completions when no slot is free.
  lemma {:induction false} ComesToRest(c: Config, y: System) returns (steps: seq<Step>)
    requires OnlySender(c, y, y)
    ensures IsRun(c, y, steps) && OnlySender(c, y, After(c, y, steps)) && Idle(After(c, y, steps).s)
    decreases StillDue(c, y), y.s.outstanding
  {
    IdleWhenNothingDue(y.s, c.blockSize, c.n, RoundsOf(y), y.posted);
    if Idle(y.s) {
      steps := [];
    } else if y.s.outstanding < |y.s.headers| {
      PostMoves(c, y);
      steps := ComesToRest(c, Do(c, y, SendBlock));
      StepFirst(c, y, SendBlock, steps);
      steps := [SendBlock] + steps;
    } else {
      CompletionMoves(c, y);
      steps := ComesToRest(c, Do(c, y, TakeCompletion));
      StepFirst(c, y, TakeCompletion, steps);
      steps := [TakeCompletion] + steps;
    }
  }

  lemma PostMoves(c: Config, y: System)
    requires OnlySender(c, y, y) && !Idle(y.s) && y.s.outstanding < |y.s.headers|
    ensures Enabled(c, y, SendBlock)
    ensures var z := Do(c, y, SendBlock);
            OnlySender(c, y, z) && OnlySender(c, z, z) && RoundsOf(z) == RoundsOf(y) && z.s.sendCnt == y.s.sendCnt + 1
  {
    PostKeepsSchedule(y.s, c.blockSize, c.n, RoundsOf(y), y.posted);
  }

  lemma CompletionMoves(c: Config, y: System)
    requires OnlySender(c, y, y) && y.s.outstanding > 0
    ensures Enabled(c, y, TakeCompletion)
    ensures var z := Do(c, y, TakeCompletion);
            && OnlySender(c, y, z) && OnlySender(c, z, z) && RoundsOf(z) == RoundsOf(y)
            && z.s.sendCnt == y.s.sendCnt && z.s.outstanding == y.s.outstanding - 1
  {
    CompleteKeepsSchedule(y.s, c.blockSize, c.n, RoundsOf(y), y.posted);
  }

  ghost predicate AllPosted(c: Config, y: System) {
    forall i: nat :: i < c.n ==> i in y.posted
  }

  // The channel brings a block that is missing.
  lemma OneArrives(c: Config, y: System, i: nat)
    requires Inv(c, y) && AllPosted(c, y) && |y.got| < c.n && i < c.n && i !in y.got
    ensures Enabled(c, y, Turn([i]))
    ensures var z := Do(c, y, Turn([i])); Inv(c, z) && AllPosted(c, z) && |z.got| == |y.got| + 1
  {
    TurnInv(c, y, [i], false);
    TurnAdds(c, y, [i]);
    OneMoreIn(y.got, i);
  }

  lemma OneMoreIn(got: set<nat>, i: nat)
    requires i !in got
    ensures |got + Elements([i])| == |got| + 1
  {
    assert got + Elements([i]) == got + {i};
  }

  lemma TurnAdds(c: Config, y: System, ids: seq<nat>)
    requires Inv(c, y) && Enabled(c, y, Turn(ids))
    ensures var z := Do(c, y, Turn(ids)); z.got == y.got + Elements(ids) && z.s == y.s && z.posted == y.posted
  {
    CoreTurn(c, y, ids, false);
  }

  // The missing blocks come one at a time.
  lemma {:induction false} AllArrive(c: Config, y: System) returns (steps: seq<Step>)
    requires Inv(c, y) && AllPosted(c, y)
    ensures IsRun(c, y, steps) && Inv(c, After(c, y, steps)) && |After(c, y, steps).got| == c.n
    decreases c.n - |y.got|
  {
    CompleteWhenCounted(y.got, c.n);
    if |y.got| == c.n {
      steps := [];
    } else {
      var i: nat :| i < c.n && i !in y.got;
      OneArrives(c, y, i);
      steps := AllArrive(c, Do(c, y, Turn([i])));
      StepFirst(c, y, Turn([i]), steps);
      steps := [Turn([i])] + steps;
    }
  }

  lemma ReadTakesOne(c: Config, y: System)
    requires Inv(c, y) && Enabled(c, y, ReadStream)
    ensures var z := Do(c, y, ReadStream);
            Inv(c, z) && z.asked == y.asked && z.read == y.read + 1 <= |z.asked| && z.got == y.got
  {
    ReadInv(c, y);
    CoreReads(c, y);
  }

  lemma {:induction false} ReadsToZero(c: Config, y: System) returns (steps: seq<Step>)
    requires Inv(c, y) && |y.got| == c.n
    ensures IsRun(c, y, steps) && Inv(c, After(c, y, steps)) && After(c, y, steps).s.finished
    decreases |y.asked| - y.read
  {
    if y.s.finished {
      steps := [];
    } else {
      FramesEmpty(y.asked[y.read..]);
      ReadTakesOne(c, y);
      steps := ReadsToZero(c, Do(c, y, ReadStream));
      StepFirst(c, y, ReadStream, steps);
      steps := [ReadStream] + steps;
    }
  }

  lemma {:induction false} CanFinish(c: Config, y: System) returns (steps: seq<Step>)
    requires Inv(c, y)
    ensures IsRun(c, y, steps) && Inv(c, After(c, y, steps)) && After(c, y, steps).s.finished
  {
    if |y.got| == c.n {
      steps := ReadsToZero(c, y);
    } else {
      CompleteWhenCounted(y.got, c.n);
      var first := ComesToRest(c, y);
      RunInv(c, y, first);
      var rest := After(c, y, first);
      IdleHasPostedAll(rest.s, c.blockSize, c.n, RoundsOf(rest), rest.posted);
      var second := AllArrive(c, rest);
      var third := ReadsToZero(c, After(c, rest, second));
      RunConcat(c, rest, second, third);
      RunConcat(c, y, first, second + third);
      steps := first + (second + third);
    }
  }

  // From every state that any run reaches, some continuation ends with the sender out of its loop and
  // the whole file received.
  lemma {:induction false} AlwaysCanFinish(c: Config, y: System, steps: seq<Step>) returns (more: seq<Step>)
    requires Start(c, y) && IsRun(c, y, steps)
    ensures IsRun(c, y, steps + more)
    ensures var z := After(c, y, steps + more);
            z.s.finished && !z.failed && forall i: nat :: i < c.n ==> i in z.got
  {
    StartInv(c, y);
    RunInv(c, y, steps);
    more := CanFinish(c, After(c, y, steps));
    RunConcat(c, y, steps, more);
    EveryBlockDelivered(c, y, steps + more);
  }
}
