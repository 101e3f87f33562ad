// The header that postSendFile writes ahead of a free slot, in a run of the transfer.
module SlotReuse {
  import opened Arithmetic
  import opened BlockSender
  import opened Transfer

  // k blocks are posted before any completion.
  lemma {:induction false} FillSlots(c: Config, y: System, k: nat) returns (steps: seq<Step>)
    requires Start(c, y) && k <= |y.s.headers| && k <= c.n
    ensures |steps| == k && IsRun(c, y, steps) && forall j :: 0 <= j < k ==> steps[j] == SendBlock
    ensures var z := After(c, y, steps);
            && Inv(c, z) && z.s.sendCnt == z.s.outstanding == k && |z.s.headers| == |y.s.headers|
            && z.asked == [] && !z.s.finished
  {
    StartInv(c, y);
    if k == 0 {
      steps := [];
    } else {
      steps := FillSlots(c, y, k - 1);
      var a := After(c, y, steps);
      StillPosting(c, a);
      PostInv(c, a);
      OneStep(c, a, SendBlock);
      RunConcat(c, y, steps, [SendBlock]);
      steps := steps + [SendBlock];
    }
  }

  lemma StillPosting(c: Config, y: System)
    requires Inv(c, y) && y.asked == [] && !y.s.finished && y.s.sendCnt < c.n
    ensures !Idle(y.s) && CanPostOrFull(y.s)
  {
    assert Due(c.n, []) == Upto(c.n);
    IdleWhenNothingDue(y.s, c.blockSize, c.n, RoundsOf(y), y.posted);
    if y.s.outstanding < |y.s.headers| {
      PostKeepsSchedule(y.s, c.blockSize, c.n, RoundsOf(y), y.posted);
    }
  }

  predicate CanPostOrFull(s: Sender) {
    s.outstanding < |s.headers| ==> CanPost(s)
  }

  // With more blocks than slots: when every slot has been posted and none acknowledged, the buffer of
  // block 0, still outstanding, already holds the header of the next block.
  lemma {:induction false} HeaderOverwritten(c: Config, y: System) returns (steps: seq<Step>)
    requires Start(c, y) && |y.s.headers| < c.n
    ensures IsRun(c, y, steps)
    ensures var z := After(c, y, steps);
            var slots := |y.s.headers|;
            && z.posted == Upto(c.n)[..slots] && |z.s.headers| == slots == z.s.outstanding
            && z.s.headers[0] == slots != z.posted[0]
  {
    var slots := |y.s.headers|;
    steps := FillSlots(c, y, slots);
    var z := After(c, y, steps);
    assert Due(c.n, []) == Upto(c.n);
    assert RoundsOf(z) == [];
    assert slots % slots == 0;
  }
}
