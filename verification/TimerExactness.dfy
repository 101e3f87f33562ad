// The timer of the receiving loop: exactly when it is harmless.
module TimerExactness {
  import opened Arithmetic
  import opened BlockWindow
  import opened BlockReceiver
  import opened TailPadding
  import opened RequestExactness
  import opened BlockSender
  import opened Transfer
  import opened PaddedReceiver

  // The state after the timer has run out.
  function AfterTimer(c: Config, y: System): System {
    TurnOf(c, y, [], true)
  }

  lemma TimerAsks(c: Config, y: System) returns (r: Receiver)
    requires Inv(c, y) && y.r.w.num < c.n && TimerSafe(y.r, c.n)
    ensures var list := Missing(0, c.n, y.got);
            && list != [] && AfterTimer(c, y) == Asking(y, r, y.got, list)
            && (y.asked != [] ==> |list| <= |y.asked[0]|)
  {
    TurnExact(y.r, y.got, c.n, [], true);
    r := TakeTurn(y.r, c.n, [], true).r;
    assert y.got + Elements([]) == y.got;
    var list := Missing(0, c.n, y.got);
    MissingCount(0, c.n, y.got);
    assert Frame(list)[1..] == list;
    if y.asked != [] {
      MissingCount(0, c.n, y.at[0]);
      MoreOf(y.at[0], y.got);
    }
  }

  // While blocks are missing there is at most one request on the stream, and then the sender is idle.
  lemma OneUnread(c: Config, y: System)
    requires Inv(c, y) && y.r.w.num < c.n
    ensures !y.s.finished && y.read <= |y.asked| <= y.read + 1
    ensures y.wire == if y.read == |y.asked| then [] else Frame(y.asked[y.read])
    ensures y.read < |y.asked| ==> Idle(y.s) && y.asked[y.read] != []
  {
    assert forall j :: 0 <= j < |y.asked| ==> y.asked[j] != [];
    if y.read < |y.asked| {
      assert y.asked[y.read..] == [y.asked[y.read]];
      OneFrame(y.asked[y.read]);
    }
  }

  lemma OneFrame(ids: seq<nat>)
    ensures Frames([ids]) == Frame(ids)
  {
    assert [ids][1..] == [];
    assert Frame(ids) + Frames([]) == Frame(ids);
  }

  // A busy sender aborts on reading the request.
  lemma BusyAborts(c: Config, y: System)
    requires Inv(c, y) && y.r.w.num < c.n && TimerSafe(y.r, c.n) && !Idle(y.s)
    ensures IsRun(c, AfterTimer(c, y), [ReadStream]) && After(c, AfterTimer(c, y), [ReadStream]).failed
  {
    var list := Missing(0, c.n, y.got);
    var r := TimerAsks(c, y);
    OneUnread(c, y);
    assert [] + Frame(list) == Frame(list) + [];
    RequestTripsBusySender(y.s, c.blockSize, c.n, RoundsOf(y), y.posted, list, []);
    OneStep(c, AfterTimer(c, y), ReadStream);
  }

  lemma TwoSteps(c: Config, y: System, first: Step, second: Step)
    requires Enabled(c, y, first) && Enabled(c, Do(c, y, first), second)
    ensures IsRun(c, y, [first, second]) && After(c, y, [first, second]) == Do(c, Do(c, y, first), second)
  {
    assert [first, second][1..] == [second];
    OneStep(c, Do(c, y, first), second);
  }

  // An idle sender with a request unread becomes busy with it and aborts on reading the next.
  lemma SecondRequestAborts(c: Config, y: System)
    requires Inv(c, y) && y.r.w.num < c.n && TimerSafe(y.r, c.n) && y.wire != []
    ensures IsRun(c, AfterTimer(c, y), [ReadStream, ReadStream])
    ensures After(c, AfterTimer(c, y), [ReadStream, ReadStream]).failed
  {
    var r := TimerAsks(c, y);
    OneUnread(c, y);
    var list := Missing(0, c.n, y.got);
    var s := BusyWithRequest(c, y, list);
    var z := AfterTimer(c, y);
    assert Frame(list) == Frame(list) + [];
    var busy := z.(s := s, wire := Frame(list), read := y.read + 1);
    assert Do(c, z, ReadStream) == busy;
    ReadAgain(c, busy, y.asked[..y.read + 1], list);
    TwoSteps(c, z, ReadStream, ReadStream);
  }

  // Reading the request that was on the stream leaves the sender busy, with the new one still there.
  lemma BusyWithRequest(c: Config, y: System, list: seq<nat>) returns (s: Sender)
    requires Inv(c, y) && y.read < |y.asked| && !y.s.finished && Idle(y.s) && y.asked[y.read] != []
    requires y.wire == Frame(y.asked[y.read])
    ensures ReadingOf(y.s, c.blockSize, y.wire + Frame(list)) == Read(s, Frame(list))
    ensures s.startRestran && !s.finished && OnSchedule(s, c.blockSize, c.n, y.asked[..y.read + 1], y.posted)
  {
    var ids := y.asked[y.read];
    RequestLengths(c, y, 0, y.read);
    ReadKeepsSchedule(y.s, c.blockSize, c.n, RoundsOf(y), y.posted, ids, Frame(list));
    s := ReadingOf(y.s, c.blockSize, y.wire + Frame(list)).s;
    assert RoundsOf(y) + [ids] == y.asked[..y.read + 1];
  }

  lemma ReadAgain(c: Config, z: System, rounds: seq<seq<nat>>, list: seq<nat>)
    requires z.s.startRestran && !z.s.finished && z.wire == Frame(list) + [] && list != []
    requires OnSchedule(z.s, c.blockSize, c.n, rounds, z.posted) && (rounds != [] ==> |list| <= |rounds[0]|)
    ensures Enabled(c, z, ReadStream) && Do(c, z, ReadStream).failed
  {
    RequestTripsBusySender(z.s, c.blockSize, c.n, rounds, z.posted, list, []);
  }

  // ---------------------------------------------------------------- the first request with more missing

  // What the timer does when it is not TimerSafe: the deque is padded and a request goes out, if the
  // receiver does not fail at once.
  lemma PaddingAsks(c: Config, y: System) returns (r: Receiver, list: seq<nat>)
    requires Inv(c, y) && y.r.w.num < c.n && !TimerSafe(y.r, c.n)
    ensures y.asked == [] && y.wire == [] && !y.s.finished
    ensures AfterTimer(c, y).failed ||
            (&& AfterTimer(c, y) == Asking(y, r, y.got, list) && list != []
             && !r.first && r.w == Padded(y.r.w, c.n))
  {
    var w := y.r.w;
    FirstAskSane(w, y.got, c.n);
    CompleteWhenCounted(y.got, c.n);
    assert ArriveAll(w, []) == Running(w) && y.got + Elements([]) == y.got;
    var t := TakeTurn(y.r, c.n, [], true);
    if t.Took? {
      r, list := t.r, t.sent[1..];
    } else {
      r, list := y.r, [];
    }
  }

  lemma PaddingBusyFails(c: Config, y: System) returns (steps: seq<Step>)
    requires Inv(c, y) && y.r.w.num < c.n && !TimerSafe(y.r, c.n) && !Idle(y.s)
    ensures IsRun(c, AfterTimer(c, y), steps) && After(c, AfterTimer(c, y), steps).failed
  {
    var r, list := PaddingAsks(c, y);
    if AfterTimer(c, y).failed {
      steps := [];
    } else {
      assert [] + Frame(list) == Frame(list) + [];
      RequestTripsBusySender(y.s, c.blockSize, c.n, RoundsOf(y), y.posted, list, []);
      OneStep(c, AfterTimer(c, y), ReadStream);
      steps := [ReadStream];
    }
  }

  // A turn that brings one block and asks for nothing.
  lemma QuietTurn(c: Config, z: System, id: nat, v: Window)
    requires !z.r.first && Arrive(z.r.w, id) == Running(v) && v.expected != c.n
    ensures Do(c, z, Turn([id])) == z.(r := z.r.(w := v), got := z.got + Elements([id]))
  {
    ArriveCons(z.r.w, id, []);
    assert [id] == [id] + [];
  }

  // Block n-1 has overtaken the others. The rest come in order, and n-1 once more behind the last of them:
  // the assert of line 428 fails.
  lemma {:induction false} OvertakenFails(c: Config, z: System, got: set<nat>) returns (steps: seq<Step>)
    requires !z.r.first && Overtaken(z.r.w, got, c.n) && z.r.w.expected < c.n - 1
    requires forall i: nat :: i < c.n ==> i in z.posted
    ensures IsRun(c, z, steps) && After(c, z, steps).failed
    decreases c.n - z.r.w.expected
  {
    var w := z.r.w;
    var e := w.expected;
    CompleteWhenCounted(got, c.n - 1);
    OvertakenStep(w, got, c.n);
    var v := Arrive(w, e).w;
    if v.expected == c.n - 1 {
      LastAgainAborts(w, v, e, c.n);
      OneStep(c, z, Turn([e, c.n - 1]));
      steps := [Turn([e, c.n - 1])];
    } else {
      QuietTurn(c, z, e, v);
      steps := OvertakenFails(c, Do(c, z, Turn([e])), got + {e});
      StepFirst(c, z, Turn([e]), steps);
      steps := [Turn([e])] + steps;
    }
  }

  lemma LastAgainAborts(w: Window, v: Window, e: nat, n: nat)
    requires n > 0 && Arrive(w, e) == Running(v) && v.expected == v.maxSeq == n - 1
    ensures ArriveAll(w, [e, n - 1]).Aborted?
  {
    assert [e, n - 1] == [e] + [n - 1] && [n - 1] == [n - 1] + [];
    ArriveCons(w, e, [n - 1]);
    ArriveCons(v, n - 1, []);
  }

  lemma PaddingFails(c: Config, y: System) returns (steps: seq<Step>)
    requires Inv(c, y) && y.r.w.num < c.n && !TimerSafe(y.r, c.n) && Idle(y.s)
    ensures IsRun(c, AfterTimer(c, y), steps) && After(c, AfterTimer(c, y), steps).failed
  {
    var r, list := PaddingAsks(c, y);
    if AfterTimer(c, y).failed {
      steps := [];
    } else {
      IdleHasPostedAll(y.s, c.blockSize, c.n, RoundsOf(y), y.posted);
      steps := PaddedFails(c, AfterTimer(c, y), y.r.w, y.got);
    }
  }

  // Block n-1 comes first.
  lemma PaddedFails(c: Config, z: System, w: Window, got: set<nat>) returns (steps: seq<Step>)
    requires c.n > 0 && Represents(w, got) && Below(got, c.n) && w.maxSeq != c.n - 1 && w.expected != c.n - 1
    requires !z.r.first && z.r.w == Padded(w, c.n) && w.num < c.n
    requires forall i: nat :: i < c.n ==> i in z.posted
    ensures IsRun(c, z, steps) && After(c, z, steps).failed
  {
    MissingLast(w, got, c.n);
    OvertakenStart(w, got, c.n);
    QuietTurn(c, z, c.n - 1, Arrive(z.r.w, c.n - 1).w);
    steps := OvertakenFails(c, Do(c, z, Turn([c.n - 1])), got);
    StepFirst(c, z, Turn([c.n - 1]), steps);
    steps := [Turn([c.n - 1])] + steps;
  }

  lemma MissingLast(w: Window, got: set<nat>, n: nat)
    requires Represents(w, got) && Below(got, n) && n > 0 && w.maxSeq != n - 1 && w.expected != n - 1
    ensures w.maxSeq < n - 1 && w.expected < n - 1
  {
    LeastMissingBound(w.expected, got, n);
    WindowEnds(w, got);
  }

  // ---------------------------------------------------------------- the exact condition

  // Over every continuation: once the timer has run out nothing fails on either side if and only if the
  // sender was idle, it had read every request, and a first request finds only the last block missing.
  lemma TimerSafeExactly(c: Config, y: System)
    requires Inv(c, y) && y.r.w.num < c.n
    ensures (forall steps: seq<Step> | IsRun(c, AfterTimer(c, y), steps) :: !After(c, AfterTimer(c, y), steps).failed)
            <==> Idle(y.s) && y.wire == [] && TimerSafe(y.r, c.n)
  {
    if !TimerSafe(y.r, c.n) {
      var steps;
      if Idle(y.s) { steps := PaddingFails(c, y); } else { steps := PaddingBusyFails(c, y); }
      assert After(c, AfterTimer(c, y), steps).failed;
    } else if !Idle(y.s) {
      BusyAborts(c, y);
    } else if y.wire != [] {
      SecondRequestAborts(c, y);
    } else {
      TurnInv(c, y, [], true);
      forall steps: seq<Step> | IsRun(c, AfterTimer(c, y), steps) ensures !After(c, AfterTimer(c, y), steps).failed {
        RunInv(c, AfterTimer(c, y), steps);
      }
    }
  }

  // Two blocks: the first is posted and delivered, the timer runs out before the second is posted, and
  // the sender aborts.
  lemma {:induction false} EarlyTimerAborts(c: Config, y: System)
    requires Start(c, y) && c.n == 2
    ensures IsRun(c, y, [SendBlock, Turn([0])])
    ensures var z := After(c, y, [SendBlock, Turn([0])]);
            && TimerSafe(z.r, 2)
            && IsRun(c, AfterTimer(c, z), [ReadStream]) && After(c, AfterTimer(c, z), [ReadStream]).failed
  {
    StartInv(c, y);
    assert Due(2, []) == Upto(2);
    IdleWhenNothingDue(y.s, c.blockSize, 2, [], []);
    PostInv(c, y);
    var a := Do(c, y, SendBlock);
    assert a.posted == [0];
    TurnInv(c, a, [0], false);
    TwoSteps(c, y, SendBlock, Turn([0]));
    var z := Do(c, a, Turn([0]));
    FirstArrival(a.r);
    IdleWhenNothingDue(z.s, c.blockSize, 2, RoundsOf(z), z.posted);
    BusyAborts(c, z);
  }

  lemma FirstArrival(r: Receiver)
    requires r == FRESH
    ensures TakeTurn(r, 2, [0], false) == Took(Receiver(Window(1, 0, 1, []), true, 0), [])
  {
    ArriveCons(r.w, 0, []);
    assert [0] == [0] + [];
  }
}
