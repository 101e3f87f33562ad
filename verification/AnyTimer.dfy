// The transfer with a timer that may run out at any time: the program may fail, but the sender never
// leaves its loop with a block missing.
module AnyTimer {
  import opened Arithmetic
  import opened BlockWindow
  import opened BlockReceiver
  import opened TailPadding
  import opened RequestExactness
  import opened BlockSender
  import opened Transfer
  import opened PaddedReceiver

  // As in Transfer, but the timer asks nothing of the sender, the stream or the window.
  predicate MayStep(c: Config, y: System, step: Step) {
    if step.Timer? then y.r.w.num < c.n else Enabled(c, y, step)
  }

  predicate IsAnyRun(c: Config, y: System, steps: seq<Step>)
    decreases |steps|
  {
    steps == [] || (MayStep(c, y, steps[0]) && IsAnyRun(c, Do(c, y, steps[0]), steps[1..]))
  }

  lemma {:induction false} RunIsAny(c: Config, y: System, steps: seq<Step>)
    requires IsRun(c, y, steps)
    ensures IsAnyRun(c, y, steps)
    decreases |steps|
  {
    if steps == [] {
    } else {
      RunIsAny(c, Do(c, y, steps[0]), steps[1..]);
    }
  }

  lemma AnyStepFirst(c: Config, y: System, step: Step, rest: seq<Step>)
    requires MayStep(c, y, step) && IsAnyRun(c, Do(c, y, step), rest)
    ensures IsAnyRun(c, y, [step] + rest) && After(c, y, [step] + rest) == After(c, Do(c, y, step), rest)
  {
    ConcatTail([step], rest);
    assert [step][1..] + rest == rest;
  }

  lemma {:induction false} AnyRunConcat(c: Config, y: System, a: seq<Step>, b: seq<Step>)
    requires IsAnyRun(c, y, a) && IsAnyRun(c, After(c, y, a), b)
    ensures IsAnyRun(c, y, a + b) && After(c, y, a + b) == After(c, After(c, y, a), b)
    decreases |a|
  {
    if a == [] {
      assert a + b == b;
    } else {
      ConcatTail(a, b);
      AnyRunConcat(c, Do(c, y, a[0]), a[1..], b);
    }
  }

  // What is kept as long as nothing fails: the stream is whole, the sender on schedule, the receiver
  // sane, and every request names blocks of the file, and none only when all have come.
  ghost predicate Sound(c: Config, y: System) {
    && Good(c) && !y.failed && StreamKept(y)
    && OnSchedule(y.s, c.blockSize, c.n, RoundsOf(y), y.posted)
    && Sane(y.r, y.got, c.n) && y.got <= Elements(y.posted)
    && forall j :: 0 <= j < |y.asked| ==> FairList(y.asked[j], y.got, c.n)
  }

  lemma SoundPostedBelow(c: Config, y: System)
    requires Sound(c, y)
    ensures AllBelow(y.posted, c.n)
  {
    var rounds := RoundsOf(y);
    forall j | 0 <= j < |rounds| ensures AllBelow(rounds[j], c.n) {
      assert rounds[j] == y.asked[j];
    }
    DueBelow(c.n, rounds);
    forall i | i in y.posted ensures i < c.n { assert i in Due(c.n, rounds); }
  }

  lemma SoundMoves(c: Config, y: System, s: Sender, posted: seq<nat>)
    requires Sound(c, y) && s.finished == y.s.finished && y.posted <= posted
    requires OnSchedule(s, c.blockSize, c.n, RoundsOf(y), posted)
    ensures Sound(c, y.(s := s, posted := posted))
  {
    assert RoundsOf(y.(s := s, posted := posted)) == RoundsOf(y);
    GotWerePosted(y.got, y.posted, posted);
  }

  // A request is acted on by an idle sender whose buffer it fits; any other fails.
  ghost predicate Acceptable(y: System, ids: seq<nat>)
    requires y.read <= |y.asked| && (y.s.finished ==> y.read > 0)
  {
    ids == [] || (Idle(y.s) && (RoundsOf(y) != [] ==> |ids| <= |RoundsOf(y)[0]|))
  }

  lemma SoundReads(c: Config, y: System)
    requires Sound(c, y) && Enabled(c, y, ReadStream)
    ensures y.read < |y.asked| && !y.s.finished
    ensures var ids, rd := y.asked[y.read], ReadingOf(y.s, c.blockSize, y.wire);
            if !Acceptable(y, ids) then rd.Failed?
            else
              && rd.Read? && rd.rest == Frames(y.asked[y.read + 1..]) && rd.s.finished == (ids == [])
              && OnSchedule(rd.s, c.blockSize, c.n, if ids == [] then RoundsOf(y) else RoundsOf(y) + [ids], y.posted)
  {
    var unread := y.asked[y.read..];
    FramesEmpty(unread);
    assert unread[1..] == y.asked[y.read + 1..];
    if Acceptable(y, unread[0]) {
      ReadKeepsSchedule(y.s, c.blockSize, c.n, RoundsOf(y), y.posted, unread[0], Frames(unread[1..]));
    } else {
      Unacceptable(y.s, c.blockSize, c.n, RoundsOf(y), y.posted, unread[0], Frames(unread[1..]));
    }
  }

  lemma Unacceptable(s: Sender, blockSize: nat, n: nat, rounds: seq<seq<nat>>, posted: seq<nat>,
                     ids: seq<nat>, rest: seq<nat>)
    requires OnSchedule(s, blockSize, n, rounds, posted) && ids != []
    requires !Idle(s) || (rounds != [] && |ids| > |rounds[0]|)
    ensures ReadingOf(s, blockSize, Frame(ids) + rest).Failed?
  {
    FrameRead(ids, rest);
  }

  lemma SoundTakes(c: Config, y: System, s: Sender, rest: seq<nat>)
    requires Sound(c, y) && y.read < |y.asked| && !y.s.finished && rest == Frames(y.asked[y.read + 1..])
    requires var ids := y.asked[y.read];
             && s.finished == (ids == [])
             && OnSchedule(s, c.blockSize, c.n, if ids == [] then RoundsOf(y) else RoundsOf(y) + [ids], y.posted)
    ensures Sound(c, y.(s := s, wire := rest, read := y.read + 1))
  {
    RoundsGrow(y, s, rest);
  }

  lemma SoundRead(c: Config, y: System)
    requires Sound(c, y) && Enabled(c, y, ReadStream)
    ensures Do(c, y, ReadStream).failed || Sound(c, Do(c, y, ReadStream))
  {
    SoundReads(c, y);
    var rd := ReadingOf(y.s, c.blockSize, y.wire);
    if rd.Read? { SoundTakes(c, y, rd.s, rd.rest); }
  }

  lemma FairListsStay(lists: seq<seq<nat>>, list: seq<nat>, got: set<nat>, now: set<nat>, n: nat)
    requires (forall j :: 0 <= j < |lists| ==> FairList(lists[j], got, n)) && FairList(list, now, n) && got <= now
    ensures forall j :: 0 <= j <= |lists| ==> FairList((lists + [list])[j], now, n)
  {
  }

  lemma SoundAsking(c: Config, y: System, r: Receiver, now: set<nat>, list: seq<nat>)
    requires Sound(c, y) && y.got <= now <= Elements(y.posted) && Sane(r, now, c.n) && FairList(list, now, c.n)
    ensures Sound(c, Asking(y, r, now, list))
  {
    AskingKeepsStream(y, r, now, list);
    AskingKeepsRounds(y, r, now, list);
    FairListsStay(y.asked, list, y.got, now, c.n);
  }

  lemma SoundQuiet(c: Config, y: System, r: Receiver, now: set<nat>)
    requires Sound(c, y) && y.got <= now <= Elements(y.posted) && Sane(r, now, c.n)
    ensures Sound(c, y.(r := r, got := now))
  {
    assert RoundsOf(y.(r := r, got := now)) == RoundsOf(y);
    forall j | 0 <= j < |y.asked| ensures FairList(y.asked[j], now, c.n) {
      assert FairList(y.asked[j], y.got, c.n);
    }
  }

  lemma SoundTurn(c: Config, y: System, ids: seq<nat>, timedOut: bool)
    requires Sound(c, y) && y.r.w.num < c.n && (forall i :: i in ids ==> i in y.posted) && (timedOut ==> ids == [])
    ensures TurnOf(c, y, ids, timedOut).failed || Sound(c, TurnOf(c, y, ids, timedOut))
  {
    SoundPostedBelow(c, y);
    TurnSane(y.r, y.got, c.n, ids, timedOut);
    var t := TakeTurn(y.r, c.n, ids, timedOut);
    var now := y.got + Elements(ids);
    if t.Took? {
      if t.sent == [] {
        SoundQuiet(c, y, t.r, now);
      } else {
        SoundAsking(c, y, t.r, now, t.sent[1..]);
      }
    }
  }

  lemma SoundStep(c: Config, y: System, step: Step)
    requires Sound(c, y) && MayStep(c, y, step)
    ensures Do(c, y, step).failed || Sound(c, Do(c, y, step))
  {
    match step {
      case SendBlock =>
        PostKeepsSchedule(y.s, c.blockSize, c.n, RoundsOf(y), y.posted);
        SoundMoves(c, y, Post(y.s, c.blockSize), y.posted + [y.s.headers[Slot(y.s)]]);
      case TakeCompletion =>
        CompleteKeepsSchedule(y.s, c.blockSize, c.n, RoundsOf(y), y.posted);
        SoundMoves(c, y, Complete(y.s), y.posted);
      case ReadStream => SoundRead(c, y);
      case Turn(ids) => SoundTurn(c, y, ids, false);
      case Timer => SoundTurn(c, y, [], true);
    }
  }

  lemma {:induction false} FailedStays(c: Config, y: System, steps: seq<Step>)
    requires y.failed
    ensures After(c, y, steps).failed
    decreases |steps|
  {
    if steps == [] {
    } else {
      FailedStays(c, Do(c, y, steps[0]), steps[1..]);
    }
  }

  lemma {:induction false} SoundRun(c: Config, y: System, steps: seq<Step>)
    requires Sound(c, y) && IsAnyRun(c, y, steps)
    ensures After(c, y, steps).failed || Sound(c, After(c, y, steps))
    decreases |steps|
  {
    if steps == [] {
    } else {
      var z := Do(c, y, steps[0]);
      SoundStep(c, y, steps[0]);
      if z.failed {
        FailedStays(c, z, steps[1..]);
      } else {
        SoundRun(c, z, steps[1..]);
      }
    }
  }

  lemma StartSound(c: Config, y: System)
    requires Start(c, y)
    ensures Sound(c, y)
  {
    InitialOnSchedule(y.s, c.blockSize, c.n);
  }

  // ---------------------------------------------------------------- the theorems, over every run

  // With the timer running out whenever it likes: the program has failed, or a sender that has left its
  // loop leaves a receiver that has every block, and what was posted is the file and then each request
  // read, in order.
  lemma {:induction false} DeliversOrFails(c: Config, y: System, steps: seq<Step>)
    requires Start(c, y) && IsAnyRun(c, y, steps)
    ensures var z := After(c, y, steps);
            z.failed ||
            (&& (z.s.finished ==> WholeFile(z.got, c.n))
             && z.read <= |z.asked| && (z.s.finished ==> z.read > 0)
             && var due := Upto(c.n) + Flatten(RoundsOf(z));
             && z.s.sendCnt <= |due| && z.posted == due[..z.s.sendCnt]
             && z.s.bytesLeft == (|due| - z.s.sendCnt) * c.blockSize)
  {
    StartSound(c, y);
    SoundRun(c, y, steps);
    var z := After(c, y, steps);
    if !z.failed { SoundNow(c, z); }
  }

  lemma SoundNow(c: Config, z: System)
    requires Sound(c, z)
    ensures z.s.finished ==> WholeFile(z.got, c.n)
    ensures var due := Upto(c.n) + Flatten(RoundsOf(z));
            && z.s.sendCnt <= |due| && z.posted == due[..z.s.sendCnt]
            && z.s.bytesLeft == (|due| - z.s.sendCnt) * c.blockSize
  {
    OrderNow(c, z);
    if z.s.finished { assert FairList(z.asked[z.read - 1], z.got, c.n); }
  }

  // The timer makes the first request only with no more than the last block missing.
  predicate FirstAskedSafely(c: Config, y: System, steps: seq<Step>)
    decreases |steps|
  {
    steps == [] ||
    ((steps[0].Timer? ==> TimerSafe(y.r, c.n)) && FirstAskedSafely(c, Do(c, y, steps[0]), steps[1..]))
  }

  lemma CoreStep(c: Config, y: System, step: Step)
    requires Core(c, y) && MayStep(c, y, step) && (step.Timer? ==> TimerSafe(y.r, c.n))
    ensures Do(c, y, step).failed || Core(c, Do(c, y, step))
  {
    match step {
      case SendBlock => CorePost(c, y);
      case TakeCompletion => CoreComplete(c, y);
      case ReadStream => CoreRead(c, y);
      case Turn(ids) => CoreTurn(c, y, ids, false);
      case Timer => CoreTurn(c, y, [], true);
    }
  }

  lemma {:induction false} CoreRun(c: Config, y: System, steps: seq<Step>)
    requires Core(c, y) && IsAnyRun(c, y, steps) && FirstAskedSafely(c, y, steps)
    ensures After(c, y, steps).failed || Core(c, After(c, y, steps))
    decreases |steps|
  {
    if steps == [] {
    } else {
      var z := Do(c, y, steps[0]);
      CoreStep(c, y, steps[0]);
      if z.failed {
        FailedStays(c, z, steps[1..]);
      } else {
        CoreRun(c, z, steps[1..]);
      }
    }
  }

  // If in addition the timer makes no first request with more than the last block missing: the program
  // has failed, or every request made lists exactly the blocks missing then, in increasing order.
  lemma {:induction false} ExactOrFails(c: Config, y: System, steps: seq<Step>)
    requires Start(c, y) && IsAnyRun(c, y, steps) && FirstAskedSafely(c, y, steps)
    ensures var z := After(c, y, steps);
            z.failed ||
            (&& |z.at| == |z.asked|
             && forall j :: 0 <= j < |z.asked| ==>
                  z.asked[j] == Missing(0, c.n, z.at[j]) && Increasing(z.asked[j]))
  {
    StartInv(c, y);
    CoreRun(c, y, steps);
    var z := After(c, y, steps);
    if !z.failed {
      forall j | 0 <= j < |z.asked| ensures Increasing(z.asked[j]) {
        MissingIncreases(0, c.n, z.at[j]);
      }
    }
  }
}
