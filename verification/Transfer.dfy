// The whole transfer: sender, receiver, a data channel that may lose, repeat and reorder blocks,
// and the TCP stream that carries the requests back.
module Transfer {
  import opened Arithmetic
  import opened BlockWindow
  import opened BlockReceiver
  import opened TailPadding
  import opened RequestExactness
  import opened BlockSender

  // A file of n whole blocks.
  datatype Config = Config(blockSize: nat, n: nat)

  // wire is the unread part of the TCP stream. The rest is history: the headers posted, the ids
  // delivered, the requests made with the ids received by then, and how many of them were read.
  datatype System = System(s: Sender, r: Receiver, wire: seq<nat>, posted: seq<nat>, got: set<nat>,
                           asked: seq<seq<nat>>, at: seq<set<nat>>, read: nat, failed: bool)

  // Turn(ids): a polled batch. Timer: a turn with no completion, after a second of silence.
  datatype Step = SendBlock | TakeCompletion | ReadStream | Turn(ids: seq<nat>) | Timer

  // The most completions that one poll takes (line 381).
  const POLL := 16

  ghost predicate Good(c: Config) {
    c.blockSize > 0 && 0 < c.n < WORD32 && Bytes(c.n, c.blockSize) < WORD64
  }

  ghost predicate Start(c: Config, y: System) {
    && Good(c) && Initial(y.s, Bytes(c.n, c.blockSize))
    && y == System(y.s, FRESH, [], [], {}, [], [], 0, false)
  }

  // The channel may deliver any block that was ever posted, at any time and any number of times.
  // The timer is taken to run out only while the sender waits and every request has been read, and
  // never to make the first request while more than the last block is missing.
  predicate Enabled(c: Config, y: System, step: Step) {
    match step
    case SendBlock => !y.s.finished && y.s.outstanding < |y.s.headers| && !Idle(y.s)
    case TakeCompletion => !y.s.finished && y.s.outstanding > 0
    case ReadStream => !y.s.finished && y.wire != []
    case Turn(ids) => y.r.w.num < c.n && |ids| <= POLL && forall i :: i in ids ==> i in y.posted
    case Timer => y.r.w.num < c.n && Idle(y.s) && y.wire == [] && TimerSafe(y.r, c.n)
  }

  function TurnOf(c: Config, y: System, ids: seq<nat>, timedOut: bool): System {
    var now := y.got + Elements(ids);
    match TakeTurn(y.r, c.n, ids, timedOut)
    case Failed => y.(failed := true)
    case Took(r, sent) =>
      if sent == [] then y.(r := r, got := now)
      else y.(r := r, got := now, wire := y.wire + sent, asked := y.asked + [sent[1..]], at := y.at + [now])
  }

  function Do(c: Config, y: System, step: Step): System {
    match step
    case SendBlock =>
      if CanPost(y.s) then y.(s := Post(y.s, c.blockSize), posted := y.posted + [y.s.headers[Slot(y.s)]])
      else y.(failed := true)
    case TakeCompletion =>
      if CanComplete(y.s) then y.(s := Complete(y.s)) else y.(failed := true)
    case ReadStream =>
      if y.s.headers == [] then y.(failed := true)
      else
        (match ReadingOf(y.s, c.blockSize, y.wire)
         case Read(s, rest) => y.(s := s, wire := rest, read := y.read + 1)
         case _ => y.(failed := true))
    case Turn(ids) => TurnOf(c, y, ids, false)
    case Timer => TurnOf(c, y, [], true)
  }

  // Every step enabled where it is taken.
  predicate IsRun(c: Config, y: System, steps: seq<Step>)
    decreases |steps|
  {
    steps == [] || (Enabled(c, y, steps[0]) && IsRun(c, Do(c, y, steps[0]), steps[1..]))
  }

  function After(c: Config, y: System, steps: seq<Step>): System
    decreases |steps|
  {
    if steps == [] then y else After(c, Do(c, y, steps[0]), steps[1..])
  }

  lemma OneStep(c: Config, y: System, step: Step)
    requires Enabled(c, y, step)
    ensures IsRun(c, y, [step]) && After(c, y, [step]) == Do(c, y, step)
  {
    assert [step][1..] == [];
  }

  lemma ConcatTail(a: seq<Step>, b: seq<Step>)
    requires a != []
    ensures (a + b)[0] == a[0] && (a + b)[1..] == a[1..] + b
  {
  }

  lemma StepFirst(c: Config, y: System, step: Step, rest: seq<Step>)
    requires Enabled(c, y, step) && IsRun(c, Do(c, y, step), rest)
    ensures IsRun(c, y, [step] + rest) && After(c, y, [step] + rest) == After(c, Do(c, y, step), rest)
  {
    ConcatTail([step], rest);
    assert [step][1..] + rest == rest;
  }

  lemma {:induction false} RunConcat(c: Config, y: System, a: seq<Step>, b: seq<Step>)
    requires IsRun(c, y, a) && IsRun(c, After(c, y, a), b)
    ensures IsRun(c, y, a + b) && After(c, y, a + b) == After(c, After(c, y, a), b)
    decreases |a|
  {
    if a == [] {
      assert a + b == b;
    } else {
      ConcatTail(a, b);
      RunConcat(c, Do(c, y, a[0]), a[1..], b);
    }
  }

  // ---------------------------------------------------------------- the invariant

  function Frames(lists: seq<seq<nat>>): seq<nat> {
    if lists == [] then [] else Frame(lists[0]) + Frames(lists[1..])
  }

  lemma {:induction false} FramesSnoc(lists: seq<seq<nat>>, ids: seq<nat>)
    ensures Frames(lists + [ids]) == Frames(lists) + Frame(ids)
  {
    if lists == [] {
      assert Frames([ids]) == Frame(ids) + Frames([]);
      assert lists + [ids] == [ids];
    } else {
      FramesSnoc(lists[1..], ids);
      assert (lists + [ids])[1..] == lists[1..] + [ids];
    }
  }

  // The requests the sender has acted on: those it read, but for a final zero.
  function RoundsOf(y: System): (rounds: seq<seq<nat>>)
    requires y.read <= |y.asked| && (y.s.finished ==> y.read > 0)
  {
    y.asked[..if y.s.finished then y.read - 1 else y.read]
  }

  // Every request listed exactly the blocks missing when it was made, in increasing order, and the
  // blocks received only grew.
  ghost predicate RequestsKept(c: Config, y: System) {
    && |y.at| == |y.asked|
    && (forall j :: 0 <= j < |y.asked| ==> Below(y.at[j], c.n) && y.asked[j] == Missing(0, c.n, y.at[j]))
    && (forall i, j :: 0 <= i < j < |y.at| ==> y.at[i] <= y.at[j])
    && (forall j :: 0 <= j < |y.at| ==> y.at[j] <= y.got)
  }

  // Only the last request can be the zero one, and it is made exactly when every block has come.
  ghost predicate ZeroKept(c: Config, y: System) {
    && (forall j :: 0 <= j < |y.asked| - 1 ==> y.asked[j] != [])
    && (|y.got| == c.n <==> y.asked != [] && y.asked[|y.asked| - 1] == [])
    && (y.r.first <==> y.asked == [])
  }

  // What is on the TCP stream: the requests not read yet, whole.
  ghost predicate StreamKept(y: System) {
    && y.read <= |y.asked| && y.wire == Frames(y.asked[y.read..])
    && (y.s.finished <==> y.read > 0 && y.asked[y.read - 1] == [])
  }

  ghost predicate Core(c: Config, y: System) {
    && Good(c) && !y.failed
    && StreamKept(y) && RequestsKept(c, y) && ZeroKept(c, y)
    && OnSchedule(y.s, c.blockSize, c.n, RoundsOf(y), y.posted)
    && Tracks(y.r, y.got, c.n)
    && y.got <= Elements(y.posted)
  }

  // At most one request for blocks waits to be read, and then the sender waits for it.
  ghost predicate Calm(y: System) {
    forall j :: y.read <= j < |y.asked| && y.asked[j] != [] ==> j == y.read && Idle(y.s)
  }

  ghost predicate Inv(c: Config, y: System) {
    Core(c, y) && Calm(y)
  }

  lemma StartInv(c: Config, y: System)
    requires Start(c, y)
    ensures Inv(c, y)
  {
    InitialOnSchedule(y.s, c.blockSize, c.n);
  }

  // Every header on the schedule names a block of the file.
  lemma {:induction false} DueBelow(n: nat, rounds: seq<seq<nat>>)
    requires forall j :: 0 <= j < |rounds| ==> AllBelow(rounds[j], n)
    ensures AllBelow(Due(n, rounds), n)
  {
    if rounds != [] {
      var front := rounds[..|rounds| - 1];
      DueBelow(n, front);
      assert Due(n, rounds) == Due(n, front) + rounds[|rounds| - 1];
    } else {
      assert Due(n, rounds) == Upto(n);
    }
  }

  lemma PostedBelow(c: Config, y: System)
    requires Core(c, y)
    ensures AllBelow(y.posted, c.n)
  {
    var rounds := RoundsOf(y);
    forall j | 0 <= j < |rounds| ensures AllBelow(rounds[j], c.n) {
      assert rounds[j] == y.asked[j];
      MissingSpec(0, c.n, y.at[j]);
    }
    DueBelow(c.n, rounds);
    forall i | i in y.posted ensures i < c.n { assert i in Due(c.n, rounds); }
  }

  lemma GotWerePosted(got: set<nat>, before: seq<nat>, now: seq<nat>)
    requires got <= Elements(before) && before <= now
    ensures got <= Elements(now)
  {
    forall i | i in got ensures i in Elements(now) {
      assert i in before;
    }
  }

  // A move of the sender that reads nothing.
  lemma CoreMoves(c: Config, y: System, s: Sender, posted: seq<nat>)
    requires Core(c, y) && s.finished == y.s.finished && y.posted <= posted
    requires OnSchedule(s, c.blockSize, c.n, RoundsOf(y), posted)
    ensures Core(c, y.(s := s, posted := posted))
  {
    assert RoundsOf(y.(s := s, posted := posted)) == RoundsOf(y);
    GotWerePosted(y.got, y.posted, posted);
  }

  lemma CorePost(c: Config, y: System)
    requires Core(c, y) && Enabled(c, y, SendBlock)
    ensures Core(c, Do(c, y, SendBlock)) && CanPost(y.s)
  {
    PostKeepsSchedule(y.s, c.blockSize, c.n, RoundsOf(y), y.posted);
    CoreMoves(c, y, Post(y.s, c.blockSize), y.posted + [y.s.headers[Slot(y.s)]]);
  }

  lemma CoreComplete(c: Config, y: System)
    requires Core(c, y) && Enabled(c, y, TakeCompletion)
    ensures Core(c, Do(c, y, TakeCompletion)) && CanComplete(y.s)
  {
    CompleteKeepsSchedule(y.s, c.blockSize, c.n, RoundsOf(y), y.posted);
    CoreMoves(c, y, Complete(y.s), y.posted);
  }

  lemma RequestLengths(c: Config, y: System, i: nat, j: nat)
    requires RequestsKept(c, y) && i <= j < |y.asked|
    ensures |y.asked[j]| <= |y.asked[i]| <= c.n
  {
    MissingCount(0, c.n, y.at[i]);
    MissingCount(0, c.n, y.at[j]);
    MoreOf(y.at[i], y.at[j]);
  }

  lemma FramesEmpty(lists: seq<seq<nat>>)
    ensures Frames(lists) == [] <==> lists == []
  {
  }

  // A request read by a busy sender fails an assert; read by an idle one it becomes the next round.
  lemma CoreReads(c: Config, y: System)
    requires Core(c, y) && Enabled(c, y, ReadStream)
    ensures y.read < |y.asked| && !y.s.finished
    ensures var ids, rd := y.asked[y.read], ReadingOf(y.s, c.blockSize, y.wire);
            if ids != [] && !Idle(y.s) then rd.Failed?
            else
              && rd.Read? && rd.rest == Frames(y.asked[y.read + 1..]) && rd.s.finished == (ids == [])
              && OnSchedule(rd.s, c.blockSize, c.n, if ids == [] then RoundsOf(y) else RoundsOf(y) + [ids], y.posted)
  {
    var unread := y.asked[y.read..];
    FramesEmpty(unread);
    assert unread[1..] == y.asked[y.read + 1..];
    RequestLengths(c, y, 0, y.read);
    if unread[0] != [] && !Idle(y.s) {
      RequestTripsBusySender(y.s, c.blockSize, c.n, RoundsOf(y), y.posted, unread[0], Frames(unread[1..]));
    } else {
      ReadKeepsSchedule(y.s, c.blockSize, c.n, RoundsOf(y), y.posted, unread[0], Frames(unread[1..]));
    }
  }

  // Reading a list grows the rounds acted on; reading the zero does not.
  lemma RoundsGrow(y: System, s: Sender, rest: seq<nat>)
    requires y.read < |y.asked| && !y.s.finished && s.finished == (y.asked[y.read] == [])
    ensures RoundsOf(y.(s := s, wire := rest, read := y.read + 1)) ==
            if s.finished then RoundsOf(y) else RoundsOf(y) + [y.asked[y.read]]
  {
  }

  lemma CoreTakes(c: Config, y: System, s: Sender, rest: seq<nat>)
    requires Core(c, y) && y.read < |y.asked| && !y.s.finished && rest == Frames(y.asked[y.read + 1..])
    requires var ids := y.asked[y.read];
             && s.finished == (ids == [])
             && OnSchedule(s, c.blockSize, c.n, if ids == [] then RoundsOf(y) else RoundsOf(y) + [ids], y.posted)
    ensures Core(c, y.(s := s, wire := rest, read := y.read + 1))
  {
    RoundsGrow(y, s, rest);
  }

  lemma CoreRead(c: Config, y: System)
    requires Core(c, y) && Enabled(c, y, ReadStream)
    ensures Do(c, y, ReadStream).failed || Core(c, Do(c, y, ReadStream))
  {
    CoreReads(c, y);
    var rd := ReadingOf(y.s, c.blockSize, y.wire);
    if rd.Read? { CoreTakes(c, y, rd.s, rd.rest); }
  }

  // The state after a turn that makes the request list.
  function Asking(y: System, r: Receiver, now: set<nat>, list: seq<nat>): System {
    y.(r := r, got := now, wire := y.wire + Frame(list), asked := y.asked + [list], at := y.at + [now])
  }

  lemma AskingKeepsStream(y: System, r: Receiver, now: set<nat>, list: seq<nat>)
    requires StreamKept(y)
    ensures StreamKept(Asking(y, r, now, list))
  {
    FramesSnoc(y.asked[y.read..], list);
    assert (y.asked + [list])[y.read..] == y.asked[y.read..] + [list];
  }

  lemma AskingKeepsCalm(y: System, r: Receiver, now: set<nat>, list: seq<nat>)
    requires Calm(y) && y.read <= |y.asked| && (list != [] ==> Idle(y.s) && y.read == |y.asked|)
    ensures Calm(Asking(y, r, now, list))
  {
  }

  lemma AskingKeepsRequests(c: Config, y: System, r: Receiver, now: set<nat>)
    requires RequestsKept(c, y) && y.got <= now && Below(now, c.n)
    ensures RequestsKept(c, Asking(y, r, now, Missing(0, c.n, now)))
  {
  }

  lemma AskingKeepsZero(c: Config, y: System, r: Receiver, now: set<nat>)
    requires ZeroKept(c, y) && |y.got| < c.n && Below(now, c.n) && !r.first
    ensures ZeroKept(c, Asking(y, r, now, Missing(0, c.n, now)))
  {
    MissingCount(0, c.n, now);
  }

  lemma QuietKeeps(c: Config, y: System, r: Receiver, now: set<nat>)
    requires RequestsKept(c, y) && ZeroKept(c, y) && y.got <= now
    requires |y.got| < c.n && |now| != c.n && r.first == y.r.first
    ensures var z := y.(r := r, got := now); RequestsKept(c, z) && ZeroKept(c, z)
  {
  }

  lemma AskingKeepsRounds(y: System, r: Receiver, now: set<nat>, list: seq<nat>)
    requires y.read <= |y.asked| && (y.s.finished ==> y.read > 0)
    ensures RoundsOf(Asking(y, r, now, list)) == RoundsOf(y)
  {
    var k := if y.s.finished then y.read - 1 else y.read;
    assert (y.asked + [list])[..k] == y.asked[..k];
  }

  lemma CoreAsking(c: Config, y: System, r: Receiver, now: set<nat>)
    requires Core(c, y) && |y.got| < c.n && y.got <= now <= Elements(y.posted) && Tracks(r, now, c.n) && !r.first
    ensures Core(c, Asking(y, r, now, Missing(0, c.n, now)))
  {
    var list := Missing(0, c.n, now);
    AskingKeepsStream(y, r, now, list);
    AskingKeepsRequests(c, y, r, now);
    AskingKeepsZero(c, y, r, now);
    AskingKeepsRounds(y, r, now, list);
  }

  lemma CoreTurn(c: Config, y: System, ids: seq<nat>, timedOut: bool)
    requires Core(c, y) && y.r.w.num < c.n && forall i :: i in ids ==> i in y.posted
    requires timedOut ==> ids == [] && TimerSafe(y.r, c.n)
    ensures Core(c, TurnOf(c, y, ids, timedOut))
    ensures var now := y.got + Elements(ids);
            var r := TakeTurn(y.r, c.n, ids, timedOut).r;
            && now <= Elements(y.posted) && Below(now, c.n)
            && TurnOf(c, y, ids, timedOut) ==
                 if Asks(y.r, now, c.n, timedOut) then Asking(y, r, now, Missing(0, c.n, now))
                 else y.(r := r, got := now)
  {
    PostedBelow(c, y);
    TurnExact(y.r, y.got, c.n, ids, timedOut);
    var now := y.got + Elements(ids);
    var r := TakeTurn(y.r, c.n, ids, timedOut).r;
    TurnIs(c, y, ids, timedOut);
    if Asks(y.r, now, c.n, timedOut) {
      CoreAsking(c, y, r, now);
    } else {
      CoreQuiet(c, y, r, now);
    }
  }

  lemma CoreQuiet(c: Config, y: System, r: Receiver, now: set<nat>)
    requires Core(c, y) && |y.got| < c.n && y.got <= now <= Elements(y.posted) && Tracks(r, now, c.n)
    requires |now| != c.n && r.first == y.r.first
    ensures Core(c, y.(r := r, got := now))
  {
    QuietKeeps(c, y, r, now);
    assert RoundsOf(y.(r := r, got := now)) == RoundsOf(y);
  }

  // What a turn does to the whole system.
  lemma TurnIs(c: Config, y: System, ids: seq<nat>, timedOut: bool)
    requires var now := y.got + Elements(ids);
             var t := TakeTurn(y.r, c.n, ids, timedOut);
             t.Took? && t.sent == if Asks(y.r, now, c.n, timedOut) then Frame(Missing(0, c.n, now)) else []
    ensures var now := y.got + Elements(ids);
            var r := TakeTurn(y.r, c.n, ids, timedOut).r;
            TurnOf(c, y, ids, timedOut) ==
              if Asks(y.r, now, c.n, timedOut) then Asking(y, r, now, Missing(0, c.n, now))
              else y.(r := r, got := now)
  {
    var list := Missing(0, c.n, y.got + Elements(ids));
    assert Frame(list)[1..] == list;
  }

  // ---------------------------------------------------------------- with the timer kept back

  lemma PostInv(c: Config, y: System)
    requires Inv(c, y) && Enabled(c, y, SendBlock)
    ensures Inv(c, Do(c, y, SendBlock))
  {
    CorePost(c, y);
  }

  lemma CompleteInv(c: Config, y: System)
    requires Inv(c, y) && Enabled(c, y, TakeCompletion)
    ensures Inv(c, Do(c, y, TakeCompletion))
  {
    CoreComplete(c, y);
  }

  lemma ReadInv(c: Config, y: System)
    requires Inv(c, y) && Enabled(c, y, ReadStream)
    ensures Inv(c, Do(c, y, ReadStream))
  {
    CoreReads(c, y);
    CoreRead(c, y);
  }

  // While no request has been made the first pass is all there is, so a block n-1 that has been
  // seen means a sender that has posted everything.
  lemma FirstRequestFindsIdle(c: Config, y: System)
    requires Inv(c, y) && y.asked == [] && c.n - 1 in y.posted
    ensures Idle(y.s)
  {
    assert Due(c.n, []) == Upto(c.n);
    IdleWhenNothingDue(y.s, c.blockSize, c.n, [], y.posted);
  }

  // When a request for blocks goes out, the sender waits and has read every earlier one.
  lemma AskedWhenIdle(c: Config, y: System, now: set<nat>, timedOut: bool)
    requires Inv(c, y) && Asks(y.r, now, c.n, timedOut) && |now| != c.n && now <= Elements(y.posted)
    requires timedOut ==> Idle(y.s) && y.wire == []
    ensures Idle(y.s) && y.read == |y.asked|
  {
    if timedOut {
      FramesEmpty(y.asked[y.read..]);
    } else {
      FirstRequestFindsIdle(c, y);
    }
  }

  lemma TurnInv(c: Config, y: System, ids: seq<nat>, timedOut: bool)
    requires Inv(c, y) && Enabled(c, y, if timedOut then Timer else Turn(ids)) && (timedOut ==> ids == [])
    ensures Inv(c, TurnOf(c, y, ids, timedOut))
  {
    CoreTurn(c, y, ids, timedOut);
    var now := y.got + Elements(ids);
    if Asks(y.r, now, c.n, timedOut) {
      var list := Missing(0, c.n, now);
      assert list == [] <==> |now| == c.n by { MissingCount(0, c.n, now); }
      if list != [] { AskedWhenIdle(c, y, now, timedOut); }
      AskingKeepsCalm(y, TakeTurn(y.r, c.n, ids, timedOut).r, now, list);
    }
  }

  lemma StepInv(c: Config, y: System, step: Step)
    requires Inv(c, y) && Enabled(c, y, step)
    ensures Inv(c, Do(c, y, step))
  {
    match step {
      case SendBlock => PostInv(c, y);
      case TakeCompletion => CompleteInv(c, y);
      case ReadStream => ReadInv(c, y);
      case Turn(ids) => TurnInv(c, y, ids, false);
      case Timer => TurnInv(c, y, [], true);
    }
  }

  lemma {:induction false} RunInv(c: Config, y: System, steps: seq<Step>)
    requires Inv(c, y) && IsRun(c, y, steps)
    ensures Inv(c, After(c, y, steps))
    decreases |steps|
  {
    if steps == [] {
    } else {
      StepInv(c, y, steps[0]);
      RunInv(c, Do(c, y, steps[0]), steps[1..]);
    }
  }

  // ---------------------------------------------------------------- the theorems, over every run

  // No assert of either side ever fails, and a sender that has left its loop leaves a receiver
  // that has every block of the file.
  lemma {:induction false} EveryBlockDelivered(c: Config, y: System, steps: seq<Step>)
    requires Start(c, y) && IsRun(c, y, steps)
    ensures var z := After(c, y, steps);
            && !z.failed
            && (z.s.finished ==> forall i: nat :: i < c.n ==> i in z.got)
            && (z.s.finished ==> z.wire == [] && z.r.w.num == c.n)
  {
    StartInv(c, y);
    RunInv(c, y, steps);
    var z := After(c, y, steps);
    CompleteWhenCounted(z.got, c.n);
    if z.s.finished {
      assert z.read == |z.asked|;
      assert z.asked[z.read..] == [];
    }
  }

  // The requests of every run: each lists exactly the blocks missing when it was made, in
  // increasing order; none is longer than the first, which sized both buffers; and the zero request
  // is made once, last, and exactly when every block has come.
  lemma {:induction false} EveryRequestExact(c: Config, y: System, steps: seq<Step>)
    requires Start(c, y) && IsRun(c, y, steps)
    ensures var z := After(c, y, steps);
            && |z.at| == |z.asked|
            && (forall j :: 0 <= j < |z.asked| ==>
                  && z.asked[j] == Missing(0, c.n, z.at[j]) && Increasing(z.asked[j])
                  && |z.asked[j]| <= |z.asked[0]|)
            && (forall j :: 0 <= j < |z.asked| && z.asked[j] == [] ==> j == |z.asked| - 1)
            && ((z.asked != [] && z.asked[|z.asked| - 1] == []) <==> forall i: nat :: i < c.n ==> i in z.got)
  {
    StartInv(c, y);
    RunInv(c, y, steps);
    var z := After(c, y, steps);
    forall j | 0 <= j < |z.asked| ensures Increasing(z.asked[j]) && |z.asked[j]| <= |z.asked[0]| {
      MissingIncreases(0, c.n, z.at[j]);
      RequestLengths(c, z, 0, j);
    }
    CompleteWhenCounted(z.got, c.n);
  }

  // A measure for termination: if every round of retransmission brings at least one block that was
  // missing, there are at most as many requests after the first as the first one listed blocks.
  lemma {:induction false} RoundsAreBounded(c: Config, y: System, steps: seq<Step>)
    requires Start(c, y) && IsRun(c, y, steps)
    requires var z := After(c, y, steps);
             |z.at| == |z.asked| > 0 && forall j :: 0 < j < |z.at| ==> z.at[j] != z.at[j - 1]
    ensures var z := After(c, y, steps); |z.asked| - 1 <= |z.asked[0]|
  {
    StartInv(c, y);
    RunInv(c, y, steps);
    var z := After(c, y, steps);
    GrowsEachRound(z.at);
    var last := z.at[|z.at| - 1];
    MissingCount(0, c.n, z.at[0]);
    MissingCount(0, c.n, last);
  }

  lemma {:induction false} GrowsEachRound(at: seq<set<nat>>)
    requires at != [] && (forall i, j :: 0 <= i < j < |at| ==> at[i] <= at[j])
    requires forall j :: 0 < j < |at| ==> at[j] != at[j - 1]
    ensures |at[|at| - 1]| >= |at[0]| + |at| - 1
  {
    if |at| == 1 {
    } else {
      var front := at[..|at| - 1];
      GrowsEachRound(front);
      MoreOf(at[|at| - 2], at[|at| - 1]);
    }
  }

  // The sender in every run: the headers posted are those of the file and then of each request read,
  // in order, and bytes_left counts the rest of them.
  lemma {:induction false} PostedInOrder(c: Config, y: System, steps: seq<Step>)
    requires Start(c, y) && IsRun(c, y, steps)
    ensures var z := After(c, y, steps);
            && z.read <= |z.asked| && (z.s.finished ==> z.read > 0)
            && var due := Upto(c.n) + Flatten(RoundsOf(z));
            && z.s.sendCnt <= |due| && z.posted == due[..z.s.sendCnt]
            && z.s.bytesLeft == (|due| - z.s.sendCnt) * c.blockSize
            && (Idle(z.s) <==> z.s.sendCnt == |due|)
  {
    StartInv(c, y);
    RunInv(c, y, steps);
    OrderNow(c, After(c, y, steps));
  }

  lemma OrderNow(c: Config, z: System)
    requires StreamKept(z) && OnSchedule(z.s, c.blockSize, c.n, RoundsOf(z), z.posted)
    ensures var due := Upto(c.n) + Flatten(RoundsOf(z));
            && z.s.sendCnt <= |due| && z.posted == due[..z.s.sendCnt]
            && z.s.bytesLeft == (|due| - z.s.sendCnt) * c.blockSize
            && (Idle(z.s) <==> z.s.sendCnt == |due|)
  {
    IdleWhenNothingDue(z.s, c.blockSize, c.n, RoundsOf(z), z.posted);
    BytesIsProduct(|Due(c.n, RoundsOf(z))| - z.s.sendCnt, c.blockSize);
  }

  // Bytes acknowledged, outstanding and still due add up to the file and every block asked for again.
  lemma {:induction false} BytesAddUp(c: Config, y: System, steps: seq<Step>)
    requires Start(c, y) && IsRun(c, y, steps)
    ensures var z := After(c, y, steps);
            && z.read <= |z.asked| && (z.s.finished ==> z.read > 0)
            && z.s.ackBytes + Sum(z.s.uncompleteBytes) + z.s.bytesLeft
               == c.n * c.blockSize + |Flatten(RoundsOf(z))| * c.blockSize
            && |z.s.uncompleteBytes| == z.s.outstanding
  {
    StartInv(c, y);
    RunInv(c, y, steps);
    var z := After(c, y, steps);
    BytesConserved(z.s, c.blockSize, c.n, RoundsOf(z), z.posted);
  }

  // A block is posted only from a slot that no outstanding block is in.
  lemma {:induction false} PostedSlotIsFree(c: Config, y: System, steps: seq<Step>)
    requires Start(c, y) && IsRun(c, y, steps)
    ensures var s := After(c, y, steps).s;
            && s.headers != [] && s.outstanding <= |s.headers|
            && (Enabled(c, After(c, y, steps), SendBlock) ==>
                  forall j :: s.sendCnt - s.outstanding <= j < s.sendCnt ==> j % |s.headers| != s.sendCnt % |s.headers|)
  {
    StartInv(c, y);
    RunInv(c, y, steps);
    var z := After(c, y, steps);
    OutstandingWerePosted(z.s, c.blockSize, |Due(c.n, RoundsOf(z))|);
    SlotIsFree(z.s.sendCnt, z.s.outstanding, |z.s.headers|);
  }
}
