// A run, with nothing but losses on the data channel, that leaves the sender waiting for ever.
module Stranded {
  import opened Arithmetic
  import opened BlockWindow
  import opened BlockReceiver
  import opened TailPadding
  import opened RequestExactness
  import opened BlockSender
  import opened Transfer
  import opened PaddedReceiver
  import opened AnyTimer
  import opened Completion

  // The sender waits, and has read every request.
  ghost predicate Waiting(c: Config, y: System) {
    Sound(c, y) && Idle(y.s) && !y.s.finished && y.wire == [] && y.read == |y.asked|
  }

  lemma WaitsWhenRead(c: Config, y: System)
    requires Sound(c, y) && y.wire == [] && !y.s.finished
    ensures y.read == |y.asked|
  {
    FramesEmpty(y.asked[y.read..]);
  }

  // The sender sends what it owes, and waits.
  lemma SendsAll(c: Config, y: System) returns (steps: seq<Step>)
    requires Sound(c, y) && !y.s.finished && y.wire == []
    ensures IsAnyRun(c, y, steps)
    ensures var z := After(c, y, steps);
            Waiting(c, z) && z.r == y.r && z.got == y.got && z.asked == y.asked
  {
    steps := ComesToRest(c, y);
    RunIsAny(c, y, steps);
    SoundRun(c, y, steps);
    WaitsWhenRead(c, After(c, y, steps));
  }

  // Block id comes, and nothing is asked for.
  lemma Delivered(c: Config, y: System, id: nat, r: Receiver)
    requires Waiting(c, y) && y.r.w.num < c.n && id < c.n && TakeTurn(y.r, c.n, [id], false) == Took(r, [])
    ensures MayStep(c, y, Turn([id]))
    ensures var z := Do(c, y, Turn([id]));
            Waiting(c, z) && z.r == r && z.got == y.got + {id} && z.asked == y.asked
  {
    IdleHasPostedAll(y.s, c.blockSize, c.n, RoundsOf(y), y.posted);
    SoundStep(c, y, Turn([id]));
    assert Elements([id]) == {id};
  }

  // The timer runs out.
  lemma Asked(c: Config, y: System, r: Receiver, list: seq<nat>)
    requires Waiting(c, y) && y.r.w.num < c.n && list != []
    requires TakeTurn(y.r, c.n, [], true) == Took(r, Frame(list))
    ensures Do(c, y, Timer) == Asking(y, r, y.got, list) && Sound(c, Do(c, y, Timer))
  {
    assert Frame(list)[1..] == list && y.got + Elements([]) == y.got;
    SoundStep(c, y, Timer);
  }

  // The sender reads the request.
  lemma Answered(c: Config, y: System, r: Receiver, list: seq<nat>)
    requires Waiting(c, y) && list != [] && (y.asked != [] ==> |list| <= |y.asked[0]|)
    requires Sound(c, Asking(y, r, y.got, list))
    ensures var a := Asking(y, r, y.got, list);
            var z := Do(c, a, ReadStream);
            && MayStep(c, a, ReadStream) && Sound(c, z) && !z.s.finished && z.wire == []
            && z.r == r && z.got == y.got && z.asked == y.asked + [list]
  {
    var a := Asking(y, r, y.got, list);
    AskingKeepsRounds(y, r, y.got, list);
    assert a.asked[a.read] == list && a.asked[a.read + 1..] == [];
    SoundReads(c, a);
    SoundRead(c, a);
  }

  // One block of a round comes, the others are lost, and the next round begins.
  lemma Stage(c: Config, y: System, id: nat, r: Receiver, next: Receiver, list: seq<nat>) returns (steps: seq<Step>)
    requires Waiting(c, y) && y.r.w.num < c.n && r.w.num < c.n && id < c.n && list != []
    requires TakeTurn(y.r, c.n, [id], false) == Took(r, []) && TakeTurn(r, c.n, [], true) == Took(next, Frame(list))
    requires y.asked != [] ==> |list| <= |y.asked[0]|
    ensures IsAnyRun(c, y, steps)
    ensures var z := After(c, y, steps);
            Waiting(c, z) && z.r == next && z.got == y.got + {id} && z.asked == y.asked + [list]
  {
    Delivered(c, y, id, r);
    var a := Do(c, y, Turn([id]));
    Asked(c, a, next, list);
    Answered(c, a, next, list);
    var b := Do(c, a, Timer);
    var rest := SendsAll(c, Do(c, b, ReadStream));
    AnyStepFirst(c, b, ReadStream, rest);
    AnyStepFirst(c, a, Timer, [ReadStream] + rest);
    AnyStepFirst(c, y, Turn([id]), [Timer] + ([ReadStream] + rest));
    steps := [Turn([id])] + ([Timer] + ([ReadStream] + rest));
  }

  // The receiver has left its loop and the sender waits: only completions are left.
  ghost predicate Dead(c: Config, y: System) {
    Idle(y.s) && !y.s.finished && y.wire == [] && y.r.w.num >= c.n
  }

  lemma {:induction false} DeadStays(c: Config, y: System, steps: seq<Step>)
    requires Dead(c, y) && IsAnyRun(c, y, steps)
    ensures Dead(c, After(c, y, steps))
    decreases |steps|
  {
    if steps == [] {
    } else {
      assert steps[0] == TakeCompletion;
      DeadStays(c, Do(c, y, steps[0]), steps[1..]);
    }
  }

  // A round in which id alone comes, and the request list that ends it; the receiver is at mid in between.
  datatype Round = Round(id: nat, mid: Receiver, next: Receiver, list: seq<nat>)

  ghost predicate RoundOf(n: nat, r: Receiver, d: Round) {
    && r.w.num < n && d.mid.w.num < n && d.id < n && d.list != []
    && TakeTurn(r, n, [d.id], false) == Took(d.mid, []) && TakeTurn(d.mid, n, [], true) == Took(d.next, Frame(d.list))
  }

  ghost predicate Chain(n: nat, r: Receiver, rounds: seq<Round>)
    decreases |rounds|
  {
    rounds == [] || (RoundOf(n, r, rounds[0]) && Chain(n, rounds[0].next, rounds[1..]))
  }

  function Ids(rounds: seq<Round>): set<nat> {
    if rounds == [] then {} else {rounds[0].id} + Ids(rounds[1..])
  }

  function EndOf(r: Receiver, rounds: seq<Round>): Receiver
    decreases |rounds|
  {
    if rounds == [] then r else EndOf(rounds[0].next, rounds[1..])
  }

  lemma {:induction false} Rounds(c: Config, y: System, rounds: seq<Round>, most: nat) returns (steps: seq<Step>)
    requires Waiting(c, y) && Chain(c.n, y.r, rounds)
    requires forall i :: 0 <= i < |rounds| ==> |rounds[i].list| <= most
    requires if y.asked != [] then |y.asked[0]| == most else rounds != [] && |rounds[0].list| == most
    ensures IsAnyRun(c, y, steps)
    ensures var z := After(c, y, steps);
            Waiting(c, z) && z.r == EndOf(y.r, rounds) && z.got == y.got + Ids(rounds)
    decreases |rounds|
  {
    if rounds == [] {
      steps := [];
    } else {
      var d := rounds[0];
      var first := Stage(c, y, d.id, d.mid, d.next, d.list);
      var z := After(c, y, first);
      var rest := Rounds(c, z, rounds[1..], most);
      AnyRunConcat(c, y, first, rest);
      steps := first + rest;
    }
  }

  lemma ChainFirst(n: nat, r: Receiver, d: Round, rest: seq<Round>)
    requires RoundOf(n, r, d) && Chain(n, d.next, rest)
    ensures Chain(n, r, [d] + rest)
    ensures EndOf(r, [d] + rest) == EndOf(d.next, rest) && Ids([d] + rest) == {d.id} + Ids(rest)
  {
    assert ([d] + rest)[1..] == rest;
  }

  lemma ChainOfFour(n: nat, r: Receiver, d0: Round, d1: Round, d2: Round, d3: Round)
    requires RoundOf(n, r, d0) && RoundOf(n, d0.next, d1) && RoundOf(n, d1.next, d2) && RoundOf(n, d2.next, d3)
    requires |d1.list| <= |d0.list| && |d2.list| <= |d0.list| && |d3.list| <= |d0.list|
    ensures forall i :: 0 <= i < 4 ==> |[d0, d1, d2, d3][i].list| <= |d0.list|
    ensures var rounds := [d0, d1, d2, d3];
            Chain(n, r, rounds) && EndOf(r, rounds) == d3.next && Ids(rounds) == {d0.id, d1.id, d2.id, d3.id}
  {
    ChainFirst(n, d2.next, d3, []);
    ChainFirst(n, d1.next, d2, [d3] + []);
    ChainFirst(n, d0.next, d1, [d2] + ([d3] + []));
    ChainFirst(n, r, d0, [d1] + ([d2] + ([d3] + [])));
    assert [d0] + ([d1] + ([d2] + ([d3] + []))) == [d0, d1, d2, d3];
  }

  // In four rounds of a transfer of five blocks 0, 2, 3 and 2 come and 4 never does; the receiver goes
  // from r0 to r4.
  lemma FourRounds(r0: Receiver, r1: Receiver, r2: Receiver, r3: Receiver, r4: Receiver) returns (rounds: seq<Round>)
    requires r0.w.num < 5 && r1.w.num < 5 && r2.w.num < 5 && r3.w.num < 5 && r4.w.num < 5
    requires TakeTurn(FRESH, 5, [0], false) == Took(r0, [])
    requires TakeTurn(r0, 5, [], true) == Took(r1, Frame([1, 2, 3, 4]))
    requires TakeTurn(r1, 5, [2], false) == Took(r2, []) && TakeTurn(r2, 5, [], true) == Took(r2, Frame([1, 2, 3]))
    requires TakeTurn(r2, 5, [3], false) == Took(r3, []) && TakeTurn(r3, 5, [], true) == Took(r3, Frame([1, 2]))
    requires TakeTurn(r3, 5, [2], false) == Took(r4, []) && TakeTurn(r4, 5, [], true) == Took(r4, Frame([1]))
    ensures Chain(5, FRESH, rounds) && EndOf(FRESH, rounds) == r4 && Ids(rounds) == {0, 2, 3}
    ensures |rounds| == 4 && |rounds[0].list| == 4 && forall i :: 0 <= i < 4 ==> |rounds[i].list| <= 4
  {
    var d0, d1 := Round(0, r0, r1, [1, 2, 3, 4]), Round(2, r2, r2, [1, 2, 3]);
    var d2, d3 := Round(3, r3, r3, [1, 2]), Round(2, r4, r4, [1]);
    assert RoundOf(5, FRESH, d0) && RoundOf(5, r1, d1) && RoundOf(5, r2, d2) && RoundOf(5, r3, d3);
    ChainOfFour(5, FRESH, d0, d1, d2, d3);
    rounds := [d0, d1, d2, d3];
  }

  // The last of five arrivals is counted, and nothing follows.
  lemma LastArrival(c: Config, a: System, r5: Receiver)
    requires Waiting(c, a) && c.n == 5 && a.got == {0, 2, 3} && a.r.w.num < 5
    requires TakeTurn(a.r, 5, [1], false) == Took(r5, []) && r5.w.num == 5
    ensures IsAnyRun(c, a, [Turn([1])])
    ensures var z := After(c, a, [Turn([1])]); !z.failed && z.r.w.num == 5 && 4 !in z.got && Dead(c, z)
  {
    Delivered(c, a, 1, r5);
    assert [Turn([1])] == [Turn([1])] + [];
    AnyStepFirst(c, a, Turn([1]), []);
  }

  lemma CountsOfTheRun()
    ensures R0.w.num == R1.w.num == 1 && R2.w.num == 2 && R3.w.num == 3 && R4.w.num == 4 && R5.w.num == 5
  {
  }

  // The rounds of LossesAloneLoseABlock (TailPadding) with the sender and the stream: every block
  // delivered after the first was asked for by the last request read. Nothing fails; the receiver has
  // counted five blocks and left its loop without block 4, and over every continuation the sender
  // stays in its loop.
  lemma {:induction false} LossesStrandTheSender(c: Config, y: System) returns (steps: seq<Step>)
    requires Start(c, y) && c.n == 5
    ensures IsAnyRun(c, y, steps)
    ensures var z := After(c, y, steps);
            && !z.failed && z.r.w.num == 5 && 4 !in z.got
            && forall more: seq<Step> | IsAnyRun(c, z, more) :: !After(c, z, more).s.finished
  {
    CountsOfTheRun();
    LossesAloneLoseABlock();
    StartSound(c, y);
    var first := SendsAll(c, y);
    var a := After(c, y, first);
    var rounds := FourRounds(R0, R1, R2, R3, R4);
    var second := Rounds(c, a, rounds, 4);
    LastArrival(c, After(c, a, second), R5);
    AnyRunConcat(c, a, second, [Turn([1])]);
    AnyRunConcat(c, y, first, second + [Turn([1])]);
    steps := first + (second + [Turn([1])]);
    var z := After(c, y, steps);
    forall more: seq<Step> | IsAnyRun(c, z, more) ensures !After(c, z, more).s.finished {
      DeadStays(c, z, more);
    }
  }
}
