// switch1.cpp: the ring of delayed packets between the sniffing thread and the sending thread.
module DelayRing {
  const DELAY_BUF_SIZE := 4096
  const DELAY_NS := 1000000

  // DelayedPacket; data stands for the frame and its size.
  datatype Delayed<D> = Delayed(data: D, sendTime: int, valid: bool)

  // A packet as the queue sees it.
  datatype Entry<D> = Entry(data: D, sendTime: int)

  // delay_buf, _head and _tail.
  datatype Ring<D> = Ring(slots: seq<Delayed<D>>, head: nat, tail: nat)

  function Next(i: nat): (j: nat)
    ensures j < DELAY_BUF_SIZE
  {
    (i + 1) % DELAY_BUF_SIZE
  }

  // recvfrom writes straight into the head slot, whether or not the packet will be delayed.
  function Received<D>(g: Ring<D>, data: D): Ring<D>
    requires g.head < |g.slots|
  {
    g.(slots := g.slots[g.head := g.slots[g.head].(data := data)])
  }

  // Lines 379-383: the packet in the head slot is to go out after the delay.
  function Queued<D>(g: Ring<D>, now: int): Ring<D>
    requires g.head < |g.slots|
  {
    g.(slots := g.slots[g.head := g.slots[g.head].(sendTime := now + DELAY_NS, valid := true)], head := Next(g.head))
  }

  // The guard of lines 261-263 for a clock reading.
  predicate Due<D>(g: Ring<D>, now: int)
    requires g.tail < |g.slots|
  {
    g.tail != g.head && g.slots[g.tail].valid && now >= g.slots[g.tail].sendTime
  }

  function Sent<D>(g: Ring<D>): Ring<D>
    requires g.tail < |g.slots|
  {
    g.(slots := g.slots[g.tail := g.slots[g.tail].(valid := false)], tail := Next(g.tail))
  }

  // ---------------------------------------------------------------- the queue it stands for

  // How far slot i is from the tail, going round.
  function Distance(tail: nat, i: nat): nat
    requires tail < DELAY_BUF_SIZE && i < DELAY_BUF_SIZE
  {
    if i >= tail then i - tail else i + DELAY_BUF_SIZE - tail
  }

  // The ring holds q in order from the tail to the head, and valid marks exactly those slots.
  ghost predicate Holds<D>(g: Ring<D>, q: seq<Entry<D>>) {
    && |g.slots| == DELAY_BUF_SIZE && g.tail < DELAY_BUF_SIZE && g.head < DELAY_BUF_SIZE
    && |q| < DELAY_BUF_SIZE && Distance(g.tail, g.head) == |q|
    && forall i :: 0 <= i < DELAY_BUF_SIZE ==>
         && (g.slots[i].valid <==> Distance(g.tail, i) < |q|)
         && (Distance(g.tail, i) < |q| ==>
               q[Distance(g.tail, i)] == Entry(g.slots[i].data, g.slots[i].sendTime))
  }

  lemma ReceivedHolds<D>(g: Ring<D>, q: seq<Entry<D>>, data: D)
    requires Holds(g, q)
    ensures Holds(Received(g, data), q)
  {
  }

  // Queueing appends to the queue if and only if fewer than DELAY_BUF_SIZE - 1 packets wait: one more
  // and the head meets the tail, so that a full ring looks empty.
  lemma QueuedHoldsExactly<D>(g: Ring<D>, q: seq<Entry<D>>, now: int)
    requires Holds(g, q)
    ensures Holds(Queued(g, now), q + [Entry(g.slots[g.head].data, now + DELAY_NS)]) <==> |q| < DELAY_BUF_SIZE - 1
    ensures |q| == DELAY_BUF_SIZE - 1 ==> Queued(g, now).head == g.tail
  {
    var more := q + [Entry(g.slots[g.head].data, now + DELAY_NS)];
    var h := Queued(g, now);
    if |q| < DELAY_BUF_SIZE - 1 {
      forall i | 0 <= i < DELAY_BUF_SIZE
        ensures h.slots[i].valid <==> Distance(h.tail, i) < |more|
        ensures Distance(h.tail, i) < |more| ==>
                  more[Distance(h.tail, i)] == Entry(h.slots[i].data, h.slots[i].sendTime)
      {
      }
    }
  }

  // Any frames received one after the other into the head slot.
  function ReceivedAll<D>(g: Ring<D>, ds: seq<D>): (h: Ring<D>)
    requires g.head < |g.slots|
    ensures h.head == g.head && h.tail == g.tail && |h.slots| == |g.slots|
    decreases |ds|
  {
    if ds == [] then g else ReceivedAll(Received(g, ds[0]), ds[1..])
  }

  // Only the last one is left.
  lemma {:induction false} LastReceived<D>(g: Ring<D>, ds: seq<D>)
    requires g.head < |g.slots| && ds != []
    ensures ReceivedAll(g, ds) == Received(g, ds[|ds| - 1])
    decreases |ds|
  {
    if |ds| == 1 {
    } else {
      LastReceived(Received(g, ds[0]), ds[1..]);
    }
  }

  // One packet more: the ring looks empty, so that nothing is sent at any clock reading, whatever is
  // received meanwhile, until another packet is queued; that one, in the oldest packet's slot, is then
  // the next to leave, and the oldest never does.
  lemma FullRingStalls<D>(g: Ring<D>, q: seq<Entry<D>>, data: D, now: int, ds: seq<D>, later: int)
    requires Holds(g, q) && |q| == DELAY_BUF_SIZE - 1
    ensures var h := Queued(Received(g, data), now);
            && (forall t :: !Due(h, t)) && (forall t :: !Due(ReceivedAll(h, ds), t))
            && (ds != [] ==>
                  var k := Queued(ReceivedAll(h, ds), later);
                  && Entry(k.slots[k.tail].data, k.slots[k.tail].sendTime) == Entry(ds[|ds| - 1], later + DELAY_NS)
                  && forall t :: Due(k, t) <==> t >= later + DELAY_NS)
  {
    QueuedHoldsExactly(Received(g, data), q, now) by { ReceivedHolds(g, q, data); }
    MetRingStalls(Queued(Received(g, data), now), ds, later);
  }

  // The same of any ring whose head has met its tail.
  lemma MetRingStalls<D>(h: Ring<D>, ds: seq<D>, later: int)
    requires Shaped(h) && h.head == h.tail
    ensures (forall t :: !Due(h, t)) && (forall t :: !Due(ReceivedAll(h, ds), t))
    ensures ds != [] ==>
              var k := Queued(ReceivedAll(h, ds), later);
              && Entry(k.slots[k.tail].data, k.slots[k.tail].sendTime) == Entry(ds[|ds| - 1], later + DELAY_NS)
              && forall t :: Due(k, t) <==> t >= later + DELAY_NS
  {
    if ds != [] { LastReceived(h, ds); }
  }

  // The sending thread takes the oldest packet, and does so exactly when that one is due.
  lemma SentHolds<D>(g: Ring<D>, q: seq<Entry<D>>, now: int)
    requires Holds(g, q)
    ensures Due(g, now) <==> q != [] && now >= q[0].sendTime
    ensures q != [] ==> Holds(Sent(g), q[1..]) && Entry(g.slots[g.tail].data, g.slots[g.tail].sendTime) == q[0]
  {
    if q != [] {
      var h := Sent(g);
      forall i | 0 <= i < DELAY_BUF_SIZE
        ensures h.slots[i].valid <==> Distance(h.tail, i) < |q| - 1
        ensures Distance(h.tail, i) < |q| - 1 ==>
                  q[1..][Distance(h.tail, i)] == Entry(h.slots[i].data, h.slots[i].sendTime)
      {
      }
    }
  }

  // ---------------------------------------------------------------- one pass of the sending thread

  // Lines 261-270: packets leave as long as the oldest is due at the next clock reading.
  function Left<D>(g: Ring<D>, readings: seq<int>): seq<Entry<D>>
    requires Shaped(g)
    decreases |readings|
  {
    if readings == [] || !Due(g, readings[0]) then []
    else [Entry(g.slots[g.tail].data, g.slots[g.tail].sendTime)] + Left(Sent(g), readings[1..])
  }

  function Passed<D>(g: Ring<D>, readings: seq<int>): Ring<D>
    requires Shaped(g)
    decreases |readings|
  {
    if readings == [] || !Due(g, readings[0]) then g else Passed(Sent(g), readings[1..])
  }

  predicate Shaped<D>(g: Ring<D>) {
    |g.slots| == DELAY_BUF_SIZE && g.tail < DELAY_BUF_SIZE && g.head < DELAY_BUF_SIZE
  }

  ghost predicate Nondecreasing(ts: seq<int>) {
    forall i, j :: 0 <= i < j < |ts| ==> ts[i] <= ts[j]
  }

  ghost predicate InDueOrder<D>(q: seq<Entry<D>>) {
    forall i, j :: 0 <= i < j < |q| ==> q[i].sendTime <= q[j].sendTime
  }

  lemma {:induction false} PassSendsFront<D>(g: Ring<D>, q: seq<Entry<D>>, readings: seq<int>)
    requires Holds(g, q)
    ensures var out := Left(g, readings);
            && |out| <= |q| && |out| <= |readings| && out == q[..|out|] && Holds(Passed(g, readings), q[|out|..])
            && (forall k :: 0 <= k < |out| ==> readings[k] >= out[k].sendTime)
            && (|out| < |readings| && |out| < |q| ==> readings[|out|] < q[|out|].sendTime)
    decreases |readings|
  {
    if readings == [] {
    } else {
      SentHolds(g, q, readings[0]);
      if Due(g, readings[0]) {
        PassSendsFront(Sent(g), q[1..], readings[1..]);
        FrontThenRest(q, |Left(Sent(g), readings[1..])|);
      }
    }
  }

  lemma FrontThenRest<T>(q: seq<T>, n: nat)
    requires 1 + n <= |q|
    ensures q[1..][n..] == q[1 + n..] && q[..1 + n] == [q[0]] + q[1..][..n]
  {
  }

  // A pass sends the front of the queue in order, each packet due when it goes; and when it stops with
  // a clock reading to spare, no packet left behind was due at that reading.
  lemma PassSendsDue<D>(g: Ring<D>, q: seq<Entry<D>>, readings: seq<int>)
    requires Holds(g, q) && InDueOrder(q)
    ensures var out := Left(g, readings);
            && |out| <= |q| && out == q[..|out|] && Holds(Passed(g, readings), q[|out|..])
            && |out| <= |readings| && (forall k :: 0 <= k < |out| ==> readings[k] >= out[k].sendTime)
            && (|out| < |readings| ==> forall k :: |out| <= k < |q| ==> readings[|out|] < q[k].sendTime)
  {
    PassSendsFront(g, q, readings);
  }

  lemma PassStep<D>(g: Ring<D>, readings: seq<int>, i: nat)
    requires Shaped(g) && i < |readings|
    ensures Left(g, readings[i..]) ==
            if Due(g, readings[i])
            then [Entry(g.slots[g.tail].data, g.slots[g.tail].sendTime)] + Left(Sent(g), readings[i + 1..]) else []
    ensures Passed(g, readings[i..]) == if Due(g, readings[i]) then Passed(Sent(g), readings[i + 1..]) else g
  {
    assert readings[i..][1..] == readings[i + 1..];
  }

  class DelayBuffer<D(0)> {
    const slots: array<Delayed<D>>
    var head: nat
    var tail: nat

    ghost function View(): Ring<D>
      reads this, slots
    {
      Ring(slots[..], head, tail)
    }

    ghost predicate Valid()
      reads this
    {
      slots.Length == DELAY_BUF_SIZE && head < DELAY_BUF_SIZE && tail < DELAY_BUF_SIZE
    }

    constructor (blank: D)
      ensures Valid() && Holds(View(), []) && fresh(slots)
    {
      slots := new Delayed<D>[DELAY_BUF_SIZE](_ => Delayed(blank, 0, false));
      head, tail := 0, 0;
    }

    method Receive(data: D)
      requires Valid()
      modifies slots
      ensures View() == Received(old(View()), data)
    {
      slots[head] := slots[head].(data := data);
    }

    method Queue(now: int)
      requires Valid()
      modifies this`head, slots
      ensures Valid() && View() == Queued(old(View()), now)
    {
      slots[head] := slots[head].(sendTime := now + DELAY_NS, valid := true);
      head := (head + 1) % DELAY_BUF_SIZE;
    }

    // One pass of the sending loop, given the clock readings it will make.
    method SendPass(readings: seq<int>) returns (out: seq<Entry<D>>)
      requires Valid()
      modifies this`tail, slots
      ensures Valid() && out == Left(old(View()), readings) && View() == Passed(old(View()), readings)
    {
      out := [];
      var i := 0;
      assert readings[0..] == readings;
      while tail != head && i < |readings|
        invariant Valid() && i <= |readings| && head == old(head)
        invariant out + Left(View(), readings[i..]) == Left(old(View()), readings)
        invariant Passed(View(), readings[i..]) == Passed(old(View()), readings)
        decreases |readings| - i
      {
        PassStep(View(), readings, i);
        if !(slots[tail].valid && readings[i] >= slots[tail].sendTime) {
          break;
        }
        var sent := SendFront();
        out := out + [sent];
        i := i + 1;
      }
    }

    // The packet at the tail leaves.
    method SendFront() returns (sent: Entry<D>)
      requires Valid()
      modifies this`tail, slots
      ensures Valid() && View() == Sent(old(View()))
      ensures sent == Entry(old(slots[tail].data), old(slots[tail].sendTime))
    {
      sent := Entry(slots[tail].data, slots[tail].sendTime);
      slots[tail] := slots[tail].(valid := false);
      tail := (tail + 1) % DELAY_BUF_SIZE;
    }
  }

  // ---------------------------------------------------------------- both threads over a whole run

  // Arrive: a frame is received and then delayed or not. Poll: the sending thread looks at the clock.
  datatype Step<D> = Arrive(data: D, delayed: bool, now: int) | Poll(now: int)

  // queued and sent are history, sent with the time each packet left; clock is the last reading.
  datatype System<D> = System(g: Ring<D>, queued: seq<Entry<D>>, sent: seq<Entry<D>>, sentAt: seq<int>, clock: int)

  // The clock never goes back, and a frame to be delayed finds a slot to spare.
  predicate Enabled<D>(y: System<D>, step: Step<D>)
    requires Shaped(y.g)
  {
    && step.now >= y.clock
    && (step.Arrive? && step.delayed ==> Distance(y.g.tail, y.g.head) < DELAY_BUF_SIZE - 1)
  }

  function Do<D>(y: System<D>, step: Step<D>): (z: System<D>)
    requires Shaped(y.g)
    ensures Shaped(z.g)
  {
    match step
    case Arrive(data, delayed, now) =>
      var g := Received(y.g, data);
      if delayed then y.(g := Queued(g, now), queued := y.queued + [Entry(data, now + DELAY_NS)], clock := now)
      else y.(g := g, clock := now)
    case Poll(now) =>
      if Due(y.g, now) then
        y.(g := Sent(y.g), sent := y.sent + [Entry(y.g.slots[y.g.tail].data, y.g.slots[y.g.tail].sendTime)],
           sentAt := y.sentAt + [now], clock := now)
      else y.(clock := now)
  }

  ghost predicate Inv<D>(y: System<D>) {
    && |y.sent| <= |y.queued| && y.sent == y.queued[..|y.sent|] && Holds(y.g, y.queued[|y.sent|..])
    && InDueOrder(y.queued) && (forall k :: 0 <= k < |y.queued| ==> y.queued[k].sendTime <= y.clock + DELAY_NS)
    && |y.sentAt| == |y.sent| && Nondecreasing(y.sentAt)
    && forall k :: 0 <= k < |y.sent| ==> y.sent[k].sendTime <= y.sentAt[k] <= y.clock
  }

  lemma StepInv<D>(y: System<D>, step: Step<D>)
    requires Inv(y) && Enabled(y, step)
    ensures Inv(Do(y, step))
  {
    match step {
      case Arrive(data, delayed, now) => ArriveInv(y, data, delayed, now);
      case Poll(now) => PollInv(y, now);
    }
  }

  lemma ArriveInv<D>(y: System<D>, data: D, delayed: bool, now: int)
    requires Inv(y) && Enabled(y, Arrive(data, delayed, now))
    ensures Inv(Do(y, Arrive(data, delayed, now)))
  {
    var q := y.queued[|y.sent|..];
    ReceivedHolds(y.g, q, data);
    if delayed {
      QueuedHoldsExactly(Received(y.g, data), q, now);
      QueueGrows(y.queued, |y.sent|, Entry(data, now + DELAY_NS));
    }
  }

  lemma QueueGrows<T>(queued: seq<T>, sent: nat, e: T)
    requires sent <= |queued|
    ensures (queued + [e])[sent..] == queued[sent..] + [e] && (queued + [e])[..sent] == queued[..sent]
  {
  }

  lemma PollInv<D>(y: System<D>, now: int)
    requires Inv(y) && Enabled(y, Poll(now))
    ensures Inv(Do(y, Poll(now)))
  {
    var q := y.queued[|y.sent|..];
    SentHolds(y.g, q, now);
    if Due(y.g, now) {
      assert y.queued[|y.sent| + 1..] == q[1..];
      assert y.queued[..|y.sent| + 1] == y.queued[..|y.sent|] + [q[0]];
    }
  }

  predicate IsRun<D>(y: System<D>, steps: seq<Step<D>>)
    requires Shaped(y.g)
    decreases |steps|
  {
    steps == [] || (Enabled(y, steps[0]) && IsRun(Do(y, steps[0]), steps[1..]))
  }

  function After<D>(y: System<D>, steps: seq<Step<D>>): (z: System<D>)
    requires Shaped(y.g)
    ensures Shaped(z.g)
    decreases |steps|
  {
    if steps == [] then y else After(Do(y, steps[0]), steps[1..])
  }

  lemma {:induction false} RunInv<D>(y: System<D>, steps: seq<Step<D>>)
    requires Inv(y) && IsRun(y, steps)
    ensures Inv(After(y, steps))
    decreases |steps|
  {
    if steps == [] {
    } else {
      StepInv(y, steps[0]);
      RunInv(Do(y, steps[0]), steps[1..]);
    }
  }

  ghost predicate Start<D>(y: System<D>) {
    Holds(y.g, []) && y == System(y.g, [], [], [], y.clock)
  }

  // Over every run: packets leave in the order they were queued, each once and none before its time;
  // those that have not left are what the ring holds, in order, and valid marks them and nothing else.
  lemma RingIsQueue<D>(y: System<D>, steps: seq<Step<D>>)
    requires Start(y) && IsRun(y, steps)
    ensures var z := After(y, steps);
            && |z.sent| == |z.sentAt| <= |z.queued| && z.sent == z.queued[..|z.sent|]
            && Holds(z.g, z.queued[|z.sent|..])
            && (forall k :: 0 <= k < |z.sent| ==> z.sentAt[k] >= z.sent[k].sendTime)
            && Nondecreasing(z.sentAt) && InDueOrder(z.queued)
  {
    RunInv(y, steps);
  }

  // When the sending thread looks at the clock, the next packet leaves exactly if its time has come.
  lemma PollSends<D>(y: System<D>, steps: seq<Step<D>>, now: int)
    requires Start(y) && IsRun(y, steps) && Enabled(After(y, steps), Poll(now))
    ensures var z := After(y, steps);
            var next := Do(z, Poll(now));
            && next.queued == z.queued
            && |next.sent| == |z.sent| +
                 if |z.sent| < |z.queued| && z.queued[|z.sent|].sendTime <= now then 1 else 0
  {
    RunInv(y, steps);
    var z := After(y, steps);
    SentHolds(z.g, z.queued[|z.sent|..], now);
  }

  // ---------------------------------------------------------------- a run that fills the ring

  // m packets are queued before the sending thread looks at the clock.
  lemma {:induction false} FillsUp<D>(y: System<D>, data: D, m: nat) returns (steps: seq<Step<D>>)
    requires Inv(y) && |y.queued| - |y.sent| + m <= DELAY_BUF_SIZE - 1
    ensures IsRun(y, steps)
    ensures var z := After(y, steps); Inv(z) && |z.queued| == |y.queued| + m && z.sent == y.sent
    decreases m
  {
    if m == 0 {
      steps := [];
    } else {
      var step := Step.Arrive(data, true, y.clock);
      StepInv(y, step);
      var rest := FillsUp(Do(y, step), data, m - 1);
      assert ([step] + rest)[1..] == rest;
      steps := [step] + rest;
    }
  }

  // From an empty ring: 4095 packets wait, and the next one stalls it.
  lemma {:induction false} FullRingReached<D>(y: System<D>, data: D) returns (steps: seq<Step<D>>)
    requires Start(y)
    ensures IsRun(y, steps)
    ensures var z := After(y, steps);
            && z.sent == [] && |z.queued| == DELAY_BUF_SIZE - 1 && Holds(z.g, z.queued)
            && forall now, t :: !Due(Queued(Received(z.g, data), now), t)
  {
    steps := FillsUp(y, data, DELAY_BUF_SIZE - 1);
    var z := After(y, steps);
    assert z.queued[|z.sent|..] == z.queued;
    forall now, t ensures !Due(Queued(Received(z.g, data), now), t) {
      FullRingStalls(z.g, z.queued, data, now, [], now);
    }
  }
}
