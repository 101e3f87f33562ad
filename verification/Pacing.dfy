// timer.h: the pacing timer of the sending loop.
module Pacing {
  import opened Arithmetic

  // Truncation of seconds to whole nanoseconds by duration_cast.
  function Nanos(seconds: real): (ns: int)
    ensures seconds >= 0.0 ==> ns >= 0 && ns as real <= seconds * 1000000000.0 < ns as real + 1.0
    ensures seconds <= 0.0 ==> ns <= 0 && ns as real - 1.0 < seconds * 1000000000.0 <= ns as real
  {
    var x := seconds * 1000000000.0;
    if x >= 0.0 then x.Floor else -((-x).Floor)
  }

  // The fields of Timer.
  datatype Clock = Clock(interval: real, valid: bool, timeout: int)

  // A timer that fell behind is moved up to now; one that is ahead keeps its time.
  function Started(k: Clock, now: int): Clock {
    k.(valid := true, timeout := if now > k.timeout then now else k.timeout)
  }

  function Advanced(k: Clock): Clock {
    k.(timeout := k.timeout + Nanos(k.interval))
  }

  predicate TimedOut(k: Clock, now: int) {
    now >= k.timeout
  }

  class Timer {
    var interval: real
    var valid: bool
    var timeout: int

    ghost function View(): Clock
      reads this
    {
      Clock(interval, valid, timeout)
    }

    constructor (interval: real, now: int)
      ensures View() == Clock(interval, false, now)
    {
      this.interval, valid, timeout := interval, false, now;
    }

    method Start(now: int)
      modifies this
      ensures View() == Started(old(View()), now)
      ensures valid && timeout >= now && timeout >= old(timeout) && (timeout == now || timeout == old(timeout))
    {
      if !valid { valid := true; }
      timeout := if now > timeout then now else timeout;
    }

    method Pause()
      modifies this
      ensures View() == old(View()).(valid := false)
    {
      valid := false;
    }

    method UpdateTimeOut()
      modifies this
      ensures View() == Advanced(old(View()))
    {
      timeout := timeout + Nanos(interval);
    }

    method UpdateInterval(interval: real)
      modifies this
      ensures View() == old(View()).(interval := interval)
    {
      this.interval := interval;
    }

    method IsTimeOut(now: int) returns (due: bool)
      ensures due == TimedOut(View(), now)
    {
      due := now >= timeout;
    }
  }

  // ---------------------------------------------------------------- the sending loop under the timer

  // psize bytes a block; init_rate in Gbit/s, that is in bits per nanosecond.
  datatype Setting = Setting(psize: nat, initRate: real)

  // RateController's constructor.
  function InitInterval(s: Setting): real
    requires s.initRate > 0.0
  {
    (s.psize * 8) as real / (s.initRate * 1000000000.0)
  }

  // A start of the timer, and how many blocks had been posted by then.
  datatype Restart = Restart(now: int, posted: nat)

  // The timer and the rate in force. The rest is history: when each block was posted, the rate its
  // interval was taken from, that interval, and the starts of the timer.
  datatype Paced = Paced(timer: Clock, rate: real, posts: seq<int>, rates: seq<real>, charged: seq<real>,
                         starts: seq<Restart>)

  // NewRate: a reply; First: the timer is started; Post: a block goes out.
  datatype Step = NewRate(rate: real) | First(now: int) | Post(now: int)

  // Lines 676-677 of StreamControl.cpp let a block out when there is a rate and the timer has run out.
  predicate Enabled(s: Setting, y: Paced, step: Step) {
    match step
    case NewRate(rate) => 0.0 <= rate <= s.initRate
    case First(_) => true
    case Post(now) => y.rate > 0.0 && TimedOut(y.timer, now)
  }

  function Do(s: Setting, y: Paced, step: Step): Paced
    requires s.initRate > 0.0
  {
    match step
    case NewRate(rate) =>
      y.(rate := rate, timer := if rate > 0.0 then y.timer.(interval := IntervalFor(s, rate)) else y.timer)
    case First(now) =>
      y.(timer := Started(y.timer, now), starts := y.starts + [Restart(now, |y.posts|)])
    case Post(now) =>
      y.(timer := Advanced(y.timer), posts := y.posts + [now], rates := y.rates + [y.rate],
         charged := y.charged + [y.timer.interval])
  }

  predicate IsRun(s: Setting, y: Paced, steps: seq<Step>)
    requires s.initRate > 0.0
    decreases |steps|
  {
    steps == [] || (Enabled(s, y, steps[0]) && IsRun(s, Do(s, y, steps[0]), steps[1..]))
  }

  function After(s: Setting, y: Paced, steps: seq<Step>): Paced
    requires s.initRate > 0.0
    decreases |steps|
  {
    if steps == [] then y else After(s, Do(s, y, steps[0]), steps[1..])
  }

  // Nothing is sent before the first rate.
  ghost predicate Begins(s: Setting, y: Paced, start: int) {
    s.initRate > 0.0 && y == Paced(Clock(InitInterval(s), false, start), 0.0, [], [], [], [])
  }

  function SumNanos(xs: seq<real>): int {
    if xs == [] then 0 else SumNanos(xs[..|xs| - 1]) + Nanos(xs[|xs| - 1])
  }

  lemma SumNanosSnoc(xs: seq<real>, x: real)
    ensures SumNanos(xs + [x]) == SumNanos(xs) + Nanos(x)
  {
    assert (xs + [x])[..|xs|] == xs;
  }

  // An interval is worth one block at its rate, and is never shorter than the initial one.
  ghost predicate Worth(s: Setting, interval: real, rate: real) {
    && s.initRate > 0.0 && 0.0 < rate <= s.initRate
    && interval * rate * 1000000000.0 == (s.psize * 8) as real && interval >= InitInterval(s) >= 0.0
  }

  lemma RateSetsInterval(s: Setting, rate: real)
    requires 0.0 < rate <= s.initRate
    ensures Worth(s, IntervalFor(s, rate), rate)
  {
    var bits := (s.psize * 8) as real;
    var first := InitInterval(s);
    assert first * (s.initRate * 1000000000.0) == bits;
    var x := IntervalFor(s, rate);
    assert x * rate == first * s.initRate;
    NotShorter(first, s.initRate, x, rate);
  }

  lemma NotShorter(a: real, r: real, x: real, q: real)
    requires 0.0 < q <= r && a >= 0.0 && x * q == a * r
    ensures x >= a
  {
    assert a * r >= a * q by { assert a * (r - q) >= 0.0; }
    assert (a - x) * q == a * q - x * q;
    if x < a { MulPos(a - x, q); }
  }

  ghost predicate AllWorth(s: Setting, charged: seq<real>, rates: seq<real>)
    requires |charged| == |rates|
  {
    charged == [] ||
    (var n := |charged| - 1; AllWorth(s, charged[..n], rates[..n]) && Worth(s, charged[n], rates[n]))
  }

  lemma AllWorthSnoc(s: Setting, charged: seq<real>, rates: seq<real>, interval: real, rate: real)
    requires |charged| == |rates| && AllWorth(s, charged, rates) && Worth(s, interval, rate)
    ensures AllWorth(s, charged + [interval], rates + [rate])
  {
    assert (charged + [interval])[..|charged|] == charged && (rates + [rate])[..|rates|] == rates;
  }

  lemma {:induction false} AllWorthAt(s: Setting, charged: seq<real>, rates: seq<real>, k: nat)
    requires k < |charged| == |rates| && AllWorth(s, charged, rates)
    ensures Worth(s, charged[k], rates[k])
  {
    var n := |charged| - 1;
    if k >= n {
    } else {
      AllWorthAt(s, charged[..n], rates[..n], k);
    }
  }

  ghost predicate Timed(y: Paced, start: int) {
    && |y.posts| == |y.charged| == |y.rates|
    && (forall k :: 0 <= k < |y.posts| ==> y.posts[k] >= start + SumNanos(y.charged[..k]))
    && y.timer.timeout >= start + SumNanos(y.charged)
  }

  ghost predicate Inv(s: Setting, y: Paced, start: int) {
    && Timed(y, start) && AllWorth(s, y.charged, y.rates)
    && s.initRate > 0.0 && (y.rate > 0.0 ==> Worth(s, y.timer.interval, y.rate))
  }

  lemma PostTimed(y: Paced, z: Paced, start: int, now: int)
    requires Timed(y, start) && now >= y.timer.timeout
    requires z == y.(timer := Advanced(y.timer), posts := y.posts + [now], rates := y.rates + [y.rate],
                     charged := y.charged + [y.timer.interval])
    ensures Timed(z, start)
  {
    SumNanosSnoc(y.charged, y.timer.interval);
    forall k | 0 <= k < |z.posts| ensures z.charged[..k] == y.charged[..k] {
    }
    assert y.charged[..|y.charged|] == y.charged;
  }

  // The interval a new rate sets.
  function IntervalFor(s: Setting, rate: real): real
    requires s.initRate > 0.0 && rate > 0.0
  {
    InitInterval(s) * s.initRate / rate
  }

  lemma NewRateInv(s: Setting, y: Paced, start: int, rate: real, interval: real)
    requires Inv(s, y, start) && 0.0 <= rate && (rate > 0.0 ==> Worth(s, interval, rate))
    ensures Inv(s, y.(rate := rate, timer := y.timer.(interval := interval)), start)
  {
  }

  lemma PostInv(s: Setting, y: Paced, start: int, now: int)
    requires Inv(s, y, start) && y.rate > 0.0 && now >= y.timer.timeout
    ensures Inv(s, Do(s, y, Post(now)), start)
  {
    PostTimed(y, Do(s, y, Post(now)), start, now);
    AllWorthSnoc(s, y.charged, y.rates, y.timer.interval, y.rate);
  }

  lemma StepInv(s: Setting, y: Paced, start: int, step: Step)
    requires Inv(s, y, start) && Enabled(s, y, step)
    ensures Inv(s, Do(s, y, step), start)
  {
    match step {
      case NewRate(rate) =>
        if rate > 0.0 { RateSetsInterval(s, rate); }
        NewRateInv(s, y, start, rate, if rate > 0.0 then IntervalFor(s, rate) else y.timer.interval);
      case First(_) =>
      case Post(now) => PostInv(s, y, start, now);
    }
  }

  lemma {:induction false} RunInv(s: Setting, y: Paced, start: int, steps: seq<Step>)
    requires Inv(s, y, start) && IsRun(s, y, steps)
    ensures Inv(s, After(s, y, steps), start)
    decreases |steps|
  {
    if steps == [] {
    } else {
      StepInv(s, y, start, steps[0]);
      RunInv(s, Do(s, y, steps[0]), start, steps[1..]);
    }
  }

  // Over every run of rate changes and posts: block k goes out no earlier than the start plus the
  // intervals of the blocks before it, each cut to whole nanoseconds; each of those intervals is
  // worth one block at the rate it was taken from, and none is shorter than the initial one.
  lemma PostsArePaced(s: Setting, y: Paced, start: int, steps: seq<Step>)
    requires Begins(s, y, start) && IsRun(s, y, steps)
    ensures var z := After(s, y, steps);
            && |z.posts| == |z.rates| == |z.charged|
            && forall k :: 0 <= k < |z.posts| ==>
                 && z.posts[k] >= start + SumNanos(z.charged[..k])
                 && Worth(s, z.charged[k], z.rates[k])
  {
    RunInv(s, y, start, steps);
    var z := After(s, y, steps);
    forall k | 0 <= k < |z.posts| ensures Worth(s, z.charged[k], z.rates[k]) {
      AllWorthAt(s, z.charged, z.rates, k);
    }
  }

  // The time has come for the next block: the intervals of the blocks so far have passed since the
  // beginning, and since every start of the timer those of the blocks after it.
  ghost predicate Earned(y: Paced, start: int, now: int) {
    && now >= start + SumNanos(y.charged)
    && forall j :: 0 <= j < |y.starts| && y.starts[j].posted <= |y.charged| ==>
         now >= y.starts[j].now + SumNanos(y.charged[y.starts[j].posted..])
  }

  ghost predicate Exact(y: Paced, start: int) {
    && |y.posts| == |y.charged| && (forall j :: 0 <= j < |y.starts| ==> y.starts[j].posted <= |y.charged|)
    && forall now :: TimedOut(y.timer, now) <==> Earned(y, start, now)
  }

  lemma EarnedOneMore(y: Paced, z: Paced, start: int, x: real, now: int)
    requires forall j :: 0 <= j < |y.starts| ==> y.starts[j].posted <= |y.charged|
    requires z.starts == y.starts && z.charged == y.charged + [x]
    ensures Earned(z, start, now) <==> Earned(y, start, now - Nanos(x))
  {
    SumNanosSnoc(y.charged, x);
    forall j | 0 <= j < |y.starts|
      ensures SumNanos(z.charged[y.starts[j].posted..]) == SumNanos(y.charged[y.starts[j].posted..]) + Nanos(x)
    {
      var p := y.starts[j].posted;
      assert z.charged[p..] == y.charged[p..] + [x];
      SumNanosSnoc(y.charged[p..], x);
    }
  }

  lemma EarnedAtStart(y: Paced, z: Paced, start: int, at: int, now: int)
    requires z.charged == y.charged && z.starts == y.starts + [Restart(at, |y.charged|)]
    ensures Earned(z, start, now) <==> Earned(y, start, now) && now >= at
  {
    var n := |y.starts|;
    assert z.charged[z.starts[n].posted..] == [];
    assert forall j :: 0 <= j < n ==> z.starts[j] == y.starts[j];
  }

  lemma StepExact(s: Setting, y: Paced, start: int, step: Step)
    requires Exact(y, start) && s.initRate > 0.0 && Enabled(s, y, step)
    ensures Exact(Do(s, y, step), start)
  {
    var z := Do(s, y, step);
    forall now ensures TimedOut(z.timer, now) <==> Earned(z, start, now) {
      match step {
        case NewRate(_) => assert TimedOut(y.timer, now) <==> Earned(y, start, now);
        case First(at) =>
          assert TimedOut(y.timer, now) <==> Earned(y, start, now);
          EarnedAtStart(y, z, start, at, now);
        case Post(_) =>
          var x := y.timer.interval;
          assert TimedOut(y.timer, now - Nanos(x)) <==> Earned(y, start, now - Nanos(x));
          EarnedOneMore(y, z, start, x, now);
      }
    }
  }

  lemma {:induction false} RunExact(s: Setting, y: Paced, start: int, steps: seq<Step>)
    requires Exact(y, start) && s.initRate > 0.0 && IsRun(s, y, steps)
    ensures Exact(After(s, y, steps), start)
    decreases |steps|
  {
    if steps == [] {
    } else {
      StepExact(s, y, start, steps[0]);
      RunExact(s, Do(s, y, steps[0]), start, steps[1..]);
    }
  }

  // Over every run, with the timer started anew at any time: a block can go out exactly when there is a
  // rate and the intervals charged have passed, so no block is kept longer than its pace asks for.
  lemma PostsWhenDue(s: Setting, y: Paced, start: int, steps: seq<Step>, now: int)
    requires Begins(s, y, start) && IsRun(s, y, steps)
    ensures var z := After(s, y, steps);
            Enabled(s, z, Post(now)) <==> z.rate > 0.0 && Earned(z, start, now)
  {
    RunExact(s, y, start, steps);
  }

  lemma {:induction false} RateKept(s: Setting, y: Paced, steps: seq<Step>)
    requires s.initRate > 0.0 && forall j :: 0 <= j < |steps| ==> !steps[j].NewRate?
    ensures After(s, y, steps).rate == y.rate
    decreases |steps|
  {
    if steps == [] {
    } else {
      RateKept(s, Do(s, y, steps[0]), steps[1..]);
    }
  }

  // The rate in force is the last one that came.
  lemma {:induction false} RateInForce(s: Setting, y: Paced, steps: seq<Step>, k: nat)
    requires s.initRate > 0.0 && k < |steps| && steps[k].NewRate?
    requires forall j :: k < j < |steps| ==> !steps[j].NewRate?
    ensures After(s, y, steps).rate == steps[k].rate
    decreases |steps|
  {
    if k == 0 {
      RateKept(s, Do(s, y, steps[0]), steps[1..]);
    } else {
      RateInForce(s, Do(s, y, steps[0]), steps[1..], k - 1);
    }
  }

  // One interval, a nanosecond longer, is time enough for a block at the highest rate.
  ghost predicate Fits(bits: real, interval: real, top: real) {
    bits <= top * (Nanos(interval) + 1) as real
  }

  ghost predicate AllFit(bits: real, charged: seq<real>, top: real) {
    charged == [] || (var m := |charged| - 1; AllFit(bits, charged[..m], top) && Fits(bits, charged[m], top))
  }

  lemma {:induction false} BitsWithinBudget(bits: real, charged: seq<real>, n: nat, top: real)
    requires |charged| == n && AllFit(bits, charged, top)
    ensures n as real * bits <= top * (SumNanos(charged) + n) as real
  {
    if n == 0 {
    } else {
      var m := n - 1;
      BitsWithinBudget(bits, charged[..m], m, top);
      OneBlockMore(m, bits, top, SumNanos(charged[..m]) + m, Nanos(charged[m]) + 1);
    }
  }

  lemma OneBlockMore(m: nat, bits: real, top: real, a: int, b: int)
    requires m as real * bits <= top * a as real && bits <= top * b as real
    ensures (m + 1) as real * bits <= top * (a + b) as real
  {
    assert (m + 1) as real * bits == m as real * bits + bits;
    assert top * (a + b) as real == top * a as real + top * b as real;
  }

  lemma OneBlockWithinBudget(s: Setting, interval: real, rate: real, top: real)
    requires Worth(s, interval, rate) && rate <= top
    ensures Fits((s.psize * 8) as real, interval, top)
  {
    var x := interval * 1000000000.0;
    var n := (Nanos(interval) + 1) as real;
    assert interval * rate * 1000000000.0 == rate * x;
    assert x <= n;
    assert rate * (n - x) >= 0.0;
    assert (top - rate) * n >= 0.0;
    assert rate * (n - x) == rate * n - rate * x;
    assert (top - rate) * n == top * n - rate * n;
  }

  lemma {:induction false} PrefixFits(s: Setting, charged: seq<real>, rates: seq<real>, n: nat, top: real)
    requires n <= |charged| == |rates| && AllWorth(s, charged, rates)
    requires forall k :: 0 <= k < |rates| ==> rates[k] <= top
    ensures AllFit((s.psize * 8) as real, charged[..n], top) && (n > 0 ==> top >= 0.0)
  {
    if n == 0 {
    } else {
      PrefixFits(s, charged, rates, n - 1, top);
      AllWorthAt(s, charged, rates, n - 1);
      OneBlockWithinBudget(s, charged[n - 1], rates[n - 1], top);
      assert charged[..n][..n - 1] == charged[..n - 1];
    }
  }

  lemma BitsWithinElapsed(bits: real, charged: seq<real>, n: nat, elapsed: int, top: real)
    requires |charged| == n && AllFit(bits, charged, top) && top >= 0.0
    requires SumNanos(charged) <= elapsed
    ensures n as real * bits <= top * (elapsed + n) as real
  {
    BitsWithinBudget(bits, charged, n, top);
    LaterIsMore(n, bits, top, SumNanos(charged) + n, elapsed + n);
  }

  lemma LaterIsMore(n: nat, bits: real, top: real, a: int, b: int)
    requires top >= 0.0 && a <= b && n as real * bits <= top * a as real
    ensures n as real * bits <= top * b as real
  {
    MulMonoR(a as real, b as real, top);
  }

  lemma RunFits(s: Setting, y: Paced, start: int, steps: seq<Step>, top: real)
    requires Begins(s, y, start) && IsRun(s, y, steps)
    requires var z := After(s, y, steps); |z.posts| > 0 && forall k :: 0 <= k < |z.rates| ==> z.rates[k] <= top
    ensures var z := After(s, y, steps);
            var n := |z.posts| - 1;
            && |z.charged| > n && AllFit((s.psize * 8) as real, z.charged[..n], top) && top >= 0.0
            && SumNanos(z.charged[..n]) <= z.posts[n] - start
  {
    RunInv(s, y, start, steps);
    var z := After(s, y, steps);
    PrefixFits(s, z.charged, z.rates, |z.posts|, top);
    PrefixFits(s, z.charged, z.rates, |z.posts| - 1, top);
  }

  // The bits of all blocks before the last of posts fit the rate top over the time elapsed by it, but
  // for one nanosecond a block.
  ghost predicate WithinRate(posts: seq<int>, bits: real, start: int, top: real) {
    posts != [] &&
    var n := |posts| - 1;
    n as real * bits <= top * (posts[n] - start + n) as real
  }

  lemma ChargedWithinRate(posts: seq<int>, bits: real, charged: seq<real>, start: int, top: real)
    requires |posts| == |charged| + 1 && AllFit(bits, charged, top) && top >= 0.0
    requires SumNanos(charged) <= posts[|posts| - 1] - start
    ensures WithinRate(posts, bits, start, top)
  {
    var n := |posts| - 1;
    BitsWithinElapsed(bits, charged, n, posts[n] - start, top);
  }

  // So over every run the bits posted never exceed what the highest rate in force allows.
  lemma PostsStayWithinRate(s: Setting, y: Paced, start: int, steps: seq<Step>, top: real)
    requires Begins(s, y, start) && IsRun(s, y, steps)
    requires var z := After(s, y, steps);
             |z.posts| > 0 && forall k :: 0 <= k < |z.rates| ==> z.rates[k] <= top
    ensures WithinRate(After(s, y, steps).posts, (s.psize * 8) as real, start, top)
  {
    RunFits(s, y, start, steps, top);
    var z := After(s, y, steps);
    ChargedWithinRate(z.posts, (s.psize * 8) as real, z.charged[..|z.posts| - 1], start, top);
  }
}
