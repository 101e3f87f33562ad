// caculator_factor of master.cpp: the fairness and oscillation statistics over the rate log.
module RateStats {
  import opened Arithmetic
  import opened Wrappers

  const TASKS := 3
  const WINDOW := 100

  // A line of the log: the rate of each task, None where it is null.
  type Line = ls: seq<Option<real>> | |ls| == TASKS witness [None, None, None]

  function Sum(xs: seq<real>): real {
    if xs == [] then 0.0 else Sum(xs[..|xs| - 1]) + xs[|xs| - 1]
  }

  function SumSquares(xs: seq<real>): real {
    if xs == [] then 0.0 else SumSquares(xs[..|xs| - 1]) + Squared(xs[|xs| - 1])
  }

  // std::sort.
  function Insert(x: real, ys: seq<real>): seq<real> {
    if ys == [] || x <= ys[0] then [x] + ys else [ys[0]] + Insert(x, ys[1..])
  }

  function Sorted(xs: seq<real>): (ys: seq<real>)
    ensures |ys| == |xs|
  {
    if xs == [] then [] else (InsertLength(xs[0], Sorted(xs[1..])); Insert(xs[0], Sorted(xs[1..])))
  }

  lemma {:induction false} InsertLength(x: real, ys: seq<real>)
    ensures |Insert(x, ys)| == |ys| + 1
  {
    if ys == [] {
    } else {
      InsertLength(x, ys[1..]);
    }
  }

  function Max(x: real, y: real): real {
    if x < y then y else x
  }

  // The differences of neighbouring samples.
  function Steps(xs: seq<real>): (ds: seq<real>)
    ensures |ds| == if xs == [] then 0 else |xs| - 1
  {
    if |xs| <= 1 then [] else Steps(xs[..|xs| - 1]) + [Abs(xs[|xs| - 1] - xs[|xs| - 2])]
  }

  // Lines 102-104 for a full window.
  function Oscillation(window: seq<real>): real
    requires |window| == WINDOW
  {
    Sorted(Steps(window))[(WINDOW - 1) / 2] / Max(0.000001, Sum(window) / WINDOW as real)
  }

  // Line 107: what a line with n active tasks adds, from their sum and the sum of their squares.
  function JainTerm(sum: real, powSum: real, n: nat): real
    requires powSum > 0.0 && n > 0
  {
    MulPos(powSum, n as real);
    sum * sum / (powSum * n as real)
  }

  // ---------------------------------------------------------------- what the loop sees

  // The positive samples of one task, and of one line.
  function Samples(lines: seq<Line>, i: nat): seq<real>
    requires i < TASKS
  {
    if lines == [] then []
    else
      var v := lines[|lines| - 1][i];
      var before := Samples(lines[..|lines| - 1], i);
      if v.Some? && v.value > 0.0 then before + [v.value] else before
  }

  function Positives(line: seq<Option<real>>): (xs: seq<real>)
    ensures |xs| <= |line| && forall k :: 0 <= k < |xs| ==> xs[k] > 0.0
  {
    if line == [] then []
    else
      var v := line[|line| - 1];
      var before := Positives(line[..|line| - 1]);
      if v.Some? && v.value > 0.0 then before + [v.value] else before
  }

  function Last(xs: seq<real>): (ws: seq<real>)
    ensures |ws| <= WINDOW && |ws| <= |xs|
  {
    if |xs| <= WINDOW then xs else xs[|xs| - WINDOW..]
  }

  // A sample of task i that finds its window full.
  predicate Counts(lines: seq<Line>, i: nat)
    requires lines != [] && i < TASKS
  {
    var v := lines[|lines| - 1][i];
    v.Some? && v.value > 0.0 && |Samples(lines, i)| >= WINDOW
  }

  function OscillationSum(lines: seq<Line>, i: nat): real
    requires i < TASKS
  {
    if lines == [] then 0.0
    else
      OscillationSum(lines[..|lines| - 1], i)
      + if Counts(lines, i) then Oscillation(Last(Samples(lines, i))) else 0.0
  }

  function OscillationCount(lines: seq<Line>, i: nat): nat
    requires i < TASKS
  {
    if lines == [] then 0 else OscillationCount(lines[..|lines| - 1], i) + if Counts(lines, i) then 1 else 0
  }

  function FairSum(lines: seq<Line>): real {
    if lines == [] then 0.0
    else
      var xs := Positives(lines[|lines| - 1]);
      FairSum(lines[..|lines| - 1])
      + if |xs| >= 2 then (SquaresPositive(xs); JainTerm(Sum(xs), SumSquares(xs), |xs|)) else 0.0
  }

  function FairCount(lines: seq<Line>): nat {
    if lines == [] then 0
    else FairCount(lines[..|lines| - 1]) + if |Positives(lines[|lines| - 1])| >= 2 then 1 else 0
  }

  lemma {:induction false} SquaresPositive(xs: seq<real>)
    requires forall k :: 0 <= k < |xs| ==> xs[k] > 0.0
    ensures SumSquares(xs) >= 0.0
    ensures xs != [] ==> SumSquares(xs) > 0.0
  {
    if xs == [] {
    } else {
      var front, x := xs[..|xs| - 1], xs[|xs| - 1];
      SquaresPositive(front);
      SquaredSign(x);
    }
  }

  lemma SumSnoc(xs: seq<real>, x: real)
    ensures Sum(xs + [x]) == Sum(xs) + x && SumSquares(xs + [x]) == SumSquares(xs) + Squared(x)
  {
    assert (xs + [x])[..|xs|] == xs;
  }

  lemma {:induction false} SumTail(xs: seq<real>)
    requires xs != []
    ensures Sum(xs[1..]) == Sum(xs) - xs[0]
  {
    if |xs| > 1 {
      var front := xs[..|xs| - 1];
      SumTail(front);
      assert xs[1..][..|xs| - 2] == front[1..];
    } else {
      assert xs[1..] == [] && xs[..0] == [];
    }
  }

  // ---------------------------------------------------------------- the loop

  // The window and its running sum after one more sample.
  method Slide(window: seq<real>, sum: real, x: real) returns (w: seq<real>, s: real)
    requires |window| <= WINDOW && sum == Sum(window)
    ensures w == Last(window + [x]) && s == Sum(w)
  {
    w, s := window + [x], sum + x;
    SumSnoc(window, x);
    if |w| > WINDOW {
      SumTail(w);
      s := s - w[0];
      w := w[1..];
    }
  }

  // One sample of one task: the window, its running sum and the oscillation of a full window.
  method TakeSample(window: seq<real>, sum: real, x: real) returns (w: seq<real>, s: real, osci: Option<real>)
    requires |window| <= WINDOW && sum == Sum(window)
    ensures w == Last(window + [x]) && s == Sum(w)
    ensures osci == if |w| == WINDOW then Some(Oscillation(w)) else None
    ensures osci.Some? ==> MedianOverMean(w, osci.value)
  {
    osci := None;
    w, s := Slide(window, sum, x);
    if |w| < WINDOW {
      return;
    }
    var listOsci := [];
    var i := 1;
    while i < |w|
      invariant 1 <= i <= |w| && listOsci == Steps(w[..i])
    {
      assert w[..i + 1][..i] == w[..i];
      listOsci := listOsci + [Abs(w[i] - w[i - 1])];
      i := i + 1;
    }
    assert w[..|w|] == w;
    var median := Sorted(listOsci)[(WINDOW - 1) / 2];
    osci := Some(median / Max(0.000001, s / WINDOW as real));
    OscillationMeaning(w);
  }

  lemma LastOfMore(xs: seq<real>, x: real)
    ensures Last(Last(xs) + [x]) == Last(xs + [x])
    ensures |Last(xs + [x])| == WINDOW <==> |xs + [x]| >= WINDOW
  {
  }

  lemma NextLine(lines: seq<Line>, k: nat, i: nat)
    requires k < |lines| && i < TASKS
    ensures var before, now, v := lines[..k], lines[..k + 1], lines[k][i];
            if v.Some? && v.value > 0.0
            then var w := Last(Last(Samples(before, i)) + [v.value]);
                 Last(Samples(now, i)) == w
                 && (if |w| == WINDOW
                     then OscillationSum(now, i) == OscillationSum(before, i) + Oscillation(w)
                          && OscillationCount(now, i) == OscillationCount(before, i) + 1
                     else OscillationSum(now, i) == OscillationSum(before, i)
                          && OscillationCount(now, i) == OscillationCount(before, i))
            else Samples(now, i) == Samples(before, i)
                 && OscillationSum(now, i) == OscillationSum(before, i)
                 && OscillationCount(now, i) == OscillationCount(before, i)
  {
    var before, now, v := lines[..k], lines[..k + 1], lines[k][i];
    assert now[..|now| - 1] == before && now[|now| - 1] == lines[k];
    if v.Some? && v.value > 0.0 { LastOfMore(Samples(before, i), v.value); }
  }

  // One task's part of the whole log.
  method TaskTotals(lines: seq<Line>, i: nat) returns (window: seq<real>, sum: real, total: real, count: nat)
    requires i < TASKS
    ensures window == Last(Samples(lines, i)) && sum == Sum(window)
    ensures total == OscillationSum(lines, i) && count == OscillationCount(lines, i)
  {
    window, sum, total, count := [], 0.0, 0.0, 0;
    for k := 0 to |lines|
      invariant window == Last(Samples(lines[..k], i)) && sum == Sum(window)
      invariant total == OscillationSum(lines[..k], i) && count == OscillationCount(lines[..k], i)
    {
      NextLine(lines, k, i);
      var v := lines[k][i];
      if v.Some? && v.value > 0.0 {
        var osci;
        window, sum, osci := TakeSample(window, sum, v.value);
        if osci.Some? {
          total, count := total + osci.value, count + 1;
        }
      }
    }
    assert lines[..|lines|] == lines;
  }

  // The sums over the active tasks, one task at a time.
  function Totals(line: seq<Option<real>>): (real, real, nat) {
    if line == [] then (0.0, 0.0, 0)
    else
      var (s, p, c) := Totals(line[..|line| - 1]);
      var v := line[|line| - 1];
      if v.Some? && v.value > 0.0 then (s + v.value, p + Squared(v.value), c + 1) else (s, p, c)
  }

  lemma {:induction false} TotalsAreSums(line: seq<Option<real>>)
    ensures var xs := Positives(line); Totals(line) == (Sum(xs), SumSquares(xs), |xs|)
  {
    if line == [] {
    } else {
      TotalsAreSums(line[..|line| - 1]);
      var xs, v := Positives(line[..|line| - 1]), line[|line| - 1];
      if v.Some? { SumSnoc(xs, v.value); }
    }
  }

  // The sums over the active tasks of one line.
  method LineSums(line: Line) returns (sum: real, powSum: real, count: nat)
    ensures sum == Sum(Positives(line)) && powSum == SumSquares(Positives(line)) && count == |Positives(line)|
  {
    sum, powSum, count := 0.0, 0.0, 0;
    for i := 0 to TASKS
      invariant (sum, powSum, count) == Totals(line[..i])
    {
      assert line[..i + 1][..i] == line[..i];
      var v := line[i];
      if v.Some? && v.value > 0.0 {
        sum, powSum, count := sum + v.value, powSum + Squared(v.value), count + 1;
      }
    }
    assert line[..TASKS] == line;
    TotalsAreSums(line);
  }

  // The fairness part of the whole log; it stays 0 when no line has two active tasks.
  method Fairness(lines: seq<Line>) returns (fairness: real)
    ensures FairCount(lines) == 0 ==> fairness == 0.0
    ensures FairCount(lines) > 0 ==> fairness == Stretched(FairSum(lines) / FairCount(lines) as real)
  {
    var total, count := 0.0, 0;
    for k := 0 to |lines|
      invariant total == FairSum(lines[..k]) && count == FairCount(lines[..k])
    {
      ghost var now := lines[..k + 1];
      assert now[..|now| - 1] == lines[..k] && now[|now| - 1] == lines[k];
      var shortSum, shortPowSum, shortCount := LineSums(lines[k]);
      if shortCount >= 2 {
        SquaresPositive(Positives(lines[k]));
        total, count := total + JainTerm(shortSum, shortPowSum, shortCount), count + 1;
      }
    }
    assert lines[..|lines|] == lines;
    fairness := 0.0;
    if count > 0 {
      fairness := Stretched(total / count as real);
    }
  }

  // Line 120.
  function Stretched(average: real): real {
    Max(0.0, (average - 1.0 / 3.0) / (2.0 / 3.0))
  }

  // ---------------------------------------------------------------- what the totals are

  predicate Active(v: Option<real>) {
    v.Some? && v.value > 0.0
  }

  function Column(lines: seq<Line>, i: nat): (vs: seq<Option<real>>)
    requires i < TASKS
    ensures |vs| == |lines| && forall k :: 0 <= k < |lines| ==> vs[k] == lines[k][i]
  {
    seq(|lines|, k requires 0 <= k < |lines| => lines[k][i])
  }

  // The samples of a task are the positive rates in its column.
  lemma {:induction false} SamplesArePositives(lines: seq<Line>, i: nat)
    requires i < TASKS
    ensures Samples(lines, i) == Positives(Column(lines, i))
  {
    if lines == [] {
    } else {
      var front := lines[..|lines| - 1];
      SamplesArePositives(front, i);
      assert Column(lines, i)[..|lines| - 1] == Column(front, i);
    }
  }

  // The positive rates among vs, each once and in their order.
  lemma {:induction false} PositivesAt(vs: seq<Option<real>>, k: nat)
    requires k < |vs| && Active(vs[k])
    ensures var n := |set j | 0 <= j < k && Active(vs[j])|;
            n < |Positives(vs)| && Positives(vs)[n] == vs[k].value
  {
    var front := vs[..|vs| - 1];
    if k == |vs| - 1 {
      PositivesCount(front);
      assert (set j | 0 <= j < k && Active(vs[j])) == set j | 0 <= j < |front| && Active(front[j]);
    } else {
      PositivesAt(front, k);
      assert (set j | 0 <= j < k && Active(vs[j])) == set j | 0 <= j < k && Active(front[j]);
    }
  }

  lemma {:induction false} PositivesCount(vs: seq<Option<real>>)
    ensures |Positives(vs)| == |set j | 0 <= j < |vs| && Active(vs[j])|
  {
    if vs == [] {
    } else {
      var n := |vs| - 1;
      var front := vs[..n];
      PositivesCount(front);
      var before := set j | 0 <= j < n && Active(front[j]);
      assert (set j | 0 <= j < |vs| && Active(vs[j])) == if Active(vs[n]) then before + {n} else before;
    }
  }

  // The oscillations of the first m windows of xs.
  function WindowSum(xs: seq<real>, m: nat): real
    requires m == 0 || m + 99 <= |xs|
  {
    if m == 0 then 0.0 else WindowSum(xs, m - 1) + Oscillation(xs[m - 1..m + 99])
  }

  lemma {:induction false} WindowSumSnoc(xs: seq<real>, x: real, m: nat)
    requires m == 0 || m + 99 <= |xs|
    ensures WindowSum(xs + [x], m) == WindowSum(xs, m)
  {
    if m == 0 {
    } else {
      WindowSumSnoc(xs, x, m - 1);
      assert (xs + [x])[m - 1..m + 99] == xs[m - 1..m + 99];
    }
  }

  // Every window of a hundred samples in a row counts once: of |xs| samples there are |xs| - 99.
  lemma {:induction false} TotalsAreWindows(lines: seq<Line>, i: nat)
    requires i < TASKS
    ensures var xs := Samples(lines, i);
            var m := if |xs| < 100 then 0 else |xs| - 99;
            OscillationCount(lines, i) == m && OscillationSum(lines, i) == WindowSum(xs, m)
  {
    if lines == [] {
    } else {
      var k := |lines| - 1;
      var v := lines[k][i];
      TotalsAreWindows(lines[..k], i);
      if Active(v) && |Samples(lines[..k], i)| >= 99 { OneWindowMore(Samples(lines[..k], i), v.value); }
    }
  }

  lemma LastWindow(ys: seq<real>)
    requires |ys| >= 100
    ensures ys[|ys| - 100..|ys|] == Last(ys)
  {
  }

  lemma OneWindowMore(xs: seq<real>, x: real)
    requires |xs| >= 99
    ensures var ys := xs + [x]; WindowSum(ys, |xs| - 98) == WindowSum(xs, |xs| - 99) + Oscillation(Last(ys))
  {
    LastWindow(xs + [x]);
    WindowSumSnoc(xs, x, |xs| - 99);
  }

  // ---------------------------------------------------------------- the median

  ghost predicate Ascending(xs: seq<real>) {
    forall i, j :: 0 <= i < j < |xs| ==> xs[i] <= xs[j]
  }

  lemma {:induction false} InsertPermutes(x: real, ys: seq<real>)
    ensures multiset(Insert(x, ys)) == multiset(ys) + multiset{x}
  {
    if ys == [] || x <= ys[0] {
    } else {
      InsertPermutes(x, ys[1..]);
      assert ys == [ys[0]] + ys[1..];
    }
  }

  lemma {:induction false} InsertAscending(x: real, ys: seq<real>)
    requires Ascending(ys)
    ensures Ascending(Insert(x, ys))
  {
    if ys == [] || x <= ys[0] {
    } else {
      InsertAscending(x, ys[1..]);
      InsertLeast(x, ys[1..], ys[0]);
    }
  }

  lemma {:induction false} InsertLeast(x: real, ys: seq<real>, least: real)
    requires least <= x && forall k :: 0 <= k < |ys| ==> least <= ys[k]
    ensures forall k :: 0 <= k < |Insert(x, ys)| ==> least <= Insert(x, ys)[k]
  {
    if ys == [] || x <= ys[0] {
    } else {
      InsertLeast(x, ys[1..], least);
    }
  }

  lemma {:induction false} SortedAscending(xs: seq<real>)
    ensures Ascending(Sorted(xs)) && multiset(Sorted(xs)) == multiset(xs)
  {
    if xs == [] {
    } else {
      SortedAscending(xs[1..]);
      InsertAscending(xs[0], Sorted(xs[1..]));
      InsertPermutes(xs[0], Sorted(xs[1..]));
      assert xs == [xs[0]] + xs[1..];
    }
  }

  function Below(xs: seq<real>, m: real): nat {
    if xs == [] then 0 else (if xs[0] < m then 1 else 0) + Below(xs[1..], m)
  }

  function Above(xs: seq<real>, m: real): nat {
    if xs == [] then 0 else (if xs[0] > m then 1 else 0) + Above(xs[1..], m)
  }

  lemma {:induction false} InsertCounts(x: real, ys: seq<real>, m: real)
    ensures Below(Insert(x, ys), m) == Below(ys, m) + if x < m then 1 else 0
    ensures Above(Insert(x, ys), m) == Above(ys, m) + if x > m then 1 else 0
  {
    if ys == [] || x <= ys[0] {
    } else {
      InsertCounts(x, ys[1..], m);
    }
  }

  lemma {:induction false} SortedCounts(xs: seq<real>, m: real)
    ensures Below(Sorted(xs), m) == Below(xs, m) && Above(Sorted(xs), m) == Above(xs, m)
  {
    if xs == [] {
    } else {
      SortedCounts(xs[1..], m);
      InsertCounts(xs[0], Sorted(xs[1..]), m);
    }
  }

  lemma {:induction false} AscendingCounts(ys: seq<real>, k: nat, m: real)
    requires Ascending(ys) && (forall i :: k <= i < |ys| ==> ys[i] >= m)
    ensures Below(ys, m) <= k
  {
    if ys == [] {
    } else {
      if k > 0 { AscendingCounts(ys[1..], k - 1, m); } else { AscendingCounts(ys[1..], 0, m); }
    }
  }

  lemma {:induction false} AscendingCountsAbove(ys: seq<real>, k: nat, m: real)
    requires Ascending(ys) && k < |ys| && (forall i :: 0 <= i <= k ==> ys[i] <= m)
    ensures Above(ys, m) <= |ys| - 1 - k
  {
    AboveAtMost(ys, m);
    if k > 0 { AscendingCountsAbove(ys[1..], k - 1, m); } else { AboveAtMost(ys[1..], m); }
  }

  lemma {:induction false} AboveAtMost(ys: seq<real>, m: real)
    ensures Above(ys, m) <= |ys|
  {
    if ys == [] {
    } else {
      AboveAtMost(ys[1..], m);
    }
  }

  function Jump(w: seq<real>, k: nat): real
    requires k + 1 < |w|
  {
    Abs(w[k + 1] - w[k])
  }

  // m is one of the 99 differences of neighbours in a full window, with at most 49 of them on either side.
  ghost predicate MedianJump(w: seq<real>, m: real)
    requires |w| == WINDOW
  {
    && (exists k :: 0 <= k < 99 && m == Jump(w, k))
    && |set k | 0 <= k < 99 && Jump(w, k) < m| <= 49
    && |set k | 0 <= k < 99 && Jump(w, k) > m| <= 49
  }

  // o times the mean, or times a millionth if that is more, is m.
  predicate Ratio(o: real, m: real, mean: real) {
    if mean < 0.000001 then o * 0.000001 == m else o * mean == m
  }

  ghost predicate MedianOverMean(w: seq<real>, o: real) {
    |w| == WINDOW && exists m :: MedianJump(w, m) && Ratio(o, m, Sum(w) / 100.0)
  }

  // The oscillation of a full window is the median difference of neighbours over the mean.
  lemma OscillationMeaning(w: seq<real>)
    requires |w| == WINDOW
    ensures MedianOverMean(w, Oscillation(w))
  {
    var m, mean := Sorted(Steps(w))[(WINDOW - 1) / 2], Sum(w) / 100.0;
    MedianIsJump(w, m);
    RatioIs(m, mean);
    assert Oscillation(w) == m / Max(0.000001, mean);
  }

  lemma RatioIs(m: real, mean: real)
    ensures Ratio(m / Max(0.000001, mean), m, mean)
  {
    DivTimes(m, Max(0.000001, mean));
  }

  lemma MedianIsJump(w: seq<real>, m: real)
    requires |w| == WINDOW && m == Sorted(Steps(w))[(WINDOW - 1) / 2]
    ensures MedianJump(w, m)
  {
    var ds := Steps(w);
    StepsAt(w);
    MedianOfSteps(w);
    CountsAreSets(ds, m);
    assert (set k | 0 <= k < 99 && Jump(w, k) < m) == set k | 0 <= k < |ds| && ds[k] < m;
    assert (set k | 0 <= k < 99 && Jump(w, k) > m) == set k | 0 <= k < |ds| && ds[k] > m;
    var k :| 0 <= k < |ds| && ds[k] == m;
    assert m == Jump(w, k);
  }

  lemma {:induction false} StepsAt(xs: seq<real>)
    ensures forall k :: 0 <= k < |xs| - 1 ==> Steps(xs)[k] == Jump(xs, k)
  {
    if |xs| <= 1 {
    } else {
      var front := xs[..|xs| - 1];
      StepsAt(front);
      forall k | 0 <= k < |front| - 1 ensures Steps(xs)[k] == Jump(xs, k) {
        assert Jump(xs, k) == Jump(front, k) && Steps(xs)[k] == Steps(front)[k];
      }
    }
  }

  lemma {:induction false} CountsAreSets(ds: seq<real>, m: real)
    ensures Below(ds, m) == |set k | 0 <= k < |ds| && ds[k] < m|
    ensures Above(ds, m) == |set k | 0 <= k < |ds| && ds[k] > m|
  {
    if ds == [] {
    } else {
      var front, x := ds[..|ds| - 1], ds[|ds| - 1];
      CountsAreSets(front, m);
      CountsSnoc(front, x, m);
      assert ds == front + [x];
      var low, high := set k | 0 <= k < |front| && front[k] < m, set k | 0 <= k < |front| && front[k] > m;
      assert (set k | 0 <= k < |ds| && ds[k] < m) == if x < m then low + {|front|} else low;
      assert (set k | 0 <= k < |ds| && ds[k] > m) == if x > m then high + {|front|} else high;
    }
  }

  lemma {:induction false} CountsSnoc(ds: seq<real>, x: real, m: real)
    ensures Below(ds + [x], m) == Below(ds, m) + if x < m then 1 else 0
    ensures Above(ds + [x], m) == Above(ds, m) + if x > m then 1 else 0
  {
    if ds == [] {
      assert ([] + [x])[1..] == [];
    } else {
      assert (ds + [x])[1..] == ds[1..] + [x];
      CountsSnoc(ds[1..], x, m);
    }
  }

  // The element taken from the 99 sorted differences of a full window is their median: one of them,
  // with no more than half of the other 98 on either side.
  lemma MedianOfSteps(window: seq<real>)
    requires |window| == WINDOW
    ensures var ds := Steps(window);
            var m := Sorted(ds)[(WINDOW - 1) / 2];
            |ds| == 99 && m in ds && Below(ds, m) <= 49 && Above(ds, m) <= 49
  {
    var ds := Steps(window);
    var ys := Sorted(ds);
    SortedAscending(ds);
    assert ys[49] in multiset(ys);
    SortedCounts(ds, ys[49]);
    MiddleCounts(ys);
  }

  lemma MiddleCounts(ys: seq<real>)
    requires |ys| == 99 && Ascending(ys)
    ensures Below(ys, ys[49]) <= 49 && Above(ys, ys[49]) <= 49
  {
    AscendingCounts(ys, 49, ys[49]);
    AscendingCountsAbove(ys, 49, ys[49]);
  }

  // ---------------------------------------------------------------- fairness

  // The squared distances from m.
  function Deviation(xs: seq<real>, m: real): real {
    if xs == [] then 0.0 else Deviation(xs[..|xs| - 1], m) + Squared(xs[|xs| - 1] - m)
  }

  lemma {:induction false} DeviationIs(xs: seq<real>, m: real)
    ensures Spreads(Deviation(xs, m), SumSquares(xs), Sum(xs), |xs| as real, m)
  {
    if xs == [] {
    } else {
      var front, x := xs[..|xs| - 1], xs[|xs| - 1];
      DeviationIs(front, m);
      SpreadsMore(Deviation(front, m), SumSquares(front), Sum(front), |front| as real, x, m,
                  Deviation(xs, m), SumSquares(xs), Sum(xs), |xs| as real);
    }
  }

  // d is the squared distance from m of n numbers with sum s and squares q.
  ghost predicate Spreads(d: real, q: real, s: real, n: real, m: real) {
    d == q - 2.0 * (m * s) + n * Squared(m)
  }

  lemma SpreadsMore(d: real, q: real, s: real, n: real, x: real, m: real, d1: real, q1: real, s1: real, n1: real)
    requires Spreads(d, q, s, n, m)
    requires d1 == d + Squared(x - m) && q1 == q + Squared(x) && s1 == s + x && n1 == n + 1.0
    ensures Spreads(d1, q1, s1, n1, m)
  {
    assert Squared(x - m) == Squared(x) - 2.0 * (m * x) + Squared(m);
    assert m * s1 == m * s + m * x;
    assert n1 * Squared(m) == n * Squared(m) + Squared(m);
  }

  lemma {:induction false} DeviationZero(xs: seq<real>, m: real)
    ensures Deviation(xs, m) >= 0.0
    ensures Deviation(xs, m) == 0.0 <==> forall k :: 0 <= k < |xs| ==> xs[k] == m
  {
    if xs == [] {
    } else {
      var front, x := xs[..|xs| - 1], xs[|xs| - 1];
      DeviationZero(front, m);
      SquaredSign(x - m);
      assert (forall k :: 0 <= k < |xs| ==> xs[k] == m) <==> x == m && forall k :: 0 <= k < |front| ==> front[k] == m;
    }
  }

  ghost predicate AllEqual(xs: seq<real>) {
    forall j, k :: 0 <= j < |xs| && 0 <= k < |xs| ==> xs[j] == xs[k]
  }

  // Cauchy-Schwarz: the square of the sum is at most n times the sum of the squares, and it is that
  // much exactly when the numbers are all the same.
  lemma CauchySchwarz(xs: seq<real>)
    ensures Sum(xs) * Sum(xs) <= |xs| as real * SumSquares(xs)
    ensures Sum(xs) * Sum(xs) == |xs| as real * SumSquares(xs) <==> AllEqual(xs)
  {
    if xs != [] {
      var d := DeviationFromMean(xs);
      ProductSign(|xs| as real, d);
    }
  }

  lemma DeviationFromMean(xs: seq<real>) returns (d: real)
    requires xs != []
    ensures |xs| as real * d == |xs| as real * SumSquares(xs) - Sum(xs) * Sum(xs)
    ensures d >= 0.0 && (d == 0.0 <==> AllEqual(xs))
  {
    var m := Mean(xs);
    var q, s, n;
    d, q, s, n := DeviationParts(xs, m);
    MeanSpreads(n, m, s, q, d);
  }

  lemma Mean(xs: seq<real>) returns (m: real)
    requires xs != []
    ensures m * |xs| as real == Sum(xs)
  {
    m := Sum(xs) / |xs| as real;
    DivTimes(Sum(xs), |xs| as real);
  }

  lemma DeviationParts(xs: seq<real>, m: real) returns (d: real, q: real, s: real, n: real)
    requires xs != [] && m * |xs| as real == Sum(xs)
    ensures q == SumSquares(xs) && s == Sum(xs) && n == |xs| as real && m * n == s && Spreads(d, q, s, n, m)
    ensures d >= 0.0 && (d == 0.0 <==> AllEqual(xs))
  {
    d, q, s, n := Deviation(xs, m), SumSquares(xs), Sum(xs), |xs| as real;
    DeviationIs(xs, m);
    NoDeviation(xs, m);
  }

  lemma NoDeviation(xs: seq<real>, m: real)
    requires xs != [] && m * |xs| as real == Sum(xs)
    ensures Deviation(xs, m) >= 0.0 && (Deviation(xs, m) == 0.0 <==> AllEqual(xs))
  {
    DeviationZero(xs, m);
    if AllEqual(xs) { EqualsAreMean(xs, m); }
  }

  lemma MeanSpreads(n: real, m: real, s: real, q: real, d: real)
    requires m * n == s && Spreads(d, q, s, n, m)
    ensures n * d == n * q - s * s
  {
    assert n * (m * s) == s * s;
    assert n * Squared(m) == m * s;
  }

  lemma ProductSign(n: real, d: real)
    requires n > 0.0 && d >= 0.0
    ensures n * d >= 0.0 && (n * d == 0.0 <==> d == 0.0)
  {
    if d > 0.0 { MulPos(n, d); }
  }

  lemma {:induction false} SumOfEqual(xs: seq<real>, x: real)
    requires forall k :: 0 <= k < |xs| ==> xs[k] == x
    ensures Sum(xs) == |xs| as real * x
  {
    if xs == [] {
    } else {
      SumOfEqual(xs[..|xs| - 1], x);
      MulSucc((|xs| - 1) as real, x);
    }
  }

  lemma EqualsAreMean(xs: seq<real>, m: real)
    requires xs != [] && AllEqual(xs) && m * |xs| as real == Sum(xs)
    ensures forall k :: 0 <= k < |xs| ==> xs[k] == m
  {
    SumOfEqual(xs, xs[0]);
    MulCancel(xs[0], |xs| as real, m);
    MulCancel(m, |xs| as real, xs[0]);
  }

  lemma SquareOfSum(s: real, x: real)
    ensures (s + x) * (s + x) == s * s + 2.0 * (s * x) + Squared(x)
  {
  }

  // For positive numbers the sum of the squares is at most the square of the sum.
  lemma {:induction false} SquaresAtMost(xs: seq<real>)
    requires forall k :: 0 <= k < |xs| ==> xs[k] > 0.0
    ensures Sum(xs) >= 0.0 && SumSquares(xs) <= Sum(xs) * Sum(xs)
  {
    if xs == [] {
    } else {
      var front, x := xs[..|xs| - 1], xs[|xs| - 1];
      SquaresAtMost(front);
      SquareOfSum(Sum(front), x);
      MulMonoR(0.0, Sum(front), x);
      assert Sum(xs) * Sum(xs) == Sum(front) * Sum(front) + 2.0 * (Sum(front) * x) + Squared(x);
    }
  }

  lemma JainTermBounds(xs: seq<real>)
    requires 2 <= |xs| <= 3 && forall k :: 0 <= k < |xs| ==> xs[k] > 0.0
    ensures SumSquares(xs) > 0.0
    ensures var t := JainTerm(Sum(xs), SumSquares(xs), |xs|);
            1.0 / 3.0 <= t <= 1.0 && (t == 1.0 <==> AllEqual(xs))
  {
    var s, q := TermParts(xs);
    TermBounds(s, q, |xs|, AllEqual(xs));
  }

  // Jain's index: the square of the sum over the number of rates times the sum of their squares.
  lemma JainTermIs(s: real, q: real, n: nat)
    requires q > 0.0 && n > 0
    ensures JainTerm(s, q, n) * (q * n as real) == s * s
  {
    MulPos(q, n as real);
    DivTimes(s * s, q * n as real);
  }

  lemma TermParts(xs: seq<real>) returns (s: real, q: real)
    requires xs != [] && forall k :: 0 <= k < |xs| ==> xs[k] > 0.0
    ensures s == Sum(xs) && q == SumSquares(xs) > 0.0
    ensures q <= s * s <= |xs| as real * q && (s * s == |xs| as real * q <==> AllEqual(xs))
  {
    SquaresPositive(xs);
    CauchySchwarz(xs);
    SquaresAtMost(xs);
    s, q := Sum(xs), SumSquares(xs);
  }

  lemma TermBounds(s: real, q: real, n: nat, even: bool)
    requires q > 0.0 && 2 <= n <= 3 && q <= s * s <= n as real * q && (s * s == n as real * q <==> even)
    ensures 1.0 / 3.0 <= JainTerm(s, q, n) <= 1.0 && (JainTerm(s, q, n) == 1.0 <==> even)
  {
    MulPos(q, n as real);
    RatioBounds(s * s, q, n as real, q * n as real);
  }

  lemma RatioBounds(s2: real, q: real, n: real, top: real)
    requires q > 0.0 && 0.0 < n <= 3.0 && top == n * q && top > 0.0 && q <= s2 <= top
    ensures 1.0 / 3.0 <= s2 / top <= 1.0 && (s2 / top == 1.0 <==> s2 == top)
  {
    DivAtMost(s2, top, 1.0);
    MulMonoR(n, 3.0, q);
    DivAtLeast(s2, top, 1.0 / 3.0);
    RatioOne(s2, top);
  }

  lemma RatioOne(a: real, b: real)
    requires b > 0.0
    ensures a / b == 1.0 <==> a == b
  {
    DivTimes(a, b);
  }

  // Every line with two or more active tasks gives them equal rates.
  ghost predicate EvenLine(line: Line) {
    |Positives(line)| >= 2 ==> AllEqual(Positives(line))
  }

  lemma {:induction false} FairSumBounds(lines: seq<Line>)
    ensures FairCount(lines) as real / 3.0 <= FairSum(lines) <= FairCount(lines) as real
    ensures FairSum(lines) == FairCount(lines) as real <==> forall k :: 0 <= k < |lines| ==> EvenLine(lines[k])
  {
    if lines == [] {
    } else {
      var front, last := lines[..|lines| - 1], lines[|lines| - 1];
      FairSumBounds(front);
      if |Positives(last)| >= 2 { JainTermBounds(Positives(last)); }
      assert (forall k :: 0 <= k < |lines| ==> EvenLine(lines[k])) <==>
             EvenLine(last) && forall k :: 0 <= k < |front| ==> EvenLine(front[k]);
    }
  }

  // Jain's index averaged over the log and stretched from [1/3, 1] lies between 0 and 1, the cut at 0
  // is never needed, and it is 1 if and only if every line counted gives its active tasks equal rates.
  lemma FairnessBounds(lines: seq<Line>)
    requires FairCount(lines) > 0
    ensures var average := FairSum(lines) / FairCount(lines) as real;
            && 0.0 <= Stretched(average) <= 1.0 && Stretched(average) * (2.0 / 3.0) + 1.0 / 3.0 == average
            && (Stretched(average) == 1.0 <==> forall k :: 0 <= k < |lines| ==> EvenLine(lines[k]))
  {
    FairSumBounds(lines);
    var n := FairCount(lines) as real;
    AverageBounds(FairSum(lines), n);
    StretchedBounds(FairSum(lines) / n);
  }

  lemma AverageBounds(sum: real, n: real)
    requires n > 0.0 && n / 3.0 <= sum <= n
    ensures 1.0 / 3.0 <= sum / n <= 1.0 && (sum / n == 1.0 <==> sum == n)
  {
    DivAtMost(sum, n, 1.0);
    DivAtLeast(sum, n, 1.0 / 3.0);
    RatioOne(sum, n);
  }

  lemma StretchedBounds(average: real)
    requires 1.0 / 3.0 <= average <= 1.0
    ensures 0.0 <= Stretched(average) <= 1.0 && Stretched(average) * (2.0 / 3.0) + 1.0 / 3.0 == average
    ensures Stretched(average) == 1.0 <==> average == 1.0
  {
  }
}
