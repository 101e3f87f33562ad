// The receiver's sliding window of postRecvFile and the retransmission request built from it.
module BlockWindow {

  // recv_item: one entry of the deque unrecv_packet_seqs.
  datatype Item = Item(id: nat, recved: bool)

  // recv_max_seq starts at -1.
  type MaxSeq = m: int | m >= -1 witness -1

  // expect_seq, recv_max_seq, recv_num and unrecv_packet_seqs.
  datatype Window = Window(expected: nat, maxSeq: MaxSeq, num: nat, pending: seq<Item>)

  // Aborted stands for a failed assert or an index outside the deque.
  datatype Outcome = Aborted | Running(w: Window)

  const START := Window(0, -1, 0, [])

  // The unreceived entries lo..hi-1 that a jump over missing blocks appends.
  function Unseen(lo: nat, hi: nat): (q: seq<Item>)
    ensures |q| == if lo < hi then hi - lo else 0
    ensures forall k :: 0 <= k < |q| ==> q[k] == Item(lo + k, false)
    decreases hi - lo
  {
    if lo >= hi then [] else [Item(lo, false)] + Unseen(lo + 1, hi)
  }

  // How many received entries stand at the front of the deque.
  function FrontRun(q: seq<Item>): (n: nat)
    ensures n <= |q|
    ensures forall k :: 0 <= k < n ==> q[k].recved
    ensures n < |q| ==> !q[n].recved
  {
    if q == [] || !q[0].recved then 0 else 1 + FrontRun(q[1..])
  }

  // One block of use_message mode entering the window.
  function Arrive(w: Window, id: nat): Outcome {
    if id < w.expected then Running(w)
    else if id == w.expected then
      if w.expected > w.maxSeq then Running(Window(w.expected + 1, id, w.num + 1, w.pending))
      else if w.expected == w.maxSeq || w.pending == [] || w.pending[0].id != id then Aborted
      else
        var q := w.pending[0 := Item(id, true)];
        var n := FrontRun(q);
        Running(Window(w.expected + n, w.maxSeq, w.num + 1, q[n..]))
    else if id < w.maxSeq then
      var k := id - w.expected;
      if k >= |w.pending| then Aborted
      else if w.pending[k].recved then Running(w)
      else Running(w.(num := w.num + 1, pending := w.pending[k := w.pending[k].(recved := true)]))
    else if id > w.maxSeq then
      Running(Window(w.expected, id, w.num + 1, w.pending + Unseen(w.maxSeq + 1, id) + [Item(id, true)]))
    else Running(w)
  }

  // One polled batch of completions.
  function ArriveAll(w: Window, ids: seq<nat>): Outcome
    decreases |ids|
  {
    if ids == [] then Running(w)
    else
      var o := Arrive(w, ids[0]);
      if o.Aborted? then Aborted else ArriveAll(o.w, ids[1..])
  }

  lemma ArriveCons(w: Window, id: nat, rest: seq<nat>)
    ensures ArriveAll(w, [id] + rest) ==
            if Arrive(w, id).Aborted? then Aborted else ArriveAll(Arrive(w, id).w, rest)
  {
    assert ([id] + rest)[1..] == rest;
  }

  // ---------------------------------------------------------------- the abstract value: the set of received ids

  ghost predicate Below(got: set<nat>, n: nat) {
    forall i :: i in got ==> i < n
  }

  ghost predicate LeastMissing(e: nat, got: set<nat>) {
    e !in got && forall i: nat :: i < e ==> i in got
  }

  ghost predicate Highest(m: int, got: set<nat>) {
    if got == {} then m == -1 else m >= 0 && m in got && forall i: nat :: i in got ==> i <= m
  }

  ghost predicate Represents(w: Window, got: set<nat>) {
    && w.num == |got|
    && LeastMissing(w.expected, got)
    && Highest(w.maxSeq, got)
    && |w.pending| == (if w.expected <= w.maxSeq then w.maxSeq - w.expected + 1 else 0)
    && forall k :: 0 <= k < |w.pending| ==> w.pending[k] == Item(w.expected + k, w.expected + k in got)
  }

  lemma LeastMissingBound(e: nat, got: set<nat>, n: nat)
    requires LeastMissing(e, got) && Below(got, n)
    ensures e <= n
  {
    assert e <= n || n in got;
  }

  // What Represents says about the ends of the deque.
  lemma WindowEnds(w: Window, got: set<nat>)
    requires Represents(w, got)
    ensures w.expected > w.maxSeq ==> w.expected == w.maxSeq + 1 && w.pending == []
    ensures w.pending != [] ==> !w.pending[0].recved && w.pending[|w.pending| - 1] == Item(w.maxSeq, true)
  {
    if w.expected > w.maxSeq && w.expected > 0 {
      assert w.expected - 1 in got;
    }
  }

  // The expected block closes a gap: the run it completes leaves the deque.
  lemma GapCloses(w: Window, got: set<nat>)
    requires Represents(w, got) && w.expected <= w.maxSeq
    ensures Arrive(w, w.expected).Running? && Represents(Arrive(w, w.expected).w, got + {w.expected})
  {
    var id := w.expected;
    var now := got + {id};
    var q := w.pending[0 := Item(id, true)];
    var n := FrontRun(q);
    assert forall k :: 0 <= k < |q| ==> q[k] == Item(id + k, id + k in now);
    forall i: nat | i < id + n ensures i in now {
      if i >= id { assert q[i - id].recved; }
    }
    assert LeastMissing(id + n, now);
  }

  // A block beyond everything seen opens a gap of unseen entries before it.
  lemma GapOpens(w: Window, got: set<nat>, id: nat)
    requires Represents(w, got) && w.expected < id && w.maxSeq < id
    ensures Represents(Arrive(w, id).w, got + {id})
  {
    WindowEnds(w, got);
    assert id !in got;
    var v := Arrive(w, id).w;
    forall k | 0 <= k < |v.pending| ensures v.pending[k] == Item(v.expected + k, v.expected + k in got + {id}) {
      if |w.pending| <= k < |v.pending| - 1 { assert v.expected + k !in got; }
    }
  }

  // Every arrival, fresh or not, in any order: no assert of the source can fail, and the window
  // stands for the received ids with the new one added.
  lemma ArriveRefines(w: Window, got: set<nat>, id: nat)
    requires Represents(w, got)
    ensures Arrive(w, id).Running? && Represents(Arrive(w, id).w, got + {id})
    ensures Arrive(w, id).w.num == w.num <==> id in got
  {
    if id in got { assert got + {id} == got; }
    if id > w.maxSeq { assert id !in got; }
    WindowEnds(w, got);
    if id == w.expected {
      if w.expected <= w.maxSeq { GapCloses(w, got); }
    } else if id > w.expected && id > w.maxSeq {
      GapOpens(w, got, id);
    }
  }

  function Elements(ids: seq<nat>): set<nat> {
    set i | i in ids
  }

  lemma {:induction false} BatchRefines(w: Window, got: set<nat>, ids: seq<nat>)
    requires Represents(w, got)
    ensures ArriveAll(w, ids).Running?
    ensures Represents(ArriveAll(w, ids).w, got + Elements(ids))
    decreases |ids|
  {
    if ids == [] {
      assert got + Elements(ids) == got;
    } else {
      ArriveRefines(w, got, ids[0]);
      BatchRefines(Arrive(w, ids[0]).w, got + {ids[0]}, ids[1..]);
      assert ids == [ids[0]] + ids[1..];
      assert got + {ids[0]} + Elements(ids[1..]) == got + Elements(ids);
    }
  }

  // ---------------------------------------------------------------- the retransmission request

  // The ids of the entries not yet received, in deque order.
  function Unreceived(q: seq<Item>): (ids: seq<nat>)
    ensures |ids| <= |q|
  {
    if q == [] then []
    else (if q[0].recved then [] else [q[0].id]) + Unreceived(q[1..])
  }

  // The ids below n that got lacks, in increasing order from lo.
  function Missing(lo: nat, n: nat, got: set<nat>): (ids: seq<nat>)
    decreases n - lo
  {
    if lo >= n then []
    else if lo in got then Missing(lo + 1, n, got)
    else [lo] + Missing(lo + 1, n, got)
  }

  lemma {:induction false} MissingSpec(lo: nat, n: nat, got: set<nat>)
    ensures forall i: nat :: i in Missing(lo, n, got) <==> lo <= i < n && i !in got
    decreases n - lo
  {
    if lo >= n {
    } else {
      MissingSpec(lo + 1, n, got);
    }
  }

  ghost predicate Increasing(ids: seq<nat>) {
    forall j, k :: 0 <= j < k < |ids| ==> ids[j] < ids[k]
  }

  lemma {:induction false} MissingIncreases(lo: nat, n: nat, got: set<nat>)
    ensures Increasing(Missing(lo, n, got))
    decreases n - lo
  {
    if lo >= n {
    } else {
      MissingIncreases(lo + 1, n, got);
      MissingSpec(lo + 1, n, got);
      var rest := Missing(lo + 1, n, got);
      forall k | 0 <= k < |rest| ensures lo < rest[k] { assert rest[k] in rest; }
    }
  }

  lemma {:induction false} MissingCount(lo: nat, n: nat, got: set<nat>)
    requires forall i :: i in got ==> lo <= i < n
    requires lo <= n
    ensures |Missing(lo, n, got)| == n - lo - |got|
    decreases n - lo
  {
    if lo == n {
      assert got == {};
    } else {
      MissingCount(lo + 1, n, got - {lo});
      MissingIgnores(lo + 1, n, got, lo);
      assert lo !in got ==> got - {lo} == got;
    }
  }

  lemma {:induction false} MissingIgnores(lo: nat, n: nat, got: set<nat>, i: nat)
    requires i < lo
    ensures Missing(lo, n, got) == Missing(lo, n, got - {i})
    decreases n - lo
  {
    if lo >= n {
    } else {
      MissingIgnores(lo + 1, n, got, i);
    }
  }

  // Once the least missing id lo has come, the list goes on from the next missing one.
  lemma MissingStep(lo: nat, next: nat, n: nat, got: set<nat>)
    requires lo !in got && lo < next <= n && LeastMissing(next, got + {lo})
    ensures Missing(lo, n, got) == [lo] + Missing(next, n, got + {lo})
  {
    MissingIgnores(lo + 1, n, got + {lo}, lo);
    assert got + {lo} - {lo} == got;
    MissingFrom(lo + 1, next, n, got + {lo});
  }

  // A stretch of the deque lists exactly the missing ids of its range.
  lemma {:induction false} UnreceivedIsMissing(q: seq<Item>, e: nat, got: set<nat>)
    requires forall k :: 0 <= k < |q| ==> q[k] == Item(e + k, e + k in got)
    ensures Unreceived(q) == Missing(e, e + |q|, got)
  {
    if q == [] {
    } else {
      UnreceivedIsMissing(q[1..], e + 1, got);
    }
  }

  lemma {:induction false} MissingFrom(lo: nat, e: nat, n: nat, got: set<nat>)
    requires lo <= e <= n && forall i: nat :: lo <= i < e ==> i in got
    ensures Missing(lo, n, got) == Missing(e, n, got)
    decreases e - lo
  {
    if lo >= e {
    } else {
      MissingFrom(lo + 1, e, n, got);
    }
  }

  // With block n-1 seen, the unreceived entries are the missing ids of the whole file, and as
  // many as the count n - recv_num that heads the request.
  lemma RequestIsExact(w: Window, got: set<nat>, n: nat)
    requires Represents(w, got) && n > 0 && w.maxSeq == n - 1
    ensures Unreceived(w.pending) == Missing(0, n, got) && |Missing(0, n, got)| == n - w.num
  {
    WindowEnds(w, got);
    MissingCount(0, n, got);
    if w.expected <= w.maxSeq {
      UnreceivedIsMissing(w.pending, w.expected, got);
      MissingFrom(0, w.expected, n, got);
    } else {
      MissingFrom(0, n, n, got);
    }
  }

  // Nothing is missing exactly when every block has arrived.
  lemma CompleteWhenCounted(got: set<nat>, n: nat)
    requires Below(got, n)
    ensures |got| <= n
    ensures |got| == n <==> forall i: nat :: i < n ==> i in got
  {
    MissingCount(0, n, got);
    MissingSpec(0, n, got);
    var left := Missing(0, n, got);
    if left == [] {
      assert forall i: nat :: i < n ==> i in got || i in left;
    } else {
      assert left[0] in left;
    }
  }
}
