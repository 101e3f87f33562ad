// The first retransmission request when the last block has not been seen: what the padding of
// lines 478-484 does to the window, and exactly when it is harmless.
module TailPadding {
  import opened BlockWindow
  import opened BlockReceiver

  ghost predicate AllBelow(ids: seq<nat>, n: nat) {
    forall i :: i in ids ==> i < n
  }

  // The padding leaves a faithful window only when it does nothing.
  lemma PaddingKeepsWindow(w: Window, got: set<nat>, n: nat)
    requires Represents(w, got) && Below(got, n) && n > 0
    ensures Represents(Padded(w, n), got) <==> w.maxSeq == n - 1
  {
    WindowEnds(w, got);
    if w.maxSeq < n - 1 {
      assert |Padded(w, n).pending| > |w.pending|;
    }
  }

  // ---------------------------------------------------------------- the harmless order

  // After the padding, as long as only the expected block arrives.
  ghost predicate InOrder(w: Window, got: set<nat>, n: nat) {
    && Below(got, n) && w.num == |got| && LeastMissing(w.expected, got) && Highest(w.maxSeq, got)
    && (w.expected <= w.maxSeq ==>
          |w.pending| == n - w.expected
          && forall k :: 0 <= k < |w.pending| ==> w.pending[k] == Item(w.expected + k, w.expected + k in got))
  }

  lemma PaddedInOrder(w: Window, got: set<nat>, n: nat)
    requires Represents(w, got) && Below(got, n)
    ensures InOrder(Padded(w, n), got, n)
  {
    var p := Padded(w, n);
    if w.maxSeq < n - 1 {
      forall k | 0 <= k < |p.pending| && w.expected <= w.maxSeq
        ensures p.pending[k] == Item(w.expected + k, w.expected + k in got)
      {
        if k >= |w.pending| { assert w.expected + k > w.maxSeq; }
      }
    }
  }

  lemma InOrderStep(w: Window, got: set<nat>, n: nat)
    requires InOrder(w, got, n) && w.expected < n
    ensures Arrive(w, w.expected).Running? && InOrder(Arrive(w, w.expected).w, got + {w.expected}, n)
    ensures Arrive(w, w.expected).w.expected > w.expected
  {
    var id := w.expected;
    var now := got + {id};
    if id <= w.maxSeq {
      var q := w.pending[0 := Item(id, true)];
      var m := FrontRun(q);
      assert forall k :: 0 <= k < |q| ==> q[k] == Item(id + k, id + k in now);
      forall i: nat | i < id + m ensures i in now {
        if i >= id { assert q[i - id].recved; }
      }
    }
  }

  // A round delivered in full and in order completes the file from any padded state.
  lemma {:induction false} InOrderCompletes(w: Window, got: set<nat>, n: nat)
    requires InOrder(w, got, n) && w.expected <= n
    ensures var o := ArriveAll(w, Missing(w.expected, n, got));
            o.Running? && o.w.num == n && o.w.expected == n
    decreases n - w.expected
  {
    var e := w.expected;
    if e == n {
      CompleteWhenCounted(got, n);
    } else {
      InOrderStep(w, got, n);
      var v := Arrive(w, e).w;
      LeastMissingBound(v.expected, got + {e}, n);
      InOrderCompletes(v, got + {e}, n);
      MissingStep(e, v.expected, n, got);
      ArriveCons(w, e, Missing(v.expected, n, got + {e}));
    }
  }

  lemma PaddedRoundCompletes(w: Window, got: set<nat>, n: nat)
    requires Represents(w, got) && Below(got, n)
    ensures var o := ArriveAll(Padded(w, n), Missing(0, n, got));
            o.Running? && o.w.num == n && o.w.expected == n
  {
    PaddedInOrder(w, got, n);
    LeastMissingBound(w.expected, got, n);
    InOrderCompletes(Padded(w, n), got, n);
    MissingFrom(0, w.expected, n, got);
  }

  // ---------------------------------------------------------------- the harmful order

  // After the padding, once block n-1 has overtaken a missing block: got lacks n-1, which is
  // counted but stands in the deque twice, the first time as unreceived.
  ghost predicate Overtaken(w: Window, got: set<nat>, n: nat) {
    && n > 0 && Below(got, n - 1) && w.num == |got| + 1 && LeastMissing(w.expected, got) && w.maxSeq == n - 1
    && w.expected < n && |w.pending| >= n - w.expected
    && forall k :: 0 <= k < n - w.expected ==> w.pending[k] == Item(w.expected + k, w.expected + k in got)
  }

  lemma OvertakenStart(w: Window, got: set<nat>, n: nat)
    requires Represents(w, got) && Below(got, n) && w.maxSeq < n - 1 && w.expected < n - 1
    ensures Arrive(Padded(w, n), n - 1).Running?
    ensures Overtaken(Arrive(Padded(w, n), n - 1).w, got, n)
    ensures Arrive(Padded(w, n), n - 1).w.expected == w.expected
  {
    PaddedInOrder(w, got, n);
    WindowEnds(w, got);
    var v := Arrive(Padded(w, n), n - 1).w;
    forall i | i in got ensures i < n - 1 { assert i <= w.maxSeq; }
    forall k | 0 <= k < n - w.expected ensures v.pending[k] == Item(w.expected + k, w.expected + k in got) {
      if w.expected > w.maxSeq { assert w.expected + k > w.maxSeq; }
    }
  }

  lemma OvertakenStep(w: Window, got: set<nat>, n: nat)
    requires Overtaken(w, got, n) && w.expected < n - 1
    ensures Arrive(w, w.expected).Running? && Overtaken(Arrive(w, w.expected).w, got + {w.expected}, n)
    ensures Arrive(w, w.expected).w.expected > w.expected
  {
    var id := w.expected;
    var now := got + {id};
    var q := w.pending[0 := Item(id, true)];
    var m := FrontRun(q);
    assert forall k :: 0 <= k < n - id ==> q[k] == Item(id + k, id + k in now);
    assert !q[n - 1 - id].recved;
    forall i: nat | i < id + m ensures i in now {
      if i >= id { assert q[i - id].recved; }
    }
  }

  lemma {:induction false} OvertakenEndsSilently(w: Window, got: set<nat>, n: nat)
    requires Overtaken(w, got, n)
    ensures var o := ArriveAll(w, Missing(w.expected, n - 1, got));
            o.Running? && o.w.num == n && o.w.expected == n - 1
    decreases n - w.expected
  {
    var e := w.expected;
    if e == n - 1 {
      CompleteWhenCounted(got, n - 1);
    } else {
      OvertakenStep(w, got, n);
      var v := Arrive(w, e).w;
      OvertakenEndsSilently(v, got + {e}, n);
      MissingStep(e, v.expected, n - 1, got);
      ArriveCons(w, e, Missing(v.expected, n - 1, got + {e}));
    }
  }

  // The schedule: block n-1 first, then every other missing block in order.
  function LastFirst(got: set<nat>, n: nat): seq<nat>
    requires n > 0
  {
    [n - 1] + Missing(0, n - 1, got)
  }

  lemma LastFirstBelow(got: set<nat>, n: nat)
    requires n > 0
    ensures AllBelow(LastFirst(got, n), n)
  {
    MissingSpec(0, n - 1, got);
  }

  lemma ArriveThen(w: Window, id: nat, rest: seq<nat>, ids: seq<nat>)
    requires Arrive(w, id).Running? && ids == [id] + rest
    ensures ArriveAll(w, ids) == ArriveAll(Arrive(w, id).w, rest)
  {
    ArriveCons(w, id, rest);
  }

  lemma LastFirstEndsSilently(w: Window, got: set<nat>, n: nat)
    requires Represents(w, got) && Below(got, n) && w.maxSeq < n - 1 && w.expected < n - 1
    ensures var o := ArriveAll(Padded(w, n), LastFirst(got, n));
            o.Running? && o.w.num == n && o.w.expected == n - 1
  {
    OvertakenStart(w, got, n);
    OvertakenEndsSilently(Arrive(Padded(w, n), n - 1).w, got, n);
    MissingFrom(0, w.expected, n - 1, got);
    ArriveThen(Padded(w, n), n - 1, Missing(0, n - 1, got), LastFirst(got, n));
  }

  // ---------------------------------------------------------------- the exact condition

  // Only block n-1 was missing when the deque was padded.
  ghost predicate LastOnly(w: Window, got: set<nat>, n: nat) {
    && n > 0 && n - 1 <= w.expected <= n && w == Window(w.expected, w.expected - 1, w.expected, [Item(n - 1, false)])
    && |got| == w.expected && LeastMissing(w.expected, got) && Below(got, n)
  }

  lemma LastOnlyStep(w: Window, got: set<nat>, n: nat, id: nat)
    requires LastOnly(w, got, n) && id < n
    ensures Arrive(w, id).Running? && LastOnly(Arrive(w, id).w, got + {id}, n)
  {
    if id in got { assert got + {id} == got; }
  }

  lemma {:induction false} LastOnlyBatch(w: Window, got: set<nat>, n: nat, ids: seq<nat>)
    requires LastOnly(w, got, n) && AllBelow(ids, n)
    ensures ArriveAll(w, ids).Running? && LastOnly(ArriveAll(w, ids).w, got + Elements(ids), n)
    decreases |ids|
  {
    if ids == [] {
      assert got + Elements(ids) == got;
    } else {
      assert ids[0] in ids && forall i :: i in ids[1..] ==> i in ids;
      LastOnlyStep(w, got, n, ids[0]);
      LastOnlyBatch(Arrive(w, ids[0]).w, got + {ids[0]}, n, ids[1..]);
      assert got + {ids[0]} + Elements(ids[1..]) == got + Elements(ids);
    }
  }

  lemma PaddedLastOnly(w: Window, got: set<nat>, n: nat)
    requires Represents(w, got) && Below(got, n) && w.maxSeq < n - 1 && w.expected == n - 1
    ensures LastOnly(Padded(w, n), got, n)
  {
    WindowEnds(w, got);
    CompleteWhenCounted(got, n - 1);
  }

  // When the count is full, the zero request of line 499 goes out.
  predicate Answered(o: Outcome, n: nat) {
    o.Running? && (o.w.num >= n ==> o.w.expected == n)
  }

  // Over every continuation: no assert fails and the receiver cannot stop without its zero
  // request, if and only if block n-1 was seen or it was the only one missing.
  lemma PaddingSafeExactly(w: Window, got: set<nat>, n: nat)
    requires Represents(w, got) && Below(got, n) && w.num < n
    ensures (forall ids: seq<nat> | AllBelow(ids, n) :: Answered(ArriveAll(Padded(w, n), ids), n))
            <==> w.maxSeq == n - 1 || w.expected == n - 1
  {
    if w.maxSeq == n - 1 {
      forall ids: seq<nat> | AllBelow(ids, n) ensures Answered(ArriveAll(Padded(w, n), ids), n) {
        BatchRefines(w, got, ids);
        CompleteWhenCounted(got + Elements(ids), n);
        LeastMissingBound(ArriveAll(w, ids).w.expected, got + Elements(ids), n);
      }
    } else if w.expected == n - 1 {
      PaddedLastOnly(w, got, n);
      forall ids: seq<nat> | AllBelow(ids, n) ensures Answered(ArriveAll(Padded(w, n), ids), n) {
        LastOnlyBatch(Padded(w, n), got, n, ids);
      }
    } else {
      CompleteWhenCounted(got, n);
      LeastMissingBound(w.expected, got, n);
      LastFirstEndsSilently(w, got, n);
      LastFirstBelow(got, n);
      assert !Answered(ArriveAll(Padded(w, n), LastFirst(got, n)), n);
    }
  }

  // ---------------------------------------------------------------- a run with losses alone

  const PADS := [Item(1, false), Item(2, false), Item(3, false), Item(4, false)]
  const AFTER_2 := PADS + [Item(1, false), Item(2, true)]
  const AFTER_3 := AFTER_2 + [Item(3, true)]
  const AGAIN_2 := AFTER_3[1 := Item(2, true)]

  const R0 := Receiver(Window(1, 0, 1, []), true, 0)
  const R1 := Receiver(Window(1, 0, 1, PADS), false, 5)
  const R2 := Receiver(Window(1, 2, 2, AFTER_2), false, 5)
  const R3 := Receiver(Window(1, 3, 3, AFTER_3), false, 5)
  const R4 := Receiver(Window(1, 3, 4, AGAIN_2), false, 5)
  const R5 := Receiver(Window(3, 3, 5, AGAIN_2[2..]), false, 5)

  lemma PaddedRequest()
    ensures TakeTurn(R0, 5, [], true) == Took(R1, [4, 1, 2, 3, 4])
  {
    assert PADS == Unseen(1, 5);
    assert [] + PADS == PADS;
    WrittenOf(PADS, 4, [1, 2, 3, 4]);
  }

  lemma BlocksBeyondTheGap()
    ensures Arrive(R1.w, 2) == Running(R2.w) && Arrive(R2.w, 3) == Running(R3.w)
    ensures Arrive(R3.w, 2) == Running(R4.w)
  {
    assert Unseen(1, 2) == [Item(1, false)];
    assert AFTER_2 == PADS + Unseen(1, 2) + [Item(2, true)];
    assert AFTER_3 == AFTER_2 + Unseen(3, 3) + [Item(3, true)];
  }

  lemma LastBlockCounted()
    ensures Arrive(R4.w, 1) == Running(R5.w)
  {
    var q := AGAIN_2[0 := Item(1, true)];
    assert q[0].recved && q[1].recved && !q[2].recved;
    assert q[2..] == AGAIN_2[2..];
  }

  lemma SingleTurn(r: Receiver, id: nat, w: Window)
    requires Arrive(r.w, id) == Running(w) && w.expected != 5
    requires r.first ==> w.maxSeq != 4
    ensures TakeTurn(r, 5, [id], false) == Took(r.(w := w), [])
  {
    ArriveCons(r.w, id, []);
    assert [id] == [id] + [];
  }

  lemma LaterRequest(r: Receiver, ids: seq<nat>)
    requires !r.first && r.space == 5 && 0 < |ids| == 5 - r.w.num <= 4 && |ids| <= |r.w.pending|
    requires forall k :: 0 <= k < |ids| ==> r.w.pending[k] == Item(ids[k], false)
    ensures TakeTurn(r, 5, [], true) == Took(r, [|ids|] + ids)
  {
    WrittenOf(r.w.pending, |ids|, ids);
  }

  // Five blocks, nothing reordered or duplicated by the network: every block delivered after the
  // first is one the last request asked for. The receiver counts five and stops without ever
  // seeing block 4, and its last turn sends nothing.
  lemma LossesAloneLoseABlock()
    ensures TakeTurn(FRESH, 5, [0], false) == Took(R0, [])
    ensures TakeTurn(R0, 5, [], true) == Took(R1, [4] + [1, 2, 3, 4])
    ensures TakeTurn(R1, 5, [2], false) == Took(R2, [])
    ensures TakeTurn(R2, 5, [], true) == Took(R2, [3] + [1, 2, 3])
    ensures TakeTurn(R2, 5, [3], false) == Took(R3, [])
    ensures TakeTurn(R3, 5, [], true) == Took(R3, [2] + [1, 2])
    ensures TakeTurn(R3, 5, [2], false) == Took(R4, [])
    ensures TakeTurn(R4, 5, [], true) == Took(R4, [1] + [1])
    ensures TakeTurn(R4, 5, [1], false) == Took(R5, []) && R5.w.num == 5
  {
    SingleTurn(FRESH, 0, R0.w);
    PaddedRequest();
    BlocksBeyondTheGap();
    SingleTurn(R1, 2, R2.w);
    LaterRequest(R2, [1, 2, 3]);
    SingleTurn(R2, 3, R3.w);
    LaterRequest(R3, [1, 2]);
    SingleTurn(R3, 2, R4.w);
    LaterRequest(R4, [1]);
    LastBlockCounted();
    SingleTurn(R4, 1, R5.w);
  }

  // The copying loop stops once it has found the wanted count in the unreceived front.
  lemma {:induction false} WrittenOf(q: seq<Item>, room: nat, ids: seq<nat>)
    requires 0 < room == |ids| <= |q|
    requires forall k :: 0 <= k < room ==> q[k] == Item(ids[k], false)
    ensures Written(q, room) == ids
  {
    if room == 1 {
    } else {
      WrittenOf(q[1..], room - 1, ids[1..]);
    }
  }
}
