// The receiver after a first request on the timer, whatever was missing then: it may go wrong, but it
// never passes over a block it has not received.
module PaddedReceiver {
  import opened BlockWindow
  import opened BlockReceiver
  import opened TailPadding
  import opened RequestExactness

  // The deque starts at the expected block, up to a pad for the last one that is never marked.
  ghost predicate LinedUp(w: Window, got: set<nat>, n: nat) {
    && w.expected < n && |w.pending| >= n - w.expected && !w.pending[n - 1 - w.expected].recved
    && forall k :: 0 <= k < n - w.expected ==>
         w.pending[k].id == w.expected + k && (w.pending[k].recved ==> w.expected + k in got)
  }

  // The deque starts at a block already passed, and no block leaves it again.
  ghost predicate Behind(w: Window) {
    w.pending != [] && w.pending[0].id < w.expected
  }

  ghost predicate IdsBelow(q: seq<Item>, n: nat) {
    forall k :: 0 <= k < |q| ==> q[k].id < n
  }

  ghost predicate Adrift(w: Window, got: set<nat>, n: nat) {
    && Below(got, n) && w.maxSeq < n && w.expected <= n && IdsBelow(w.pending, n)
    && (forall i: nat :: i < w.expected ==> i in got)
    && (LinedUp(w, got, n) || Behind(w))
  }

  lemma PaddedAdrift(w: Window, got: set<nat>, n: nat)
    requires Represents(w, got) && Below(got, n) && w.maxSeq < n - 1
    ensures Adrift(Padded(w, n), got, n)
  {
    WindowEnds(w, got);
    var p := Padded(w, n);
    forall k | 0 <= k < n - w.expected
      ensures p.pending[k].id == w.expected + k && (p.pending[k].recved ==> w.expected + k in got)
    {
    }
  }

  // The expected block comes to a deque that starts with it.
  lemma ExpectedArrives(w: Window, got: set<nat>, n: nat)
    requires Adrift(w, got, n) && LinedUp(w, got, n) && w.expected < w.maxSeq
    ensures Arrive(w, w.expected).Running? && Adrift(Arrive(w, w.expected).w, got + {w.expected}, n)
  {
    var id := w.expected;
    var now := got + {id};
    var q := w.pending[0 := Item(id, true)];
    var m := FrontRun(q);
    assert !q[n - 1 - id].recved;
    forall i: nat | i < id + m ensures i in now {
      if i >= id { assert q[i - id].recved; }
    }
    var v := Arrive(w, id).w;
    forall k | 0 <= k < n - v.expected
      ensures v.pending[k].id == v.expected + k && (v.pending[k].recved ==> v.expected + k in now)
    {
      assert v.pending[k] == q[m + k];
    }
  }

  lemma ArriveAdrift(w: Window, got: set<nat>, n: nat, id: nat)
    requires Adrift(w, got, n) && id < n
    ensures Arrive(w, id).Aborted? || Adrift(Arrive(w, id).w, got + {id}, n)
  {
    if id == w.expected {
      if w.expected < w.maxSeq && LinedUp(w, got, n) { ExpectedArrives(w, got, n); }
    } else if w.expected < id < w.maxSeq {
      LaterArrives(w, got, n, id);
    } else if id > w.expected && id > w.maxSeq {
      FurthestArrives(w, got, n, id);
    }
  }

  lemma LaterArrives(w: Window, got: set<nat>, n: nat, id: nat)
    requires Adrift(w, got, n) && w.expected < id < w.maxSeq
    ensures Arrive(w, id).Aborted? || Adrift(Arrive(w, id).w, got + {id}, n)
  {
  }

  lemma FurthestArrives(w: Window, got: set<nat>, n: nat, id: nat)
    requires Adrift(w, got, n) && w.expected < id < n && w.maxSeq < id
    ensures Adrift(Arrive(w, id).w, got + {id}, n)
  {
    var v := Arrive(w, id).w;
    assert w.pending == v.pending[..|w.pending|];
  }

  lemma {:induction false} BatchAdrift(w: Window, got: set<nat>, n: nat, ids: seq<nat>)
    requires Adrift(w, got, n) && AllBelow(ids, n)
    ensures ArriveAll(w, ids).Aborted? || Adrift(ArriveAll(w, ids).w, got + Elements(ids), n)
    decreases |ids|
  {
    if ids == [] {
      assert got + Elements(ids) == got;
    } else {
      assert ids[0] in ids && forall i :: i in ids[1..] ==> i in ids;
      ArriveAdrift(w, got, n, ids[0]);
      if Arrive(w, ids[0]).Running? {
        BatchAdrift(Arrive(w, ids[0]).w, got + {ids[0]}, n, ids[1..]);
        assert got + {ids[0]} + Elements(ids[1..]) == got + Elements(ids);
      }
    }
  }

  // ---------------------------------------------------------------- whole turns

  ghost predicate WholeFile(got: set<nat>, n: nat) {
    forall i: nat :: i < n ==> i in got
  }

  // The receiver between turns, whenever its timer ran out.
  ghost predicate Sane(r: Receiver, got: set<nat>, n: nat) {
    && n > 0 && Below(got, n)
    && if r.first then Represents(r.w, got) && r.w.maxSeq != n - 1
       else (Represents(r.w, got) && r.w.maxSeq == n - 1) || Adrift(r.w, got, n)
  }

  // A request that names blocks of the file, and none only when all have come.
  ghost predicate FairList(list: seq<nat>, got: set<nat>, n: nat) {
    AllBelow(list, n) && |list| <= n && (list == [] ==> WholeFile(got, n))
  }

  lemma {:induction false} WrittenBelow(q: seq<Item>, room: int, n: nat)
    requires IdsBelow(q, n)
    ensures AllBelow(Written(q, room), n)
  {
    if q == [] {
    } else {
      WrittenBelow(q[1..], room - if q[0].recved then 0 else 1, n);
    }
  }

  lemma AskFair(w: Window, n: nat, first: bool, space: nat, got: set<nat>)
    requires IdsBelow(w.pending, n) && (w.num == n ==> WholeFile(got, n))
    ensures var t := Ask(w, n, first, space);
            t.Failed? ||
            (&& t.r == Receiver(w, first, space) && t.sent != [] && t.sent == Frame(t.sent[1..])
             && FairList(t.sent[1..], got, n))
  {
    WrittenBelow(w.pending, n - w.num, n);
    var t := Ask(w, n, first, space);
    if t.Took? {
      var ids, list := Written(w.pending, n - w.num), t.sent[1..];
      assert list == ids[..n - w.num];
      assert t.sent == [|list|] + list;
      assert forall i :: i in list ==> i in ids;
    }
  }

  lemma RepresentsBelow(w: Window, got: set<nat>, n: nat)
    requires Represents(w, got) && Below(got, n)
    ensures IdsBelow(w.pending, n) && w.maxSeq < n
    ensures w.num == n ==> WholeFile(got, n)
    ensures w.expected == n ==> WholeFile(got, n)
  {
    CompleteWhenCounted(got, n);
  }

  // The first request, on the last block or on the timer.
  lemma FirstAskSane(w: Window, got: set<nat>, n: nat)
    requires n > 0 && Represents(w, got) && Below(got, n) && w.num <= n
    ensures var t := Ask(Padded(w, n), n, false, n - w.num + 1);
            t.Failed? ||
            (&& Sane(t.r, got, n) && t.sent != [] && t.sent == Frame(t.sent[1..])
             && FairList(t.sent[1..], got, n))
  {
    RepresentsBelow(w, got, n);
    if w.maxSeq < n - 1 { PaddedAdrift(w, got, n); }
    AskFair(Padded(w, n), n, false, n - w.num + 1, got);
  }

  lemma LaterAskSane(r: Receiver, got: set<nat>, n: nat, timedOut: bool)
    requires Sane(r, got, n) && !r.first && (r.w.expected == n || (timedOut && r.w.num < n))
    ensures var t := Ask(r.w, n, false, r.space);
            t.Failed? ||
            (Sane(t.r, got, n) && t.sent != [] && t.sent == Frame(t.sent[1..]) && FairList(t.sent[1..], got, n))
  {
    if Represents(r.w, got) { RepresentsBelow(r.w, got, n); }
    AskFair(r.w, n, false, r.space, got);
  }

  lemma LaterBatchSane(r: Receiver, got: set<nat>, n: nat, ids: seq<nat>)
    requires Sane(r, got, n) && !r.first && AllBelow(ids, n)
    ensures var o := ArriveAll(r.w, ids); o.Aborted? || Sane(r.(w := o.w), got + Elements(ids), n)
  {
    if Represents(r.w, got) && r.w.maxSeq == n - 1 {
      BatchRefines(r.w, got, ids);
      RepresentsBelow(ArriveAll(r.w, ids).w, got + Elements(ids), n);
      assert n - 1 in got;
    } else {
      BatchAdrift(r.w, got, n, ids);
    }
  }

  // Any turn, with the timer running out at any time: it fails, or the receiver stays sane and what it
  // sends is a fair request.
  lemma TurnSane(r: Receiver, got: set<nat>, n: nat, ids: seq<nat>, timedOut: bool)
    requires Sane(r, got, n) && r.w.num < n && AllBelow(ids, n) && (timedOut ==> ids == [])
    ensures var t := TakeTurn(r, n, ids, timedOut);
            var now := got + Elements(ids);
            t.Failed? ||
            (&& Sane(t.r, now, n)
             && (t.sent != [] ==> t.sent == Frame(t.sent[1..]) && FairList(t.sent[1..], now, n)))
  {
    var now := got + Elements(ids);
    if r.first {
      BatchRefines(r.w, got, ids);
      var w := ArriveAll(r.w, ids).w;
      RepresentsBelow(w, now, n);
      WindowEnds(w, now);
      CompleteWhenCounted(now, n);
      if w.maxSeq == n - 1 || timedOut { FirstAskSane(w, now, n); }
    } else {
      LaterBatchSane(r, got, n, ids);
      var o := ArriveAll(r.w, ids);
      if o.Running? && (timedOut || o.w.expected == n) {
        LaterAskSane(r.(w := o.w), now, n, timedOut);
      }
    }
  }
}
