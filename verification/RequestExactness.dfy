// What every turn of the receiving loop keeps, and what its requests say.
module RequestExactness {
  import opened BlockWindow
  import opened BlockReceiver
  import opened TailPadding

  // A request on the TCP stream: the count word, then the ids.
  function Frame(ids: seq<nat>): (words: seq<nat>) {
    [|ids|] + ids
  }

  // Between turns: the window stands for got, and restran_space, once allocated, still holds any
  // list of missing blocks.
  ghost predicate Tracks(r: Receiver, got: set<nat>, n: nat) {
    && n > 0 && Below(got, n) && r.w.num == |got|
    && if r.first then Represents(r.w, got) && r.w.maxSeq != n - 1
       else r.space > n - |got|
            && ((Represents(r.w, got) && r.w.maxSeq == n - 1) || (LastOnly(r.w, got, n) && r.space == 2))
  }

  // The first request may leave on the timer only when the padding is harmless (TailPadding).
  predicate TimerSafe(r: Receiver, n: nat) {
    r.first ==> r.w.expected == n - 1
  }

  // When a turn sends a request.
  ghost predicate Asks(r: Receiver, got: set<nat>, n: nat, timedOut: bool) {
    (r.first && n - 1 in got) || timedOut || |got| == n
  }

  lemma {:induction false} WrittenAll(q: seq<Item>, room: nat)
    requires |Unreceived(q)| == room && (room == 0 ==> q == [])
    ensures Written(q, room) == Unreceived(q)
  {
    if q == [] {
    } else {
      if |Unreceived(q[1..])| > 0 || q[0].recved {
        WrittenAll(q[1..], room - if q[0].recved then 0 else 1);
      }
    }
  }

  lemma AskExact(w: Window, got: set<nat>, n: nat, first: bool, space: nat)
    requires n > 0 && Below(got, n) && space > n - |got|
    requires (Represents(w, got) && w.maxSeq == n - 1) || (LastOnly(w, got, n) && space == 2)
    ensures Ask(w, n, first, space) == Took(Receiver(w, first, space), Frame(Missing(0, n, got)))
  {
    MissingCount(0, n, got);
    if Represents(w, got) && w.maxSeq == n - 1 {
      RequestIsExact(w, got, n);
      WindowEnds(w, got);
      WrittenAll(w.pending, n - w.num);
      var ids := Missing(0, n, got);
      assert ids[..n - w.num] == ids;
    } else {
      MissingFrom(0, w.expected, n, got);
      assert Written(w.pending, n - w.num) == [n - 1] by { assert w.pending[1..] == []; }
      if w.expected < n {
        assert Missing(n - 1, n, got) == [n - 1] + Missing(n, n, got);
        assert [n - 1][..n - w.num] == Missing(0, n, got);
      } else {
        assert [n - 1][..n - w.num] == Missing(n, n, got);
      }
    }
  }

  // One polled batch after the first request.
  lemma LaterBatch(r: Receiver, got: set<nat>, n: nat, ids: seq<nat>)
    requires Tracks(r, got, n) && !r.first && AllBelow(ids, n)
    ensures var o := ArriveAll(r.w, ids);
            && o.Running? && Tracks(r.(w := o.w), got + Elements(ids), n)
            && (o.w.expected == n <==> |got + Elements(ids)| == n)
  {
    var now := got + Elements(ids);
    CompleteWhenCounted(now, n);
    MoreOf(got, now);
    if Represents(r.w, got) && r.w.maxSeq == n - 1 {
      BatchRefines(r.w, got, ids);
      LeastMissingBound(ArriveAll(r.w, ids).w.expected, now, n);
    } else {
      LastOnlyBatch(r.w, got, n, ids);
    }
  }

  lemma MoreOf(a: set<nat>, b: set<nat>)
    requires a <= b
    ensures |a| <= |b| && (|a| == |b| ==> a == b)
  {
    assert b == a + (b - a);
  }

  // Every turn: the source's asserts hold, the buffer suffices, and a request goes out exactly
  // when Asks says so and lists exactly the missing blocks, in increasing order (MissingIncreases).
  lemma TurnExact(r: Receiver, got: set<nat>, n: nat, ids: seq<nat>, timedOut: bool)
    requires Tracks(r, got, n) && AllBelow(ids, n) && |got| < n
    requires timedOut ==> ids == [] && TimerSafe(r, n)
    ensures var t := TakeTurn(r, n, ids, timedOut);
            var now := got + Elements(ids);
            && t.Took? && Tracks(t.r, now, n)
            && (t.r.first <==> r.first && !Asks(r, now, n, timedOut))
            && t.sent == if Asks(r, now, n, timedOut) then Frame(Missing(0, n, now)) else []
  {
    var now := got + Elements(ids);
    CompleteWhenCounted(now, n);
    if r.first {
      BatchRefines(r.w, got, ids);
      var w := ArriveAll(r.w, ids).w;
      LeastMissingBound(w.expected, now, n);
      WindowEnds(w, now);
      if w.maxSeq == n - 1 {
        AskExact(w, now, n, false, n - w.num + 1);
      } else if timedOut {
        assert now == got;
        PaddedLastOnly(w, now, n);
        AskExact(Padded(w, n), now, n, false, n - w.num + 1);
      }
    } else {
      LaterBatch(r, got, n, ids);
      if Asks(r, now, n, timedOut) {
        AskExact(ArriveAll(r.w, ids).w, now, n, r.first, r.space);
      }
    }
  }

  // A turn that brings a block not seen before leaves strictly fewer missing, and no other does.
  lemma TurnProgress(r: Receiver, got: set<nat>, n: nat, ids: seq<nat>)
    requires Tracks(r, got, n) && AllBelow(ids, n) && |got| < n
    ensures var t := TakeTurn(r, n, ids, false);
            && t.Took? && n - t.r.w.num <= n - r.w.num
            && (n - t.r.w.num < n - r.w.num <==> exists i :: i in ids && i !in got)
  {
    var now := got + Elements(ids);
    TurnExact(r, got, n, ids, false);
    MoreOf(got, now);
    if now == got {
      assert forall i :: i in ids ==> i in now;
    } else {
      var i :| i in now && i !in got;
      assert i in ids;
    }
  }

  // The zero request goes out in the turn that brings the last missing block, and in no other.
  lemma ZeroRequestWhenComplete(r: Receiver, got: set<nat>, n: nat, ids: seq<nat>)
    requires Tracks(r, got, n) && AllBelow(ids, n) && |got| < n
    ensures var t := TakeTurn(r, n, ids, false);
            && t.Took?
            && (t.sent == [0] <==> forall i :: i in Missing(0, n, got) ==> i in ids)
            && (t.sent == [0] <==> t.r.w.num == n)
  {
    var now := got + Elements(ids);
    TurnExact(r, got, n, ids, false);
    MissingSpec(0, n, got);
    CompleteWhenCounted(now, n);
    MissingCount(0, n, now);
    assert Frame(Missing(0, n, now))[0] == n - |now|;
    if forall i :: i in Missing(0, n, got) ==> i in ids {
      assert forall i: nat :: i < n ==> i in now;
    } else {
      var i :| i in Missing(0, n, got) && i !in ids;
      assert i !in now;
    }
  }
}
