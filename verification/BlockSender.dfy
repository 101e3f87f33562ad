// The sending loop of postSendFile in use_message mode: rounds, send slots and byte accounting.
module BlockSender {
  import opened BlockWindow
  import opened RequestExactness
  import opened Arithmetic

  // The local variables of postSendFile. sendCnt stands for sendcnt and for the slot counter i,
  // which move together; headers holds the first word of every buffer; space is restran_space.
  datatype Sender = Sender(bytesLeft: nat, ackBytes: nat, uncompleteBytes: seq<nat>, outstanding: nat,
                           sendCnt: nat, headers: seq<nat>, space: seq<nat>, restranNum: nat,
                           restranedNum: nat, startRestran: bool, firstRestran: bool, finished: bool)

  // Waiting: no word, or not the whole request, has arrived. Failed: an assert of the source
  // fails, or ids are written past restran_space.
  datatype Reading = Waiting | Failed | Read(s: Sender, rest: seq<nat>)

  function Slot(s: Sender): (i: nat)
    requires s.headers != []
    ensures i < |s.headers|
  {
    s.sendCnt % |s.headers|
  }

  // Lines 628-672: the non-blocking read of a count, then the blocking read of its ids.
  function ReadingOf(s: Sender, blockSize: nat, wire: seq<nat>): Reading
    requires s.headers != []
  {
    if wire == [] then Waiting
    else
      var n := wire[0];
      if n == 0 then Read(s.(finished := true), wire[1..])
      else if s.startRestran || (!s.firstRestran && n > |s.space|) then Failed
      else if |wire| < 1 + n then Waiting
      else if s.bytesLeft != 0 then Failed
      else
        Read(Rearmed(s, blockSize, wire[1..1 + n]), wire[1 + n..])
  }

  // A round of retransmission set up for ids.
  function Rearmed(s: Sender, blockSize: nat, ids: seq<nat>): Sender
    requires s.headers != [] && ids != [] && (!s.firstRestran ==> |ids| <= |s.space|)
  {
    s.(space := if s.firstRestran then ids else ids + s.space[|ids|..],
       headers := s.headers[Slot(s) := ids[0]], bytesLeft := |ids| * blockSize % WORD64,
       restranNum := |ids|, restranedNum := 0, startRestran := true, firstRestran := false)
  }

  // Line 681 lets a block through; line 752 has left a free slot.
  predicate CanPost(s: Sender) {
    && !s.finished && s.outstanding < |s.headers|
    && (s.startRestran || s.bytesLeft != 0)
    && (s.startRestran && s.restranedNum + 1 < s.restranNum ==> s.restranedNum + 1 < |s.space|)
  }

  // Lines 687-717: post the current slot, then prepare the next one.
  function Post(s: Sender, blockSize: nat): (t: Sender)
    requires CanPost(s)
  {
    var next := (s.sendCnt + 1) % |s.headers|;
    var more := s.restranedNum + 1 < s.restranNum;
    var t := s.(bytesLeft := (s.bytesLeft - blockSize) % WORD64, uncompleteBytes := s.uncompleteBytes + [blockSize],
                outstanding := s.outstanding + 1, sendCnt := s.sendCnt + 1);
    if !s.startRestran then t.(headers := s.headers[next := (s.sendCnt + 1) % WORD32])
    else if more then t.(restranedNum := s.restranedNum + 1, headers := s.headers[next := s.space[s.restranedNum + 1]])
    else t.(restranedNum := s.restranedNum + 1, startRestran := false)
  }

  predicate CanComplete(s: Sender) {
    s.outstanding > 0 && s.uncompleteBytes != []
  }

  function Complete(s: Sender): Sender
    requires CanComplete(s)
  {
    s.(outstanding := s.outstanding - 1, ackBytes := s.ackBytes + s.uncompleteBytes[0],
       uncompleteBytes := s.uncompleteBytes[1..])
  }

  // The state when the loop is entered; the other buffers hold whatever they held.
  ghost predicate Initial(s: Sender, fileSize: nat) {
    && s.headers != [] && s.headers[0] == 0
    && s == Sender(fileSize, 0, [], 0, 0, s.headers, [], 0, 0, false, true, false)
  }

  // ---------------------------------------------------------------- the blocks due

  function Upto(n: nat): (ids: seq<nat>)
    ensures |ids| == n && forall k :: 0 <= k < n ==> ids[k] == k
  {
    seq(n, k requires 0 <= k < n => k)
  }

  function Flatten(rounds: seq<seq<nat>>): seq<nat> {
    if rounds == [] then [] else Flatten(rounds[..|rounds| - 1]) + rounds[|rounds| - 1]
  }

  // Every header the sender owes: the whole file, then each request in turn.
  function Due(n: nat, rounds: seq<seq<nat>>): seq<nat> {
    Upto(n) + Flatten(rounds)
  }

  // The bytes of whole blocks, as a sum.
  function Bytes(blocks: nat, size: nat): nat {
    if blocks == 0 then 0 else Bytes(blocks - 1, size) + size
  }

  lemma {:induction false} BytesIsProduct(blocks: nat, size: nat)
    ensures Bytes(blocks, size) == blocks * size
  {
    if blocks == 0 {
    } else {
      BytesIsProduct(blocks - 1, size);
      MulPred(blocks, size);
    }
  }

  lemma {:induction false} BytesAdd(a: nat, b: nat, size: nat)
    ensures Bytes(a + b, size) == Bytes(a, size) + Bytes(b, size)
  {
    if b == 0 {
    } else {
      BytesAdd(a, b - 1, size);
    }
  }

  // What has been posted, and what stands in the current slot.
  ghost predicate HeadersKept(s: Sender, due: seq<nat>, posted: seq<nat>) {
    && s.headers != [] && |posted| == s.sendCnt <= |due| && posted == due[..s.sendCnt]
    && (s.sendCnt < |due| ==> s.headers[Slot(s)] == due[s.sendCnt])
  }

  // Where the sender is: in the first pass, in a round of retransmission, or waiting.
  ghost predicate RoundKept(s: Sender, n: nat, rounds: seq<seq<nat>>) {
    var due := Due(n, rounds);
    && (s.firstRestran <==> rounds == [])
    && (rounds == [] ==> !s.startRestran)
    && (rounds != [] ==>
          var last := rounds[|rounds| - 1];
          && 0 < |last| <= n && |last| <= |s.space| == |rounds[0]| && last == s.space[..|last|]
          && |due| - |last| <= s.sendCnt <= |due|
          && s.restranNum == |last| && s.restranedNum == |last| - (|due| - s.sendCnt)
          && (s.startRestran <==> s.sendCnt < |due|))
  }

  // bytes_left counts the blocks still due; every posted block is acknowledged or outstanding.
  ghost predicate BytesKept(s: Sender, blockSize: nat, due: nat) {
    && s.sendCnt <= due && s.bytesLeft == Bytes(due - s.sendCnt, blockSize)
    && s.outstanding == |s.uncompleteBytes| <= |s.headers|
    && (forall k :: 0 <= k < |s.uncompleteBytes| ==> s.uncompleteBytes[k] == blockSize)
    && s.ackBytes + Bytes(s.outstanding, blockSize) == Bytes(s.sendCnt, blockSize)
  }

  // The sender's invariant, for a file of n whole blocks, the requests read so far and the headers
  // posted so far.
  ghost predicate OnSchedule(s: Sender, blockSize: nat, n: nat, rounds: seq<seq<nat>>, posted: seq<nat>) {
    && blockSize > 0 && 0 < n < WORD32 && Bytes(n, blockSize) < WORD64
    && HeadersKept(s, Due(n, rounds), posted) && RoundKept(s, n, rounds)
    && BytesKept(s, blockSize, |Due(n, rounds)|)
  }

  predicate Idle(s: Sender) {
    !s.startRestran && s.bytesLeft == 0
  }

  lemma InitialOnSchedule(s: Sender, blockSize: nat, n: nat)
    requires blockSize > 0 && 0 < n < WORD32 && Bytes(n, blockSize) < WORD64 && Initial(s, Bytes(n, blockSize))
    ensures OnSchedule(s, blockSize, n, [], [])
  {
    assert Due(n, []) == Upto(n);
  }

  lemma IdleWhenNothingDue(s: Sender, blockSize: nat, n: nat, rounds: seq<seq<nat>>, posted: seq<nat>)
    requires OnSchedule(s, blockSize, n, rounds, posted)
    ensures Idle(s) <==> posted == Due(n, rounds)
    ensures Idle(s) <==> s.sendCnt == |Due(n, rounds)|
    ensures Idle(s) <==> !(s.startRestran || s.bytesLeft != 0)
  {
  }

  // The sender posts exactly when a slot is free and a block is due.
  lemma PostsExactly(s: Sender, blockSize: nat, n: nat, rounds: seq<seq<nat>>, posted: seq<nat>)
    requires OnSchedule(s, blockSize, n, rounds, posted)
    ensures CanPost(s) <==> !s.finished && s.outstanding < |s.headers| && s.sendCnt < |Due(n, rounds)|
  {
    IdleWhenNothingDue(s, blockSize, n, rounds, posted);
  }

  // An idle sender has posted every block of the file.
  lemma IdleHasPostedAll(s: Sender, blockSize: nat, n: nat, rounds: seq<seq<nat>>, posted: seq<nat>)
    requires OnSchedule(s, blockSize, n, rounds, posted) && Idle(s)
    ensures forall i: nat :: i < n ==> i in posted
  {
    IdleWhenNothingDue(s, blockSize, n, rounds, posted);
    forall i: nat | i < n ensures i in posted {
      assert Due(n, rounds)[i] == i;
    }
  }

  // The last round ends the schedule, and no round owes more than n blocks.
  lemma LastRound(n: nat, rounds: seq<seq<nat>>)
    requires rounds != []
    ensures var last := rounds[|rounds| - 1];
            var due := Due(n, rounds);
            && |last| <= |due|
            && forall k :: |due| - |last| <= k < |due| ==> due[k] == last[k - (|due| - |last|)]
  {
    var last := rounds[|rounds| - 1];
    assert Due(n, rounds) == Due(n, rounds[..|rounds| - 1]) + last;
  }

  lemma PostKeepsHeaders(s: Sender, blockSize: nat, n: nat, rounds: seq<seq<nat>>, posted: seq<nat>)
    requires n < WORD32 && HeadersKept(s, Due(n, rounds), posted) && RoundKept(s, n, rounds)
    requires s.sendCnt < |Due(n, rounds)| && CanPost(s)
    ensures HeadersKept(Post(s, blockSize), Due(n, rounds), posted + [s.headers[Slot(s)]])
  {
    var due := Due(n, rounds);
    assert due[..s.sendCnt + 1] == due[..s.sendCnt] + [due[s.sendCnt]];
    if s.sendCnt + 1 < |due| { NextHeader(s, blockSize, n, rounds); }
  }

  // The header that Post prepares is the next one due.
  lemma NextHeader(s: Sender, blockSize: nat, n: nat, rounds: seq<seq<nat>>)
    requires n < WORD32 && RoundKept(s, n, rounds) && s.sendCnt + 1 < |Due(n, rounds)| && CanPost(s)
    ensures Post(s, blockSize).headers[Slot(Post(s, blockSize))] == Due(n, rounds)[s.sendCnt + 1]
  {
    if rounds == [] {
      assert Due(n, rounds) == Upto(n);
    } else {
      NextInRound(s, n, rounds);
    }
  }

  lemma NextInRound(s: Sender, n: nat, rounds: seq<seq<nat>>)
    requires RoundKept(s, n, rounds) && rounds != [] && s.sendCnt + 1 < |Due(n, rounds)|
    ensures s.startRestran && s.restranedNum + 1 < s.restranNum <= |s.space|
    ensures Due(n, rounds)[s.sendCnt + 1] == s.space[s.restranedNum + 1]
  {
    LastRound(n, rounds);
    var last := rounds[|rounds| - 1];
    assert Due(n, rounds)[s.sendCnt + 1] == last[s.restranedNum + 1];
    assert s.space[..|last|][s.restranedNum + 1] == s.space[s.restranedNum + 1];
  }

  lemma PostKeepsBytes(s: Sender, blockSize: nat, due: nat)
    requires BytesKept(s, blockSize, due) && s.sendCnt < due && CanPost(s)
    requires Bytes(due - s.sendCnt, blockSize) < WORD64
    ensures BytesKept(Post(s, blockSize), blockSize, due)
  {
    OneBlockLess(due - s.sendCnt, blockSize);
    OneMoreOutstanding(s, Post(s, blockSize), blockSize, due);
  }

  lemma OneMoreOutstanding(s: Sender, t: Sender, blockSize: nat, due: nat)
    requires BytesKept(s, blockSize, due) && s.sendCnt < due && s.outstanding < |s.headers| == |t.headers|
    requires t.sendCnt == s.sendCnt + 1 && t.outstanding == s.outstanding + 1 && t.ackBytes == s.ackBytes
    requires t.uncompleteBytes == s.uncompleteBytes + [blockSize] && t.bytesLeft == Bytes(due - t.sendCnt, blockSize)
    ensures BytesKept(t, blockSize, due)
  {
  }

  lemma OneBlockLess(blocks: nat, size: nat)
    requires blocks > 0 && Bytes(blocks, size) < WORD64
    ensures (Bytes(blocks, size) - size) % WORD64 == Bytes(blocks - 1, size)
  {
  }

  // Posting the current slot: the schedule goes on by one header.
  lemma {:induction false} PostKeepsSchedule(s: Sender, blockSize: nat, n: nat, rounds: seq<seq<nat>>, posted: seq<nat>)
    requires OnSchedule(s, blockSize, n, rounds, posted) && !s.finished && s.outstanding < |s.headers| && !Idle(s)
    ensures CanPost(s)
    ensures OnSchedule(Post(s, blockSize), blockSize, n, rounds, posted + [s.headers[Slot(s)]])
  {
    IdleWhenNothingDue(s, blockSize, n, rounds, posted);
    PostKeepsHeaders(s, blockSize, n, rounds, posted);
    var left := |Due(n, rounds)| - s.sendCnt;
    assert left <= n by { if rounds == [] { assert Due(n, rounds) == Upto(n); } }
    BytesAdd(left, n - left, blockSize);
    PostKeepsBytes(s, blockSize, |Due(n, rounds)|);
  }

  lemma CompleteKeepsSchedule(s: Sender, blockSize: nat, n: nat, rounds: seq<seq<nat>>, posted: seq<nat>)
    requires OnSchedule(s, blockSize, n, rounds, posted) && s.outstanding > 0
    ensures CanComplete(s) && OnSchedule(Complete(s), blockSize, n, rounds, posted)
  {
  }

  // Reading a request while idle: neither assert can fail, the buffer allocated for the first
  // request suffices, and the schedule grows by the request.
  lemma {:induction false} ReadKeepsSchedule(s: Sender, blockSize: nat, n: nat, rounds: seq<seq<nat>>, posted: seq<nat>,
                          ids: seq<nat>, rest: seq<nat>)
    requires OnSchedule(s, blockSize, n, rounds, posted)
    requires ids != [] ==> Idle(s) && |ids| <= n && (rounds != [] ==> |ids| <= |rounds[0]|)
    ensures var rd := ReadingOf(s, blockSize, Frame(ids) + rest);
            && rd.Read? && rd.rest == rest
            && (ids == [] ==> rd.s == s.(finished := true))
            && (ids != [] ==> OnSchedule(rd.s, blockSize, n, rounds + [ids], posted) && rd.s.finished == s.finished)
  {
    FrameRead(ids, rest);
    if ids == [] {
    } else {
      IdleWhenNothingDue(s, blockSize, n, rounds, posted);
      BytesAdd(|ids|, n - |ids|, blockSize);
      NextRound(s, blockSize, n, rounds, posted, ids);
      RearmedBytes(s, blockSize, |Due(n, rounds)|, ids);
    }
  }

  lemma RearmedBytes(s: Sender, blockSize: nat, due: nat, ids: seq<nat>)
    requires BytesKept(s, blockSize, due) && s.sendCnt == due && s.headers != [] && ids != []
    requires Bytes(|ids|, blockSize) < WORD64 && (!s.firstRestran ==> |ids| <= |s.space|)
    ensures BytesKept(Rearmed(s, blockSize, ids), blockSize, due + |ids|)
  {
    BytesIsProduct(|ids|, blockSize);
  }

  // A request for blocks trips an assert exactly when it is read before the sender is idle.
  lemma RequestTripsBusySender(s: Sender, blockSize: nat, n: nat, rounds: seq<seq<nat>>, posted: seq<nat>,
                               ids: seq<nat>, rest: seq<nat>)
    requires OnSchedule(s, blockSize, n, rounds, posted)
    requires ids != [] && (rounds != [] ==> |ids| <= |rounds[0]|)
    ensures ReadingOf(s, blockSize, Frame(ids) + rest).Failed? <==> !Idle(s)
  {
    FrameRead(ids, rest);
  }

  lemma FrameRead(ids: seq<nat>, rest: seq<nat>)
    ensures var wire := Frame(ids) + rest;
            && wire != [] && wire[0] == |ids| && |wire| >= 1 + |ids|
            && wire[1..1 + |ids|] == ids && wire[1 + |ids|..] == rest
  {
  }

  lemma NextRound(s: Sender, blockSize: nat, n: nat, rounds: seq<seq<nat>>, posted: seq<nat>, ids: seq<nat>)
    requires HeadersKept(s, Due(n, rounds), posted) && RoundKept(s, n, rounds)
    requires s.sendCnt == |Due(n, rounds)| && 0 < |ids| <= n && (rounds != [] ==> |ids| <= |rounds[0]|)
    ensures var t := Rearmed(s, blockSize, ids);
            HeadersKept(t, Due(n, rounds + [ids]), posted) && RoundKept(t, n, rounds + [ids])
    ensures |Due(n, rounds + [ids])| == s.sendCnt + |ids|
  {
    var t := Rearmed(s, blockSize, ids);
    var more := rounds + [ids];
    assert more[..|more| - 1] == rounds;
    assert Due(n, more) == Due(n, rounds) + ids;
    assert t.space[..|ids|] == ids;
  }

  // Bytes acknowledged, outstanding and still due add up to the file and every block asked for again.
  lemma BytesConserved(s: Sender, blockSize: nat, n: nat, rounds: seq<seq<nat>>, posted: seq<nat>)
    requires OnSchedule(s, blockSize, n, rounds, posted)
    ensures s.ackBytes + Sum(s.uncompleteBytes) + s.bytesLeft == n * blockSize + |Flatten(rounds)| * blockSize
  {
    SumOfBlocks(s.uncompleteBytes, blockSize);
    BytesAdd(s.sendCnt, |Due(n, rounds)| - s.sendCnt, blockSize);
    BytesAdd(n, |Flatten(rounds)|, blockSize);
    BytesIsProduct(n, blockSize);
    BytesIsProduct(|Flatten(rounds)|, blockSize);
  }

  lemma OutstandingWerePosted(s: Sender, blockSize: nat, due: nat)
    requires BytesKept(s, blockSize, due) && blockSize > 0
    ensures s.outstanding <= s.sendCnt
  {
    if s.outstanding > s.sendCnt {
      BytesAdd(s.sendCnt, s.outstanding - s.sendCnt, blockSize);
    }
  }

  function Sum(xs: seq<nat>): nat {
    if xs == [] then 0 else xs[0] + Sum(xs[1..])
  }

  lemma {:induction false} SumOfBlocks(xs: seq<nat>, x: nat)
    requires forall k :: 0 <= k < |xs| ==> xs[k] == x
    ensures Sum(xs) == Bytes(|xs|, x)
  {
    if xs == [] {
    } else {
      SumOfBlocks(xs[1..], x);
    }
  }

  // Completions come in order, so the blocks outstanding are the last ones posted; the slot about to
  // be posted is none of theirs exactly as long as one slot is free.
  lemma {:induction false} SlotIsFree(posted: nat, outstanding: nat, slots: nat)
    requires slots > 0 && outstanding <= posted
    ensures (forall j :: posted - outstanding <= j < posted ==> j % slots != posted % slots)
            <==> outstanding < slots
  {
    if outstanding < slots {
      forall j | posted - outstanding <= j < posted ensures j % slots != posted % slots {
        ModDistinct(j, posted, slots);
      }
    } else {
      ModPeriod(posted - slots, slots);
    }
  }

  // Post prepares the next slot before a completion has freed it: the header it writes there lands in
  // a block still outstanding exactly when the block just posted took the last free slot.
  lemma {:induction false} PreparedSlotIsFree(s: Sender, blockSize: nat, due: nat)
    requires BytesKept(s, blockSize, due) && blockSize > 0 && CanPost(s)
    ensures var t := Post(s, blockSize);
            (forall j :: t.sendCnt - t.outstanding <= j < t.sendCnt ==> j % |t.headers| != Slot(t))
            <==> s.outstanding + 1 < |s.headers|
  {
    OutstandingWerePosted(s, blockSize, due);
    var t := Post(s, blockSize);
    assert t.sendCnt == s.sendCnt + 1 && t.outstanding == s.outstanding + 1 && |t.headers| == |s.headers|;
    SlotIsFree(t.sendCnt, t.outstanding, |t.headers|);
  }

  // The payload is always a whole buffer, so bytes_left, an unsigned 64-bit count, falls by the block
  // size with every post.
  function LeftAfter(fileSize: nat, blockSize: nat, posts: nat): (left: nat) {
    if posts == 0 then fileSize else (LeftAfter(fileSize, blockSize, posts - 1) - blockSize) % WORD64
  }

  function NumOfBlocks(fileSize: nat, blockSize: nat): nat
    requires blockSize > 0
  {
    fileSize / blockSize + if fileSize % blockSize == 0 then 0 else 1
  }

  lemma {:induction false} LeftWhileWhole(fileSize: nat, blockSize: nat, posts: nat)
    requires fileSize < WORD64 && posts * blockSize <= fileSize
    ensures LeftAfter(fileSize, blockSize, posts) == fileSize - posts * blockSize
  {
    if posts == 0 {
    } else {
      MulPred(posts, blockSize);
      MulSign(posts - 1, blockSize);
      LeftWhileWhole(fileSize, blockSize, posts - 1);
    }
  }

  // What the loop does before any request: true posts a block, false takes a completion.
  predicate IsPass(s: Sender, blockSize: nat, moves: seq<bool>)
    decreases |moves|
  {
    moves == [] ||
    (if moves[0] then CanPost(s) && IsPass(Post(s, blockSize), blockSize, moves[1..])
     else CanComplete(s) && IsPass(Complete(s), blockSize, moves[1..]))
  }

  function PassAfter(s: Sender, blockSize: nat, moves: seq<bool>): Sender
    requires IsPass(s, blockSize, moves)
    decreases |moves|
  {
    if moves == [] then s
    else PassAfter(if moves[0] then Post(s, blockSize) else Complete(s), blockSize, moves[1..])
  }

  ghost predicate InFirstPass(s: Sender, fileSize: nat, blockSize: nat) {
    && s.firstRestran && !s.startRestran && !s.finished && s.headers != []
    && s.bytesLeft == LeftAfter(fileSize, blockSize, s.sendCnt) && s.headers[Slot(s)] == s.sendCnt % WORD32
  }

  lemma {:induction false} PassKeepsCount(s: Sender, fileSize: nat, blockSize: nat, moves: seq<bool>)
    requires InFirstPass(s, fileSize, blockSize) && IsPass(s, blockSize, moves)
    ensures InFirstPass(PassAfter(s, blockSize, moves), fileSize, blockSize)
    decreases |moves|
  {
    if moves == [] {
    } else {
      PassKeepsCount(if moves[0] then Post(s, blockSize) else Complete(s), fileSize, blockSize, moves[1..]);
    }
  }

  // When the N blocks of the file have been posted, however completions came in between, the sender is
  // idle if and only if the block size divides the file size; if not, the next block it posts is
  // number N, which the file does not have.
  lemma FirstPassEndsExactly(s: Sender, fileSize: nat, blockSize: nat, moves: seq<bool>)
    requires 0 < fileSize < WORD64 && 0 < blockSize < WORD64 && Initial(s, fileSize) && IsPass(s, blockSize, moves)
    requires PassAfter(s, blockSize, moves).sendCnt == NumOfBlocks(fileSize, blockSize)
    ensures var t := PassAfter(s, blockSize, moves);
            && (Idle(t) <==> fileSize % blockSize == 0)
            && (fileSize % blockSize != 0 && t.outstanding < |t.headers| ==>
                  CanPost(t) && t.headers[Slot(t)] == NumOfBlocks(fileSize, blockSize) % WORD32)
  {
    PassKeepsCount(s, fileSize, blockSize, moves);
    LeftAtEnd(fileSize, blockSize);
  }

  lemma LeftAtEnd(fileSize: nat, blockSize: nat)
    requires 0 < fileSize < WORD64 && 0 < blockSize < WORD64
    ensures LeftAfter(fileSize, blockSize, NumOfBlocks(fileSize, blockSize)) == 0 <==> fileSize % blockSize == 0
  {
    var whole := fileSize / blockSize;
    assert fileSize == whole * blockSize + fileSize % blockSize;
    LeftWhileWhole(fileSize, blockSize, whole);
  }

  // ---------------------------------------------------------------- the loop's operations, in place

  class SendingLoop {
    const blockSize: nat
    const headers: array<nat>
    var bytesLeft: nat
    var ackBytes: nat
    var uncompleteBytes: seq<nat>
    var outstanding: nat
    var sendCnt: nat
    var space: array<nat>
    var restranNum: nat
    var restranedNum: nat
    var startRestran: bool
    var firstRestran: bool
    var recvFinished: bool

    ghost function View(): Sender
      reads this, headers, space
    {
      Sender(bytesLeft, ackBytes, uncompleteBytes, outstanding, sendCnt, headers[..], space[..], restranNum,
             restranedNum, startRestran, firstRestran, recvFinished)
    }

    ghost predicate Valid()
      reads this
    {
      headers != space && headers.Length > 0
    }

    constructor (fileSize: nat, blockSize: nat, buffers: array<nat>)
      requires buffers.Length > 0
      modifies buffers
      ensures Valid() && Initial(View(), fileSize) && headers == buffers && this.blockSize == blockSize
      ensures fresh(space)
    {
      this.blockSize, headers := blockSize, buffers;
      bytesLeft, ackBytes, uncompleteBytes, outstanding, sendCnt := fileSize, 0, [], 0, 0;
      space, restranNum, restranedNum := new nat[0], 0, 0;
      startRestran, firstRestran, recvFinished := false, true, false;
      new;
      buffers[0] := 0;
    }

    method CopyIds(ids: seq<nat>)
      requires |ids| <= space.Length
      modifies space
      ensures space[..] == ids + old(space[..])[|ids|..]
    {
      for k := 0 to |ids|
        invariant forall j :: 0 <= j < space.Length ==> space[j] == if j < k then ids[j] else old(space[..])[j]
      {
        space[k] := ids[k];
      }
    }

    // The ids of a request: the first one's buffer is allocated, later ones reuse it.
    method TakeIds(ids: seq<nat>)
      requires Valid() && (!firstRestran ==> |ids| <= space.Length)
      modifies this`space, this`firstRestran, space
      ensures Valid() && (space == old(space) || fresh(space)) && !firstRestran
      ensures space[..] == if old(firstRestran) then ids else ids + old(space[..])[|ids|..]
    {
      if firstRestran {
        space := new nat[|ids|](k requires 0 <= k < |ids| => ids[k]);
        firstRestran := false;
      } else {
        CopyIds(ids);
      }
    }

    // A round of retransmission is set up; the asserts of the source stand before it.
    method Rearm(ids: seq<nat>)
      requires Valid() && ids != [] && bytesLeft == 0 && (!firstRestran ==> |ids| <= space.Length)
      modifies this, headers, space
      ensures Valid() && (space == old(space) || fresh(space))
      ensures View() == Rearmed(old(View()), blockSize, ids)
    {
      TakeIds(ids);
      startRestran := true;
      headers[sendCnt % headers.Length] := space[0];
      bytesLeft := (bytesLeft + |ids| * blockSize) % WORD64;
      restranNum, restranedNum := |ids|, 0;
    }

    // Reads a request if all of it has come; rest is what stays on the stream.
    method ReadRequest(wire: seq<nat>) returns (rest: seq<nat>)
      requires Valid() && !ReadingOf(View(), blockSize, wire).Failed?
      modifies this, headers, space
      ensures Valid() && (space == old(space) || fresh(space))
      ensures var rd := ReadingOf(old(View()), blockSize, wire);
              if rd.Waiting? then View() == old(View()) && rest == wire else Read(View(), rest) == rd
    {
      rest := wire;
      if wire == [] {
        return;
      }
      var n := wire[0];
      if n == 0 {
        recvFinished := true;
        rest := wire[1..];
      } else if |wire| >= 1 + n {
        Rearm(wire[1..1 + n]);
        rest := wire[1 + n..];
      }
    }

    // Posts the current slot and prepares the next; header is the word the network reads.
    method PostNext() returns (header: nat)
      requires Valid() && CanPost(View())
      modifies this, headers
      ensures Valid() && space == old(space)
      ensures header == old(View()).headers[Slot(old(View()))] && View() == Post(old(View()), blockSize)
    {
      header := headers[sendCnt % headers.Length];
      uncompleteBytes := uncompleteBytes + [blockSize];
      bytesLeft := (bytesLeft - blockSize) % WORD64;
      outstanding, sendCnt := outstanding + 1, sendCnt + 1;
      var id := sendCnt % headers.Length;
      if startRestran {
        restranedNum := restranedNum + 1;
        if restranedNum < restranNum {
          headers[id] := space[restranedNum];
        } else {
          startRestran := false;
        }
      } else {
        headers[id] := sendCnt % WORD32;
      }
    }

    // The completions of one poll, oldest first.
    method CompleteBatch(n: nat) returns (k: nat)
      requires outstanding == |uncompleteBytes|
      modifies this`outstanding, this`ackBytes, this`uncompleteBytes
      ensures k == if n <= old(outstanding) then n else old(outstanding)
      ensures uncompleteBytes == old(uncompleteBytes)[k..] && outstanding == |uncompleteBytes|
      ensures ackBytes + Sum(uncompleteBytes) == old(ackBytes + Sum(uncompleteBytes))
    {
      k := 0;
      ghost var was := uncompleteBytes;
      while k < n && outstanding > 0
        invariant k <= n && k <= |was| && uncompleteBytes == was[k..] && outstanding == |was| - k
        invariant ackBytes + Sum(uncompleteBytes) == old(ackBytes) + Sum(was)
      {
        assert was[k..][1..] == was[k + 1..];
        outstanding := outstanding - 1;
        ackBytes := ackBytes + uncompleteBytes[0];
        uncompleteBytes := uncompleteBytes[1..];
        k := k + 1;
      }
    }

    // The polling loop of lines 721-752: polls[k] completions come in at the k-th poll. It leaves at the
    // first poll after which a slot is free and, with nothing left to send, every block is
    // acknowledged; done is false when polls runs out before that.
    method PollCompletions(polls: seq<nat>) returns (done: bool, used: nat)
      requires Valid() && outstanding == |uncompleteBytes|
      modifies this`outstanding, this`ackBytes, this`uncompleteBytes
      ensures used <= |polls| && outstanding == |uncompleteBytes| == StillOut(old(outstanding), polls[..used])
      ensures uncompleteBytes == old(uncompleteBytes)[old(outstanding) - outstanding..]
      ensures ackBytes + Sum(uncompleteBytes) == old(ackBytes + Sum(uncompleteBytes))
      ensures forall j :: 0 < j < used ==> !MayLeave(headers.Length, bytesLeft, StillOut(old(outstanding), polls[..j]))
      ensures done <==> used > 0 && MayLeave(headers.Length, bytesLeft, outstanding)
      ensures !done ==> used == |polls|
    {
      used := 0;
      ghost var was := uncompleteBytes;
      while used < |polls|
        invariant used <= |polls| && outstanding == |uncompleteBytes| == StillOut(|was|, polls[..used])
        invariant uncompleteBytes == was[|was| - outstanding..]
        invariant ackBytes + Sum(uncompleteBytes) == old(ackBytes) + Sum(was)
        invariant forall j :: 0 < j <= used ==> !MayLeave(headers.Length, bytesLeft, StillOut(|was|, polls[..j]))
      {
        OnePollMore(|was|, polls, used);
        ghost var out := outstanding;
        var n := CompleteBatch(polls[used]);
        assert was[|was| - out..][n..] == was[|was| - out + n..];
        used := used + 1;
        if !(outstanding >= headers.Length || (bytesLeft == 0 && outstanding > 0)) {
          return true, used;
        }
      }
      return false, used;
    }
  }

  // The blocks still outstanding after some polls.
  function StillOut(outstanding: nat, polls: seq<nat>): nat {
    if Sum(polls) < outstanding then outstanding - Sum(polls) else 0
  }

  // A slot is free and, with nothing left to send, every block is acknowledged.
  predicate MayLeave(slots: nat, bytesLeft: nat, outstanding: nat) {
    outstanding < slots && (bytesLeft == 0 ==> outstanding == 0)
  }

  lemma {:induction false} SumSnoc(xs: seq<nat>, x: nat)
    ensures Sum(xs + [x]) == Sum(xs) + x
  {
    if xs == [] {
      assert ([] + [x])[1..] == [];
    } else {
      assert (xs + [x])[1..] == xs[1..] + [x];
      SumSnoc(xs[1..], x);
    }
  }

  lemma OnePollMore(outstanding: nat, polls: seq<nat>, k: nat)
    requires k < |polls|
    ensures var out := StillOut(outstanding, polls[..k]);
            StillOut(outstanding, polls[..k + 1]) == if polls[k] <= out then out - polls[k] else 0
  {
    assert polls[..k + 1] == polls[..k] + [polls[k]];
    SumSnoc(polls[..k], polls[k]);
  }

  // The loop as a test on the polls: it can be left by one of them exactly when all of them together
  // free a slot and, with nothing left to send, acknowledge every block.
  lemma LeavesExactly(slots: nat, bytesLeft: nat, outstanding: nat, polls: seq<nat>)
    requires polls != []
    ensures (exists j :: 0 < j <= |polls| && MayLeave(slots, bytesLeft, StillOut(outstanding, polls[..j]))) <==>
            slots > 0 && Sum(polls) + slots > outstanding && (bytesLeft == 0 ==> Sum(polls) >= outstanding)
  {
    assert polls[..|polls|] == polls;
    if slots > 0 && Sum(polls) + slots > outstanding && (bytesLeft == 0 ==> Sum(polls) >= outstanding) {
      assert MayLeave(slots, bytesLeft, StillOut(outstanding, polls[..|polls|]));
    }
    forall j | 0 < j <= |polls| ensures Sum(polls[..j]) <= Sum(polls) {
      SumSplit(polls, j);
    }
  }

  lemma {:induction false} SumSplit(xs: seq<nat>, k: nat)
    requires k <= |xs|
    ensures Sum(xs) == Sum(xs[..k]) + Sum(xs[k..])
  {
    if k == 0 {
      assert xs[0..] == xs;
    } else {
      SumSplit(xs, k - 1);
      assert xs[..k] == xs[..k - 1] + [xs[k - 1]];
      SumSnoc(xs[..k - 1], xs[k - 1]);
      assert xs[k - 1..] == [xs[k - 1]] + xs[k..];
    }
  }
}
