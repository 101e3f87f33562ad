// One turn of the receiving loop of postRecvFile: a polled batch, then the retransmission request.
module BlockReceiver {
  import opened BlockWindow

  // The loop state that outlives a turn; space is the length, in words, of restran_space (0: not allocated).
  datatype Receiver = Receiver(w: Window, first: bool, space: nat)

  // Failed stands for a failed assert, an index outside the deque, words written past restran_space
  // or sent from it unwritten. sent is the request put on the TCP stream, [] when there is none.
  datatype Turn = Failed | Took(r: Receiver, sent: seq<nat>)

  const FRESH := Receiver(START, true, 0)

  // The ids that the copying loop writes after the count word, room being the words still wanted:
  // the loop stops only where the wanted size is hit exactly.
  function Written(q: seq<Item>, room: int): (ids: seq<nat>)
  {
    if q == [] then []
    else
      var here := if q[0].recved then [] else [q[0].id];
      if room - |here| == 0 then here else here + Written(q[1..], room - |here|)
  }

  // Lines 478-484: unseen entries up to the end of the file, without moving recv_max_seq.
  function Padded(w: Window, n: nat): Window {
    if w.maxSeq < n - 1 then w.(pending := w.pending + Unseen(w.maxSeq + 1, n)) else w
  }

  function Ask(w: Window, n: nat, first: bool, space: nat): Turn {
    var unrecv := n - w.num;
    var ids := Written(w.pending, unrecv);
    if 0 <= unrecv <= |ids| < space then Took(Receiver(w, first, space), [unrecv] + ids[..unrecv]) else Failed
  }

  // A turn with completions ids, or with none and the one-second timer run out.
  function TakeTurn(r: Receiver, n: nat, ids: seq<nat>, timedOut: bool): Turn {
    var o := ArriveAll(r.w, ids);
    if o.Aborted? then Failed
    else if r.first && (o.w.maxSeq == n - 1 || timedOut) then
      if o.w.num > n then Failed else Ask(Padded(o.w, n), n, false, n - o.w.num + 1)
    else if timedOut || o.w.expected == n then Ask(o.w, n, r.first, r.space)
    else Took(r.(w := o.w), [])
  }

  class ReceivingLoop {
    var expectSeq: nat
    var recvMaxSeq: MaxSeq
    var recvNum: nat
    var unrecvPacketSeqs: seq<Item>
    var firstRestran: bool
    var restranSpace: array<nat>

    ghost function View(): Receiver
      reads this
    {
      Receiver(Window(expectSeq, recvMaxSeq, recvNum, unrecvPacketSeqs), firstRestran, restranSpace.Length)
    }

    constructor ()
      ensures View() == FRESH && fresh(restranSpace)
    {
      expectSeq, recvMaxSeq, recvNum, unrecvPacketSeqs := 0, -1, 0, [];
      firstRestran, restranSpace := true, new nat[0];
    }

    // Drops the received entries at the front of the deque, advancing expect_seq.
    method PopReceived()
      modifies this`expectSeq, this`unrecvPacketSeqs
      ensures var n := FrontRun(old(unrecvPacketSeqs));
              expectSeq == old(expectSeq) + n && unrecvPacketSeqs == old(unrecvPacketSeqs)[n..]
    {
      ghost var q, n := unrecvPacketSeqs, 0;
      while unrecvPacketSeqs != [] && unrecvPacketSeqs[0].recved
        invariant n <= |q| && unrecvPacketSeqs == q[n..] && expectSeq == old(expectSeq) + n
        invariant forall k :: 0 <= k < n ==> q[k].recved
        decreases |unrecvPacketSeqs|
      {
        unrecvPacketSeqs := unrecvPacketSeqs[1..];
        expectSeq, n := expectSeq + 1, n + 1;
      }
    }

    method AppendUnseen(lo: nat, hi: nat)
      requires lo <= hi
      modifies this`unrecvPacketSeqs
      ensures unrecvPacketSeqs == old(unrecvPacketSeqs) + Unseen(lo, hi)
    {
      var i := lo;
      while i < hi
        invariant lo <= i <= hi
        invariant |unrecvPacketSeqs| == |old(unrecvPacketSeqs)| + i - lo
        invariant forall k :: 0 <= k < |unrecvPacketSeqs| ==>
          unrecvPacketSeqs[k] == if k < |old(unrecvPacketSeqs)| then old(unrecvPacketSeqs)[k]
                                 else Item(lo + k - |old(unrecvPacketSeqs)|, false)
      {
        unrecvPacketSeqs := unrecvPacketSeqs + [Item(i, false)];
        i := i + 1;
      }
      assert unrecvPacketSeqs == old(unrecvPacketSeqs) + Unseen(lo, hi);
    }

    // One completion; ok is false where the source's asserts stop the program.
    method Deliver(id: nat) returns (ok: bool)
      modifies this`expectSeq, this`recvMaxSeq, this`recvNum, this`unrecvPacketSeqs
      ensures ok <==> Arrive(old(View()).w, id).Running?
      ensures ok ==> View() == old(View()).(w := Arrive(old(View()).w, id).w)
    {
      ok := true;
      if id < expectSeq {
        return;
      }
      if id == expectSeq {
        if expectSeq > recvMaxSeq {
          expectSeq, recvMaxSeq := expectSeq + 1, id;
        } else {
          if expectSeq == recvMaxSeq || unrecvPacketSeqs == [] || unrecvPacketSeqs[0].id != id {
            return false;
          }
          unrecvPacketSeqs := unrecvPacketSeqs[0 := Item(id, true)];
          PopReceived();
        }
      } else if id < recvMaxSeq {
        var k := id - expectSeq;
        if k >= |unrecvPacketSeqs| {
          return false;
        }
        if unrecvPacketSeqs[k].recved {
          return;
        }
        unrecvPacketSeqs := unrecvPacketSeqs[k := unrecvPacketSeqs[k].(recved := true)];
      } else if id > recvMaxSeq {
        AppendUnseen(recvMaxSeq + 1, id);
        unrecvPacketSeqs := unrecvPacketSeqs + [Item(id, true)];
        recvMaxSeq := id;
      } else {
        return;
      }
      recvNum := recvNum + 1;
    }

    // Copies the count and the unreceived ids into restran_space.
    method FillSpace(unrecv: nat)
      requires |Written(unrecvPacketSeqs, unrecv)| < restranSpace.Length
      modifies restranSpace
      ensures restranSpace[0] == unrecv
      ensures var ids := Written(unrecvPacketSeqs, unrecv); restranSpace[1..1 + |ids|] == ids
    {
      restranSpace[0] := unrecv;
      var loc, i := 1, 0;
      ghost var q := unrecvPacketSeqs;
      ghost var ids := Written(q, unrecv);
      assert q[0..] == q;
      while i < |unrecvPacketSeqs|
        invariant i <= |q| && 1 <= loc <= 1 + |ids|
        invariant ids[loc - 1..] == Written(q[i..], unrecv + 1 - loc)
        invariant forall k :: 1 <= k < loc ==> restranSpace[k] == ids[k - 1]
        invariant restranSpace[0] == unrecv
      {
        assert q[i..][1..] == q[i + 1..];
        if !unrecvPacketSeqs[i].recved {
          assert ids[loc - 1..][0] == q[i].id;
          assert ids[loc - 1..][1..] == ids[loc..];
          restranSpace[loc] := unrecvPacketSeqs[i].id;
          loc := loc + 1;
        }
        i := i + 1;
        if loc == unrecv + 1 {
          break;
        }
      }
      assert ids[loc - 1..] == [];
    }

    // A polled batch of completions, in order.
    method DeliverAll(ids: seq<nat>)
      requires ArriveAll(View().w, ids).Running?
      modifies this`expectSeq, this`recvMaxSeq, this`recvNum, this`unrecvPacketSeqs
      ensures View() == old(View()).(w := ArriveAll(old(View()).w, ids).w)
    {
      ghost var before := View();
      var i := 0;
      assert ids[0..] == ids;
      while i < |ids|
        invariant i <= |ids| && View() == before.(w := View().w)
        invariant ArriveAll(View().w, ids[i..]) == ArriveAll(before.w, ids)
      {
        assert ids[i..][1..] == ids[i + 1..];
        var ok := Deliver(ids[i]);
        i := i + 1;
      }
    }

    // The request as sent: restran_size words of restran_space.
    method SendRequest(n: nat) returns (sent: seq<nat>)
      requires Ask(View().w, n, firstRestran, restranSpace.Length).Took?
      modifies restranSpace
      ensures Took(View(), sent) == Ask(View().w, n, firstRestran, restranSpace.Length)
    {
      ghost var ids := Written(unrecvPacketSeqs, n - recvNum);
      FillSpace(n - recvNum);
      sent := restranSpace[..n - recvNum + 1];
      assert restranSpace[1..1 + |ids|][..n - recvNum] == restranSpace[1..n - recvNum + 1];
    }

    // One turn of the loop. When the model's turn does not fail, the class takes exactly that turn;
    // sent is what goes on the wire.
    method PollTurn(n: nat, ids: seq<nat>, timedOut: bool) returns (sent: seq<nat>)
      requires TakeTurn(View(), n, ids, timedOut).Took?
      modifies this, restranSpace
      ensures Took(View(), sent) == TakeTurn(old(View()), n, ids, timedOut)
      ensures restranSpace == old(restranSpace) || fresh(restranSpace)
    {
      DeliverAll(ids);
      sent := [];
      if firstRestran && (recvMaxSeq == n - 1 || timedOut) {
        restranSpace := new nat[n - recvNum + 1];
        if recvMaxSeq < n - 1 {
          AppendUnseen(recvMaxSeq + 1, n);
        }
        firstRestran := false;
        sent := SendRequest(n);
      } else if timedOut || expectSeq == n {
        sent := SendRequest(n);
      }
    }
  }
}
