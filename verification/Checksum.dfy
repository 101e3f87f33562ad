// in_cksum of switch.cpp: the Internet checksum of section 1 of RFC 1071, as the C code of its
// section 4.1 computes it, on a little-endian host.
module Checksum {
  type Byte = b: int | 0 <= b < 256

  const FULL := 0xffff

  function Word(lo: Byte, hi: Byte): (w: nat)
    ensures w <= FULL && w / 256 == hi && w % 256 == lo
  {
    lo as int + 256 * (hi as int)
  }

  // The 16-bit words of a buffer; an odd trailing byte is a word of its own.
  function Words(buf: seq<Byte>): (ws: seq<nat>)
    ensures forall k :: 0 <= k < |ws| ==> ws[k] <= FULL
    ensures |ws| == (|buf| + 1) / 2
  {
    if |buf| == 0 then []
    else if |buf| == 1 then [buf[0]]
    else [Word(buf[0], buf[1])] + Words(buf[2..])
  }

  function Total(ws: seq<nat>): nat {
    if ws == [] then 0 else ws[0] + Total(ws[1..])
  }

  // Addition with the carry brought round, and the sum it gives.
  function OnesAdd(a: nat, b: nat): (c: nat)
    requires a <= FULL && b <= FULL
    ensures c <= FULL
  {
    if a + b <= FULL then a + b else a + b - FULL
  }

  function OnesSum(ws: seq<nat>): (c: nat)
    requires forall k :: 0 <= k < |ws| ==> ws[k] <= FULL
    ensures c <= FULL
  {
    if ws == [] then 0 else OnesAdd(ws[0], OnesSum(ws[1..]))
  }

  // The two folds and the complement, on a sum of 31 bits.
  function FoldedComplement(sum: nat): (answer: nat)
    ensures answer <= FULL
  {
    var once := sum / 0x1_0000 + sum % 0x1_0000;
    var twice := once + once / 0x1_0000;
    FULL - twice % 0x1_0000
  }

  function InCksum(buf: seq<Byte>): nat {
    FoldedComplement(Total(Words(buf)))
  }

  // One turn of the loop takes one word off the rest of the buffer.
  lemma NextWord(addr: seq<Byte>, w: nat)
    requires w + 1 < |addr|
    ensures Total(Words(addr[w..])) == Word(addr[w], addr[w + 1]) + Total(Words(addr[w + 2..]))
  {
    assert addr[w..][2..] == addr[w + 2..];
  }

  lemma LastByte(addr: seq<Byte>, w: nat)
    requires |addr| - 1 <= w <= |addr|
    ensures Total(Words(addr[w..])) == if w < |addr| then addr[w] else 0
  {
    if w < |addr| { assert addr[w..] == [addr[w]]; }
  }

  // The end of in_cksum: two folds and the complement.
  method Fold(total: nat) returns (answer: nat)
    ensures answer == FoldedComplement(total)
  {
    var sum := total / 0x1_0000 + total % 0x1_0000;
    sum := sum + sum / 0x1_0000;
    answer := FULL - sum % 0x1_0000;
  }

  // The loop of in_cksum; the sum stays within a C int.
  method InternetChecksum(addr: seq<Byte>) returns (answer: nat)
    requires |addr| <= 0x1_0000
    ensures answer == InCksum(addr)
  {
    var nleft, sum, w := |addr|, 0, 0;
    assert addr[0..] == addr;
    while nleft > 1
      invariant 0 <= nleft <= |addr| && w == |addr| - nleft
      invariant sum + Total(Words(addr[w..])) == Total(Words(addr))
      invariant 0 <= 2 * sum <= w * FULL
    {
      NextWord(addr, w);
      var word := Word(addr[w], addr[w + 1]);
      assert sum + word <= 0x7fff_ffff;
      sum, w, nleft := sum + word, w + 2, nleft - 2;
    }
    LastByte(addr, w);
    if nleft == 1 {
      sum := sum + addr[w];
      assert sum <= 0x7fff_ffff;
    }
    answer := Fold(sum);
  }

  // ---------------------------------------------------------------- what it computes

  // The one's-complement value of a sum: its residue, zero only for zero.
  function Residue(sum: nat): (r: nat)
    ensures r <= FULL
  {
    if sum == 0 then 0 else (sum - 1) % FULL + 1
  }

  lemma ResidueUnique(sum: nat, q: nat, r: nat)
    requires sum == q * FULL + r && 0 < r <= FULL
    ensures Residue(sum) == r
  {
    assert sum - 1 == q * FULL + (r - 1);
    assert (sum - 1) % FULL == r - 1;
  }

  lemma OnesAddIsResidue(a: nat, sum: nat)
    requires a <= FULL
    ensures OnesAdd(a, Residue(sum)) == Residue(a + sum)
  {
    if sum > 0 {
      var q := (sum - 1) / FULL;
      var r := Residue(sum);
      if a + r <= FULL {
        ResidueUnique(a + sum, q, a + r);
      } else {
        ResidueUnique(a + sum, q + 1, a + r - FULL);
      }
    } else if a > 0 {
      ResidueUnique(a, 0, a);
    }
  }

  lemma {:induction false} OnesSumIsResidue(ws: seq<nat>)
    requires forall k :: 0 <= k < |ws| ==> ws[k] <= FULL
    ensures OnesSum(ws) == Residue(Total(ws))
  {
    if ws == [] {
    } else {
      OnesSumIsResidue(ws[1..]);
      OnesAddIsResidue(ws[0], Total(ws[1..]));
    }
  }

  // Two folds are enough for any sum a C int can hold.
  lemma TwoFoldsSuffice(sum: nat)
    requires sum <= 0x7fff_ffff
    ensures FoldedComplement(sum) == FULL - Residue(sum)
  {
    var hi, lo := sum / 0x1_0000, sum % 0x1_0000;
    assert sum == hi * FULL + (hi + lo);
    if 0 < hi + lo <= FULL {
      ResidueUnique(sum, hi, hi + lo);
    } else if hi + lo > FULL {
      ResidueUnique(sum, hi + 1, hi + lo - FULL);
    }
  }

  lemma {:induction false} TotalBound(ws: seq<nat>)
    requires forall k :: 0 <= k < |ws| ==> ws[k] <= FULL
    ensures Total(ws) <= |ws| * FULL
  {
    if ws == [] {
    } else {
      TotalBound(ws[1..]);
    }
  }

  // The checksum is the complement of the one's-complement sum of the words.
  lemma {:induction false} ChecksumIsOnesComplement(buf: seq<Byte>)
    requires |buf| <= 0x1_0000
    ensures InCksum(buf) == FULL - OnesSum(Words(buf))
  {
    TotalBound(Words(buf));
    TwoFoldsSuffice(Total(Words(buf)));
    OnesSumIsResidue(Words(buf));
  }

  // ---------------------------------------------------------------- storing it

  function Stored(buf: seq<Byte>, p: nat, word: nat): seq<Byte>
    requires p + 1 < |buf| && word <= FULL
  {
    buf[p := word % 256][p + 1 := word / 256]
  }

  lemma {:induction false} StoredTotal(buf: seq<Byte>, p: nat, word: nat)
    requires p + 1 < |buf| && p % 2 == 0 && word <= FULL && buf[p] == 0 && buf[p + 1] == 0
    ensures Total(Words(Stored(buf, p, word))) == Total(Words(buf)) + word
  {
    if p == 0 {
      assert Stored(buf, p, word)[2..] == buf[2..];
    } else {
      assert Stored(buf, p, word)[2..] == Stored(buf[2..], p - 2, word);
      StoredTotal(buf[2..], p - 2, word);
    }
  }

  // For any word put where the zero was, the whole checks out to 0 if and only if the total is a
  // positive multiple of 65535.
  lemma {:induction false} ChecksOutExactly(buf: seq<Byte>, p: nat, word: nat)
    requires |buf| <= 0x1_0000 && p + 1 < |buf| && p % 2 == 0 && word <= FULL && buf[p] == 0 && buf[p + 1] == 0
    ensures InCksum(Stored(buf, p, word)) == 0
            <==> Total(Words(buf)) + word > 0 && (Total(Words(buf)) + word) % FULL == 0
  {
    var sum := Total(Words(buf)) + word;
    StoredTotal(buf, p, word);
    TotalBound(Words(Stored(buf, p, word)));
    TwoFoldsSuffice(sum);
    ResidueFull(sum);
  }

  lemma ResidueFull(sum: nat)
    ensures Residue(sum) == FULL <==> sum > 0 && sum % FULL == 0
  {
  }

  lemma ComplementCompletes(sum: nat)
    ensures sum + (FULL - Residue(sum)) > 0 && (sum + (FULL - Residue(sum))) % FULL == 0
  {
    if sum > 0 {
      var q := (sum - 1) / FULL;
      assert sum + (FULL - Residue(sum)) == (q + 1) * FULL;
    }
  }

  // Lines 332-333: the checksum, stored over its own zeroed word, makes the whole check out to 0.
  lemma {:induction false} ChecksumRoundTrip(buf: seq<Byte>, p: nat)
    requires |buf| <= 0x1_0000 && p + 1 < |buf| && p % 2 == 0 && buf[p] == 0 && buf[p + 1] == 0
    ensures InCksum(Stored(buf, p, InCksum(buf))) == 0
  {
    var sum := Total(Words(buf));
    var word := InCksum(buf);
    TotalBound(Words(buf));
    TwoFoldsSuffice(sum);
    ComplementCompletes(sum);
    ChecksOutExactly(buf, p, word);
  }
}
