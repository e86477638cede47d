// Bytes, little-endian words and patches of a byte buffer: what
// encoding/binary's LittleEndian and the copy builtin do to guest memory.
module Bytes {
  type Byte = b: int | 0 <= b < 0x100
  type U64 = v: int | 0 <= v < 0x1_0000_0000_0000_0000

  const TWO32: nat := 0x1_0000_0000
  const TWO64: nat := 0x1_0000_0000_0000_0000

  // 256 to the power n, the number of values n bytes can hold.
  function Pow256(n: nat): (p: nat)
    ensures p >= 1
  {
    if n == 0 then 1 else 256 * Pow256(n - 1)
  }

  function ToLE(v: nat, n: nat): (bs: seq<Byte>)
    ensures |bs| == n
  {
    if n == 0 then [] else [v % 256] + ToLE(v / 256, n - 1)
  }

  function FromLE(bs: seq<Byte>): nat {
    if bs == [] then 0 else bs[0] + 256 * FromLE(bs[1..])
  }

  lemma {:induction false} FromLEToLE(v: nat, n: nat)
    requires v < Pow256(n)
    ensures FromLE(ToLE(v, n)) == v
  {
    if n > 0 {
      FromLEToLE(v / 256, n - 1);
      assert ToLE(v, n)[1..] == ToLE(v / 256, n - 1);
    }
  }

  lemma {:induction false} FromLEBound(bs: seq<Byte>)
    ensures FromLE(bs) < Pow256(|bs|)
  {
    if bs != [] {
      FromLEBound(bs[1..]);
    }
  }

  // The little-endian bytes of a value are the only ones that read back as it.
  lemma {:induction false} ToLEFromLE(bs: seq<Byte>)
    ensures ToLE(FromLE(bs), |bs|) == bs
  {
    if bs != [] {
      ToLEFromLE(bs[1..]);
      assert FromLE(bs) % 256 == bs[0] && FromLE(bs) / 256 == FromLE(bs[1..]);
      assert bs == [bs[0]] + bs[1..];
    }
  }

  lemma {:induction false} FromLEZero(bs: seq<Byte>)
    requires forall i :: 0 <= i < |bs| ==> bs[i] == 0
    ensures FromLE(bs) == 0
  {
    if bs != [] {
      FromLEZero(bs[1..]);
    }
  }

  lemma WordSizes()
    ensures Pow256(1) == 0x100 && Pow256(4) == TWO32 && Pow256(8) == TWO64
  {
    assert Pow256(1) == 0x100;
    assert Pow256(2) == 0x1_0000;
    assert Pow256(3) == 0x100_0000;
    assert Pow256(4) == TWO32;
    assert Pow256(5) == 0x100_0000_0000;
    assert Pow256(6) == 0x1_0000_0000_0000;
    assert Pow256(7) == 0x100_0000_0000_0000;
    assert Pow256(8) == TWO64;
  }

  // m with bs written over it at off.
  function Patch(m: seq<Byte>, off: nat, bs: seq<Byte>): (r: seq<Byte>)
    requires off + |bs| <= |m|
    ensures |r| == |m|
  {
    m[..off] + bs + m[off + |bs|..]
  }

  // The patch reads back as what was written, and is the buffer elsewhere.
  lemma PatchRead(m: seq<Byte>, off: nat, bs: seq<Byte>)
    requires off + |bs| <= |m|
    ensures Patch(m, off, bs)[off..off + |bs|] == bs
    ensures forall i :: 0 <= i < |m| ==>
      Patch(m, off, bs)[i] == if off <= i < off + |bs| then bs[i - off] else m[i]
  {
  }

  // A range the patch does not touch reads as before.
  lemma PatchDisjoint(m: seq<Byte>, off: nat, bs: seq<Byte>, lo: nat, hi: nat)
    requires off + |bs| <= |m| && lo <= hi <= |m|
    requires hi <= off || off + |bs| <= lo
    ensures Patch(m, off, bs)[lo..hi] == m[lo..hi]
  {
    var r := Patch(m, off, bs);
    PatchRead(m, off, bs);
    assert forall i :: 0 <= i < hi - lo ==> r[lo..hi][i] == m[lo..hi][i];
  }

  // Two buffers that agree on a range agree on any part of it.
  lemma SubRange(m: seq<Byte>, m': seq<Byte>, a: nat, b: nat, lo: nat, hi: nat)
    requires a <= lo <= hi <= b <= |m| && b <= |m'| && m'[a..b] == m[a..b]
    ensures m'[lo..hi] == m[lo..hi]
  {
    assert forall i :: lo <= i < hi ==> m'[i] == m'[a..b][i - a] && m[i] == m[a..b][i - a];
  }

  lemma PatchAppend(m: seq<Byte>, off: nat, a: seq<Byte>, b: seq<Byte>)
    requires off + |a| + |b| <= |m|
    ensures Patch(Patch(m, off, a), off + |a|, b) == Patch(m, off, a + b)
  {
  }

  // The 64-bit words of a buffer.
  function Word(m: seq<Byte>, k: nat): nat
    requires 8 * k + 8 <= |m|
  {
    FromLE(m[8 * k..8 * k + 8])
  }

  // Writing one aligned word changes that word and no other.
  lemma PatchWord(m: seq<Byte>, k: nat, v: U64, j: nat)
    requires 8 * k + 8 <= |m| && 8 * j + 8 <= |m|
    ensures Word(Patch(m, 8 * k, ToLE(v, 8)), j) == if j == k then v else Word(m, j)
  {
    WordSizes();
    FromLEToLE(v, 8);
    PatchRead(m, 8 * k, ToLE(v, 8));
    if j != k {
      PatchDisjoint(m, 8 * k, ToLE(v, 8), 8 * j, 8 * j + 8);
    }
  }
}
