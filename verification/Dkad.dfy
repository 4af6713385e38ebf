// The logarithmic Kademlia distance (dkad, cht/util.cpp) against the XOR metric it
// approximates.

module Dkad {
  import opened Dht
  import opened Bits

  function Fill(n: nat, v: nat): (s: seq<nat>)
    ensures |s| == n
    ensures forall i :: 0 <= i < n ==> s[i] == v
  {
    seq(n, _ => v)
  }

  /** The table of highest set bits: one 0, one 1, two 2s, ... , 128 8s. */
  const DKAD_TAB: seq<nat> :=
    [0, 1] + Fill(2, 2) + Fill(4, 3) + Fill(8, 4) + Fill(16, 5) + Fill(32, 6) + Fill(64, 7) + Fill(128, 8)

  function BitLength(n: nat): nat {
    if n == 0 then 0 else 1 + BitLength(n / 2)
  }

  /** floor(log2(n)). */
  function Log2(n: nat): nat
    requires n > 0
  {
    BitLength(n) - 1
  }

  lemma {:induction false} BitLengthRange(n: nat, k: nat)
    requires Pow2(k) <= n < Pow2(k + 1)
    ensures BitLength(n) == k + 1
  {
    if k == 0 {
      assert n == 1;
    } else {
      BitLengthRange(n / 2, k - 1);
    }
  }

  /** The table is right for every byte. */
  lemma TableIsBitLength(z: Byte)
    ensures |DKAD_TAB| == 256 && DKAD_TAB[z] == BitLength(z)
  {
    assert Pow2(4) == 16 by { assert Pow2(2) == 4; }
    assert Pow2(8) == 256 by { assert Pow2(6) == 64; }
    if z >= 2 {
      var k := if z < 4 then 1 else if z < 8 then 2 else if z < 16 then 3 else if z < 32 then 4
               else if z < 64 then 5 else if z < 128 then 6 else 7;
      assert Pow2(1) == 2 && Pow2(2) == 4 && Pow2(3) == 8 && Pow2(5) == 32 && Pow2(6) == 64 && Pow2(7) == 128;
      BitLengthRange(z, k);
    }
  }

  /** The number of leading bytes two ids share, counting from byte i. */
  function Shared(x: Nih, y: Nih, i: nat): (n: nat)
    requires i <= NIH_LEN
    ensures i <= n <= NIH_LEN
    ensures forall k :: i <= k < n ==> x[k] == y[k]
    ensures n < NIH_LEN ==> x[n] != y[n]
    decreases NIH_LEN - i
  {
    if i == NIH_LEN || x[i] != y[i] then i else Shared(x, y, i + 1)
  }

  function Distance(x: Nih, y: Nih): nat {
    var i := Shared(x, y, 0);
    if i == NIH_LEN then 0
    else
      TableIsBitLength(XorByte(x[i], y[i]));
      var t := DKAD_TAB[XorByte(x[i], y[i])];
      if 8 * i + t <= 160 then 160 - 8 * i - t else 0
  }

  /** The loop, in 8-bit arithmetic that never wraps. */
  method ComputeDkad(x: Nih, y: Nih) returns (r: U8)
    ensures r as nat == Distance(x, y)
  {
    var d: U8 := 160;
    var i := 0;
    while i < NIH_LEN
      invariant 0 <= i <= NIH_LEN
      invariant d as int == 160 - 8 * i
      invariant Shared(x, y, i) == Shared(x, y, 0)
    {
      var z := XorByte(x[i], y[i]);
      XorZero(x[i], y[i]);
      TableIsBitLength(z);
      ByteLength(z);
      if z == 0 {
        d := d - 8;
      } else {
        return d - DKAD_TAB[z] as U8;
      }
      i := i + 1;
    }
    return 0;
  }

  lemma ByteLength(z: Byte)
    ensures BitLength(z) <= 8 && (z > 0 ==> BitLength(z) > 0)
  {
    TableIsBitLength(z);
  }

  // ----- the XOR metric on 160-bit numbers -----

  /** An id as a big-endian number. */
  function Big(s: Bytes): nat {
    if s == [] then 0 else Big(s[..|s| - 1]) * 256 + s[|s| - 1]
  }

  /** The number a with the k low bits of c written behind it. */
  function Join(a: nat, c: nat, k: nat): nat {
    if k == 0 then a else 2 * Join(a, c / 2, k - 1) + c % 2
  }

  lemma ShiftedOnce(a: nat, p: nat, c: nat)
    ensures 2 * (a * p + c / 2) + c % 2 == a * (2 * p) + c
  {
  }

  lemma {:induction false} JoinIsShift(a: nat, c: nat, k: nat)
    requires c < Pow2(k)
    ensures Join(a, c, k) == a * Pow2(k) + c
  {
    if k > 0 {
      JoinIsShift(a, c / 2, k - 1);
      ShiftedOnce(a, Pow2(k - 1), c);
    }
  }

  lemma JoinDigits(a: nat, c: nat, k: nat)
    requires k > 0
    ensures Join(a, c, k) % 2 == c % 2 && Join(a, c, k) / 2 == Join(a, c / 2, k - 1)
  {
  }

  lemma SameDigits(x: nat, y: nat)
    requires x % 2 == y % 2 && x / 2 == y / 2
    ensures x == y
  {
  }

  lemma {:induction false} XorJoin(a: nat, b: nat, c: nat, d: nat, k: nat)
    ensures Xor(Join(a, c, k), Join(b, d, k)) == Join(Xor(a, b), Xor(c, d), k)
  {
    if k > 0 {
      XorJoin(a, b, c / 2, d / 2, k - 1);
      XorDigits(c, d);
      XorDigits(Join(a, c, k), Join(b, d, k));
      JoinDigits(a, c, k);
      JoinDigits(b, d, k);
      JoinDigits(Xor(a, b), Xor(c, d), k);
      SameDigits(Xor(Join(a, c, k), Join(b, d, k)), Join(Xor(a, b), Xor(c, d), k));
    }
  }

  lemma {:induction false} BitLengthJoin(n: nat, c: nat, k: nat)
    requires n > 0
    ensures Join(n, c, k) > 0 && BitLength(Join(n, c, k)) == k + BitLength(n)
  {
    if k > 0 {
      BitLengthJoin(n, c / 2, k - 1);
    }
  }

  lemma JoinByte(a: nat, c: Byte)
    ensures Join(a, c, 8) == a * 256 + c
  {
    assert Pow2(8) == 256 by { assert Pow2(4) == 16; }
    JoinIsShift(a, c, 8);
  }

  function XorBytes(x: Bytes, y: Bytes): (r: Bytes)
    requires |x| == |y|
    ensures |r| == |x|
  {
    seq(|x|, i requires 0 <= i < |x| => XorByte(x[i], y[i]))
  }

  /** XOR of the numbers is the number of the XORed bytes. */
  lemma {:induction false} XorOfBig(x: Bytes, y: Bytes)
    requires |x| == |y|
    ensures Xor(Big(x), Big(y)) == Big(XorBytes(x, y))
  {
    if x != [] {
      var n := |x| - 1;
      XorOfBig(x[..n], y[..n]);
      assert XorBytes(x, y)[..n] == XorBytes(x[..n], y[..n]);
      XorJoin(Big(x[..n]), Big(y[..n]), x[n], y[n], 8);
      JoinByte(Big(x[..n]), x[n]);
      JoinByte(Big(y[..n]), y[n]);
      JoinByte(Xor(Big(x[..n]), Big(y[..n])), XorByte(x[n], y[n]));
    }
  }

  /** The length of a number whose first nonzero byte is at i. */
  lemma {:induction false} LengthOfBig(z: Bytes, i: nat)
    requires i <= |z| && (forall k :: 0 <= k < i ==> z[k] == 0) && (i < |z| ==> z[i] != 0)
    ensures i == |z| ==> Big(z) == 0
    ensures i < |z| ==> Big(z) > 0 && BitLength(Big(z)) == 8 * (|z| - 1 - i) + BitLength(z[i])
  {
    if z != [] {
      var n := |z| - 1;
      LengthOfBig(z[..n], if i <= n then i else n);
      if i < n {
        BitLengthJoin(Big(z[..n]), z[n], 8);
        JoinByte(Big(z[..n]), z[n]);
      }
    }
  }

  /** floor(log2) of the XOR of two ids, by their first different byte. */
  lemma LogOfXor(x: Nih, y: Nih)
    requires Shared(x, y, 0) < NIH_LEN
    ensures var i := Shared(x, y, 0); var n := Xor(Big(x), Big(y)); var t := BitLength(XorByte(x[i], y[i]));
      n > 0 && 1 <= t <= 8 && BitLength(n) == 8 * (19 - i) + t
  {
    var i := Shared(x, y, 0);
    var z := XorBytes(x, y);
    forall k | 0 <= k < i ensures z[k] == 0 {
      XorZero(x[k], y[k]);
    }
    XorZero(x[i], y[i]);
    XorOfBig(x, y);
    LengthOfBig(z, i);
    ByteLength(z[i]);
  }

  lemma DistanceOf(x: Nih, y: Nih)
    requires Shared(x, y, 0) < NIH_LEN
    ensures var i := Shared(x, y, 0); var t := BitLength(XorByte(x[i], y[i]));
      t <= 8 && Distance(x, y) == 8 * (19 - i) + (8 - t)
  {
    var i := Shared(x, y, 0);
    TableIsBitLength(XorByte(x[i], y[i]));
    ByteLength(XorByte(x[i], y[i]));
  }

  /** For different ids the distance and floor(log2) of their XOR fall into the same
      byte bucket, in which the distance runs backwards. */
  lemma DistanceIsInvertedLog(x: Nih, y: Nih)
    requires x != y
    ensures Xor(Big(x), Big(y)) > 0
    ensures var l := Log2(Xor(Big(x), Big(y))); var d := Distance(x, y);
      && 0 <= d <= 159
      && d / 8 == l / 8
      && d % 8 == 7 - l % 8
      && -7 <= d - l <= 7
  {
    assert Shared(x, y, 0) == NIH_LEN ==> x == y;
    LogOfXor(x, y);
    DistanceOf(x, y);
    var i := Shared(x, y, 0);
    Inverted(19 - i, BitLength(XorByte(x[i], y[i])), Log2(Xor(Big(x), Big(y))), Distance(x, y));
  }

  lemma Inverted(q: nat, t: nat, l: int, d: int)
    requires q <= 19 && 1 <= t <= 8 && l == 8 * q + (t - 1) && d == 8 * q + (8 - t)
    ensures 0 <= d <= 159 && d / 8 == l / 8 && d % 8 == 7 - l % 8 && -7 <= d - l <= 7
  {
    Bucket(q, 8 - t);
    Bucket(q, t - 1);
  }

  lemma Bucket(q: nat, r: nat)
    requires r < 8
    ensures (8 * q + r) / 8 == q && (8 * q + r) % 8 == r
  {
  }

  lemma DistanceBucket(x: Nih, y: Nih)
    ensures var i := Shared(x, y, 0);
      if i == NIH_LEN then Distance(x, y) == 0
      else 8 * (19 - i) <= Distance(x, y) <= 8 * (19 - i) + 7
  {
    var i := Shared(x, y, 0);
    if i < NIH_LEN {
      DistanceOf(x, y);
      LogOfXor(x, y);
    }
  }

  /** Sharing strictly more leading bytes with a target is being strictly closer to it,
      unless both distances are zero. */
  lemma MoreSharedIsCloser(t: Nih, x: Nih, y: Nih)
    requires Shared(t, x, 0) > Shared(t, y, 0)
    ensures Distance(t, x) < Distance(t, y) || (Distance(t, x) == 0 && Distance(t, y) == 0)
  {
    DistanceBucket(t, x);
    DistanceBucket(t, y);
  }

  lemma {:induction false} LongerIsLarger(a: nat, b: nat)
    requires BitLength(a) < BitLength(b)
    ensures a < b
    decreases b
  {
    if a > 0 {
      LongerIsLarger(a / 2, b / 2);
    }
  }

  /** The distance of two ids in the XOR metric. */
  ghost function XorDistance(x: Nih, y: Nih): nat { Xor(Big(x), Big(y)) }

  lemma MoreSharedIsXorCloser(t: Nih, x: Nih, y: Nih)
    requires Shared(t, x, 0) > Shared(t, y, 0)
    ensures XorDistance(t, x) < XorDistance(t, y)
  {
    LogOfXor(t, y);
    if Shared(t, x, 0) == NIH_LEN {
      assert t == x;
      XorZero(Big(t), Big(x));
    } else {
      LogOfXor(t, x);
      LongerIsLarger(XorDistance(t, x), XorDistance(t, y));
    }
  }

  /** Among ids that share the same number of leading bytes the order runs backwards. */
  lemma SameSharedIsInverted(t: Nih, x: Nih, y: Nih)
    requires Shared(t, x, 0) == Shared(t, y, 0) && Distance(t, x) < Distance(t, y)
    ensures XorDistance(t, x) > XorDistance(t, y)
  {
    DistanceBucket(t, x);
    DistanceBucket(t, y);
    LogOfXor(t, x);
    LogOfXor(t, y);
    DistanceOf(t, x);
    DistanceOf(t, y);
    LongerIsLarger(XorDistance(t, y), XorDistance(t, x));
  }

  /** Where two distances from a target differ, they are ordered like the XOR metric exactly
      when the ids share different numbers of leading bytes with the target. */
  lemma OrderIsXorOrder(t: Nih, x: Nih, y: Nih)
    requires Distance(t, x) != Distance(t, y)
    ensures (Distance(t, x) < Distance(t, y) <==> XorDistance(t, x) < XorDistance(t, y))
       <==> Shared(t, x, 0) != Shared(t, y, 0)
  {
    if Shared(t, x, 0) > Shared(t, y, 0) {
      MoreSharedIsCloser(t, x, y);
      MoreSharedIsXorCloser(t, x, y);
    } else if Shared(t, x, 0) < Shared(t, y, 0) {
      MoreSharedIsCloser(t, y, x);
      MoreSharedIsXorCloser(t, y, x);
    } else if Distance(t, x) < Distance(t, y) {
      SameSharedIsInverted(t, x, y);
    } else {
      SameSharedIsInverted(t, y, x);
    }
  }
}
