// The UTF-8 scanner (is_valid_utf8, cht/util.cpp) against the encoding of Unicode
// scalar values defined in section 3 and section 4 of RFC 3629.

module Utf8 {
  import opened Dht
  import opened Bits

  // ----- the encoding -----

  /** A Unicode scalar value other than the two the scanner refuses. */
  predicate Allowed(cp: nat) {
    cp <= 0x10FFFF && !(0xD800 <= cp <= 0xDFFF) && cp != 0xFFFE && cp != 0xFFFF
  }

  function Encode(cp: nat): (r: Bytes)
    requires cp <= 0x10FFFF
    ensures 1 <= |r| <= 4
  {
    if cp < 0x80 then [cp]
    else if cp < 0x800 then [0xC0 + cp / 64, 0x80 + cp % 64]
    else if cp < 0x10000 then [0xE0 + cp / 4096, 0x80 + cp / 64 % 64, 0x80 + cp % 64]
    else [0xF0 + cp / 262144, 0x80 + cp / 4096 % 64, 0x80 + cp / 64 % 64, 0x80 + cp % 64]
  }

  ghost predicate AllAllowed(cps: seq<nat>) { forall i :: 0 <= i < |cps| ==> Allowed(cps[i]) }

  ghost function EncodeAll(cps: seq<nat>): Bytes
    requires AllAllowed(cps)
  {
    if cps == [] then [] else Encode(cps[0]) + EncodeAll(cps[1..])
  }

  ghost predicate IsUtf8(s: Bytes) { exists cps :: AllAllowed(cps) && EncodeAll(cps) == s }

  // ----- the scanner -----

  const TWO64 := 0x1_0000_0000_0000_0000

  /** Unsigned 64-bit subtraction. */
  function Sub64(a: nat, b: nat): nat
    requires a < TWO64 && b < TWO64
  {
    if a >= b then a - b else a + TWO64 - b
  }

  /** The memory a scan of n bytes may touch. */
  predicate Readable(mem: Bytes, n: nat) {
    n < TWO64 && n <= |mem| && (n == 1 || n == 2 ==> n + 3 <= |mem|)
  }

  /** The byte with its low bits masked off: `b & (256 - unit)` for a power of two. */
  function HighBits(b: Byte, unit: nat): int
    requires unit > 0
  {
    b - b % unit
  }

  /** The low j bits are zero. */
  predicate LowZero(y: nat, j: nat) {
    j == 0 || (y % 2 == 0 && LowZero(y / 2, j - 1))
  }

  lemma {:induction false} MultipleOf(y: nat, j: nat) returns (q: nat)
    requires LowZero(y, j)
    ensures y == q * Pow2(j)
  {
    if j == 0 {
      q := y;
    } else {
      q := MultipleOf(y / 2, j - 1);
    }
  }

  lemma PowersOfTwo()
    ensures Pow2(0) == 1 && Pow2(1) == 2 && Pow2(2) == 4 && Pow2(3) == 8 && Pow2(4) == 16
    ensures Pow2(5) == 32 && Pow2(6) == 64 && Pow2(7) == 128 && Pow2(8) == 256
  {
    assert Pow2(4) == 16 by { assert Pow2(2) == 4; }
    assert Pow2(6) == 64;
  }

  lemma AndEven(x: nat, m: nat)
    ensures And(x, 2 * m) == 2 * And(x / 2, m)
  {
  }

  lemma {:induction false} AndOnes(x: nat, k: nat)
    requires x < Pow2(k)
    ensures And(x, Pow2(k) - 1) == x
  {
    if k > 0 {
      AndOnes(x / 2, k - 1);
    }
  }

  lemma MaskStep(x: nat, n: nat, j: nat)
    requires 1 <= j <= n && Pow2(j - 1) <= Pow2(n - 1)
    ensures Pow2(j) == 2 * Pow2(j - 1) && Pow2(j) <= Pow2(n)
    ensures And(x, Pow2(n) - Pow2(j)) == 2 * And(x / 2, Pow2(n - 1) - Pow2(j - 1))
  {
    AndEven(x, Pow2(n - 1) - Pow2(j - 1));
  }

  /** A mask of ones above j zeros keeps the largest number up to x whose low j bits are zero. */
  lemma {:induction false} AndTop(x: nat, n: nat, j: nat)
    requires j <= n && x < Pow2(n)
    ensures Pow2(j) <= Pow2(n)
    ensures var y := And(x, Pow2(n) - Pow2(j)); LowZero(y, j) && y <= x < y + Pow2(j)
    decreases j
  {
    if j == 0 {
      AndOnes(x, n);
    } else {
      AndTop(x / 2, n - 1, j - 1);
      MaskStep(x, n, j);
      Doubled(x, And(x / 2, Pow2(n - 1) - Pow2(j - 1)), Pow2(j - 1));
    }
  }

  lemma Doubled(x: nat, half: nat, unit: nat)
    requires half <= x / 2 < half + unit
    ensures 2 * half <= x < 2 * half + 2 * unit && 2 * half % 2 == 0 && 2 * half / 2 == half
  {
  }

  lemma Floor2(b: nat, y: nat, q: nat)
    requires y == q * 2 && y <= b < y + 2
    ensures b - b % 2 == y
  {
  }

  lemma Floor4(b: nat, y: nat, q: nat)
    requires y == q * 4 && y <= b < y + 4
    ensures b - b % 4 == y
  {
  }

  lemma Floor8(b: nat, y: nat, q: nat)
    requires y == q * 8 && y <= b < y + 8
    ensures b - b % 8 == y
  {
  }

  lemma Floor16(b: nat, y: nat, q: nat)
    requires y == q * 16 && y <= b < y + 16
    ensures b - b % 16 == y
  {
  }

  lemma Floor32(b: nat, y: nat, q: nat)
    requires y == q * 32 && y <= b < y + 32
    ensures b - b % 32 == y
  {
  }

  lemma Floor64(b: nat, y: nat, q: nat)
    requires y == q * 64 && y <= b < y + 64
    ensures b - b % 64 == y
  {
  }

  lemma FloorOf(b: nat, y: nat, q: nat, unit: nat)
    requires unit in {2, 4, 8, 16, 32, 64} && y == q * unit && y <= b < y + unit
    ensures b - b % unit == y
  {
    if unit == 2 {
      Floor2(b, y, q);
    } else if unit == 4 {
      Floor4(b, y, q);
    } else if unit == 8 {
      Floor8(b, y, q);
    } else if unit == 16 {
      Floor16(b, y, q);
    } else if unit == 32 {
      Floor32(b, y, q);
    } else {
      Floor64(b, y, q);
    }
  }

  /** The masks 0xfe, 0xf8, 0xf0, 0xe0 and 0xc0 of the scanner are of this kind. */
  lemma HighBitsIsMask(b: Byte, j: nat)
    requires 1 <= j <= 6
    ensures Pow2(j) <= 256 && And(b, 256 - Pow2(j)) == HighBits(b, Pow2(j))
  {
    PowersOfTwo();
    AndTop(b, 8, j);
    var y := And(b, 256 - Pow2(j));
    var q := MultipleOf(y, j);
    FloorOf(b, y, q, Pow2(j));
  }

  predicate Continues(b: Byte) { HighBits(b, 64) == 0x80 }

  function TwoBytes(b0: Byte, b1: Byte): bool {
    !(!Continues(b1) || HighBits(b0, 2) == 0xc0)
  }

  function ThreeBytes(b0: Byte, b1: Byte, b2: Byte): bool {
    !(|| !Continues(b1) || !Continues(b2)
      || (b0 == 0xe0 && HighBits(b1, 32) == 0x80)
      || (b0 == 0xed && HighBits(b1, 32) == 0xa0)
      || (b0 == 0xef && b1 == 0xbf && HighBits(b2, 2) == 0xbe))
  }

  function FourBytes(b0: Byte, b1: Byte, b2: Byte, b3: Byte): bool {
    !(|| !Continues(b1) || !Continues(b2) || !Continues(b3)
      || (b0 == 0xf0 && HighBits(b1, 16) == 0x80)
      || (b0 == 0xf4 && b1 > 0x8f)
      || b0 > 0xf4)
  }

  /** How many bytes one iteration consumes; 0 when it returns false. */
  function Advance(mem: Bytes, n: nat, ix: nat): (k: nat)
    requires Readable(mem, n) && ix < n
    ensures k <= 4
  {
    var b0 := mem[ix];
    if b0 < 0x80 then 1
    else if ix < Sub64(n, 1) && HighBits(b0, 32) == 0xc0 then
      if TwoBytes(b0, mem[ix + 1]) then 2 else 0
    else if ix < Sub64(n, 2) && HighBits(b0, 16) == 0xe0 then
      if ThreeBytes(b0, mem[ix + 1], mem[ix + 2]) then 3 else 0
    else if ix < Sub64(n, 3) && HighBits(b0, 8) == 0xf0 then
      if FourBytes(b0, mem[ix + 1], mem[ix + 2], mem[ix + 3]) then 4 else 0
    else 0
  }

  function Accepts(mem: Bytes, n: nat, ix: nat): bool
    requires Readable(mem, n)
    decreases n - ix
  {
    if ix >= n then true
    else
      var k := Advance(mem, n, ix);
      k != 0 && Accepts(mem, n, ix + k)
  }

  /** The scanning loop. */
  method IsValidUtf8(s: array<Byte>, maxlen: nat) returns (valid: bool)
    requires Readable(s[..], maxlen)
    ensures valid == Accepts(s[..], maxlen, 0)
  {
    var ix := 0;
    while ix < maxlen
      invariant Accepts(s[..], maxlen, ix) == Accepts(s[..], maxlen, 0)
    {
      if s[ix] < 0x80 {
        ix := ix + 1;
      } else if ix < Sub64(maxlen, 1) && HighBits(s[ix], 32) == 0xc0 {
        if !Continues(s[ix + 1]) || HighBits(s[ix], 2) == 0xc0 {
          return false;
        }
        ix := ix + 2;
      } else if ix < Sub64(maxlen, 2) && HighBits(s[ix], 16) == 0xe0 {
        if !ThreeBytes(s[ix], s[ix + 1], s[ix + 2]) {
          return false;
        }
        ix := ix + 3;
      } else if ix < Sub64(maxlen, 3) && HighBits(s[ix], 8) == 0xf0 {
        if !FourBytes(s[ix], s[ix + 1], s[ix + 2], s[ix + 3]) {
          return false;
        }
        ix := ix + 4;
      } else {
        return false;
      }
    }
    return true;
  }

  // ----- the grammar of RFC 3629, section 4 -----

  predicate Tail(b: Byte) { 0x80 <= b <= 0xBF }

  predicate Char2(b0: Byte, b1: Byte) { 0xC2 <= b0 <= 0xDF && Tail(b1) }

  /** UTF8-3, without U+FFFE and U+FFFF. */
  predicate Char3(b0: Byte, b1: Byte, b2: Byte) {
    && 0xE0 <= b0 <= 0xEF && Tail(b1) && Tail(b2)
    && (b0 == 0xE0 ==> 0xA0 <= b1) && (b0 == 0xED ==> b1 <= 0x9F)
    && !(b0 == 0xEF && b1 == 0xBF && b2 >= 0xBE)
  }

  predicate Char4(b0: Byte, b1: Byte, b2: Byte, b3: Byte) {
    && 0xF0 <= b0 <= 0xF4 && Tail(b1) && Tail(b2) && Tail(b3)
    && (b0 == 0xF0 ==> 0x90 <= b1) && (b0 == 0xF4 ==> b1 <= 0x8F)
  }

  lemma ScanTwo(b0: Byte, b1: Byte)
    ensures HighBits(b0, 32) == 0xc0 <==> 0xC0 <= b0 <= 0xDF
    ensures HighBits(b0, 32) == 0xc0 ==> (TwoBytes(b0, b1) <==> Char2(b0, b1))
  {
  }

  lemma ScanThree(b0: Byte, b1: Byte, b2: Byte)
    ensures HighBits(b0, 16) == 0xe0 <==> 0xE0 <= b0 <= 0xEF
    ensures HighBits(b0, 16) == 0xe0 ==> (ThreeBytes(b0, b1, b2) <==> Char3(b0, b1, b2))
  {
  }

  lemma ScanFour(b0: Byte, b1: Byte, b2: Byte, b3: Byte)
    ensures HighBits(b0, 8) == 0xf0 <==> 0xF0 <= b0 <= 0xF7
    ensures HighBits(b0, 8) == 0xf0 ==> (FourBytes(b0, b1, b2, b3) <==> Char4(b0, b1, b2, b3))
  {
  }

  // ----- one character -----

  /** The payload of one byte: its value without the `lead` of its kind. */
  function Payload(b: Byte, lead: int): int { b as int - lead }

  /** The value a one- to four-byte character encodes. */
  function Value(c: Bytes): int
    requires 1 <= |c| <= 4
  {
    if |c| == 1 then Payload(c[0], 0)
    else if |c| == 2 then 64 * Payload(c[0], 0xC0) + Payload(c[1], 0x80)
    else if |c| == 3 then 4096 * Payload(c[0], 0xE0) + 64 * Payload(c[1], 0x80) + Payload(c[2], 0x80)
    else 262144 * Payload(c[0], 0xF0) + 4096 * Payload(c[1], 0x80) + 64 * Payload(c[2], 0x80) + Payload(c[3], 0x80)
  }

  predicate IsChar(c: Bytes) {
    || (|c| == 1 && c[0] < 0x80)
    || (|c| == 2 && Char2(c[0], c[1]))
    || (|c| == 3 && Char3(c[0], c[1], c[2]))
    || (|c| == 4 && Char4(c[0], c[1], c[2], c[3]))
  }

  lemma EncodeIsChar(cp: nat)
    requires Allowed(cp)
    ensures IsChar(Encode(cp)) && Value(Encode(cp)) == cp
  {
    var hi, mid := cp / 4096, cp / 64;
    assert mid / 64 == hi && hi / 64 == cp / 262144;
  }

  lemma TwoIsEncoded(c: Bytes)
    requires |c| == 2 && Char2(c[0], c[1])
    ensures Value(c) >= 0 && Allowed(Value(c)) && Encode(Value(c)) == c
  {
  }

  lemma ThreeIsEncoded(c: Bytes)
    requires |c| == 3 && Char3(c[0], c[1], c[2])
    ensures Value(c) >= 0 && Allowed(Value(c)) && Encode(Value(c)) == c
  {
    Digits(Payload(c[0], 0xE0), Payload(c[1], 0x80), Payload(c[2], 0x80));
  }

  lemma FourIsEncoded(c: Bytes)
    requires |c| == 4 && Char4(c[0], c[1], c[2], c[3])
    ensures Value(c) >= 0 && Allowed(Value(c)) && Encode(Value(c)) == c
  {
    Digits(64 * Payload(c[0], 0xF0) + Payload(c[1], 0x80), Payload(c[2], 0x80), Payload(c[3], 0x80));
  }

  lemma CharIsEncoded(c: Bytes)
    requires IsChar(c)
    ensures Value(c) >= 0 && Allowed(Value(c)) && Encode(Value(c)) == c
  {
    if |c| == 2 {
      TwoIsEncoded(c);
    } else if |c| == 3 {
      ThreeIsEncoded(c);
    } else if |c| == 4 {
      FourIsEncoded(c);
    }
  }

  lemma Split64(x: nat, y: nat)
    requires y < 64
    ensures (64 * x + y) / 64 == x && (64 * x + y) % 64 == y
  {
  }

  lemma Digits(a: int, b: int, c: int)
    requires a >= 0 && 0 <= b < 64 && 0 <= c < 64
    ensures var v := 4096 * a + 64 * b + c; v / 4096 == a && v / 64 % 64 == b && v % 64 == c && v / 262144 == a / 64
  {
    Split64(64 * a + b, c);
    Split64(a, b);
    var v := 4096 * a + 64 * b + c;
    assert v == 64 * (64 * a + b) + c;
    TopDigits(v, a, b, c);
  }

  lemma TopDigits(v: int, a: int, b: int, c: int)
    requires a >= 0 && 0 <= b < 64 && 0 <= c < 64 && v == 4096 * a + (64 * b + c)
    ensures v / 4096 == a && v / 262144 == a / 64
  {
    var q, r := a / 64, a % 64;
    assert a == 64 * q + r;
    assert v == 262144 * q + (4096 * r + 64 * b + c) && 4096 * r + 64 * b + c < 262144;
  }

  // ----- whole strings -----

  /** The length of the character at the front, 0 if there is none. */
  function CharLen(s: Bytes): (k: nat)
    ensures k <= |s| && (k > 0 ==> IsChar(s[..k]))
  {
    if |s| >= 1 && s[0] < 0x80 then 1
    else if |s| >= 2 && Char2(s[0], s[1]) then 2
    else if |s| >= 3 && Char3(s[0], s[1], s[2]) then 3
    else if |s| >= 4 && Char4(s[0], s[1], s[2], s[3]) then 4
    else 0
  }

  predicate Scan(s: Bytes)
    decreases |s|
  {
    s == [] || (CharLen(s) != 0 && Scan(s[CharLen(s)..]))
  }

  /** No character is the beginning of another. */
  lemma CharLenUnique(c: Bytes, rest: Bytes)
    requires IsChar(c)
    ensures CharLen(c + rest) == |c|
  {
    var s := c + rest;
    assert forall i :: 0 <= i < |c| ==> s[i] == c[i];
  }

  lemma CharInFront(c: Bytes, cps: seq<nat>)
    requires IsChar(c) && AllAllowed(cps)
    ensures Value(c) >= 0 && AllAllowed([Value(c) as nat] + cps)
    ensures EncodeAll([Value(c) as nat] + cps) == c + EncodeAll(cps)
  {
    CharIsEncoded(c);
    assert ([Value(c) as nat] + cps)[1..] == cps;
  }

  lemma {:induction false} ScanSound(s: Bytes) returns (cps: seq<nat>)
    requires Scan(s)
    ensures AllAllowed(cps) && EncodeAll(cps) == s
    decreases |s|
  {
    if s == [] {
      cps := [];
    } else {
      var rest := ScanSound(s[CharLen(s)..]);
      cps := FrontRead(s, rest);
    }
  }

  lemma FrontRead(s: Bytes, rest: seq<nat>) returns (cps: seq<nat>)
    requires CharLen(s) != 0 && AllAllowed(rest) && EncodeAll(rest) == s[CharLen(s)..]
    ensures AllAllowed(cps) && EncodeAll(cps) == s
  {
    var c := s[..CharLen(s)];
    CharInFront(c, rest);
    cps := [Value(c)] + rest;
    assert s == c + s[CharLen(s)..];
  }

  lemma {:induction false} ScanComplete(cps: seq<nat>)
    requires AllAllowed(cps)
    ensures Scan(EncodeAll(cps))
    decreases |cps|
  {
    if cps != [] {
      EncodeIsChar(cps[0]);
      var c, rest := Encode(cps[0]), EncodeAll(cps[1..]);
      CharLenUnique(c, rest);
      assert (c + rest)[|c|..] == rest;
      ScanComplete(cps[1..]);
    }
  }

  lemma ScanIsUtf8(s: Bytes)
    ensures Scan(s) <==> IsUtf8(s)
  {
    if Scan(s) {
      var cps := ScanSound(s);
    }
    forall cps | AllAllowed(cps) && EncodeAll(cps) == s ensures Scan(s) {
      ScanComplete(cps);
    }
  }

  /** A text has at most one reading. */
  lemma {:induction false} ReadingUnique(a: seq<nat>, b: seq<nat>)
    requires AllAllowed(a) && AllAllowed(b) && EncodeAll(a) == EncodeAll(b)
    ensures a == b
    decreases |a|
  {
    if a != [] && b != [] {
      EncodeIsChar(a[0]);
      EncodeIsChar(b[0]);
      var c, r, c', r' := Encode(a[0]), EncodeAll(a[1..]), Encode(b[0]), EncodeAll(b[1..]);
      CharLenUnique(c, r);
      CharLenUnique(c', r');
      assert (c + r)[..|c|] == c && (c' + r')[..|c'|] == c';
      assert (c + r)[|c|..] == r && (c' + r')[|c'|..] == r';
      ReadingUnique(a[1..], b[1..]);
      assert a == [a[0]] + a[1..] && b == [b[0]] + b[1..];
    }
  }

  /** With at least three bytes to scan the guards do not wrap, and one iteration
      consumes exactly the character that stands there. */
  lemma AdvanceExact(mem: Bytes, n: nat, ix: nat)
    requires Readable(mem, n) && ix < n && n >= 3
    ensures Advance(mem, n, ix) == CharLen(mem[ix..n])
  {
    var s := mem[ix..n];
    if |s| >= 2 { ScanTwo(s[0], s[1]); }
    if |s| >= 3 { ScanThree(s[0], s[1], s[2]); }
    if |s| >= 4 { ScanFour(s[0], s[1], s[2], s[3]); }
  }

  lemma {:induction false} AcceptsExact(mem: Bytes, n: nat, ix: nat)
    requires Readable(mem, n) && ix <= n && n >= 3
    ensures Accepts(mem, n, ix) <==> Scan(mem[ix..n])
    decreases n - ix
  {
    if ix < n {
      AdvanceExact(mem, n, ix);
      var k := Advance(mem, n, ix);
      if k != 0 {
        AcceptsExact(mem, n, ix + k);
        assert mem[ix..n][k..] == mem[ix + k..n];
      }
    }
  }

  /** The scanner accepts a string of length 0 or at least 3 exactly when it is the
      encoding of a sequence of allowed values. */
  lemma ScannerExact(mem: Bytes, n: nat)
    requires Readable(mem, n) && (n == 0 || n >= 3)
    ensures Accepts(mem, n, 0) <==> IsUtf8(mem[..n])
  {
    ScanIsUtf8(mem[..n]);
    assert mem[..n] == mem[0..n];
    if n >= 3 {
      AcceptsExact(mem, n, 0);
    }
  }

  /** A string of one or two bytes ends in the lead byte of a longer character whose
      remaining bytes happen to lie behind it in memory. The wrapped guards of the
      three-byte case (length 1) and of the four-byte case let it through. */
  predicate Overruns(mem: Bytes, n: nat)
    requires Readable(mem, n) && (n == 1 || n == 2)
  {
    if n == 1 then Char3(mem[0], mem[1], mem[2]) || Char4(mem[0], mem[1], mem[2], mem[3])
    else Char4(mem[0], mem[1], mem[2], mem[3]) || (mem[0] < 0x80 && Char4(mem[1], mem[2], mem[3], mem[4]))
  }

  lemma OneByteExact(mem: Bytes)
    requires Readable(mem, 1)
    ensures Accepts(mem, 1, 0) <==> mem[0] < 0x80 || Overruns(mem, 1)
  {
    ScanThree(mem[0], mem[1], mem[2]);
    ScanFour(mem[0], mem[1], mem[2], mem[3]);
  }

  lemma TwoBytesExact(mem: Bytes)
    requires Readable(mem, 2)
    ensures Accepts(mem, 2, 0) <==>
      (mem[0] < 0x80 && mem[1] < 0x80) || Char2(mem[0], mem[1]) || Overruns(mem, 2)
  {
    ScanTwo(mem[0], mem[1]);
    ScanTwo(mem[1], mem[2]);
    ScanFour(mem[0], mem[1], mem[2], mem[3]);
    ScanFour(mem[1], mem[2], mem[3], mem[4]);
  }

  lemma ShortUtf8(s: Bytes)
    requires |s| == 1 || |s| == 2
    ensures IsUtf8(s) <==>
      if |s| == 1 then s[0] < 0x80 else (s[0] < 0x80 && s[1] < 0x80) || Char2(s[0], s[1])
  {
    ScanIsUtf8(s);
    if s[0] < 0x80 && |s| == 2 {
      assert s[1..] == [s[1]] && [s[1]][1..] == [];
      assert Scan([s[1]]) <==> s[1] < 0x80;
    }
  }

  /** For one or two bytes the scanner is right exactly when it does not overrun. */
  lemma ScannerShort(mem: Bytes, n: nat)
    requires Readable(mem, n) && (n == 1 || n == 2)
    ensures (Accepts(mem, n, 0) <==> IsUtf8(mem[..n])) <==> !Overruns(mem, n)
  {
    ShortUtf8(mem[..n]);
    if n == 1 {
      OneByteExact(mem);
    } else {
      TwoBytesExact(mem);
    }
  }

  /** One lead byte alone, with its character completed by what lies behind it. */
  lemma OverrunWitness()
    ensures var mem := [0xE1, 0x80, 0x80, 0x00];
      Readable(mem, 1) && Accepts(mem, 1, 0) && !IsUtf8(mem[..1])
  {
    var mem := [0xE1, 0x80, 0x80, 0x00];
    ScannerShort(mem, 1);
    ShortUtf8(mem[..1]);
  }
}
