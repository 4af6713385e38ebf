// The bencoded numeral reader (KRPC::krpc_bdecode_atoi) and the decimal
// printer it must agree with.

module Numeral {
  import opened Dht

  const ATOI_LIMIT := 0xFFF_FFFF   // UINT32_MAX >> 4

  const CH_MINUS: Byte := 0x2d
  const CH_COLON: Byte := 0x3a
  const CH_D: Byte := 0x64
  const CH_E: Byte := 0x65
  const CH_I: Byte := 0x69
  const CH_L: Byte := 0x6c

  predicate IsDigit(b: Byte) { 0x30 <= b <= 0x39 }

  predicate IsTerminator(b: Byte) { b == CH_E || b == CH_COLON }

  datatype AtoiError = NegativeInt | BadChar | TooLong

  datatype Scan = Number(value: nat, next: nat) | NotNumber(error: AtoiError)

  /** What one run of the reader returns, started at `pos` with `acc` read so far. */
  function Atoi(d: Bytes, pos: nat, acc: nat): (r: Scan)
    requires pos <= |d|
    ensures r.Number? ==> pos < r.next <= |d| && r.value < ATOI_LIMIT
    decreases |d| - pos
  {
    if pos == |d| || acc >= ATOI_LIMIT then NotNumber(TooLong)
    else if d[pos] == CH_MINUS then NotNumber(NegativeInt)
    else if IsDigit(d[pos]) then Atoi(d, pos + 1, 10 * acc + (d[pos] - 0x30))
    else if IsTerminator(d[pos]) then Number(acc, pos + 1)
    else NotNumber(BadChar)
  }

  /** The digits of a numeral, most significant first. */
  ghost predicate AllDigits(s: Bytes) { forall i :: 0 <= i < |s| ==> IsDigit(s[i]) }

  ghost function DecimalValue(s: Bytes): nat
    requires AllDigits(s)
  {
    if s == [] then 0
    else 10 * DecimalValue(s[..|s| - 1]) + (s[|s| - 1] - 0x30)
  }

  /** d[pos..next] is a string of digits worth `value`, closed by one terminator. */
  ghost predicate IsNumeral(d: Bytes, pos: nat, next: nat, value: nat) {
    && pos < next <= |d|
    && AllDigits(d[pos..next - 1])
    && IsTerminator(d[next - 1])
    && value == DecimalValue(d[pos..next - 1])
  }

  lemma DecimalValueSnoc(s: Bytes, b: Byte)
    requires AllDigits(s) && IsDigit(b)
    ensures AllDigits(s + [b])
    ensures DecimalValue(s + [b]) == 10 * DecimalValue(s) + (b - 0x30)
  {
    assert (s + [b])[..|s|] == s;
  }

  lemma {:induction false} DecimalValueMonotone(s: Bytes, k: nat)
    requires k <= |s| && AllDigits(s)
    ensures AllDigits(s[..k]) && DecimalValue(s[..k]) <= DecimalValue(s)
  {
    if k == |s| {
      assert s[..k] == s;
    } else {
      DecimalValueMonotone(s[..|s| - 1], k);
      assert s[..|s| - 1][..k] == s[..k];
    }
  }

  lemma WithoutLast(d: Bytes, pos: nat, k: nat)
    requires pos < k <= |d|
    ensures d[pos..k][..k - pos - 1] == d[pos..k - 1] && d[pos..k][k - pos - 1] == d[k - 1]
  {
  }

  lemma PrefixValue(d: Bytes, pos: nat, k: nat)
    requires pos < k <= |d| && AllDigits(d[pos..k])
    ensures IsDigit(d[k - 1]) && AllDigits(d[pos..k - 1])
    ensures DecimalValue(d[pos..k]) == 10 * DecimalValue(d[pos..k - 1]) + (d[k - 1] - 0x30)
  {
    WithoutLast(d, pos, k);
  }

  /** The reader, stopped anywhere inside a digit string, has its prefix value. */
  lemma {:induction false} AtoiPrefix(d: Bytes, pos: nat, k: nat)
    requires pos <= k <= |d| && AllDigits(d[pos..k])
    requires k > pos ==> DecimalValue(d[pos..k][..k - pos - 1]) < ATOI_LIMIT
    ensures Atoi(d, pos, 0) == Atoi(d, k, DecimalValue(d[pos..k]))
  {
    if pos < k {
      PrefixValue(d, pos, k);
      WithoutLast(d, pos, k);
      if k - 1 > pos {
        DecimalValueMonotone(d[pos..k - 1], k - pos - 2);
      }
      AtoiPrefix(d, pos, k - 1);
      DigitRead(d, k - 1, DecimalValue(d[pos..k - 1]));
    }
  }

  lemma DigitRead(d: Bytes, pos: nat, acc: nat)
    requires pos < |d| && IsDigit(d[pos]) && acc < ATOI_LIMIT
    ensures Atoi(d, pos, acc) == Atoi(d, pos + 1, 10 * acc + (d[pos] - 0x30))
  {
  }

  lemma {:induction false} AtoiSound(d: Bytes, pos: nat, k: nat)
    requires pos <= k <= |d| && AllDigits(d[pos..k])
    requires Atoi(d, k, DecimalValue(d[pos..k])).Number?
    ensures var r := Atoi(d, k, DecimalValue(d[pos..k])); IsNumeral(d, pos, r.next, r.value)
    decreases |d| - k
  {
    if IsDigit(d[k]) {
      assert d[pos..k + 1] == d[pos..k] + [d[k]];
      DecimalValueSnoc(d[pos..k], d[k]);
      AtoiSound(d, pos, k + 1);
    } else {
      assert Atoi(d, k, DecimalValue(d[pos..k])) == Number(DecimalValue(d[pos..k]), k + 1);
    }
  }

  /** The reader succeeds exactly on the numerals below the limit, with their exact value. */
  lemma AtoiExact(d: Bytes, pos: nat, value: nat, next: nat)
    requires pos <= |d|
    ensures Atoi(d, pos, 0) == Number(value, next) <==> IsNumeral(d, pos, next, value) && value < ATOI_LIMIT
  {
    assert d[pos..pos] == [];
    if Atoi(d, pos, 0) == Number(value, next) {
      AtoiSound(d, pos, pos);
    }
    if IsNumeral(d, pos, next, value) && value < ATOI_LIMIT {
      if next - 1 > pos {
        DecimalValueMonotone(d[pos..next - 1], next - pos - 2);
      }
      AtoiPrefix(d, pos, next - 1);
    }
  }

  /** A numeral at or past the limit is refused as too long, never wrapped. */
  lemma AtoiTooBig(d: Bytes, pos: nat, next: nat, value: nat)
    requires pos <= |d| && IsNumeral(d, pos, next, value) && value >= ATOI_LIMIT
    ensures Atoi(d, pos, 0) == NotNumber(TooLong)
  {
    AtoiTooLong(d, pos, next - 1);
  }

  /** Digits worth the limit or more are too long, whatever follows. */
  lemma AtoiTooLong(d: Bytes, pos: nat, k: nat)
    requires pos <= k <= |d| && AllDigits(d[pos..k]) && DecimalValue(d[pos..k]) >= ATOI_LIMIT
    ensures Atoi(d, pos, 0) == NotNumber(TooLong)
  {
    var n := FirstAtLimit(d[pos..k]);
    assert d[pos..k][..n] == d[pos..pos + n];
    assert d[pos..k][..n - 1] == d[pos..pos + n][..n - 1];
    AtoiPrefix(d, pos, pos + n);
  }

  /** Otherwise what stands behind the digits decides: a terminator closes the number, and
      the end of the data, a minus sign and anything else are refused, each in its way. */
  lemma AtoiStops(d: Bytes, pos: nat, k: nat)
    requires pos <= k <= |d| && AllDigits(d[pos..k]) && DecimalValue(d[pos..k]) < ATOI_LIMIT
    requires k < |d| ==> !IsDigit(d[k])
    ensures Atoi(d, pos, 0) ==
      if k == |d| then NotNumber(TooLong)
      else if d[k] == 0x2d then NotNumber(NegativeInt)
      else if d[k] == 0x65 || d[k] == 0x3a then Number(DecimalValue(d[pos..k]), k + 1)
      else NotNumber(BadChar)
  {
    if pos < k {
      DecimalValueMonotone(d[pos..k], k - pos - 1);
    }
    AtoiPrefix(d, pos, k);
  }

  lemma {:induction false} FirstAtLimit(s: Bytes) returns (k: nat)
    requires AllDigits(s) && DecimalValue(s) >= ATOI_LIMIT
    ensures 0 < k <= |s| && DecimalValue(s[..k]) >= ATOI_LIMIT && DecimalValue(s[..k - 1]) < ATOI_LIMIT
  {
    if DecimalValue(s[..|s| - 1]) < ATOI_LIMIT {
      k := |s|;
      assert s[..k] == s;
    } else {
      k := FirstAtLimit(s[..|s| - 1]);
      assert s[..|s| - 1][..k] == s[..k];
      assert s[..|s| - 1][..k - 1] == s[..k - 1];
    }
  }

  /** The text of an unsigned number, as printf's %u writes it. */
  function Decimal(n: nat): Bytes {
    if n < 10 then [0x30 + n] else Decimal(n / 10) + [0x30 + n % 10]
  }

  /** The printed digits are those of the number. */
  lemma {:induction false} DecimalIsExact(n: nat)
    ensures Decimal(n) != [] && AllDigits(Decimal(n)) && DecimalValue(Decimal(n)) == n
  {
    if n < 10 {
      assert [0x30 + n][..0] == [];
      assert DecimalValue([]) == 0;
    } else {
      DecimalIsExact(n / 10);
      DecimalValueSnoc(Decimal(n / 10), 0x30 + n % 10);
    }
  }

  lemma Amid(before: Bytes, s: Bytes, term: Byte, after: Bytes)
    ensures var d := before + s + [term] + after; var end := |before| + |s|;
      d[|before|..end] == s && d[end] == term
  {
  }

  /** Reading back a printed number, wherever it stands. */
  lemma AtoiInvertsDecimal(before: Bytes, n: nat, term: Byte, after: Bytes)
    requires n < ATOI_LIMIT && IsTerminator(term)
    ensures var d := before + Decimal(n) + [term] + after;
            Atoi(d, |before|, 0) == Number(n, |before| + |Decimal(n)| + 1)
  {
    var d := before + Decimal(n) + [term] + after;
    var next := |before| + |Decimal(n)| + 1;
    Amid(before, Decimal(n), term, after);
    DecimalIsExact(n);
    AtoiExact(d, |before|, n, next);
  }
}
