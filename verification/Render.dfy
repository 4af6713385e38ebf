// The canonical text of a message tree, and the proof that the recursive-descent
// parser reads it back wherever it stands in a buffer. Together with the refinement
// of module Grammar this says what the flat decoder makes of any rendered message.

module Render {
  import opened Dht
  import opened Numeral
  import opened Krpc
  import opened Grammar
  import opened Contents

  function RStr(s: Bytes): Bytes {
    Decimal(|s|) + [CH_COLON] + s
  }

  function RInt(n: nat): Bytes {
    [CH_I] + (Decimal(n) + [CH_E])
  }

  function RItems(items: seq<Str>): Bytes {
    if items == [] then [] else RStr(items[0].bytes) + RItems(items[1..])
  }

  function RIVal(v: IVal): Bytes {
    match v
    case IStr(s) => RStr(s.bytes)
    case IInt(n) => RInt(n)
    case IList(items) => [CH_L] + (RItems(items) + [CH_E])
  }

  function RIPairs(ps: seq<IPair>): Bytes {
    if ps == [] then [] else RStr(ps[0].key.bytes) + (RIVal(ps[0].val) + RIPairs(ps[1..]))
  }

  function ROVal(v: OVal): Bytes {
    match v
    case OStr(s) => RStr(s.bytes)
    case OInt(n) => RInt(n)
    case ODict(ps) => [CH_D] + (RIPairs(ps) + [CH_E])
  }

  function ROPairs(ps: seq<OPair>): Bytes {
    if ps == [] then [] else RStr(ps[0].key.bytes) + (ROVal(ps[0].val) + ROPairs(ps[1..]))
  }

  function RMsg(ps: seq<OPair>): Bytes {
    [CH_D] + (ROPairs(ps) + [CH_E])
  }

  // ----- texts whose numerals the reader can hold -----

  ghost predicate SmallItems(items: seq<Str>) {
    forall i :: 0 <= i < |items| ==> |items[i].bytes| < ATOI_LIMIT
  }

  ghost predicate SmallIVal(v: IVal) {
    match v
    case IStr(s) => |s.bytes| < ATOI_LIMIT
    case IInt(n) => n < ATOI_LIMIT
    case IList(items) => SmallItems(items)
  }

  ghost predicate SmallIPairs(ps: seq<IPair>) {
    forall i :: 0 <= i < |ps| ==> |ps[i].key.bytes| < ATOI_LIMIT && SmallIVal(ps[i].val)
  }

  ghost predicate SmallOVal(v: OVal) {
    match v
    case OStr(s) => |s.bytes| < ATOI_LIMIT
    case OInt(n) => n < ATOI_LIMIT
    case ODict(ps) => SmallIPairs(ps)
  }

  ghost predicate SmallOPairs(ps: seq<OPair>) {
    forall i :: 0 <= i < |ps| ==> |ps[i].key.bytes| < ATOI_LIMIT && SmallOVal(ps[i].val)
  }

  // ----- reading a text back -----

  /** The text `r` stands in `d` at `pos`. */
  ghost predicate At(d: Bytes, pos: nat, r: Bytes) {
    exists before: Bytes, after: Bytes :: d == before + r + after && |before| == pos
  }

  lemma AtConcat(d: Bytes, pos: nat, a: Bytes, b: Bytes)
    requires At(d, pos, a + b)
    ensures At(d, pos, a) && At(d, pos + |a|, b)
  {
    var before: Bytes, after: Bytes :| d == before + (a + b) + after && |before| == pos;
    assert d == before + a + (b + after);
    assert d == (before + a) + b + after;
  }

  lemma AtThree(d: Bytes, pos: nat, k: Bytes, v: Bytes, r: Bytes, e: Bytes)
    requires At(d, pos, k + (v + r) + e)
    ensures At(d, pos, k) && At(d, pos + |k|, v) && At(d, pos + |k| + |v|, r + e)
  {
    assert k + (v + r) + e == k + (v + (r + e));
    AtConcat(d, pos, k, v + (r + e));
    AtConcat(d, pos + |k|, v, r + e);
  }

  lemma AtFirst(d: Bytes, pos: nat, r: Bytes)
    requires At(d, pos, r) && |r| > 0
    ensures pos < |d| && d[pos] == r[0]
  {
    AtSlice(d, pos, r);
    assert d[pos..pos + |r|][0] == r[0];
  }

  lemma AtSlice(d: Bytes, pos: nat, r: Bytes)
    requires At(d, pos, r)
    ensures pos + |r| <= |d| && d[pos..pos + |r|] == r
  {
    var before: Bytes, after: Bytes :| d == before + r + after && |before| == pos;
  }

  lemma NumeralAt(d: Bytes, pos: nat, n: nat, term: Byte)
    requires At(d, pos, Decimal(n) + [term]) && n < ATOI_LIMIT && IsTerminator(term)
    ensures Atoi(d, pos, 0) == Number(n, pos + |Decimal(n)| + 1)
  {
    AtConcat(d, pos, Decimal(n), [term]);
    AtSlice(d, pos, Decimal(n));
    DecimalIsExact(n);
    AtFirst(d, pos + |Decimal(n)|, [term]);
    AtoiExact(d, pos, n, pos + |Decimal(n)| + 1);
  }

  lemma StrAt(d: Bytes, pos: nat, s: Bytes)
    requires At(d, pos, RStr(s)) && |s| < ATOI_LIMIT
    ensures var start := pos + |Decimal(|s|)| + 1;
      ParseStr(d, pos) == Parsed(Str(start, s), pos + |RStr(s)|)
  {
    AtConcat(d, pos, Decimal(|s|) + [CH_COLON], s);
    DecimalIsExact(|s|);
    AtFirst(d, pos, Decimal(|s|) + [CH_COLON]);
    NumeralAt(d, pos, |s|, CH_COLON);
    AtSlice(d, pos + |Decimal(|s|)| + 1, s);
  }

  /** A key, a value text and the rest of a dictionary. */
  lemma KeyAt(d: Bytes, pos: nat, key: Str, v: Bytes, rest: Bytes)
    requires At(d, pos, RStr(key.bytes) + (v + rest) + [CH_E]) && |key.bytes| < ATOI_LIMIT
    ensures var k := ParseStr(d, pos);
      && k.Parsed? && BareStr(k.value) == BareStr(key) && k.next == pos + |RStr(key.bytes)|
      && At(d, k.next, v) && At(d, k.next + |v|, rest + [CH_E])
  {
    AtThree(d, pos, RStr(key.bytes), v, rest, [CH_E]);
    StrAt(d, pos, key.bytes);
  }

  lemma ItemsCons(d: Bytes, pos: nat, items: seq<Str>)
    requires items != [] && At(d, pos, RItems(items) + [CH_E]) && |items[0].bytes| < ATOI_LIMIT
    ensures var s := RStr(items[0].bytes); var rest := RItems(items[1..]);
      && ParseStr(d, pos).Parsed? && BareStr(ParseStr(d, pos).value) == BareStr(items[0])
      && ParseStr(d, pos).next == pos + |s|
      && At(d, pos + |s|, rest + [CH_E]) && |RItems(items)| == |s| + |rest|
  {
    var s, rest := RStr(items[0].bytes), RItems(items[1..]);
    assert RItems(items) + [CH_E] == s + (rest + [CH_E]);
    AtConcat(d, pos, s, rest + [CH_E]);
    StrAt(d, pos, items[0].bytes);
  }

  lemma ParseItemsCons(d: Bytes, pos: nat)
    requires pos <= |d| && ParseStr(d, pos).Parsed? && ParseItems(d, ParseStr(d, pos).next).Parsed?
    ensures var rest := ParseItems(d, ParseStr(d, pos).next);
      ParseItems(d, pos) == Parsed([ParseStr(d, pos).value] + rest.value, rest.next)
  {
  }

  lemma {:induction false} ItemsAt(d: Bytes, pos: nat, items: seq<Str>)
    requires At(d, pos, RItems(items) + [CH_E]) && SmallItems(items)
    ensures var r := ParseItems(d, pos);
      r.Parsed? && BareItems(r.value) == BareItems(items) && r.next == pos + |RItems(items)| + 1
    decreases |items|
  {
    AtConcat(d, pos, RItems(items), [CH_E]);
    if items == [] {
      AtFirst(d, pos, [CH_E]);
    } else {
      ItemsCons(d, pos, items);
      var p := ParseStr(d, pos).next;
      ItemsAt(d, p, items[1..]);
      ParseItemsCons(d, pos);
      BareItemsCons(ParseStr(d, pos).value, ParseItems(d, p).value);
      BareItemsCons(items[0], items[1..]);
      assert items == [items[0]] + items[1..];
    }
  }

  /** A marked value: the mark stands first, the rest behind it. */
  lemma MarkAt(d: Bytes, pos: nat, mark: Byte, r: Bytes)
    requires At(d, pos, [mark] + r)
    ensures pos < |d| && d[pos] == mark && At(d, pos + 1, r)
  {
    AtFirst(d, pos, [mark] + r);
    AtConcat(d, pos, [mark], r);
  }

  lemma IntAt(d: Bytes, pos: nat, n: nat)
    requires At(d, pos, RInt(n)) && n < ATOI_LIMIT
    ensures pos < |d| && d[pos] == CH_I && Atoi(d, pos + 1, 0) == Number(n, pos + |RInt(n)|)
  {
    MarkAt(d, pos, CH_I, Decimal(n) + [CH_E]);
    NumeralAt(d, pos + 1, n, CH_E);
  }

  lemma IValAt(d: Bytes, pos: nat, v: IVal)
    requires At(d, pos, RIVal(v)) && SmallIVal(v)
    ensures var r := ParseIVal(d, pos);
      r.Parsed? && BareIVal(r.value) == BareIVal(v) && r.next == pos + |RIVal(v)|
  {
    match v {
      case IStr(s) => StrAt(d, pos, s.bytes);
      case IInt(n) => IntAt(d, pos, n);
      case IList(items) =>
        MarkAt(d, pos, CH_L, RItems(items) + [CH_E]);
        ItemsAt(d, pos + 1, items);
    }
  }

  lemma RIPairsCons(ps: seq<IPair>)
    requires ps != []
    ensures var k := RStr(ps[0].key.bytes); var v := RIVal(ps[0].val); var rest := RIPairs(ps[1..]);
      RIPairs(ps) == k + (v + rest) && |RIPairs(ps)| == |k| + |v| + |rest|
  {
  }

  lemma IPairsCons(d: Bytes, pos: nat, ps: seq<IPair>)
    requires ps != [] && At(d, pos, RIPairs(ps) + [CH_E])
    requires |ps[0].key.bytes| < ATOI_LIMIT && SmallIVal(ps[0].val)
    ensures var k := RStr(ps[0].key.bytes); var v := RIVal(ps[0].val); var rest := RIPairs(ps[1..]);
      && ParseStr(d, pos).Parsed? && BareStr(ParseStr(d, pos).value) == BareStr(ps[0].key)
      && ParseStr(d, pos).next == pos + |k|
      && At(d, pos + |k|, v)
      && At(d, pos + |k| + |v|, rest + [CH_E]) && |RIPairs(ps)| == |k| + |v| + |rest|
  {
    RIPairsCons(ps);
    KeyAt(d, pos, ps[0].key, RIVal(ps[0].val), RIPairs(ps[1..]));
  }

  lemma ParseIPairsCons(d: Bytes, pos: nat)
    requires pos <= |d| && ParseStr(d, pos).Parsed? && ParseIVal(d, ParseStr(d, pos).next).Parsed?
    requires ParseIPairs(d, ParseIVal(d, ParseStr(d, pos).next).next).Parsed?
    ensures var k := ParseStr(d, pos); var v := ParseIVal(d, k.next); var rest := ParseIPairs(d, v.next);
      ParseIPairs(d, pos) == Parsed([IPair(k.value, v.value)] + rest.value, rest.next)
  {
  }

  lemma IPairsJoin(d: Bytes, pos: nat, ps: seq<IPair>)
    requires ps != [] && pos <= |d|
    requires var k := ParseStr(d, pos); k.Parsed? && BareStr(k.value) == BareStr(ps[0].key)
    requires var v := ParseIVal(d, ParseStr(d, pos).next); v.Parsed? && BareIVal(v.value) == BareIVal(ps[0].val)
    requires var rest := ParseIPairs(d, ParseIVal(d, ParseStr(d, pos).next).next);
      rest.Parsed? && BareIPairs(rest.value) == BareIPairs(ps[1..])
    ensures var r := ParseIPairs(d, pos);
      && r.Parsed? && BareIPairs(r.value) == BareIPairs(ps)
      && r.next == ParseIPairs(d, ParseIVal(d, ParseStr(d, pos).next).next).next
  {
    var k := ParseStr(d, pos);
    var v := ParseIVal(d, k.next);
    ParseIPairsCons(d, pos);
    BareIPairsCons(IPair(k.value, v.value), ParseIPairs(d, v.next).value);
    BareIPairsCons(ps[0], ps[1..]);
    assert ps == [ps[0]] + ps[1..];
  }

  lemma NoIPairsAt(d: Bytes, pos: nat)
    requires At(d, pos, RIPairs([]) + [CH_E])
    ensures ParseIPairs(d, pos) == Parsed([], pos + 1)
  {
    AtFirst(d, pos, RIPairs([]) + [CH_E]);
  }

  lemma IPairsStep(d: Bytes, pos: nat, ps: seq<IPair>)
    requires ps != [] && At(d, pos, RIPairs(ps) + [CH_E]) && SmallIPairs(ps)
    ensures var k := ParseStr(d, pos); k.Parsed? && BareStr(k.value) == BareStr(ps[0].key)
    ensures var v := ParseIVal(d, ParseStr(d, pos).next);
      && v.Parsed? && BareIVal(v.value) == BareIVal(ps[0].val)
      && At(d, v.next, RIPairs(ps[1..]) + [CH_E])
      && v.next + |RIPairs(ps[1..])| == pos + |RIPairs(ps)|
  {
    IPairsCons(d, pos, ps);
    IValAt(d, ParseStr(d, pos).next, ps[0].val);
  }

  lemma {:induction false} IPairsAt(d: Bytes, pos: nat, ps: seq<IPair>)
    requires At(d, pos, RIPairs(ps) + [CH_E]) && SmallIPairs(ps)
    ensures var r := ParseIPairs(d, pos);
      r.Parsed? && BareIPairs(r.value) == BareIPairs(ps) && r.next == pos + |RIPairs(ps)| + 1
    decreases |ps|
  {
    if ps == [] {
      NoIPairsAt(d, pos);
    } else {
      IPairsStep(d, pos, ps);
      IPairsAt(d, ParseIVal(d, ParseStr(d, pos).next).next, ps[1..]);
      IPairsJoin(d, pos, ps);
    }
  }

  lemma OValAt(d: Bytes, pos: nat, v: OVal)
    requires At(d, pos, ROVal(v)) && SmallOVal(v)
    ensures var r := ParseOVal(d, pos);
      r.Parsed? && BareOVal(r.value) == BareOVal(v) && r.next == pos + |ROVal(v)|
  {
    match v {
      case OStr(s) => StrAt(d, pos, s.bytes);
      case OInt(n) => IntAt(d, pos, n);
      case ODict(ps) =>
        MarkAt(d, pos, CH_D, RIPairs(ps) + [CH_E]);
        IPairsAt(d, pos + 1, ps);
    }
  }

  lemma ROPairsCons(ps: seq<OPair>)
    requires ps != []
    ensures var k := RStr(ps[0].key.bytes); var v := ROVal(ps[0].val); var rest := ROPairs(ps[1..]);
      ROPairs(ps) == k + (v + rest) && |ROPairs(ps)| == |k| + |v| + |rest|
  {
  }

  lemma OPairsCons(d: Bytes, pos: nat, ps: seq<OPair>)
    requires ps != [] && At(d, pos, ROPairs(ps) + [CH_E])
    requires |ps[0].key.bytes| < ATOI_LIMIT && SmallOVal(ps[0].val)
    ensures var k := RStr(ps[0].key.bytes); var v := ROVal(ps[0].val); var rest := ROPairs(ps[1..]);
      && ParseStr(d, pos).Parsed? && BareStr(ParseStr(d, pos).value) == BareStr(ps[0].key)
      && ParseStr(d, pos).next == pos + |k|
      && At(d, pos + |k|, v)
      && At(d, pos + |k| + |v|, rest + [CH_E]) && |ROPairs(ps)| == |k| + |v| + |rest|
  {
    ROPairsCons(ps);
    KeyAt(d, pos, ps[0].key, ROVal(ps[0].val), ROPairs(ps[1..]));
  }

  lemma ParseOPairsCons(d: Bytes, pos: nat)
    requires pos <= |d| && ParseStr(d, pos).Parsed? && ParseOVal(d, ParseStr(d, pos).next).Parsed?
    requires ParseOPairs(d, ParseOVal(d, ParseStr(d, pos).next).next).Parsed?
    ensures var k := ParseStr(d, pos); var v := ParseOVal(d, k.next); var rest := ParseOPairs(d, v.next);
      ParseOPairs(d, pos) == Parsed([OPair(k.value, v.value)] + rest.value, rest.next)
  {
  }

  lemma OPairsJoin(d: Bytes, pos: nat, ps: seq<OPair>)
    requires ps != [] && pos <= |d|
    requires var k := ParseStr(d, pos); k.Parsed? && BareStr(k.value) == BareStr(ps[0].key)
    requires var v := ParseOVal(d, ParseStr(d, pos).next); v.Parsed? && BareOVal(v.value) == BareOVal(ps[0].val)
    requires var rest := ParseOPairs(d, ParseOVal(d, ParseStr(d, pos).next).next);
      rest.Parsed? && BareOPairs(rest.value) == BareOPairs(ps[1..])
    ensures var r := ParseOPairs(d, pos);
      && r.Parsed? && BareOPairs(r.value) == BareOPairs(ps)
      && r.next == ParseOPairs(d, ParseOVal(d, ParseStr(d, pos).next).next).next
  {
    var k := ParseStr(d, pos);
    var v := ParseOVal(d, k.next);
    ParseOPairsCons(d, pos);
    BareOPairsCons(OPair(k.value, v.value), ParseOPairs(d, v.next).value);
    BareOPairsCons(ps[0], ps[1..]);
    assert ps == [ps[0]] + ps[1..];
  }

  lemma NoOPairsAt(d: Bytes, pos: nat)
    requires At(d, pos, ROPairs([]) + [CH_E])
    ensures ParseOPairs(d, pos) == Parsed([], pos)
  {
    AtFirst(d, pos, ROPairs([]) + [CH_E]);
  }

  lemma SmallTail(ps: seq<OPair>)
    requires ps != [] && SmallOPairs(ps)
    ensures |ps[0].key.bytes| < ATOI_LIMIT && SmallOVal(ps[0].val) && SmallOPairs(ps[1..])
  {
  }

  lemma OPairsStep(d: Bytes, pos: nat, ps: seq<OPair>)
    requires ps != [] && At(d, pos, ROPairs(ps) + [CH_E])
    requires |ps[0].key.bytes| < ATOI_LIMIT && SmallOVal(ps[0].val)
    ensures var k := ParseStr(d, pos); k.Parsed? && BareStr(k.value) == BareStr(ps[0].key)
    ensures var v := ParseOVal(d, ParseStr(d, pos).next);
      && v.Parsed? && BareOVal(v.value) == BareOVal(ps[0].val)
      && At(d, v.next, ROPairs(ps[1..]) + [CH_E])
      && v.next + |ROPairs(ps[1..])| == pos + |ROPairs(ps)|
  {
    OPairsCons(d, pos, ps);
    OValAt(d, ParseStr(d, pos).next, ps[0].val);
  }

  lemma {:induction false} OPairsAt(d: Bytes, pos: nat, ps: seq<OPair>)
    requires At(d, pos, ROPairs(ps) + [CH_E]) && SmallOPairs(ps)
    ensures var r := ParseOPairs(d, pos);
      r.Parsed? && BareOPairs(r.value) == BareOPairs(ps) && r.next == pos + |ROPairs(ps)|
    decreases |ps|
  {
    if ps == [] {
      NoOPairsAt(d, pos);
    } else {
      SmallTail(ps);
      OPairsStep(d, pos, ps);
      OPairsAt(d, ParseOVal(d, ParseStr(d, pos).next).next, ps[1..]);
      OPairsJoin(d, pos, ps);
    }
  }

  lemma AtStart(r: Bytes, tail: Bytes)
    ensures At(r + tail, 0, r)
  {
    assert r + tail == [] + r + tail;
  }

  /** Parsing inverts rendering, whatever follows the message in the buffer. */
  lemma ParseInvertsRender(ps: seq<OPair>, tail: Bytes)
    requires SmallOPairs(ps)
    ensures var r := ParseMsg(RMsg(ps) + tail);
      r.Parsed? && BareOPairs(r.value) == BareOPairs(ps) && r.next == |RMsg(ps)| - 1
  {
    var d := RMsg(ps) + tail;
    AtStart(RMsg(ps), tail);
    MarkAt(d, 0, CH_D, ROPairs(ps) + [CH_E]);
    OPairsAt(d, 1, ps);
  }

  /** What the decoder makes of a rendered message is the judgement of its tree. */
  lemma DecodeRendered(ps: seq<OPair>, tail: Bytes)
    requires SmallOPairs(ps)
    ensures BareDecoded(Decode(RMsg(ps) + tail)) == Judge(FoldOPairs(InitialCtx(CLEARED), BareOPairs(ps)))
  {
    ParseInvertsRender(ps, tail);
    DecodeByContents(RMsg(ps) + tail);
  }
}
