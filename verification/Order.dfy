// The order of the outer keys does not matter. The encoder itself writes y, r, t
// where bencoding would sort them; any permutation of the outer pairs of an
// accepted message is accepted with the same method and the same contents.

module Order {
  import opened Dht
  import opened Krpc
  import opened Grammar
  import opened Contents

  ghost predicate NoName(p: OPair) {
    p.val.ODict? ==> forall i :: 0 <= i < |p.val.pairs| ==> p.val.pairs[i].key.bytes != KEY_NAME
  }

  ghost predicate Plain(p: OPair) { |p.key.bytes| == 1 && NoName(p) }

  ghost predicate Apart(p: OPair, q: OPair) {
    p.key.bytes != q.key.bytes && !(p.val.ODict? && q.val.ODict?)
  }

  /** One-byte outer keys, all different, at most one payload dictionary, and no inner
      `name` key (whose meaning depends on the method mask at that point). */
  ghost predicate Orderly(ps: seq<OPair>) {
    && (forall i {:trigger Plain(ps[i])} :: 0 <= i < |ps| ==> Plain(ps[i]))
    && (forall i, j {:trigger Apart(ps[i], ps[j])} :: 0 <= i < j < |ps| ==> Apart(ps[i], ps[j]))
  }

  // ----- the effect of one pair -----

  predicate Conflict(k: Bytes, seen: set<Key>)
    requires |k| == 1
  {
    || (k[0] == 0x61 && OR in seen)
    || (k[0] == 0x72 && (OA in seen || OQ in seen))
    || (k[0] == 0x71 && OR in seen)
  }

  function Adds(k: Bytes): set<Key>
    requires |k| == 1
  {
    if k[0] == 0x61 then {OA} else if k[0] == 0x72 then {OR} else if k[0] == 0x74 then {OT}
    else if k[0] == 0x71 then {OQ} else if k[0] == 0x79 then {OY} else {}
  }

  function KeyKinds(k: Bytes): set<Method>
    requires |k| == 1
  {
    if k[0] == 0x61 || k[0] == 0x71 then Q_ANY else if k[0] == 0x72 then R_ANY else ANY
  }

  /** What a string value does: None if it is refused, otherwise the methods left. */
  function StrKinds(k: Bytes, v: Bytes): Option<set<Method>>
    requires |k| == 1
  {
    var none: set<Method> := {};
    if k[0] == 0x71 then
      if v == VAL_PG then Some({QPg}) else if v == VAL_GP then Some({QGp})
      else if v == VAL_FN then Some({QFn}) else None
    else if k[0] == 0x79 then
      if v == [0x72] then Some(R_ANY) else if v == [0x71] then Some(Q_ANY) else None
    else if k[0] == 0x74 && |v| > MAXLEN_TOK then None
    else Some(ANY)
  }

  function PairKinds(p: OPair): Option<set<Method>>
    requires |p.key.bytes| == 1
  {
    if p.val.OStr? then
      var s := StrKinds(p.key.bytes, p.val.s.bytes);
      if s.Some? then Some(KeyKinds(p.key.bytes) * s.value) else None
    else Some(KeyKinds(p.key.bytes))
  }

  predicate SetsTok(p: OPair)
    requires |p.key.bytes| == 1
  {
    p.key.bytes[0] == 0x74 && p.val.OStr?
  }

  function TokAfter(p: OPair, t: Option<Str>): Option<Str>
    requires |p.key.bytes| == 1
  {
    if SetsTok(p) then Some(p.val.s) else t
  }

  ghost predicate ValidKinds(c: Ctx) { c.kind <= ANY }

  /** A one-byte key always replaces the current key, by one of the outer kind. */
  lemma KeyEffect(c: Ctx, k: Str)
    requires |k.bytes| == 1 && ValidKinds(c)
    ensures OnOKey(c, k).Ok? <==> !Conflict(k.bytes, c.seen)
    ensures OnOKey(c, k).Ok? ==>
      var r := OnOKey(c, k).ctx;
      && r.seen == c.seen + Adds(k.bytes)
      && r.kind == c.kind * KeyKinds(k.bytes)
      && r.f == c.f
      && r.cur == (if Adds(k.bytes) == {} then None
                   else if k.bytes[0] == 0x61 then Some(OA) else if k.bytes[0] == 0x72 then Some(OR)
                   else if k.bytes[0] == 0x74 then Some(OT) else if k.bytes[0] == 0x71 then Some(OQ)
                   else Some(OY))
  {
  }

  /** A pair whose value is not a dictionary. */
  lemma FlatPairEffect(c: Ctx, p: OPair)
    requires |p.key.bytes| == 1 && !p.val.ODict? && ValidKinds(c)
    ensures FoldOPair(c, p).Ok? <==> !Conflict(p.key.bytes, c.seen) && PairKinds(p).Some?
    ensures FoldOPair(c, p).Ok? ==>
      var r := FoldOPair(c, p).ctx;
      && r.seen == c.seen + Adds(p.key.bytes)
      && r.kind == c.kind * PairKinds(p).value
      && r.f == c.f.(tok := TokAfter(p, c.f.tok))
  {
    KeyEffect(c, p.key);
    if OnOKey(c, p.key).Ok? && p.val.OStr? {
      StrEffect(OnOKey(c, p.key).ctx, p.key.bytes, p.val.s);
    }
  }

  lemma StrEffect(c: Ctx, k: Bytes, v: Str)
    requires |k| == 1 && ValidKinds(c)
    requires c.cur == Some(OQ) <==> k[0] == 0x71
    requires c.cur == Some(OT) <==> k[0] == 0x74
    requires c.cur == Some(OY) <==> k[0] == 0x79
    ensures OnOStr(c, v).Ok? <==> StrKinds(k, v.bytes).Some?
    ensures OnOStr(c, v).Ok? ==>
      var r := OnOStr(c, v).ctx;
      && r.seen == c.seen && r.kind == c.kind * StrKinds(k, v.bytes).value
      && r.f == c.f.(tok := if k[0] == 0x74 then Some(v) else c.f.tok)
  {
  }

  // ----- a dictionary does not look at what the other pairs left behind -----

  predicate OuterKey(k: Option<Key>) {
    k == None || k == Some(OA) || k == Some(OT) || k == Some(OQ) || k == Some(OR) || k == Some(OY)
  }

  /** `y` is `x` with more outer keys seen, fewer methods and another tok. */
  ghost predicate Framed(x: Ctx, y: Ctx, more: set<Key>, only: set<Method>, t: Option<Str>) {
    && y.seen == x.seen + more
    && y.kind == x.kind * only
    && y.f == x.f.(tok := t)
  }

  ghost predicate SameCur(x: Ctx, y: Ctx) {
    x.cur == y.cur || (OuterKey(x.cur) && OuterKey(y.cur))
  }

  lemma FrameIKey(x: Ctx, y: Ctx, more: set<Key>, only: set<Method>, t: Option<Str>, k: Str)
    requires Framed(x, y, more, only, t) && SameCur(x, y) && k.bytes != KEY_NAME
    ensures Framed(OnIKey(x, k), OnIKey(y, k), more, only, t) && SameCur(OnIKey(x, k), OnIKey(y, k))
  {
  }

  ghost predicate FramedRes(x: Res, y: Res, more: set<Key>, only: set<Method>, t: Option<Str>) {
    && (x.Ok? <==> y.Ok?)
    && (x.Ok? ==> Framed(x.ctx, y.ctx, more, only, t) && SameCur(x.ctx, y.ctx))
  }

  lemma FrameIStr(x: Ctx, y: Ctx, more: set<Key>, only: set<Method>, t: Option<Str>, v: Str)
    requires Framed(x, y, more, only, t) && SameCur(x, y)
    ensures FramedRes(OnIStr(x, v), OnIStr(y, v), more, only, t)
  {
    if x.cur == Some(INodes) {
      assert FramedRes(OnNodes(x, v), OnNodes(y, v), more, only, t);
    }
  }

  lemma {:induction false} FrameItems(x: Ctx, y: Ctx, more: set<Key>, only: set<Method>, t: Option<Str>, vs: seq<Str>)
    requires Framed(x, y, more, only, t) && SameCur(x, y)
    ensures FramedRes(FoldItems(x, vs), FoldItems(y, vs), more, only, t)
    decreases |vs|
  {
    if vs != [] {
      var rx, ry := OnItem(x, vs[0]), OnItem(y, vs[0]);
      assert FramedRes(rx, ry, more, only, t);
      if rx.Ok? {
        FrameItems(rx.ctx, ry.ctx, more, only, t, vs[1..]);
      }
    }
  }

  lemma {:induction false} FrameIPairs(x: Ctx, y: Ctx, more: set<Key>, only: set<Method>, t: Option<Str>,
                                       ps: seq<IPair>)
    requires Framed(x, y, more, only, t) && SameCur(x, y)
    requires forall i :: 0 <= i < |ps| ==> ps[i].key.bytes != KEY_NAME
    ensures FramedRes(FoldIPairs(x, ps), FoldIPairs(y, ps), more, only, t)
    decreases |ps|
  {
    if ps != [] {
      FrameIKey(x, y, more, only, t, ps[0].key);
      var x', y' := OnIKey(x, ps[0].key), OnIKey(y, ps[0].key);
      match ps[0].val {
        case IStr(s) => FrameIStr(x', y', more, only, t, s);
        case IInt(n) => assert FramedRes(OnIInt(x', n), OnIInt(y', n), more, only, t);
        case IList(items) => FrameItems(x', y', more, only, t, items);
      }
      var rx, ry := FoldIPair(x, ps[0]), FoldIPair(y, ps[0]);
      if rx.Ok? {
        FrameIPairs(rx.ctx, ry.ctx, more, only, t, ps[1..]);
      }
    }
  }

  /** The payload adds inner keys only and leaves the tok alone. */
  ghost predicate InnerOnly(c: Ctx, r: Ctx) {
    && c.seen <= r.seen && r.kind <= c.kind
    && (OA in r.seen <==> OA in c.seen) && (OQ in r.seen <==> OQ in c.seen) && (OR in r.seen <==> OR in c.seen)
    && r.f.tok == c.f.tok
  }

  lemma {:induction false} ItemsInnerOnly(c: Ctx, vs: seq<Str>)
    ensures FoldItems(c, vs).Ok? ==> InnerOnly(c, FoldItems(c, vs).ctx)
    decreases |vs|
  {
    if vs != [] && OnItem(c, vs[0]).Ok? {
      ItemsInnerOnly(OnItem(c, vs[0]).ctx, vs[1..]);
    }
  }

  lemma IKeyInnerOnly(c: Ctx, k: Str)
    ensures InnerOnly(c, OnIKey(c, k))
  {
  }

  lemma {:induction false} IPairsInnerOnly(c: Ctx, ps: seq<IPair>)
    ensures FoldIPairs(c, ps).Ok? ==> InnerOnly(c, FoldIPairs(c, ps).ctx)
    decreases |ps|
  {
    if ps != [] && FoldIPair(c, ps[0]).Ok? {
      var c' := OnIKey(c, ps[0].key);
      IKeyInnerOnly(c, ps[0].key);
      match ps[0].val {
        case IStr(s) => assert InnerOnly(c', OnIStr(c', s).ctx);
        case IInt(n) =>
        case IList(items) => ItemsInnerOnly(c', items);
      }
      IPairsInnerOnly(FoldIPair(c, ps[0]).ctx, ps[1..]);
    }
  }

  /** Any pair, started from a frame of the same registers. */
  lemma FramePair(x: Ctx, y: Ctx, more: set<Key>, only: set<Method>, t: Option<Str>, q: OPair)
    requires |q.key.bytes| == 1 && NoName(q)
    requires ValidKinds(x) && ValidKinds(y) && Framed(x, y, more, only, t)
    requires !Conflict(q.key.bytes, y.seen)
    ensures FoldOPair(x, q).Ok? <==> FoldOPair(y, q).Ok?
    ensures FoldOPair(x, q).Ok? ==>
      Framed(FoldOPair(x, q).ctx, FoldOPair(y, q).ctx, more, only, TokAfter(q, t))
  {
    if q.val.ODict? {
      KeyEffect(x, q.key);
      KeyEffect(y, q.key);
      FrameIPairs(OnOKey(x, q.key).ctx, OnOKey(y, q.key).ctx, more, only, t, q.val.pairs);
    } else {
      FlatPairEffect(x, q);
      FlatPairEffect(y, q);
    }
  }

  /** The outer keys a pair adds are those of its own key. */
  lemma PairSeen(c: Ctx, p: OPair)
    requires |p.key.bytes| == 1 && ValidKinds(c) && FoldOPair(c, p).Ok?
    ensures var r := FoldOPair(c, p).ctx;
      && !Conflict(p.key.bytes, c.seen) && ValidKinds(r) && c.seen <= r.seen
      && (OA in r.seen <==> OA in c.seen || OA in Adds(p.key.bytes))
      && (OQ in r.seen <==> OQ in c.seen || OQ in Adds(p.key.bytes))
      && (OR in r.seen <==> OR in c.seen || OR in Adds(p.key.bytes))
  {
    KeyEffect(c, p.key);
    if p.val.ODict? {
      IPairsInnerOnly(OnOKey(c, p.key).ctx, p.val.pairs);
    } else {
      FlatPairEffect(c, p);
    }
  }

  // ----- swapping neighbours -----

  function FoldTwo(c: Ctx, p: OPair, q: OPair): Res {
    var r := FoldOPair(c, p);
    if r.Ok? then FoldOPair(r.ctx, q) else r
  }

  ghost predicate SameRes(a: Res, b: Res) {
    a.Ok? && b.Ok? && SameButCur(a.ctx, b.ctx)
  }

  lemma SwapFlatFirst(c: Ctx, p: OPair, q: OPair)
    requires ValidKinds(c) && Plain(p) && Plain(q) && Apart(p, q) && !p.val.ODict? && FoldTwo(c, p, q).Ok?
    ensures SameRes(FoldTwo(c, q, p), FoldTwo(c, p, q))
  {
    FlatPairEffect(c, p);
    var cp := FoldOPair(c, p).ctx;
    PairSeen(c, p);
    PairSeen(cp, q);
    FramePair(c, cp, Adds(p.key.bytes), PairKinds(p).value, TokAfter(p, c.f.tok), q);
    PairSeen(c, q);
    FlatPairEffect(FoldOPair(c, q).ctx, p);
    PairTok(c, q);
  }

  lemma SwapDictFirst(c: Ctx, p: OPair, q: OPair)
    requires ValidKinds(c) && Plain(p) && Plain(q) && Apart(p, q) && p.val.ODict? && FoldTwo(c, p, q).Ok?
    ensures SameRes(FoldTwo(c, q, p), FoldTwo(c, p, q))
  {
    var cp := FoldOPair(c, p).ctx;
    PairSeen(c, p);
    FlatPairEffect(cp, q);
    FlatPairEffect(c, q);
    var cq := FoldOPair(c, q).ctx;
    PairSeen(c, q);
    FramePair(c, cq, Adds(q.key.bytes), PairKinds(q).value, TokAfter(q, c.f.tok), p);
    PairTok(c, p);
  }

  /** Only a `t` pair writes the tok. */
  lemma PairTok(c: Ctx, q: OPair)
    requires |q.key.bytes| == 1 && ValidKinds(c) && FoldOPair(c, q).Ok?
    ensures FoldOPair(c, q).ctx.f.tok == TokAfter(q, c.f.tok)
  {
    KeyEffect(c, q.key);
    if q.val.ODict? {
      IPairsInnerOnly(OnOKey(c, q.key).ctx, q.val.pairs);
    } else {
      FlatPairEffect(c, q);
    }
  }

  lemma Swap(c: Ctx, p: OPair, q: OPair)
    requires ValidKinds(c) && Plain(p) && Plain(q) && Apart(p, q) && FoldTwo(c, p, q).Ok?
    ensures SameRes(FoldTwo(c, q, p), FoldTwo(c, p, q))
  {
    if p.val.ODict? {
      SwapDictFirst(c, p, q);
    } else {
      SwapFlatFirst(c, p, q);
    }
  }

  // ----- permuting -----

  lemma {:induction false} CurIrrelevant(a: Ctx, b: Ctx, ps: seq<OPair>)
    requires SameButCur(a, b) && Orderly(ps) && FoldOPairs(a, ps).Ok?
    ensures SameRes(FoldOPairs(a, ps), FoldOPairs(b, ps))
  {
    if ps != [] {
      assert Plain(ps[0]);
      assert OnOKey(a, ps[0].key) == OnOKey(b, ps[0].key);
    }
  }

  lemma FoldCons(c: Ctx, p: OPair, rest: seq<OPair>)
    ensures var r := FoldOPair(c, p);
      FoldOPairs(c, [p] + rest) == if r.Ok? then FoldOPairs(r.ctx, rest) else r
  {
    assert ([p] + rest)[1..] == rest;
  }

  lemma SwapHead(c: Ctx, p: OPair, q: OPair, rest: seq<OPair>)
    requires ValidKinds(c) && Plain(p) && Plain(q) && Apart(p, q) && Orderly(rest)
    requires FoldOPairs(c, [p] + ([q] + rest)).Ok?
    ensures SameRes(FoldOPairs(c, [q] + ([p] + rest)), FoldOPairs(c, [p] + ([q] + rest)))
  {
    FoldCons(c, p, [q] + rest);
    FoldCons(FoldOPair(c, p).ctx, q, rest);
    Swap(c, p, q);
    FoldCons(c, q, [p] + rest);
    FoldCons(FoldOPair(c, q).ctx, p, rest);
    CurIrrelevant(FoldTwo(c, p, q).ctx, FoldTwo(c, q, p).ctx, rest);
  }

  function Without(ps: seq<OPair>, i: nat): (r: seq<OPair>)
    requires i < |ps|
    ensures |r| == |ps| - 1
  {
    ps[..i] + ps[i + 1..]
  }

  lemma TailSlices(ps: seq<OPair>, i: nat)
    requires 0 < i < |ps|
    ensures ps[1..][..i - 1] == ps[1..i] && ps[1..][i..] == ps[i + 1..] && ps[..i] == [ps[0]] + ps[1..i]
  {
  }

  lemma WithoutSplit(ps: seq<OPair>, i: nat)
    requires i < |ps|
    ensures ps == [ps[0]] + Without(ps, 0)
    ensures i == 0 ==> [ps[i]] + Without(ps, i) == ps
    ensures i > 0 ==> Without(ps, 0)[i - 1] == ps[i]
    ensures i > 0 ==> Without(ps, i) == [ps[0]] + Without(Without(ps, 0), i - 1)
  {
    assert Without(ps, 0) == ps[1..];
    if i > 0 {
      TailSlices(ps, i);
      assert [ps[0]] + ps[1..i] + ps[i + 1..] == [ps[0]] + (ps[1..i] + ps[i + 1..]);
    }
  }

  lemma OrderlyParts(ps: seq<OPair>, i: nat)
    requires i < |ps| && Orderly(ps)
    ensures Orderly(Without(ps, i))
    ensures Plain(ps[i]) && (i > 0 ==> Plain(ps[0]) && Apart(ps[0], ps[i]))
  {
    var r := Without(ps, i);
    forall j | 0 <= j < |r| ensures Plain(r[j]) {
      assert Plain(ps[if j < i then j else j + 1]);
    }
    forall j, k | 0 <= j < k < |r| ensures Apart(r[j], r[k]) {
      assert Apart(ps[if j < i then j else j + 1], ps[if k < i then k else k + 1]);
    }
    assert Plain(ps[i]);
    if i > 0 {
      assert Plain(ps[0]) && Apart(ps[0], ps[i]);
    }
  }

  lemma MovePastHead(c: Ctx, p: OPair, q: OPair, tail: seq<OPair>, rest: seq<OPair>)
    requires ValidKinds(c) && Plain(p) && Plain(q) && Apart(p, q) && Orderly(rest) && FoldOPair(c, p).Ok?
    requires SameRes(FoldOPairs(FoldOPair(c, p).ctx, [q] + rest), FoldOPairs(FoldOPair(c, p).ctx, tail))
    ensures SameRes(FoldOPairs(c, [q] + ([p] + rest)), FoldOPairs(c, [p] + tail))
  {
    FoldCons(c, p, tail);
    FoldCons(c, p, [q] + rest);
    SwapHead(c, p, q, rest);
  }

  /** Bringing any pair to the front. */
  lemma {:induction false} MoveToFront(c: Ctx, ps: seq<OPair>, i: nat)
    requires i < |ps| && ValidKinds(c) && Orderly(ps) && FoldOPairs(c, ps).Ok?
    ensures SameRes(FoldOPairs(c, [ps[i]] + Without(ps, i)), FoldOPairs(c, ps))
    decreases i
  {
    WithoutSplit(ps, i);
    if i > 0 {
      var p, q, tail := ps[0], ps[i], Without(ps, 0);
      OrderlyParts(ps, 0);
      OrderlyParts(ps, i);
      OrderlyParts(tail, i - 1);
      FoldCons(c, p, tail);
      PairSeen(c, p);
      MoveToFront(FoldOPair(c, p).ctx, tail, i - 1);
      MovePastHead(c, p, q, tail, Without(tail, i - 1));
    }
  }

  lemma {:induction false} Permute(c: Ctx, ps: seq<OPair>, qs: seq<OPair>)
    requires multiset(ps) == multiset(qs)
    requires ValidKinds(c) && Orderly(ps) && FoldOPairs(c, ps).Ok?
    ensures SameRes(FoldOPairs(c, qs), FoldOPairs(c, ps))
    decreases |qs|
  {
    if qs == [] {
      assert |multiset(ps)| == |ps|;
    } else {
      var q := qs[0];
      assert q in multiset(ps);
      var i :| 0 <= i < |ps| && ps[i] == q;
      MoveToFront(c, ps, i);
      OrderlyParts(ps, i);
      FoldCons(c, q, Without(ps, i));
      PairSeen(c, q);
      RemoveAt(ps, i);
      assert qs == [q] + qs[1..];
      Permute(FoldOPair(c, q).ctx, Without(ps, i), qs[1..]);
    }
  }

  lemma RemoveAt(ps: seq<OPair>, i: nat)
    requires i < |ps|
    ensures multiset(Without(ps, i)) == multiset(ps) - multiset{ps[i]}
  {
    assert ps == ps[..i] + [ps[i]] + ps[i + 1..];
  }

  /** The order of the outer pairs does not matter: if no event of one message fails (as in
      every accepted message), every message with the same outer pairs in any order, laid
      out anywhere, gets the same verdict, and if accepted the same field contents. */
  lemma OuterOrderIrrelevant(d: Bytes, e: Bytes)
    requires ParseMsg(d).Parsed? && ParseMsg(e).Parsed?
    requires multiset(BareOPairs(ParseMsg(d).value)) == multiset(BareOPairs(ParseMsg(e).value))
    requires Orderly(BareOPairs(ParseMsg(d).value))
    requires FoldOPairs(InitialCtx(CLEARED), BareOPairs(ParseMsg(d).value)).Ok? || Decode(d).Accepted?
    ensures BareDecoded(Decode(e)) == BareDecoded(Decode(d))
  {
    DecodeByContents(d);
    DecodeByContents(e);
    var c, ps, qs := InitialCtx(CLEARED), BareOPairs(ParseMsg(d).value), BareOPairs(ParseMsg(e).value);
    Permute(c, ps, qs);
    JudgeSame(FoldOPairs(c, ps), FoldOPairs(c, qs));
  }
}
