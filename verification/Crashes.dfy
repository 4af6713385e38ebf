// When a datagram crashes the crawler: an assertion in the decoder, or a null pointer read
// by the decoder or by the handler of an accepted message.

module Crashes {
  import opened Dht
  import opened Krpc
  import opened Grammar
  import opened Contents
  import opened Acceptance
  import opened Render
  import opened Msg
  import opened RoundTrip
  import opened Message
  import opened SpamFilter
  import opened Handler

  // ----- crashes of the decoder -----

  /** An id and a tok, the id in a dictionary under the key `x`, which says nothing about
      the type of the message. */
  function UntypedTree(nid: Nih, tok: Bytes): seq<OPair> {
    [OPair(Raw([0x78]), ODict([Arg(KEY_ID, nid)])), OPair(Raw([0x74]), OStr(Raw(tok)))]
  }

  lemma UntypedFold(nid: Nih, tok: Bytes)
    requires |tok| <= MAXLEN_TOK
    ensures FoldOPairs(InitialCtx(CLEARED), UntypedTree(nid, tok))
      == Ok(Ctx(Some(OT), {INid, OT}, ANY, CLEARED.(nid := Some(Raw(nid)), tok := Some(Raw(tok)))))
  {
    var ps := UntypedTree(nid, tok);
    var c0 := InitialCtx(CLEARED);
    assert OnOKey(c0, ps[0].key) == Ok(c0);
    var c1 := Ctx(Some(INid), {INid}, ANY, CLEARED.(nid := Some(Raw(nid))));
    IdFold(c0, nid, []);
    assert [Arg(KEY_ID, nid)] + [] == [Arg(KEY_ID, nid)] && {} + {INid} == {INid};
    TokPair(c1, tok);
    assert {INid} + {OT} == {INid, OT};
    assert ps == [ps[0]] + [ps[1]] && [ps[1]] == [ps[1]] + [];
    FoldCons(c0, ps[0], [ps[1]]);
    FoldCons(c1, ps[1], []);
  }

  lemma UntypedBare(nid: Nih, tok: Bytes)
    requires |tok| <= MAXLEN_TOK
    ensures BareOPairs(UntypedTree(nid, tok)) == UntypedTree(nid, tok) && SmallOPairs(UntypedTree(nid, tok))
  {
    RawArgsBare([Arg(KEY_ID, nid)]);
  }

  /** A whole message that leaves both a query and a reply possible trips the assertion of
      the classifier. */
  lemma UntypedAborts(nid: Nih, tok: Bytes, tail: Bytes)
    requires |tok| <= MAXLEN_TOK
    ensures Decode(RMsg(UntypedTree(nid, tok)) + tail) == Aborted
  {
    UntypedBare(nid, tok);
    UntypedFold(nid, tok);
    DecodeRendered(UntypedTree(nid, tok), tail);
    assert QPg in ANY * Q_ANY && RPg in ANY * R_ANY;
  }

  /** An announce with an info hash and an implied port, but no token. */
  function TokenlessTree(nid: Nih, ih: Nih, tok: Bytes): seq<OPair> {
    [OPair(Raw([0x61]), ODict(TokenlessArgs(nid, ih))), OPair(Raw([0x74]), OStr(Raw(tok)))]
  }

  function TokenlessArgs(nid: Nih, ih: Nih): seq<IPair> {
    [Arg(KEY_ID, nid), IPair(Raw(KEY_IMPLIED_PORT), IInt(1)), Arg(KEY_INFO_HASH, ih)]
  }

  lemma TokenlessArgsFold(nid: Nih, ih: Nih)
    ensures FoldIPairs(QUERY_START, TokenlessArgs(nid, ih))
      == Ok(Ctx(Some(IIh), {OA, INid, IImplPort, IIh}, {QAp}, CLEARED.(nid := Some(Raw(nid)), ih := Some(Raw(ih)))))
  {
    var args := TokenlessArgs(nid, ih);
    assert args == [args[0]] + ([args[1]] + [args[2]]);
    QueryIdFold(nid, [args[1]] + [args[2]]);
    var c1 := QueryWithId(nid);
    var c2 := Ctx(Some(IImplPort), {OA, INid, IImplPort}, {QAp}, c1.f);
    assert Q_ANY * {QAp} == {QAp} && {OA, INid} + {IImplPort} == {OA, INid, IImplPort};
    FoldArgsCons(c1, args[1], [args[2]]);
    IhFold(c2, ih);
    assert {QAp} * {QGp, QAp} == {QAp} && {OA, INid, IImplPort} + {IIh} == {OA, INid, IImplPort, IIh};
  }

  lemma TokenlessFold(nid: Nih, ih: Nih, tok: Bytes)
    requires |tok| <= MAXLEN_TOK
    ensures FoldOPairs(InitialCtx(CLEARED), TokenlessTree(nid, ih, tok))
      == Ok(Ctx(Some(OT), {OA, INid, IImplPort, IIh, OT}, {QAp},
                CLEARED.(nid := Some(Raw(nid)), ih := Some(Raw(ih)), tok := Some(Raw(tok)))))
  {
    var ps := TokenlessTree(nid, ih, tok);
    assert ANY * Q_ANY == Q_ANY && {} + {OA} == {OA};
    assert OnOKey(InitialCtx(CLEARED), ps[0].key) == Ok(QUERY_START);
    TokenlessArgsFold(nid, ih);
    var c := FoldIPairs(QUERY_START, TokenlessArgs(nid, ih)).ctx;
    TokPair(c, tok);
    assert {OA, INid, IImplPort, IIh} + {OT} == {OA, INid, IImplPort, IIh, OT};
    assert ps == [ps[0]] + [ps[1]] && [ps[1]] == [ps[1]] + [];
    FoldCons(InitialCtx(CLEARED), ps[0], [ps[1]]);
    FoldCons(c, ps[1], []);
  }

  lemma TokenlessBare(nid: Nih, ih: Nih, tok: Bytes)
    requires |tok| <= MAXLEN_TOK
    ensures var ps := TokenlessTree(nid, ih, tok); BareOPairs(ps) == ps && SmallOPairs(ps)
  {
    var args := TokenlessArgs(nid, ih);
    assert BareIPairs(args) == args && SmallIPairs(args);
  }

  /** Such an announce makes the filter read through a null pointer. */
  lemma TokenlessAborts(nid: Nih, ih: Nih, tok: Bytes, tail: Bytes)
    requires |tok| <= MAXLEN_TOK
    ensures Decode(RMsg(TokenlessTree(nid, ih, tok)) + tail) == Aborted
  {
    TokenlessBare(nid, ih, tok);
    TokenlessFold(nid, ih, tok);
    DecodeRendered(TokenlessTree(nid, ih, tok), tail);
    assert QAp in {QAp} * Q_ANY && {QAp} * R_ANY == {};
  }

  // ----- crashes of the handler -----

  /** An accepted message leaves a pointer null that its case reads. */
  predicate ReadsNull(w: World, g: Datagram, m: Method, f: Fields)
    requires m == RGp ==> |TokBytes(f)| == 3
  {
    match m
    case QPg => f.nid == None
    case QFn => f.nid == None || f.target == None
    case QGp => f.nid == None || f.ih == None
    case QAp => f.nid == None && (f.apName == None || f.apName.value.bytes == [] || g.nameOk)
    case RPg => f.nid == None
    case RFn => false
    case RGp => f.nid == None && (f.nPeers > 0 || (f.nNodes > 0 && w.gpm[LoadU16(TokBytes(f))].isSet))
  }

  lemma DispatchCrashExact(w: World, g: Datagram, m: Method, f: Fields)
    requires ValidWorld(w) && ValidDatagram(g) && Shaped(f) && (m == RGp ==> |TokBytes(f)| == 3)
    ensures Dispatch(w, g, m, f).Crash? <==> ReadsNull(w, g, m, f)
  {
  }

  /** A datagram crashes the crawler exactly when it is looked at at all, and its decoding
      crashes or it is accepted with a pointer null that its case reads. */
  lemma HandleCrashExact(w: World, g: Datagram)
    requires ValidWorld(w) && ValidDatagram(g)
    ensures Handle(w, g).Crash? <==>
      && !Ignored(|g.msg|) && Allowed(w.rx, RX_RATES, g.ip)
      && (|| Decode(g.msg) == Aborted
          || (&& Decode(g.msg).Accepted?
              && (Decode(g.msg).meth == RGp ==> |TokBytes(Decode(g.msg).f)| == 3)
              && ReadsNull(w, g, Decode(g.msg).meth, Decode(g.msg).f)))
  {
    WithdrawIsDense(w.rx, RX_RATES, g.ip, g.ip);
    var w1 := w.(rx := WithdrawFrom(w.rx, RX_RATES, g.ip));
    if Decode(g.msg).Accepted? {
      AcceptedShaped(g.msg);
      if Decode(g.msg).meth == RGp { GetPeersReplyShape(g.msg); }
      DispatchCrashExact(w1, g, Decode(g.msg).meth, Decode(g.msg).f);
    }
  }

  // ----- messages that are safe -----

  predicate NamesId(k: Bytes) { k == KEY_ID || k == KEY_INFO_HASH || k == KEY_TARGET }

  /** Each id, info hash and target of a dictionary is a string. */
  predicate StringArgs(ps: seq<IPair>) {
    forall i :: 0 <= i < |ps| && NamesId(ps[i].key.bytes) ==> ps[i].val.IStr?
  }

  predicate StringIds(ps: seq<OPair>) {
    forall i :: 0 <= i < |ps| && ps[i].val.ODict? ==> StringArgs(ps[i].val.pairs)
  }

  /** A message all of whose ids, info hashes and targets are strings. */
  predicate IsSafe(d: Bytes) { ParseMsg(d).Parsed? && StringIds(ParseMsg(d).value) }

  /** The ids named were read. */
  predicate IdsRead(c: Ctx) {
    (INid in c.seen ==> c.f.nid.Some?) && (IIh in c.seen ==> c.f.ih.Some?) && (ITarget in c.seen ==> c.f.target.Some?)
  }

  lemma {:induction false} ItemsKeepIds(c: Ctx, items: seq<Str>)
    requires IdsRead(c) && FoldItems(c, items).Ok?
    ensures IdsRead(FoldItems(c, items).ctx)
    decreases |items|
  {
    if items != [] {
      ItemsKeepIds(OnItem(c, items[0]).ctx, items[1..]);
    }
  }

  /** What is read so far, but for the id whose value comes next. */
  predicate IdsReadBut(c: Ctx, k: Bytes) {
    && (INid in c.seen && k != KEY_ID ==> c.f.nid.Some?) && (IIh in c.seen && k != KEY_INFO_HASH ==> c.f.ih.Some?)
    && (ITarget in c.seen && k != KEY_TARGET ==> c.f.target.Some?)
    && (NamesId(k) ==> c.cur == Some(if k == KEY_ID then INid else if k == KEY_TARGET then ITarget else IIh))
  }

  lemma IKeyKeepsIds(c: Ctx, k: Str)
    requires IdsRead(c)
    ensures IdsReadBut(OnIKey(c, k), k.bytes)
  {
  }

  lemma IStrKeepsIds(c: Ctx, s: Str, k: Bytes)
    requires IdsReadBut(c, k) && OnIStr(c, s).Ok?
    ensures IdsRead(OnIStr(c, s).ctx)
  {
  }

  lemma IPairKeepsIds(c: Ctx, p: IPair)
    requires IdsRead(c) && FoldIPair(c, p).Ok? && (NamesId(p.key.bytes) ==> p.val.IStr?)
    ensures IdsRead(FoldIPair(c, p).ctx)
  {
    var c1 := OnIKey(c, p.key);
    IKeyKeepsIds(c, p.key);
    match p.val {
      case IStr(s) => IStrKeepsIds(c1, s, p.key.bytes);
      case IInt(n) =>
      case IList(items) => ItemsKeepIds(c1, items);
    }
  }

  lemma {:induction false} IPairsKeepIds(c: Ctx, ps: seq<IPair>)
    requires IdsRead(c) && StringArgs(ps) && FoldIPairs(c, ps).Ok?
    ensures IdsRead(FoldIPairs(c, ps).ctx)
    decreases |ps|
  {
    if ps != [] {
      IPairKeepsIds(c, ps[0]);
      IPairsKeepIds(FoldIPair(c, ps[0]).ctx, ps[1..]);
    }
  }

  lemma {:induction false} OPairsKeepIds(c: Ctx, ps: seq<OPair>)
    requires IdsRead(c) && StringIds(ps) && FoldOPairs(c, ps).Ok?
    ensures IdsRead(FoldOPairs(c, ps).ctx)
    decreases |ps|
  {
    if ps != [] {
      var c1 := OnOKey(c, ps[0].key).ctx;
      assert IdsRead(c1);
      if ps[0].val.ODict? {
        IPairsKeepIds(c1, ps[0].val.pairs);
      }
      OPairsKeepIds(FoldOPair(c, ps[0]).ctx, ps[1..]);
    }
  }

  lemma AcceptedIdsAreRead(d: Bytes)
    requires Decode(d).Accepted? && IsSafe(d)
    ensures var m := Decode(d).meth; var f := Decode(d).f;
      f.nid.Some? && (m == QGp ==> f.ih.Some?) && (m == QFn ==> f.target.Some?)
  {
    AcceptanceExact(d, Decode(d).meth, Decode(d).f);
    OPairsKeepIds(InitialCtx(CLEARED), ParseMsg(d).value);
  }

  /** An accepted message whose ids, info hashes and targets are strings never crashes the
      handler, whatever the tables hold. */
  lemma StringIdsNeverCrash(w: World, g: Datagram)
    requires ValidWorld(w) && ValidDatagram(g)
    requires Decode(g.msg).Accepted? && IsSafe(g.msg)
    ensures Handle(w, g).Done?
  {
    AcceptedIdsAreRead(g.msg);
    HandleCrashExact(w, g);
  }

  /** A ping whose id is a number. */
  function IdlessTree(tok: Bytes): seq<OPair> { Query([IPair(Raw(KEY_ID), IInt(1))], VAL_PG, tok) }

  lemma IdlessBare(tok: Bytes)
    requires |tok| <= MAXLEN_TOK
    ensures BareOPairs(IdlessTree(tok)) == IdlessTree(tok) && SmallOPairs(IdlessTree(tok))
  {
    var args := [IPair(Raw(KEY_ID), IInt(1))];
    assert BareIPairs(args) == args && SmallIPairs(args);
  }

  lemma IdlessDecodes(tok: Bytes, tail: Bytes)
    requires |tok| <= MAXLEN_TOK
    ensures BareDecoded(Decode(RMsg(IdlessTree(tok)) + tail)) == Accepted(QPg, CLEARED.(tok := Some(Raw(tok))))
  {
    var args := [IPair(Raw(KEY_ID), IInt(1))];
    assert args == args + [];
    var c := Ctx(Some(INid), {OA} + {INid}, Q_ANY, CLEARED);
    assert Q_ANY * Q_ANY == Q_ANY && Q_ANY * {QPg} == {QPg};
    FoldArgsCons(QUERY_START, args[0], []);
    QueryFold(args, c, QPg, VAL_PG, tok);
    assert {OA} + {INid} + {OQ, OT, OY} == {OA, INid, OQ, OT, OY};
    IdlessBare(tok);
    DecodeRendered(IdlessTree(tok), tail);
    PingHasNoBody(QueryEnd(c, QPg, tok));
    JudgeQuery(QueryEnd(c, QPg, tok), QPg);
  }

  /** It is accepted, and crashes the handler: one datagram is enough. */
  lemma IdlessPingCrashes(w: World, g: Datagram, tok: Bytes, tail: Bytes)
    requires ValidWorld(w) && ValidDatagram(g) && |tok| <= MAXLEN_TOK
    requires g.msg == RMsg(IdlessTree(tok)) + tail && !Ignored(|g.msg|) && Allowed(w.rx, RX_RATES, g.ip)
    ensures Decode(g.msg).Accepted? && Handle(w, g).Crash?
  {
    IdlessDecodes(tok, tail);
    HandleCrashExact(w, g);
  }
}
