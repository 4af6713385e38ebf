// Decoding inverts encoding, for all six templates and whatever stands behind the
// message in the receive buffer.

module RoundTrip {
  import opened Dht
  import opened Numeral
  import opened Krpc
  import opened Grammar
  import opened Contents
  import opened Render
  import opened Msg

  // ----- folding a template's tree -----

  lemma FoldCons(c: Ctx, p: OPair, rest: seq<OPair>)
    ensures var r := FoldOPair(c, p);
      FoldOPairs(c, [p] + rest) == if r.Ok? then FoldOPairs(r.ctx, rest) else r
  {
    assert ([p] + rest)[1..] == rest;
  }

  lemma FoldThree(c0: Ctx, p: OPair, c1: Ctx, q: OPair, c2: Ctx, r: OPair)
    requires FoldOPair(c0, p) == Ok(c1) && FoldOPair(c1, q) == Ok(c2)
    ensures FoldOPairs(c0, [p, q, r]) == FoldOPair(c2, r)
  {
    assert [p, q, r] == [p] + [q, r] && [q, r] == [q] + [r] && [r] == [r] + [];
    FoldCons(c0, p, [q, r]);
    FoldCons(c1, q, [r]);
    FoldCons(c2, r, []);
  }

  lemma FoldArgsCons(c: Ctx, p: IPair, rest: seq<IPair>)
    ensures var r := FoldIPair(c, p);
      FoldIPairs(c, [p] + rest) == if r.Ok? then FoldIPairs(r.ctx, rest) else r
  {
    assert ([p] + rest)[1..] == rest;
  }

  const QUERY_START := Ctx(Some(OA), {OA}, Q_ANY, CLEARED)

  /** The registers behind a query's arguments `c`, once its name, tok and type are read. */
  function QueryEnd(c: Ctx, m: Method, tok: Bytes): Ctx {
    Ctx(Some(OY), c.seen + {OQ, OT, OY}, c.kind * {m}, c.f.(tok := Some(Raw(tok))))
  }

  predicate NameOf(name: Bytes, m: Method) {
    (name == VAL_PG && m == QPg) || (name == VAL_GP && m == QGp) || (name == VAL_FN && m == QFn)
  }

  lemma NamePair(c: Ctx, m: Method, name: Bytes)
    requires OR !in c.seen && c.kind <= Q_ANY && NameOf(name, m)
    ensures FoldOPair(c, OPair(Raw([0x71]), OStr(Raw(name)))) == Ok(Ctx(Some(OQ), c.seen + {OQ}, c.kind * {m}, c.f))
  {
    assert c.kind * Q_ANY * {m} == c.kind * {m};
  }

  lemma TokPair(c: Ctx, tok: Bytes)
    requires |tok| <= MAXLEN_TOK
    ensures FoldOPair(c, OPair(Raw([0x74]), OStr(Raw(tok))))
      == Ok(Ctx(Some(OT), c.seen + {OT}, c.kind, c.f.(tok := Some(Raw(tok)))))
  {
    assert c.kind * c.kind == c.kind;
  }

  lemma TypePair(c: Ctx)
    requires c.kind <= Q_ANY
    ensures FoldOPair(c, OPair(Raw([0x79]), OStr(Raw([0x71])))) == Ok(Ctx(Some(OY), c.seen + {OY}, c.kind, c.f))
  {
    assert c.kind * Q_ANY == c.kind;
  }

  lemma QueryTail(c: Ctx, m: Method, name: Bytes, tok: Bytes)
    requires OR !in c.seen && c.kind <= Q_ANY && NameOf(name, m) && |tok| <= MAXLEN_TOK
    ensures FoldOPairs(c, Query([], name, tok)[1..]) == Ok(QueryEnd(c, m, tok))
  {
    var q := Query([], name, tok);
    assert q[1..] == [q[1], q[2], q[3]];
    var c1 := Ctx(Some(OQ), c.seen + {OQ}, c.kind * {m}, c.f);
    NamePair(c, m, name);
    var c2 := Ctx(Some(OT), c1.seen + {OT}, c1.kind, c.f.(tok := Some(Raw(tok))));
    TokPair(c1, tok);
    TypePair(c2);
    assert c.seen + {OQ} + {OT} + {OY} == c.seen + {OQ, OT, OY};
    FoldThree(c, q[1], c1, q[2], c2, q[3]);
  }

  lemma QueryFold(args: seq<IPair>, c: Ctx, m: Method, name: Bytes, tok: Bytes)
    requires FoldIPairs(QUERY_START, args) == Ok(c)
    requires OR !in c.seen && c.kind <= Q_ANY && NameOf(name, m) && |tok| <= MAXLEN_TOK
    ensures FoldOPairs(InitialCtx(CLEARED), Query(args, name, tok)) == Ok(QueryEnd(c, m, tok))
  {
    var q := Query(args, name, tok);
    assert ANY * Q_ANY == Q_ANY;
    assert OnOKey(InitialCtx(CLEARED), q[0].key) == Ok(QUERY_START);
    assert q == [q[0]] + q[1..] && q[1..] == Query([], name, tok)[1..];
    FoldCons(InitialCtx(CLEARED), q[0], q[1..]);
    QueryTail(c, m, name, tok);
  }

  const REPLY_START := Ctx(Some(OR), {OY, OR}, R_ANY, CLEARED)

  function ReplyEnd(c: Ctx, tok: Bytes): Ctx {
    Ctx(Some(OT), c.seen + {OT}, c.kind, c.f.(tok := Some(Raw(tok))))
  }

  lemma ReplyFold(args: seq<IPair>, c: Ctx, tok: Bytes)
    requires FoldIPairs(REPLY_START, args) == Ok(c) && |tok| <= MAXLEN_TOK
    ensures FoldOPairs(InitialCtx(CLEARED), Reply(args, tok)) == Ok(ReplyEnd(c, tok))
  {
    var q := Reply(args, tok);
    var c0 := InitialCtx(CLEARED);
    var c1 := Ctx(Some(OY), {OY}, R_ANY, CLEARED);
    assert ANY * ANY * R_ANY == R_ANY && {} + {OY} == {OY};
    assert FoldOPair(c0, q[0]) == Ok(c1);
    assert R_ANY * R_ANY == R_ANY && {OY} + {OR} == {OY, OR};
    assert OnOKey(c1, q[1].key) == Ok(REPLY_START);
    assert c.kind * c.kind == c.kind;
    assert FoldOPair(c, q[2]) == Ok(ReplyEnd(c, tok));
    FoldThree(c0, q[0], c1, q[1], c, q[2]);
  }

  // ----- folding the arguments -----

  lemma IdFold(c: Ctx, sid: Nih, rest: seq<IPair>)
    ensures var c1 := Ctx(Some(INid), c.seen + {INid}, c.kind, c.f.(nid := Some(Raw(sid))));
      FoldIPairs(c, [Arg(KEY_ID, sid)] + rest) == FoldIPairs(c1, rest)
  {
    assert c.kind * c.kind == c.kind;
    FoldArgsCons(c, Arg(KEY_ID, sid), rest);
  }

  lemma TargetFold(c: Ctx, t: Nih)
    ensures FoldIPairs(c, [Arg(KEY_TARGET, t)])
      == Ok(Ctx(Some(ITarget), c.seen + {ITarget}, c.kind * {QFn}, c.f.(target := Some(Raw(t)))))
  {
    assert [Arg(KEY_TARGET, t)] == [Arg(KEY_TARGET, t)] + [];
    FoldArgsCons(c, Arg(KEY_TARGET, t), []);
  }

  lemma IhFold(c: Ctx, ih: Nih)
    ensures FoldIPairs(c, [Arg(KEY_INFO_HASH, ih)])
      == Ok(Ctx(Some(IIh), c.seen + {IIh}, c.kind * {QGp, QAp}, c.f.(ih := Some(Raw(ih)))))
  {
    assert [Arg(KEY_INFO_HASH, ih)] == [Arg(KEY_INFO_HASH, ih)] + [];
    FoldArgsCons(c, Arg(KEY_INFO_HASH, ih), []);
  }

  lemma NodesRead(c: Ctx, p: PNode)
    requires c.cur == Some(INodes)
    ensures OnIStr(c, Raw(p)) == Ok(c.(f := c.f.(nNodes := 1, nodes := Some(Raw(p)))))
  {
    assert p[..26] == p;
  }

  lemma NodesFold(c: Ctx, p: PNode, rest: seq<IPair>)
    ensures var c1 := Ctx(Some(INodes), c.seen + {INodes}, c.kind * {RFn, RGp},
                          c.f.(nNodes := 1, nodes := Some(Raw(p))));
      FoldIPairs(c, [Arg(KEY_NODES, p)] + rest) == FoldIPairs(c1, rest)
  {
    FoldArgsCons(c, Arg(KEY_NODES, p), rest);
    assert OnIKey(c, Raw(KEY_NODES)) == Ctx(Some(INodes), c.seen + {INodes}, c.kind * {RFn, RGp}, c.f);
    NodesRead(OnIKey(c, Raw(KEY_NODES)), p);
  }

  lemma TokenFold(c: Ctx)
    ensures FoldIPairs(c, [Arg(KEY_TOKEN, [OUR_TOKEN])])
      == Ok(Ctx(Some(IToken), c.seen + {IToken}, c.kind * (ANY - {QFn}), c.f.(token := Some(Raw([OUR_TOKEN])))))
  {
    assert [Arg(KEY_TOKEN, [OUR_TOKEN])] == [Arg(KEY_TOKEN, [OUR_TOKEN])] + [];
    FoldArgsCons(c, Arg(KEY_TOKEN, [OUR_TOKEN]), []);
  }

  // ----- trees of raw strings are already bare and small -----

  ghost predicate RawArgs(args: seq<IPair>) {
    forall i :: 0 <= i < |args| ==>
      && args[i].key.start == 0 && |args[i].key.bytes| < ATOI_LIMIT
      && args[i].val.IStr? && args[i].val.s.start == 0 && |args[i].val.s.bytes| < ATOI_LIMIT
  }

  lemma RawArgsBare(args: seq<IPair>)
    requires RawArgs(args)
    ensures BareIPairs(args) == args && SmallIPairs(args)
  {
  }

  lemma QueryBare(args: seq<IPair>, name: Bytes, tok: Bytes)
    requires RawArgs(args) && |name| < 100 && |tok| < 100
    ensures BareOPairs(Query(args, name, tok)) == Query(args, name, tok) && SmallOPairs(Query(args, name, tok))
  {
    RawArgsBare(args);
  }

  lemma ReplyBare(args: seq<IPair>, tok: Bytes)
    requires RawArgs(args) && |tok| < 100
    ensures BareOPairs(Reply(args, tok)) == Reply(args, tok) && SmallOPairs(Reply(args, tok))
  {
    RawArgsBare(args);
  }

  // ----- the registers each template leaves behind -----

  lemma QPgFold(sid: Nih)
    ensures FoldOPairs(InitialCtx(CLEARED), QPgTree(sid))
      == Ok(Ctx(Some(OY), {OA, INid, OQ, OT, OY}, {QPg},
                CLEARED.(nid := Some(Raw(sid)), tok := Some(Raw([OUR_TOK_PG])))))
  {
    var args := [Arg(KEY_ID, sid)];
    assert args == args + [];
    IdFold(QUERY_START, sid, []);
    var c := Ctx(Some(INid), {OA} + {INid}, Q_ANY, CLEARED.(nid := Some(Raw(sid))));
    QueryFold(args, c, QPg, VAL_PG, [OUR_TOK_PG]);
    assert {OA} + {INid} + {OQ, OT, OY} == {OA, INid, OQ, OT, OY};
    assert Q_ANY * {QPg} == {QPg};
  }

  function QueryWithId(sid: Nih): Ctx {
    Ctx(Some(INid), {OA, INid}, Q_ANY, CLEARED.(nid := Some(Raw(sid))))
  }

  lemma QueryIdFold(sid: Nih, rest: seq<IPair>)
    ensures FoldIPairs(QUERY_START, [Arg(KEY_ID, sid)] + rest) == FoldIPairs(QueryWithId(sid), rest)
  {
    IdFold(QUERY_START, sid, rest);
    assert {OA} + {INid} == {OA, INid};
  }

  function QueryWithTarget(sid: Nih, t: Nih): Ctx {
    Ctx(Some(ITarget), {OA, INid, ITarget}, {QFn}, CLEARED.(nid := Some(Raw(sid)), target := Some(Raw(t))))
  }

  lemma QFnFold(sid: Nih, t: Nih)
    ensures FoldOPairs(InitialCtx(CLEARED), QFnTree(sid, t)) == Ok(QueryEnd(QueryWithTarget(sid, t), QFn, [OUR_TOK_FN]))
  {
    var rest := [Arg(KEY_TARGET, t)];
    assert [Arg(KEY_ID, sid), Arg(KEY_TARGET, t)] == [Arg(KEY_ID, sid)] + rest;
    QueryIdFold(sid, rest);
    TargetFold(QueryWithId(sid), t);
    assert {OA, INid} + {ITarget} == {OA, INid, ITarget} && Q_ANY * {QFn} == {QFn};
    QueryFold([Arg(KEY_ID, sid)] + rest, QueryWithTarget(sid, t), QFn, VAL_FN, [OUR_TOK_FN]);
  }

  function QueryWithIh(sid: Nih, ih: Nih): Ctx {
    Ctx(Some(IIh), {OA, INid, IIh}, {QGp, QAp}, CLEARED.(nid := Some(Raw(sid)), ih := Some(Raw(ih))))
  }

  lemma QGpFold(sid: Nih, ih: Nih, tok: U16)
    ensures FoldOPairs(InitialCtx(CLEARED), QGpTree(sid, ih, tok))
      == Ok(QueryEnd(QueryWithIh(sid, ih), QGp, StoreU16(tok) + [OUR_TOK_GP]))
  {
    var rest := [Arg(KEY_INFO_HASH, ih)];
    assert [Arg(KEY_ID, sid), Arg(KEY_INFO_HASH, ih)] == [Arg(KEY_ID, sid)] + rest;
    QueryIdFold(sid, rest);
    IhFold(QueryWithId(sid), ih);
    assert {OA, INid} + {IIh} == {OA, INid, IIh} && Q_ANY * {QGp, QAp} == {QGp, QAp};
    QueryFold([Arg(KEY_ID, sid)] + rest, QueryWithIh(sid, ih), QGp, VAL_GP, StoreU16(tok) + [OUR_TOK_GP]);
  }

  function ReplyWithId(sid: Nih): Ctx {
    Ctx(Some(INid), {OY, OR, INid}, R_ANY, CLEARED.(nid := Some(Raw(sid))))
  }

  lemma ReplyIdFold(sid: Nih, rest: seq<IPair>)
    ensures FoldIPairs(REPLY_START, [Arg(KEY_ID, sid)] + rest) == FoldIPairs(ReplyWithId(sid), rest)
  {
    IdFold(REPLY_START, sid, rest);
    assert {OY, OR} + {INid} == {OY, OR, INid};
  }

  lemma RPgFold(sid: Nih, tok: Bytes)
    requires |tok| <= MAXLEN_TOK
    ensures FoldOPairs(InitialCtx(CLEARED), RPgTree(sid, tok)) == Ok(ReplyEnd(ReplyWithId(sid), tok))
  {
    assert [Arg(KEY_ID, sid)] == [Arg(KEY_ID, sid)] + [];
    ReplyIdFold(sid, []);
    ReplyFold([Arg(KEY_ID, sid)], ReplyWithId(sid), tok);
  }

  function ReplyWithNodes(sid: Nih, p: PNode): Ctx {
    Ctx(Some(INodes), {OY, OR, INid, INodes}, {RFn, RGp},
        CLEARED.(nid := Some(Raw(sid)), nNodes := 1, nodes := Some(Raw(p))))
  }

  lemma ReplyNodesFold(sid: Nih, p: PNode, rest: seq<IPair>)
    ensures FoldIPairs(REPLY_START, [Arg(KEY_ID, sid)] + ([Arg(KEY_NODES, p)] + rest))
      == FoldIPairs(ReplyWithNodes(sid, p), rest)
  {
    ReplyIdFold(sid, [Arg(KEY_NODES, p)] + rest);
    NodesFold(ReplyWithId(sid), p, rest);
    assert {OY, OR, INid} + {INodes} == {OY, OR, INid, INodes};
    assert R_ANY * {RFn, RGp} == {RFn, RGp};
  }

  lemma RFnFold(sid: Nih, p: PNode, tok: Bytes)
    requires |tok| <= MAXLEN_TOK
    ensures FoldOPairs(InitialCtx(CLEARED), RFnTree(sid, p, tok)) == Ok(ReplyEnd(ReplyWithNodes(sid, p), tok))
  {
    var args := [Arg(KEY_ID, sid), Arg(KEY_NODES, p)];
    assert args == [Arg(KEY_ID, sid)] + ([Arg(KEY_NODES, p)] + []);
    ReplyNodesFold(sid, p, []);
    ReplyFold(args, ReplyWithNodes(sid, p), tok);
  }

  function ReplyWithToken(sid: Nih, p: PNode): Ctx {
    Ctx(Some(IToken), {OY, OR, INid, INodes, IToken}, {RFn, RGp},
        CLEARED.(nid := Some(Raw(sid)), nNodes := 1, nodes := Some(Raw(p)), token := Some(Raw([OUR_TOKEN]))))
  }

  lemma RGpFold(sid: Nih, p: PNode, tok: Bytes)
    requires |tok| <= MAXLEN_TOK
    ensures FoldOPairs(InitialCtx(CLEARED), RGpTree(sid, p, tok)) == Ok(ReplyEnd(ReplyWithToken(sid, p), tok))
  {
    var rest := [Arg(KEY_TOKEN, [OUR_TOKEN])];
    var args := [Arg(KEY_ID, sid), Arg(KEY_NODES, p), Arg(KEY_TOKEN, [OUR_TOKEN])];
    assert args == [Arg(KEY_ID, sid)] + ([Arg(KEY_NODES, p)] + rest);
    ReplyNodesFold(sid, p, rest);
    TokenFold(ReplyWithNodes(sid, p));
    assert {OY, OR, INid, INodes} + {IToken} == {OY, OR, INid, INodes, IToken};
    assert {RFn, RGp} * (ANY - {QFn}) == {RFn, RGp};
    ReplyFold(args, ReplyWithToken(sid, p), tok);
  }

  // ----- the six templates -----

  lemma JudgeQuery(c: Ctx, m: Method)
    requires c.kind == {m} && m in {QPg, QFn, QGp} && INid in c.seen && OT in c.seen
    ensures Judge(Ok(c)) ==
      match ValidateQuery(TokenText(c.f), c)
      case Accept(x) => Accepted(x, c.f)
      case Reject(s) => Rejected(s)
      case Abort => Aborted
  {
    assert m in c.kind * Q_ANY && c.kind * R_ANY == {};
  }

  lemma JudgeReply(c: Ctx)
    requires c.kind <= R_ANY && RFn in c.kind && INid in c.seen && OT in c.seen
    ensures Judge(Ok(c)) ==
      match ValidateReply(c)
      case Accept(x) => Accepted(x, c.f)
      case Reject(s) => Rejected(s)
      case Abort => Aborted
  {
    assert c.kind * Q_ANY == {} && RFn in c.kind * R_ANY;
  }

  lemma PingHasNoBody(c: Ctx)
    requires c.kind == {QPg} && c.seen == {OA, INid, OQ, OT, OY}
    ensures ValidateQuery(TokenText(c.f), c) == Accept(QPg)
  {
    assert c.seen * IKEY_ANY_BODY == {};
  }

  /** What decoding makes of a query or a reply with plain arguments is the judgement of
      the registers it leaves behind. */
  lemma QueryDecodes(args: seq<IPair>, name: Bytes, tok: Bytes, c: Ctx, tail: Bytes)
    requires RawArgs(args) && |name| < 100 && |tok| < 100
    requires FoldOPairs(InitialCtx(CLEARED), Query(args, name, tok)) == Ok(c)
    ensures BareDecoded(Decode(RMsg(Query(args, name, tok)) + tail)) == Judge(Ok(c))
  {
    QueryBare(args, name, tok);
    DecodeRendered(Query(args, name, tok), tail);
  }

  lemma ReplyDecodes(args: seq<IPair>, tok: Bytes, c: Ctx, tail: Bytes)
    requires RawArgs(args) && |tok| < 100
    requires FoldOPairs(InitialCtx(CLEARED), Reply(args, tok)) == Ok(c)
    ensures BareDecoded(Decode(RMsg(Reply(args, tok)) + tail)) == Judge(Ok(c))
  {
    ReplyBare(args, tok);
    DecodeRendered(Reply(args, tok), tail);
  }

  /** A ping query decodes to a ping from the masked id. */
  lemma QPgDecodes(sid: Nih, tail: Bytes)
    ensures BareDecoded(Decode(RMsg(QPgTree(sid)) + tail))
      == Accepted(QPg, CLEARED.(nid := Some(Raw(sid)), tok := Some(Raw([OUR_TOK_PG]))))
  {
    QPgFold(sid);
    var c := FoldOPairs(InitialCtx(CLEARED), QPgTree(sid)).ctx;
    QueryDecodes([Arg(KEY_ID, sid)], VAL_PG, [OUR_TOK_PG], c, tail);
    PingHasNoBody(c);
    JudgeQuery(c, QPg);
  }

  /** A find-node query decodes to the target asked for. */
  lemma QFnDecodes(sid: Nih, t: Nih, tail: Bytes)
    ensures BareDecoded(Decode(RMsg(QFnTree(sid, t)) + tail))
      == Accepted(QFn, CLEARED.(nid := Some(Raw(sid)), target := Some(Raw(t)), tok := Some(Raw([OUR_TOK_FN]))))
  {
    QFnFold(sid, t);
    var c := QueryEnd(QueryWithTarget(sid, t), QFn, [OUR_TOK_FN]);
    QueryDecodes([Arg(KEY_ID, sid), Arg(KEY_TARGET, t)], VAL_FN, [OUR_TOK_FN], c, tail);
    JudgeQuery(c, QFn);
  }

  /** A get-peers query decodes to its info hash and our three-byte tok. */
  lemma QGpDecodes(sid: Nih, ih: Nih, tok: U16, tail: Bytes)
    ensures BareDecoded(Decode(RMsg(QGpTree(sid, ih, tok)) + tail))
      == Accepted(QGp, CLEARED.(nid := Some(Raw(sid)), ih := Some(Raw(ih)),
                                tok := Some(Raw(StoreU16(tok) + [OUR_TOK_GP]))))
  {
    QGpFold(sid, ih, tok);
    var c := QueryEnd(QueryWithIh(sid, ih), QGp, StoreU16(tok) + [OUR_TOK_GP]);
    QueryDecodes([Arg(KEY_ID, sid), Arg(KEY_INFO_HASH, ih)], VAL_GP, StoreU16(tok) + [OUR_TOK_GP], c, tail);
    JudgeQuery(c, QGp);
  }

  lemma PingVerdict(c: Ctx)
    requires c.seen == {OY, OR, INid} + {OT}
    ensures ValidateReply(c) == if TokBytes(c.f) == [OUR_TOK_PG] then Accept(RPg) else Reject(BadTokPg)
  {
    assert c.seen * IKEY_ANY_NON_TOKEN_BODY == {};
  }

  /** A ping reply is accepted exactly when it carries our ping tok. */
  lemma RPgDecodes(sid: Nih, tok: Bytes, tail: Bytes)
    requires |tok| <= MAXLEN_TOK
    ensures BareDecoded(Decode(RMsg(RPgTree(sid, tok)) + tail))
      == if tok == [OUR_TOK_PG] then Accepted(RPg, CLEARED.(nid := Some(Raw(sid)), tok := Some(Raw(tok))))
         else Rejected(BadTokPg)
  {
    RPgFold(sid, tok);
    var c := ReplyEnd(ReplyWithId(sid), tok);
    ReplyDecodes([Arg(KEY_ID, sid)], tok, c, tail);
    JudgeReply(c);
    PingVerdict(c);
  }

  /** A find-node reply is accepted exactly when it carries our find-node tok. */
  lemma RFnDecodes(sid: Nih, p: PNode, tok: Bytes, tail: Bytes)
    requires |tok| <= MAXLEN_TOK
    ensures BareDecoded(Decode(RMsg(RFnTree(sid, p, tok)) + tail))
      == if tok == [OUR_TOK_FN] then
           Accepted(RFn, CLEARED.(nid := Some(Raw(sid)), nNodes := 1, nodes := Some(Raw(p)), tok := Some(Raw(tok))))
         else Rejected(BadTokFn)
  {
    RFnFold(sid, p, tok);
    var c := ReplyEnd(ReplyWithNodes(sid, p), tok);
    ReplyDecodes([Arg(KEY_ID, sid), Arg(KEY_NODES, p)], tok, c, tail);
    JudgeReply(c);
  }

  /** A get-peers reply is accepted exactly when its tok is three bytes ending in ours. */
  lemma RGpDecodes(sid: Nih, p: PNode, tok: Bytes, tail: Bytes)
    requires |tok| <= MAXLEN_TOK
    ensures BareDecoded(Decode(RMsg(RGpTree(sid, p, tok)) + tail))
      == if |tok| == 3 && tok[2] == OUR_TOK_GP then
           Accepted(RGp, CLEARED.(nid := Some(Raw(sid)), nNodes := 1, nodes := Some(Raw(p)),
                                  token := Some(Raw([OUR_TOKEN])), tok := Some(Raw(tok))))
         else Rejected(BadTokGp)
  {
    RGpFold(sid, p, tok);
    var c := ReplyEnd(ReplyWithToken(sid, p), tok);
    ReplyDecodes([Arg(KEY_ID, sid), Arg(KEY_NODES, p), Arg(KEY_TOKEN, [OUR_TOKEN])], tok, c, tail);
    JudgeReply(c);
  }
}
