// The message encoders (cht/msg.cpp): templates copied into a send buffer and
// patched in place. Each is tied to the canonical text of a message tree.

module Msg {
  import opened Dht
  import opened Numeral
  import opened Krpc
  import opened Grammar
  import opened Render

  const MSG_BUF_LEN := 256

  /** A build parameter: 0xff with MSG_CLOSE_SID, 0 without; nothing here depends on it. */
  const SID4: Byte

  const SID_MASK: Bytes :=
    [0, 0, 0, SID4, 0x59, 0x49, 0x45, 0x4c, 0x44, 0x54, 0x4f, 0x54, 0x48, 0x45, 0x53, 0x43, 0x52, 0x41, 0x50, 0x45]

  // ----- the fixed parts of the templates -----

  const Q_HEAD: Bytes := [100, 49, 58, 97, 100, 50, 58, 105, 100, 50, 48, 58]  // "d1:ad2:id20:"
  const TARGET_KEY: Bytes := [54, 58, 116, 97, 114, 103, 101, 116, 50, 48, 58]  // "6:target20:"
  const FN_TAIL: Bytes := [101, 49, 58, 113, 57, 58, 102, 105, 110, 100, 95, 110, 111, 100, 101, 49, 58, 116, 49, 58]  // "e1:q9:find_node1:t1:"
  const Y_QUERY: Bytes := [49, 58, 121, 49, 58, 113, 101]  // "1:y1:qe"
  const IH_KEY: Bytes := [57, 58, 105, 110, 102, 111, 95, 104, 97, 115, 104, 50, 48, 58]  // "9:info_hash20:"
  const GP_TAIL: Bytes := [101, 49, 58, 113, 57, 58, 103, 101, 116, 95, 112, 101, 101, 114, 115, 49, 58, 116, 51, 58]  // "e1:q9:get_peers1:t3:"
  const PG_TAIL: Bytes := [101, 49, 58, 113, 52, 58, 112, 105, 110, 103, 49, 58, 116, 49, 58]  // "e1:q4:ping1:t1:"
  const R_HEAD: Bytes := [100, 49, 58, 121, 49, 58, 114, 49, 58, 114, 100, 50, 58, 105, 100, 50, 48, 58]  // "d1:y1:r1:rd2:id20:"
  const NODES_KEY: Bytes := [53, 58, 110, 111, 100, 101, 115, 50, 54, 58]  // "5:nodes26:"
  const TOKEN_KEY: Bytes := [53, 58, 116, 111, 107, 101, 110, 49, 58]  // "5:token1:"
  const T_KEY: Bytes := [49, 58, 116]  // "1:t"

  const Q_FN_PROTO: Bytes := Q_HEAD + Zeros(20) + TARGET_KEY + Zeros(20) + (FN_TAIL + [OUR_TOK_FN] + Y_QUERY)
  const Q_FN_SID_OFFSET := 12
  const Q_FN_TARGET_OFFSET := 43

  /** The get-peers template is one byte longer than its text: it ends in a zero. */
  const Q_GP_PROTO: Bytes :=
    Q_HEAD + Zeros(20) + IH_KEY + Zeros(20) + GP_TAIL + Zeros(2) + ([OUR_TOK_GP] + Y_QUERY + [0])
  const Q_GP_SID_OFFSET := 12
  const Q_GP_IH_OFFSET := 46
  const Q_GP_TOK_OFFSET := 86

  const Q_PG_PROTO: Bytes := Q_HEAD + Zeros(20) + (PG_TAIL + [OUR_TOK_PG] + Y_QUERY)
  const Q_PG_SID_OFFSET := 12

  const R_BASE: Bytes := R_HEAD + Zeros(20)
  const R_NODES: Bytes := NODES_KEY + Zeros(26)
  const R_TOKEN: Bytes := TOKEN_KEY + [OUR_TOKEN]

  /** What a reply needs to remember of the message it answers. */
  datatype KReply = KReply(nid: Nih, tok: Bytes)

  ghost predicate ValidReply(k: KReply) { |k.tok| <= MAXLEN_TOK }

  /** Building it reads through the nid pointer; None is the null pointer. */
  function ReplyTo(f: Fields): (r: Option<KReply>)
    requires f.nid.Some? ==> |f.nid.value.bytes| == NIH_LEN
    ensures r.Some? <==> f.nid.Some?
  {
    if f.nid == None then None else Some(KReply(f.nid.value.bytes, TokBytes(f)))
  }

  // ----- the trees the texts stand for -----

  function Raw(b: Bytes): Str { Str(0, b) }

  function Query(args: seq<IPair>, name: Bytes, tok: Bytes): seq<OPair> {
    [OPair(Raw([0x61]), ODict(args)), OPair(Raw([0x71]), OStr(Raw(name))),
     OPair(Raw([0x74]), OStr(Raw(tok))), OPair(Raw([0x79]), OStr(Raw([0x71])))]
  }

  function Reply(args: seq<IPair>, tok: Bytes): seq<OPair> {
    [OPair(Raw([0x79]), OStr(Raw([0x72]))), OPair(Raw([0x72]), ODict(args)),
     OPair(Raw([0x74]), OStr(Raw(tok)))]
  }

  function Arg(key: Bytes, val: Bytes): IPair { IPair(Raw(key), IStr(Raw(val))) }

  function QFnTree(sid: Nih, t: Nih): seq<OPair> {
    Query([Arg(KEY_ID, sid), Arg(KEY_TARGET, t)], VAL_FN, [OUR_TOK_FN])
  }

  function QGpTree(sid: Nih, ih: Nih, tok: U16): seq<OPair> {
    Query([Arg(KEY_ID, sid), Arg(KEY_INFO_HASH, ih)], VAL_GP, StoreU16(tok) + [OUR_TOK_GP])
  }

  function QPgTree(sid: Nih): seq<OPair> { Query([Arg(KEY_ID, sid)], VAL_PG, [OUR_TOK_PG]) }

  function RFnTree(sid: Nih, p: PNode, tok: Bytes): seq<OPair> {
    Reply([Arg(KEY_ID, sid), Arg(KEY_NODES, p)], tok)
  }

  function RGpTree(sid: Nih, p: PNode, tok: Bytes): seq<OPair> {
    Reply([Arg(KEY_ID, sid), Arg(KEY_NODES, p), Arg(KEY_TOKEN, [OUR_TOKEN])], tok)
  }

  function RPgTree(sid: Nih, tok: Bytes): seq<OPair> { Reply([Arg(KEY_ID, sid)], tok) }

  // ----- their texts, piece by piece -----

  lemma ShortStr(s: Bytes)
    requires |s| < 10
    ensures RStr(s) == [0x30 + |s|, CH_COLON] + s
  {
  }

  lemma LongStr(s: Bytes)
    requires 10 <= |s| < 100
    ensures RStr(s) == [0x30 + |s| / 10, 0x30 + |s| % 10, CH_COLON] + s
  {
    assert Decimal(|s|) == Decimal(|s| / 10) + [0x30 + |s| % 10];
  }

  function PairText(p: OPair): Bytes { RStr(p.key.bytes) + ROVal(p.val) }

  lemma PairsText(p: OPair, rest: seq<OPair>)
    ensures ROPairs([p] + rest) == PairText(p) + ROPairs(rest)
  {
    assert ([p] + rest)[1..] == rest;
  }

  lemma LastPairText(p: OPair)
    ensures ROPairs([p]) == PairText(p)
  {
    PairsText(p, []);
    assert [p] == [p] + [];
    assert PairText(p) + [] == PairText(p);
  }

  lemma TwoText(a: OPair, b: OPair)
    ensures ROPairs([a, b]) == PairText(a) + PairText(b)
  {
    LastPairText(b);
    PairsText(a, [b]);
    assert [a, b] == [a] + [b];
  }

  lemma Assoc(a: Bytes, b: Bytes, c: Bytes)
    ensures a + (b + c) == a + b + c
  {
  }

  lemma ThreeText(a: OPair, b: OPair, c: OPair)
    ensures ROPairs([a, b, c]) == PairText(a) + PairText(b) + PairText(c)
  {
    TwoText(b, c);
    PairsText(a, [b, c]);
    assert [a, b, c] == [a] + [b, c];
    Assoc(PairText(a), PairText(b), PairText(c));
  }

  lemma FourText(a: OPair, b: OPair, c: OPair, e: OPair)
    ensures ROPairs([a, b, c, e]) == PairText(a) + PairText(b) + PairText(c) + PairText(e)
  {
    ThreeText(b, c, e);
    PairsText(a, [b, c, e]);
    assert [a, b, c, e] == [a] + [b, c, e];
    Assoc(PairText(a), PairText(b) + PairText(c), PairText(e));
    Assoc(PairText(a), PairText(b), PairText(c));
  }

  /** Keys and short strings, with the one digit of their length written out. */
  lemma StrPairText(key: Byte, val: Bytes)
    requires |val| < 10
    ensures PairText(OPair(Raw([key]), OStr(Raw(val)))) == [0x31, CH_COLON, key, 0x30 + |val|, CH_COLON] + val
  {
    ShortStr([key]);
    ShortStr(val);
  }

  lemma PayloadText(key: Byte, args: seq<IPair>)
    ensures PairText(OPair(Raw([key]), ODict(args))) == [0x31, CH_COLON, key, CH_D] + RIPairs(args) + [CH_E]
  {
    ShortStr([key]);
  }

  lemma QueryGlue(s: Bytes, h: Bytes, args: Bytes, e: Bytes, p: Bytes, name: Bytes, q: Bytes, tok: Bytes, y: Bytes)
    ensures s + (((h + args + e) + (p + name) + (q + tok) + y) + e)
         == (s + h) + args + (e + p) + name + q + tok + (y + e)
  {
    assert s + (((h + args + e) + (p + name) + (q + tok) + y) + e)
        == s + (h + args + e) + (p + name) + (q + tok) + (y + e);
    assert s + (h + args + e) + (p + name) == (s + h) + args + (e + p) + name;
  }

  lemma QueryText(args: seq<IPair>, name: Bytes, tok: Bytes)
    requires |name| < 10 && |tok| < 10
    ensures RMsg(Query(args, name, tok)) ==
      [CH_D, 0x31, CH_COLON, 0x61, CH_D] + RIPairs(args)
      + [CH_E, 0x31, CH_COLON, 0x71, 0x30 + |name|, CH_COLON] + name
      + [0x31, CH_COLON, 0x74, 0x30 + |tok|, CH_COLON] + tok + Y_QUERY
  {
    var t := Query(args, name, tok);
    FourText(t[0], t[1], t[2], t[3]);
    PayloadText(0x61, args);
    StrPairText(0x71, name);
    StrPairText(0x74, tok);
    StrPairText(0x79, [0x71]);
    var h, p := [0x31, CH_COLON, 0x61, CH_D], [0x31, CH_COLON, 0x71, 0x30 + |name|, CH_COLON];
    var q, y := [0x31, CH_COLON, 0x74, 0x30 + |tok|, CH_COLON], PairText(t[3]);
    QueryGlue([CH_D], h, RIPairs(args), [CH_E], p, name, q, tok, y);
    assert [CH_D] + h == [CH_D, 0x31, CH_COLON, 0x61, CH_D];
    assert [CH_E] + p == [CH_E, 0x31, CH_COLON, 0x71, 0x30 + |name|, CH_COLON];
    assert y + [CH_E] == Y_QUERY;
  }

  lemma ReplyPairsGlue(s: Bytes, a: Bytes, h: Bytes, args: Bytes, e: Bytes, k: Bytes, t: Bytes)
    ensures s + ((a + (h + args + e) + (k + t)) + e) == (s + a + h) + args + (e + k) + t + e
  {
    assert s + ((a + (h + args + e) + (k + t)) + e) == s + a + (h + args + e) + (k + t) + e;
    assert s + a + (h + args + e) == (s + a + h) + args + e;
  }

  lemma TokPairText(tok: Bytes)
    ensures PairText(OPair(Raw([0x74]), OStr(Raw(tok)))) == T_KEY + RStr(tok)
  {
    ShortStr([0x74]);
    assert [0x31, CH_COLON] + [0x74] == T_KEY;
  }

  lemma ReplyText(args: seq<IPair>, tok: Bytes)
    ensures RMsg(Reply(args, tok)) ==
      [CH_D, 0x31, CH_COLON, 0x79, 0x31, CH_COLON, 0x72, 0x31, CH_COLON, 0x72, CH_D] + RIPairs(args)
      + ([CH_E] + T_KEY) + RStr(tok) + [CH_E]
  {
    var t := Reply(args, tok);
    ThreeText(t[0], t[1], t[2]);
    StrPairText(0x79, [0x72]);
    PayloadText(0x72, args);
    TokPairText(tok);
    var h := [0x31, CH_COLON, 0x72, CH_D];
    ReplyPairsGlue([CH_D], PairText(t[0]), h, RIPairs(args), [CH_E], T_KEY, RStr(tok));
    assert [CH_D] + PairText(t[0]) + h
        == [CH_D, 0x31, CH_COLON, 0x79, 0x31, CH_COLON, 0x72, 0x31, CH_COLON, 0x72, CH_D];
  }

  lemma ArgsText(a: IPair, rest: seq<IPair>)
    ensures RIPairs([a] + rest) == RStr(a.key.bytes) + RIVal(a.val) + RIPairs(rest)
  {
    assert ([a] + rest)[1..] == rest;
  }

  // ----- each template, filled in, is the canonical text of its tree -----

  const ID_TEXT: Bytes := [0x32, CH_COLON, 0x69, 0x64, 0x32, 0x30, CH_COLON]  // "2:id20:"

  /** `head` is the text of the key and of the two-digit length of the value. */
  ghost predicate ArgHead(head: Bytes, key: Bytes, val: Bytes) {
    && |key| < 10 && 10 <= |val| < 100
    && head == [0x30 + |key|, CH_COLON] + key + [0x30 + |val| / 10, 0x30 + |val| % 10, CH_COLON]
  }

  lemma ArgsTextLong(key: Bytes, val: Bytes, head: Bytes, rest: seq<IPair>)
    requires ArgHead(head, key, val)
    ensures RIPairs([Arg(key, val)] + rest) == head + val + RIPairs(rest)
  {
    ArgsText(Arg(key, val), rest);
    ShortStr(key);
    LongStr(val);
  }

  lemma ArgTextLast(key: Bytes, val: Bytes, head: Bytes)
    requires ArgHead(head, key, val)
    ensures RIPairs([Arg(key, val)]) == head + val
  {
    ArgsTextLong(key, val, head, []);
    assert [Arg(key, val)] + [] == [Arg(key, val)];
  }

  lemma IdHead(sid: Nih)
    ensures ArgHead(ID_TEXT, KEY_ID, sid)
  {
  }

  lemma HeadsText()
    ensures [CH_D, 0x31, CH_COLON, 0x61, CH_D] + ID_TEXT == Q_HEAD
    ensures [CH_D, 0x31, CH_COLON, 0x79, 0x31, CH_COLON, 0x72, 0x31, CH_COLON, 0x72, CH_D] + ID_TEXT == R_HEAD
  {
  }

  lemma IdText(sid: Nih, rest: seq<IPair>)
    ensures RIPairs([Arg(KEY_ID, sid)] + rest) == ID_TEXT + sid + RIPairs(rest)
  {
    IdHead(sid);
    ArgsTextLong(KEY_ID, sid, ID_TEXT, rest);
  }

  lemma NihHeads(x: Nih)
    ensures ArgHead(TARGET_KEY, KEY_TARGET, x) && ArgHead(IH_KEY, KEY_INFO_HASH, x)
  {
  }

  lemma NodesHead(p: PNode)
    ensures ArgHead(NODES_KEY, KEY_NODES, p)
  {
  }

  lemma QueryIdGlue(m: Bytes, args: Bytes, h: Bytes, i: Bytes, sid: Bytes, rest: Bytes, e: Bytes, n: Bytes, q: Bytes,
                    t: Bytes, y: Bytes, head: Bytes, tail: Bytes)
    requires m == h + args + e + n + q + t + y && args == i + sid + rest
    requires head == h + i && tail == e + n + q
    ensures m == head + sid + rest + (tail + t + y)
  {
    assert h + (i + sid + rest) == (h + i) + sid + rest;
    assert (h + i) + sid + rest + e + n + q + t + y == (h + i) + sid + rest + (e + n + q + t + y);
  }

  lemma QueryIdParts(sid: Nih, rest: seq<IPair>, name: Bytes, tok: Bytes, h: Bytes, e: Bytes, q: Bytes)
    requires RMsg(Query([Arg(KEY_ID, sid)] + rest, name, tok))
      == h + RIPairs([Arg(KEY_ID, sid)] + rest) + e + name + q + tok + Y_QUERY
    requires h + ID_TEXT == Q_HEAD
    ensures RMsg(Query([Arg(KEY_ID, sid)] + rest, name, tok))
      == Q_HEAD + sid + RIPairs(rest) + (e + name + q + tok + Y_QUERY)
  {
    var args := [Arg(KEY_ID, sid)] + rest;
    IdText(sid, rest);
    QueryIdGlue(RMsg(Query(args, name, tok)), RIPairs(args), h, ID_TEXT, sid, RIPairs(rest), e, name, q, tok, Y_QUERY,
                Q_HEAD, e + name + q);
  }

  /** A query, given the text of the arguments behind the id. */
  lemma QueryTextWithId(sid: Nih, rest: seq<IPair>, name: Bytes, tok: Bytes, e: Bytes, q: Bytes, tail: Bytes)
    requires |name| < 10 && |tok| < 10 && tail == e + name + q
    requires e == [CH_E, 0x31, CH_COLON, 0x71, 0x30 + |name|, CH_COLON]
    requires q == [0x31, CH_COLON, 0x74, 0x30 + |tok|, CH_COLON]
    ensures RMsg(Query([Arg(KEY_ID, sid)] + rest, name, tok))
      == Q_HEAD + sid + RIPairs(rest) + (tail + tok + Y_QUERY)
  {
    QueryText([Arg(KEY_ID, sid)] + rest, name, tok);
    HeadsText();
    QueryIdParts(sid, rest, name, tok, [CH_D, 0x31, CH_COLON, 0x61, CH_D], e, q);
  }

  lemma PairOfArgs(a: IPair, b: IPair)
    ensures [a] + [b] == [a, b]
  {
  }

  lemma QPgText(sid: Nih)
    ensures RMsg(QPgTree(sid)) == Q_HEAD + sid + (PG_TAIL + [OUR_TOK_PG] + Y_QUERY)
  {
    QueryTextWithId(sid, [], VAL_PG, [OUR_TOK_PG], [CH_E, 0x31, CH_COLON, 0x71, 0x34, CH_COLON],
                    [0x31, CH_COLON, 0x74, 0x31, CH_COLON], PG_TAIL);
    assert [Arg(KEY_ID, sid)] + [] == [Arg(KEY_ID, sid)];
    assert Q_HEAD + sid + RIPairs([]) == Q_HEAD + sid;
  }

  lemma QFnText(sid: Nih, t: Nih)
    ensures RMsg(QFnTree(sid, t)) == Q_HEAD + sid + TARGET_KEY + t + (FN_TAIL + [OUR_TOK_FN] + Y_QUERY)
  {
    QueryTextWithId(sid, [Arg(KEY_TARGET, t)], VAL_FN, [OUR_TOK_FN],
                    [CH_E, 0x31, CH_COLON, 0x71, 0x39, CH_COLON], [0x31, CH_COLON, 0x74, 0x31, CH_COLON], FN_TAIL);
    NihHeads(t);
    ArgTextLast(KEY_TARGET, t, TARGET_KEY);
    PairOfArgs(Arg(KEY_ID, sid), Arg(KEY_TARGET, t));
    Assoc(Q_HEAD + sid, TARGET_KEY, t);
  }

  lemma QGpText(sid: Nih, ih: Nih, tok: U16)
    ensures RMsg(QGpTree(sid, ih, tok)) + [0] ==
      Q_HEAD + sid + IH_KEY + ih + GP_TAIL + StoreU16(tok) + ([OUR_TOK_GP] + Y_QUERY + [0])
  {
    var t := StoreU16(tok) + [OUR_TOK_GP];
    QueryTextWithId(sid, [Arg(KEY_INFO_HASH, ih)], VAL_GP, t,
                    [CH_E, 0x31, CH_COLON, 0x71, 0x39, CH_COLON], [0x31, CH_COLON, 0x74, 0x33, CH_COLON], GP_TAIL);
    NihHeads(ih);
    ArgTextLast(KEY_INFO_HASH, ih, IH_KEY);
    PairOfArgs(Arg(KEY_ID, sid), Arg(KEY_INFO_HASH, ih));
    GpGlue(Q_HEAD, sid, IH_KEY, ih, GP_TAIL, StoreU16(tok), [OUR_TOK_GP], Y_QUERY, [0]);
  }

  lemma GpGlue(h: Bytes, s: Bytes, k: Bytes, i: Bytes, g: Bytes, t: Bytes, o: Bytes, y: Bytes, z: Bytes)
    ensures h + s + (k + i) + (g + (t + o) + y) + z == h + s + k + i + g + t + (o + y + z)
  {
    assert h + s + (k + i) == h + s + k + i;
    assert g + (t + o) + y + z == g + t + (o + y + z);
  }

  // ----- replies -----

  lemma ReplyTextWithId(sid: Nih, rest: seq<IPair>, tok: Bytes)
    ensures RMsg(Reply([Arg(KEY_ID, sid)] + rest, tok))
      == R_HEAD + sid + RIPairs(rest) + [CH_E] + T_KEY + (RStr(tok) + [CH_E])
  {
    var args := [Arg(KEY_ID, sid)] + rest;
    var h := [CH_D, 0x31, CH_COLON, 0x79, 0x31, CH_COLON, 0x72, 0x31, CH_COLON, 0x72, CH_D];
    ReplyText(args, tok);
    IdText(sid, rest);
    HeadsText();
    ReplyGlue(h, ID_TEXT, sid, RIPairs(rest), [CH_E], T_KEY, RStr(tok));
  }

  lemma ReplyGlue(h: Bytes, i: Bytes, sid: Bytes, rest: Bytes, e: Bytes, k: Bytes, t: Bytes)
    ensures h + (i + sid + rest) + (e + k) + t + e == (h + i) + sid + rest + e + k + (t + e)
  {
    assert h + (i + sid + rest) == (h + i) + sid + rest;
  }

  lemma RPgText(sid: Nih, tok: Bytes)
    ensures RMsg(RPgTree(sid, tok)) == R_HEAD + sid + [CH_E] + T_KEY + (RStr(tok) + [CH_E])
  {
    ReplyTextWithId(sid, [], tok);
    assert [Arg(KEY_ID, sid)] + [] == [Arg(KEY_ID, sid)];
    assert R_HEAD + sid + RIPairs([]) == R_HEAD + sid;
  }

  lemma TripleOfArgs(a: IPair, b: IPair, c: IPair)
    ensures [a] + ([b] + [c]) == [a, b, c]
  {
  }

  lemma RFnText(sid: Nih, p: PNode, tok: Bytes)
    ensures RMsg(RFnTree(sid, p, tok))
      == R_HEAD + sid + NODES_KEY + p + [CH_E] + T_KEY + (RStr(tok) + [CH_E])
  {
    ReplyTextWithId(sid, [Arg(KEY_NODES, p)], tok);
    NodesHead(p);
    ArgTextLast(KEY_NODES, p, NODES_KEY);
    PairOfArgs(Arg(KEY_ID, sid), Arg(KEY_NODES, p));
    Assoc(R_HEAD + sid, NODES_KEY, p);
  }

  lemma TokenArgText()
    ensures RIPairs([Arg(KEY_TOKEN, [OUR_TOKEN])]) == R_TOKEN
  {
    ArgsText(Arg(KEY_TOKEN, [OUR_TOKEN]), []);
    ShortStr(KEY_TOKEN);
    ShortStr([OUR_TOKEN]);
    assert [Arg(KEY_TOKEN, [OUR_TOKEN])] + [] == [Arg(KEY_TOKEN, [OUR_TOKEN])];
  }

  lemma RGpText(sid: Nih, p: PNode, tok: Bytes)
    ensures RMsg(RGpTree(sid, p, tok))
      == R_HEAD + sid + NODES_KEY + p + R_TOKEN + [CH_E] + T_KEY + (RStr(tok) + [CH_E])
  {
    var rest := [Arg(KEY_NODES, p)] + [Arg(KEY_TOKEN, [OUR_TOKEN])];
    ReplyTextWithId(sid, rest, tok);
    NodesHead(p);
    ArgsTextLong(KEY_NODES, p, NODES_KEY, [Arg(KEY_TOKEN, [OUR_TOKEN])]);
    TokenArgText();
    TripleOfArgs(Arg(KEY_ID, sid), Arg(KEY_NODES, p), Arg(KEY_TOKEN, [OUR_TOKEN]));
    Assoc(R_HEAD + sid, NODES_KEY + p, R_TOKEN);
    Assoc(R_HEAD + sid, NODES_KEY, p);
  }
}
