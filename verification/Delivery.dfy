// What an accepted message delivers to the handler, in terms of its text.

module Delivery {
  import opened Dht
  import opened Numeral
  import opened Krpc
  import opened Grammar
  import opened Contents
  import opened Render
  import opened Acceptance
  import opened Readings
  import opened Msg
  import opened RoundTrip
  import opened Message

  /** The entries of a message that parses. */
  function EntriesOf(d: Bytes): seq<Entry>
    requires ParseMsg(d).Parsed?
  {
    Entries(ParseMsg(d).value)
  }

  /** A message that parses is refused for its first fault; one without a fault is whole. */
  lemma FaultsDecide(d: Bytes)
    requires ParseMsg(d).Parsed?
    ensures Whole(d) <==> FirstFault(EntriesOf(d)) == None
    ensures FirstFault(EntriesOf(d)).Some? ==> Decode(d) == Rejected(FirstFault(EntriesOf(d)).value)
  {
    FoldIsEntries(InitialCtx(CLEARED), ParseMsg(d).value);
    FaultExact(EntriesOf(d));
    ParsedRun(d, CLEARED);
  }

  /** The keys a whole message shows are those that occur in it. */
  lemma KeysDecide(d: Bytes, k: Key)
    requires Whole(d) && (k != IApName || QAp in Final(d).kind)
    ensures k in Final(d).seen <==> Shows(EntriesOf(d), k)
  {
    FoldIsEntries(InitialCtx(CLEARED), ParseMsg(d).value);
    SeenExact(CLEARED, EntriesOf(d), k);
  }

  /** Every field of an accepted message, but for the name, which only announces have. */
  lemma FieldsDelivered(d: Bytes)
    requires Decode(d).Accepted?
    ensures ParseMsg(d).Parsed?
    ensures var f, es := Decode(d).f, EntriesOf(d);
      IdsSay(f, es, CLEARED) && TextsSay(f, es, CLEARED) && NodesSay(f, es, CLEARED) && PeersSay(f, Peers(es))
  {
    AcceptanceExact(d, Decode(d).meth, Decode(d).f);
    FoldIsEntries(InitialCtx(CLEARED), ParseMsg(d).value);
    IdsExact(CLEARED, EntriesOf(d));
    TextsExact(CLEARED, EntriesOf(d));
    NodesExact(CLEARED, EntriesOf(d));
    PeersExact(EntriesOf(d));
  }

  lemma NameDelivered(d: Bytes)
    requires Decode(d).Accepted? && Decode(d).meth == QAp
    ensures ParseMsg(d).Parsed? && Decode(d).f.apName == LastName(EntriesOf(d))
  {
    AcceptanceExact(d, QAp, Decode(d).f);
    WholeAgrees(d);
    FoldIsEntries(InitialCtx(CLEARED), ParseMsg(d).value);
    NameExact(CLEARED, EntriesOf(d));
  }

  // ----- contacts -----

  /** The contacts one behind the other. */
  function Concat(nodes: seq<PNode>): (r: Bytes)
    ensures |r| == 26 * |nodes|
    decreases |nodes|
  {
    if nodes == [] then [] else nodes[0] + Concat(nodes[1..])
  }

  lemma {:induction false} ConcatAt(nodes: seq<PNode>, i: nat)
    requires i < |nodes|
    ensures Concat(nodes)[26 * i..26 * i + 26] == nodes[i]
    decreases |nodes|
  {
    if i > 0 {
      ConcatAt(nodes[1..], i - 1);
      SliceBehind(nodes[0], Concat(nodes[1..]), 26 * (i - 1), 26 * (i - 1) + 26);
    }
  }

  lemma SliceBehind(a: Bytes, b: Bytes, i: nat, j: nat)
    requires i <= j <= |b|
    ensures (a + b)[|a| + i..|a| + j] == b[i..j]
  {
  }

  function AtMostEight(nodes: seq<PNode>): seq<PNode> { if |nodes| <= 8 then nodes else nodes[..8] }

  lemma NodesAre(f: Fields, nodes: seq<PNode>)
    requires Shaped(f) && nodes != [] && f.nodes.Some?
    requires f.nNodes == |AtMostEight(nodes)| && f.nodes.value.bytes == Concat(nodes)[..26 * f.nNodes]
    ensures NodesOf(f) == AtMostEight(nodes)
  {
    forall i | 0 <= i < f.nNodes ensures NodeAt(f, i) == nodes[i] {
      ConcatAt(nodes, i);
      SliceOfPrefix(Concat(nodes), 26 * f.nNodes, 26 * i, 26 * i + 26);
    }
  }

  lemma SliceOfPrefix(s: Bytes, n: nat, i: nat, j: nat)
    requires i <= j <= n <= |s|
    ensures s[..n][i..j] == s[i..j]
  {
  }

  /** The handler gets the contacts of a message one by one: those of the last string of
      contacts, eight at most. */
  lemma NodesDelivered(d: Bytes, nodes: seq<PNode>)
    requires Decode(d).Accepted? && nodes != [] && ParseMsg(d).Parsed?
    requires LastText(EntriesOf(d), INodes).Some? && LastText(EntriesOf(d), INodes).value.bytes == Concat(nodes)
    ensures Shaped(Decode(d).f) && NodesOf(Decode(d).f) == AtMostEight(nodes)
  {
    AcceptedShaped(d);
    FieldsDelivered(d);
    NodesAre(Decode(d).f, nodes);
  }

  // ----- replies with any number of contacts -----

  function NodesArg(nodes: seq<PNode>): IPair { Arg(KEY_NODES, Concat(nodes)) }

  lemma NodesCut(c: Ctx, nodes: seq<PNode>)
    requires nodes != []
    ensures var k := |AtMostEight(nodes)|;
      OnNodes(c, Raw(Concat(nodes))) == Ok(c.(f := c.f.(nNodes := k, nodes := Some(Raw(Concat(nodes)[..26 * k])))))
  {
    assert Concat(nodes)[..|Concat(nodes)|] == Concat(nodes);
  }

  /** The registers behind an id and some contacts. */
  function ReplyWithContacts(sid: Nih, nodes: seq<PNode>): Ctx {
    var k := |AtMostEight(nodes)|;
    Ctx(Some(INodes), {OY, OR, INid, INodes}, {RFn, RGp},
        CLEARED.(nid := Some(Raw(sid)), nNodes := k, nodes := Some(Raw(Concat(nodes)[..26 * k]))))
  }

  lemma ContactsFold(sid: Nih, nodes: seq<PNode>, rest: seq<IPair>)
    requires nodes != []
    ensures FoldIPairs(REPLY_START, [Arg(KEY_ID, sid)] + ([NodesArg(nodes)] + rest))
      == FoldIPairs(ReplyWithContacts(sid, nodes), rest)
  {
    var c := ReplyWithId(sid);
    ReplyIdFold(sid, [NodesArg(nodes)] + rest);
    FoldArgsCons(c, NodesArg(nodes), rest);
    assert {OY, OR, INid} + {INodes} == {OY, OR, INid, INodes} && R_ANY * {RFn, RGp} == {RFn, RGp};
    assert OnIKey(c, Raw(KEY_NODES)) == Ctx(Some(INodes), {OY, OR, INid, INodes}, {RFn, RGp}, c.f);
    NodesCut(OnIKey(c, Raw(KEY_NODES)), nodes);
  }

  /** A find-node reply with contacts, and a get-peers reply with contacts and a token. */
  function FnContacts(sid: Nih, nodes: seq<PNode>): seq<OPair> {
    Reply([Arg(KEY_ID, sid), NodesArg(nodes)], [OUR_TOK_FN])
  }

  function GpContacts(sid: Nih, nodes: seq<PNode>, token: Bytes, tok: U16): seq<OPair> {
    Reply([Arg(KEY_ID, sid), NodesArg(nodes), Arg(KEY_TOKEN, token)], StoreU16(tok) + [OUR_TOK_GP])
  }

  lemma FnContactsFold(sid: Nih, nodes: seq<PNode>)
    requires nodes != []
    ensures FoldOPairs(InitialCtx(CLEARED), FnContacts(sid, nodes))
      == Ok(ReplyEnd(ReplyWithContacts(sid, nodes), [OUR_TOK_FN]))
  {
    var args := [Arg(KEY_ID, sid), NodesArg(nodes)];
    assert args == [Arg(KEY_ID, sid)] + ([NodesArg(nodes)] + []);
    ContactsFold(sid, nodes, []);
    ReplyFold(args, ReplyWithContacts(sid, nodes), [OUR_TOK_FN]);
  }

  function WithToken(c: Ctx, token: Bytes): Ctx {
    Ctx(Some(IToken), c.seen + {IToken}, c.kind * (ANY - {QFn}), c.f.(token := Some(Raw(token))))
  }

  lemma AnyTokenFold(c: Ctx, token: Bytes)
    requires |token| <= MAXLEN_TOKEN
    ensures FoldIPairs(c, [Arg(KEY_TOKEN, token)]) == Ok(WithToken(c, token))
  {
    assert [Arg(KEY_TOKEN, token)] == [Arg(KEY_TOKEN, token)] + [];
    FoldArgsCons(c, Arg(KEY_TOKEN, token), []);
  }

  lemma GpContactsFold(sid: Nih, nodes: seq<PNode>, token: Bytes, tok: U16)
    requires nodes != [] && |token| <= MAXLEN_TOKEN
    ensures FoldOPairs(InitialCtx(CLEARED), GpContacts(sid, nodes, token, tok))
      == Ok(ReplyEnd(WithToken(ReplyWithContacts(sid, nodes), token), StoreU16(tok) + [OUR_TOK_GP]))
  {
    var rest := [Arg(KEY_TOKEN, token)];
    var args := [Arg(KEY_ID, sid), NodesArg(nodes), Arg(KEY_TOKEN, token)];
    assert args == [Arg(KEY_ID, sid)] + ([NodesArg(nodes)] + rest);
    ContactsFold(sid, nodes, rest);
    AnyTokenFold(ReplyWithContacts(sid, nodes), token);
    ReplyFold(args, WithToken(ReplyWithContacts(sid, nodes), token), StoreU16(tok) + [OUR_TOK_GP]);
  }

  /** What the handler gets out of registers filled by contacts. */
  lemma ContactsRead(d: Bytes, r: Decoded, m: Method, f: Fields, nodes: seq<PNode>)
    requires r == Decode(d) && BareDecoded(r) == Accepted(m, f) && nodes != []
    requires f.nNodes == |AtMostEight(nodes)| && f.nodes == Some(Raw(Concat(nodes)[..26 * f.nNodes]))
    ensures r.Accepted? && r.meth == m && Shaped(r.f) && NodesOf(r.f) == AtMostEight(nodes)
    ensures f.nid.Some? && |f.nid.value.bytes| == NIH_LEN ==> NihAt(r.f.nid) == Some(f.nid.value.bytes)
  {
    AcceptedShaped(d);
    NodesAre(r.f, nodes);
  }

  /** A find-node reply with any number of contacts arrives with the first eight. */
  lemma FnContactsArrive(sid: Nih, nodes: seq<PNode>, tail: Bytes)
    requires nodes != [] && 26 * |nodes| < ATOI_LIMIT
    ensures var r := Decode(RMsg(FnContacts(sid, nodes)) + tail);
      && r.Accepted? && r.meth == RFn && Shaped(r.f)
      && NihAt(r.f.nid) == Some(sid) && NodesOf(r.f) == AtMostEight(nodes)
  {
    var c := ReplyEnd(ReplyWithContacts(sid, nodes), [OUR_TOK_FN]);
    FnContactsFold(sid, nodes);
    ReplyDecodes([Arg(KEY_ID, sid), NodesArg(nodes)], [OUR_TOK_FN], c, tail);
    JudgeReply(c);
    var d := RMsg(FnContacts(sid, nodes)) + tail;
    ContactsRead(d, Decode(d), RFn, c.f, nodes);
  }

  /** So does a get-peers reply, with its tok. */
  lemma GpContactsArrive(sid: Nih, nodes: seq<PNode>, token: Bytes, tok: U16, tail: Bytes)
    requires nodes != [] && 26 * |nodes| < ATOI_LIMIT && |token| <= MAXLEN_TOKEN
    ensures var r := Decode(RMsg(GpContacts(sid, nodes, token, tok)) + tail);
      && r.Accepted? && r.meth == RGp && Shaped(r.f)
      && NihAt(r.f.nid) == Some(sid) && NodesOf(r.f) == AtMostEight(nodes)
      && TokBytes(r.f) == StoreU16(tok) + [OUR_TOK_GP]
  {
    var t := StoreU16(tok) + [OUR_TOK_GP];
    var c := ReplyEnd(WithToken(ReplyWithContacts(sid, nodes), token), t);
    GpContactsFold(sid, nodes, token, tok);
    ReplyDecodes([Arg(KEY_ID, sid), NodesArg(nodes), Arg(KEY_TOKEN, token)], t, c, tail);
    JudgeReply(c);
    var d := RMsg(GpContacts(sid, nodes, token, tok)) + tail;
    ContactsRead(d, Decode(d), RGp, c.f, nodes);
  }

  // ----- the overlooked port -----

  /** A ping whose arguments are an id and, under the key `port`, another twenty bytes. */
  function PortTree(a: Nih, b: Nih, tok: Bytes): seq<OPair> {
    Query([Arg(KEY_ID, a), Arg(KEY_PORT, b)], VAL_PG, tok)
  }

  lemma PortFold(a: Nih, b: Nih)
    ensures FoldIPairs(QUERY_START, [Arg(KEY_ID, a), Arg(KEY_PORT, b)])
      == Ok(Ctx(Some(INid), {OA, INid, IPort}, Q_ANY, CLEARED.(nid := Some(Raw(b)))))
  {
    var rest := [Arg(KEY_PORT, b)];
    assert [Arg(KEY_ID, a), Arg(KEY_PORT, b)] == [Arg(KEY_ID, a)] + rest && rest == rest + [];
    QueryIdFold(a, rest);
    FoldArgsCons(QueryWithId(a), Arg(KEY_PORT, b), []);
    assert {OA, INid} + {IPort} == {OA, INid, IPort};
  }

  /** The text under `port` is read as the value of the key before it: the sender's id is
      replaced. */
  lemma PortReplacesId(a: Nih, b: Nih, tok: Bytes, tail: Bytes)
    requires |tok| <= MAXLEN_TOK
    ensures BareDecoded(Decode(RMsg(PortTree(a, b, tok)) + tail))
      == Accepted(QPg, CLEARED.(nid := Some(Raw(b)), tok := Some(Raw(tok))))
  {
    var args := [Arg(KEY_ID, a), Arg(KEY_PORT, b)];
    var c := Ctx(Some(INid), {OA, INid, IPort}, Q_ANY, CLEARED.(nid := Some(Raw(b))));
    PortFold(a, b);
    QueryFold(args, c, QPg, VAL_PG, tok);
    QueryDecodes(args, VAL_PG, tok, QueryEnd(c, QPg, tok), tail);
    PortVerdict(c, tok);
  }

  lemma PortVerdict(c: Ctx, tok: Bytes)
    requires c.kind == Q_ANY && c.seen == {OA, INid, IPort}
    ensures Judge(Ok(QueryEnd(c, QPg, tok))) == Accepted(QPg, c.f.(tok := Some(Raw(tok))))
  {
    var end := QueryEnd(c, QPg, tok);
    assert Q_ANY * {QPg} == {QPg} && end.seen * IKEY_ANY_BODY == {};
    JudgeQuery(end, QPg);
  }

  /** No port is ever read. */
  lemma NoPortIsRead(d: Bytes)
    requires Decode(d).Accepted?
    ensures Decode(d).f.apPort == 0
  {
    FieldsDelivered(d);
  }
}
