// What the crawler sends for each message it receives, and what its answers say to those
// who get them.

module Answers {
  import opened Dht
  import opened Krpc
  import opened Grammar
  import opened Contents
  import opened Render
  import opened Acceptance
  import opened Msg
  import opened Encoder
  import opened RoundTrip
  import opened Message
  import opened Gpm
  import opened SpamFilter
  import opened Handler
  import opened Questions
  import opened Outreach

  // ----- answers as they are read -----

  /** A message is a reply from this id with this tok, these contacts and this token, and
      says nothing else. */
  ghost predicate Delivers(d: Bytes, sid: Nih, tok: Bytes, nodes: seq<PNode>, token: Option<Bytes>) {
    && Whole(d)
    && var c := Final(d);
    && OR in c.seen && OY in c.seen && c.kind <= R_ANY
    && Shaped(c.f) && NihAt(c.f.nid) == Some(sid) && c.f.tok.Some? && TokBytes(c.f) == tok && NodesOf(c.f) == nodes
    && (match token case None => c.f.token == None case Some(t) => c.f.token.Some? && c.f.token.value.bytes == t)
    && c.f.nPeers == 0 && c.f.ih == None && c.f.target == None
  }

  /** So does a text, whatever stands behind it in the receiver's buffer. */
  ghost predicate ReadsAs(text: Bytes, sid: Nih, tok: Bytes, nodes: seq<PNode>, token: Option<Bytes>) {
    forall tail: Bytes :: Delivers(text + tail, sid, tok, nodes, token)
  }

  lemma RenderedReply(args: seq<IPair>, tok: Bytes, c: Ctx, tail: Bytes)
    requires RawArgs(args) && |tok| < 100
    requires FoldOPairs(InitialCtx(CLEARED), Reply(args, tok)) == Ok(c)
    ensures Whole(RMsg(Reply(args, tok)) + tail) && BareCtx(Final(RMsg(Reply(args, tok)) + tail)) == c
  {
    var ps := Reply(args, tok);
    ReplyBare(args, tok);
    ParseInvertsRender(ps, tail);
    BareFoldOPairs(InitialCtx(CLEARED), ParseMsg(RMsg(ps) + tail).value);
  }

  lemma FieldsRead(c: Ctx, sid: Nih, tok: Bytes, nodes: seq<PNode>)
    requires BareFields(c.f).nid == Some(Raw(sid)) && BareFields(c.f).tok == Some(Raw(tok)) && |tok| <= MAXLEN_TOK
    requires c.f.ih == None && c.f.target == None && |nodes| <= 1
    requires c.f.nNodes == |nodes| && BareFields(c.f).nodes == if nodes == [] then None else Some(Raw(nodes[0]))
    ensures Shaped(c.f) && NihAt(c.f.nid) == Some(sid) && c.f.tok.Some? && TokBytes(c.f) == tok && NodesOf(c.f) == nodes
  {
    if nodes != [] {
      assert NodeAt(c.f, 0) == nodes[0][0..26] == nodes[0];
    }
  }

  lemma PingReplyReads(sid: Nih, tok: Bytes)
    requires |tok| <= MAXLEN_TOK
    ensures ReadsAs(RMsg(RPgTree(sid, tok)), sid, tok, [], None)
  {
    var text := RMsg(RPgTree(sid, tok));
    forall tail: Bytes ensures Delivers(text + tail, sid, tok, [], None) {
      RPgFold(sid, tok);
      RenderedReply([Arg(KEY_ID, sid)], tok, ReplyEnd(ReplyWithId(sid), tok), tail);
      FieldsRead(Final(text + tail), sid, tok, []);
    }
  }

  lemma FnReplyReads(sid: Nih, p: PNode, tok: Bytes)
    requires |tok| <= MAXLEN_TOK
    ensures ReadsAs(RMsg(RFnTree(sid, p, tok)), sid, tok, [p], None)
  {
    var text := RMsg(RFnTree(sid, p, tok));
    forall tail: Bytes ensures Delivers(text + tail, sid, tok, [p], None) {
      RFnFold(sid, p, tok);
      RenderedReply([Arg(KEY_ID, sid), Arg(KEY_NODES, p)], tok, ReplyEnd(ReplyWithNodes(sid, p), tok), tail);
      FieldsRead(Final(text + tail), sid, tok, [p]);
    }
  }

  lemma GpReplyReads(sid: Nih, p: PNode, tok: Bytes)
    requires |tok| <= MAXLEN_TOK
    ensures ReadsAs(RMsg(RGpTree(sid, p, tok)), sid, tok, [p], Some([0x88]))
  {
    var text := RMsg(RGpTree(sid, p, tok));
    forall tail: Bytes ensures Delivers(text + tail, sid, tok, [p], Some([0x88])) {
      RGpFold(sid, p, tok);
      RenderedReply([Arg(KEY_ID, sid), Arg(KEY_NODES, p), Arg(KEY_TOKEN, [OUR_TOKEN])], tok,
                    ReplyEnd(ReplyWithToken(sid, p), tok), tail);
      FieldsRead(Final(text + tail), sid, tok, [p]);
    }
  }

  // ----- one datagram -----

  /** A message goes to the sender of the datagram and reads as an answer to it. */
  ghost predicate IsAnswer(s: Sent, g: Datagram, acct: Acct, nid: Nih, tok: Bytes, nodes: seq<PNode>, token: Option<Bytes>)
    requires |g.ip| == 4
  {
    s.dest == g.ip + [g.port / 256, g.port % 256] && s.acct == acct && ReadsAs(s.text, MaskSid(nid), tok, nodes, token)
  }

  /** A query that can be answered: accepted, looked at, and with an id that was read. */
  ghost predicate Answerable(w: World, g: Datagram, m: Method) {
    && ValidWorld(w) && ValidDatagram(g) && LookedAt(w, g)
    && Decode(g.msg).Accepted? && Decode(g.msg).meth == m && Decode(g.msg).f.nid.Some?
  }

  lemma AnswererIs(w: World, g: Datagram, m: Method) returns (nid: Nih, tok: Bytes)
    requires Answerable(w, g, m)
    ensures Shaped(Decode(g.msg).f) && NihAt(Decode(g.msg).f.nid) == Some(nid) && TokBytes(Decode(g.msg).f) == tok
    ensures |tok| <= MAXLEN_TOK && ReplyTo(Decode(g.msg).f) == Some(KReply(nid, tok))
  {
    AcceptedShaped(g.msg);
    nid, tok := NihAt(Decode(g.msg).f.nid).value, TokBytes(Decode(g.msg).f);
  }

  /** A ping is answered with our id and its tok, and nothing else. */
  lemma PingIsAnswered(w: World, g: Datagram)
    requires Answerable(w, g, QPg)
    ensures var f, r := Decode(g.msg).f, Handle(w, g);
      && Shaped(f) && r.Done? && |r.sent| == 1
      && IsAnswer(r.sent[0], g, TxRPg, NihAt(f.nid).value, TokBytes(f), [], None)
  {
    HandleIs(w, g);
    var nid, tok := AnswererIs(w, g, QPg);
    PingReplyReads(MaskSid(nid), tok);
  }

  /** A find-node query is answered with one contact: the neighbour of its target. */
  lemma FindNodeIsAnswered(w: World, g: Datagram) returns (p: PNode)
    requires Answerable(w, g, QFn) && Decode(g.msg).f.target.Some?
    ensures var f, r := Decode(g.msg).f, Handle(w, g);
      && Shaped(f) && r.Done? && |r.sent| == 1
      && IsAnswer(r.sent[0], g, TxRFn, NihAt(f.nid).value, TokBytes(f), [p], None)
      && RoutingTable.IsNeighbor(w.rt, NihAt(f.target).value, g.scan, p)
  {
    HandleIs(w, g);
    var nid, tok := AnswererIs(w, g, QFn);
    p := RoutingTable.Neighbor(w.rt, NihAt(Decode(g.msg).f.target).value, g.scan);
    RoutingTable.NeighborIs(w.rt, NihAt(Decode(g.msg).f.target).value, g.scan);
    FnReplyReads(MaskSid(nid), p, tok);
  }

  /** The contact a get-peers query gets: the neighbour of its hash; but if a token was drawn
      and that is the asker, what the second draw yields. */
  ghost predicate IsOffered(w: World, g: Datagram, ih: Nih, asker: Nih, p: PNode)
    requires ValidWorld(w)
  {
    exists n :: RoutingTable.IsNeighbor(w.rt, ih, g.scan, n)
      && if g.draws != [] && g.draws[0].Some? && n[16..20] == asker[16..20] then RoutingTable.IsScanned(w.rt, g.scan2, p)
         else p == n
  }

  lemma OfferedIs(w: World, g: Datagram, ih: Nih, asker: Nih)
    requires ValidWorld(w)
    ensures var drawn := g.draws != [] && g.draws[0].Some?;
      IsOffered(w, g, ih, asker, if drawn then FirstHop(w.rt, ih, asker, g) else RoutingTable.Neighbor(w.rt, ih, g.scan))
  {
    var n := RoutingTable.Neighbor(w.rt, ih, g.scan);
    RoutingTable.NeighborIs(w.rt, ih, g.scan);
    RoutingTable.RandomNodeIs(w.rt, g.scan2);
    assert n[..20][16..20] == n[16..20];
  }

  /** A get-peers query is answered with that contact and our token; if a token was drawn, the
      same contact is first asked about the hash. */
  lemma GetPeersIsAnswered(w: World, g: Datagram) returns (p: PNode)
    requires Answerable(w, g, QGp) && Decode(g.msg).f.ih.Some?
    ensures var f, r := Decode(g.msg).f, Handle(w, g);
      && Shaped(f) && r.Done?
      && var ih, nid, drawn := NihAt(f.ih).value, NihAt(f.nid).value, g.draws != [] && g.draws[0].Some?;
      && IsOffered(w, g, ih, nid, p)
      && |r.sent| == (if drawn then 2 else 1)
      && (drawn ==> r.sent[0] == QuestionTo(p, ih, g.draws[0].value))
      && IsAnswer(r.sent[|r.sent| - 1], g, TxRGp, nid, TokBytes(f), [p], Some([0x88]))
  {
    HandleIs(w, g);
    var nid, tok := AnswererIs(w, g, QGp);
    var ih := NihAt(Decode(g.msg).f.ih).value;
    p := if g.draws != [] && g.draws[0].Some? then FirstHop(w.rt, ih, nid, g) else RoutingTable.Neighbor(w.rt, ih, g.scan);
    OfferedIs(w, g, ih, nid);
    GpReplyReads(MaskSid(nid), p, tok);
  }

  /** An announce is answered like a ping, unless its name is refused. */
  lemma AnnounceIsAnswered(w: World, g: Datagram)
    requires Answerable(w, g, QAp)
    ensures var f, r := Decode(g.msg).f, Handle(w, g);
      && Shaped(f) && r.Done?
      && if f.apName.Some? && f.apName.value.bytes != [] && !g.nameOk then r.sent == []
         else |r.sent| == 1 && IsAnswer(r.sent[0], g, TxRAp, NihAt(f.nid).value, TokBytes(f), [], None)
  {
    HandleIs(w, g);
    var nid, tok := AnswererIs(w, g, QAp);
    PingReplyReads(MaskSid(nid), tok);
  }

  /** A ping reply is answered with nothing. */
  lemma PingReplyIsSilent(w: World, g: Datagram)
    requires Answerable(w, g, RPg)
    ensures Handle(w, g).Done? && Handle(w, g).sent == []
  {
    HandleIs(w, g);
  }

  /** A find-node reply has its contacts pinged, those that are due. */
  lemma FindNodeReplyPings(w: World, g: Datagram)
    requires ValidWorld(w) && ValidDatagram(g) && LookedAt(w, g)
    requires Decode(g.msg).Accepted? && Decode(g.msg).meth == RFn
    ensures var f, r := Decode(g.msg).f, Handle(w, g);
      Shaped(f) && r.Done? && r.sent == Pings(Due(w.pg, NodesOf(f)))
  {
    HandleIs(w, g);
    SweepExact(w.pg, NodesOf(Decode(g.msg).f));
  }

  /** What a get-peers reply makes the crawler ask: nothing if it answers no question. */
  ghost function Asked(t: Table, gp: Buckets, f: Fields, draws: seq<Option<U16>>, at: nat): seq<Ask>
    requires Sparse(gp, Q_GP_RATES) && Shaped(f) && |TokBytes(f)| == 3
  {
    if f.nNodes == 0 then []
    else
      match LookupTok(t, TokBytes(f), NihAt(f.nid))
      case Hit(cell) => AskedHops(gp, NextHopOf(cell, NodesOf(f)), draws, at)
      case _ => []
  }

  ghost function AskedHops(gp: Buckets, next: NextHop, draws: seq<Option<U16>>, at: nat): seq<Ask>
    requires Sparse(gp, Q_GP_RATES)
  {
    AsksDue(gp, next.pnodes, next.ih, next.hop + 1, draws, at, 0)
  }

  lemma HopsAreAsked(t: Table, gp: Buckets, next: NextHop, draws: seq<Option<U16>>, at: nat)
    requires Sparse(gp, Q_GP_RATES)
    ensures Puts(t, ChaseHops(t, gp, next, draws), AskedHops(gp, next, draws, at))
  {
    HopsCarry(t, gp, next, draws, at);
    AskingExact(gp, next.pnodes, next.ih, next.hop + 1, draws, at);
  }

  /** Pings first, then questions. */
  ghost predicate Sends(r: Handled, pings: seq<Sent>, asks: seq<Ask>) {
    r.Done? ==> r.sent == pings + Messages(asks)
  }

  lemma NoQuestions(r: Handled, pings: seq<Sent>)
    requires r.Done? ==> r.sent == pings
    ensures Sends(r, pings, [])
  {
    assert pings + [] == pings;
  }

  lemma HitSends(v: World, g: Datagram, f: Fields, at: nat, cell: Cell)
    requires ValidWorld(v) && Shaped(f) && |TokBytes(f)| == 3
    requires LookupTok(v.gpm, TokBytes(f), NihAt(f.nid)) == Hit(cell)
    ensures Sends(FollowUp(v, g, f), Sweep(v.pg, NodesOf(f)).1, AskedHops(v.gp, NextHopOf(cell, NodesOf(f)), g.draws, at))
  {
    FollowUpHit(v, g, f, cell);
    HopsAreAsked(v.gpm, v.gp, NextHopOf(cell, NodesOf(f)), g.draws, at);
  }

  lemma FollowUpSends(v: World, g: Datagram, f: Fields, at: nat)
    requires ValidWorld(v) && Shaped(f) && |TokBytes(f)| == 3 && f.nNodes > 0
    ensures Sends(FollowUp(v, g, f), Sweep(v.pg, NodesOf(f)).1, Asked(v.gpm, v.gp, f, g.draws, at))
  {
    var l := LookupTok(v.gpm, TokBytes(f), NihAt(f.nid));
    if l.Hit? {
      HitSends(v, g, f, at, l.cell);
    } else if l.Miss? {
      FollowUpMiss(v, g, f);
      NoQuestions(FollowUp(v, g, f), Sweep(v.pg, NodesOf(f)).1);
    }
  }

  lemma ReplySends(v: World, g: Datagram, f: Fields, at: nat)
    requires ValidWorld(v) && ValidDatagram(g) && Shaped(f) && |TokBytes(f)| == 3
    ensures Sends(OnRGp(v, g, f), Sweep(v.pg, NodesOf(f)).1, Asked(v.gpm, v.gp, f, g.draws, at))
  {
    if f.nNodes == 0 {
      NoQuestions(OnRGp(v, g, f), Sweep(v.pg, NodesOf(f)).1);
    } else if f.nPeers > 0 && f.nid.Some? {
      InsertKeepsCells(v.rt, NihAt(f.nid).value, SenderOf(g));
      FollowUpSends(v.(rt := RoutingTable.InsertAt(v.rt, NihAt(f.nid).value, SenderOf(g))), g, f, at);
    } else if f.nPeers == 0 {
      FollowUpSends(v, g, f, at);
    }
  }

  /** A get-peers reply has its contacts pinged, those that are due, and then its hops asked. */
  lemma GetPeersReplySends(w: World, g: Datagram, at: nat)
    requires ValidWorld(w) && ValidDatagram(g) && LookedAt(w, g)
    requires Decode(g.msg).Accepted? && Decode(g.msg).meth == RGp
    ensures var f := Decode(g.msg).f;
      && Shaped(f) && |TokBytes(f)| == 3
      && Sends(Handle(w, g), Pings(Due(w.pg, NodesOf(f))), Asked(w.gpm, w.gp, f, g.draws, at))
  {
    HandleIs(w, g);
    var f := Decode(g.msg).f;
    SweepExact(w.pg, NodesOf(f));
    ReplySends(w.(rx := WithdrawFrom(w.rx, RX_RATES, g.ip)), g, f, at);
  }

  // ----- datagrams that lead to nothing -----

  /** Datagrams too short or too long, and those over the limit on their sender, change nothing. */
  lemma OverlookedChangesNothing(w: World, g: Datagram)
    requires ValidWorld(w) && ValidDatagram(g)
    requires |g.msg| < 45 || |g.msg| >= 1024 || Tokens(w.rx, RX_RATES, g.ip) == 0
    ensures Handle(w, g) == Done(w, [])
  {
  }

  /** A message that is refused costs its sender one token of twelve, and does nothing else. */
  lemma RefusedCostsOne(w: World, g: Datagram, k: Bytes)
    requires ValidWorld(w) && ValidDatagram(g)
    requires 45 <= |g.msg| < 1024 && Tokens(w.rx, RX_RATES, g.ip) > 0 && Decode(g.msg).Rejected?
    ensures var r := Handle(w, g);
      && r.Done? && r.sent == [] && r.w == w.(rx := r.w.rx)
      && Tokens(r.w.rx, RX_RATES, k) == Tokens(w.rx, RX_RATES, k) - if k == g.ip then 1 else 0
  {
    WithdrawIsDense(w.rx, RX_RATES, g.ip, k);
    WithdrawIsDense(w.rx, RX_RATES, g.ip, g.ip);
  }

  /** An epoch gives every sender four tokens, up to twelve, and every address and question
      one, up to fifteen; it changes nothing else. */
  lemma EpochExact(w: World, k: Bytes)
    requires ValidWorld(w)
    ensures var t := Tick(w);
      && t == w.(rx := t.rx, pg := t.pg, gp := t.gp)
      && Tokens(t.rx, RX_RATES, k) == Min(12, Tokens(w.rx, RX_RATES, k) + 4)
      && Tokens(t.pg, PING_RATES, k) == Min(15, Tokens(w.pg, PING_RATES, k) + 1)
      && Tokens(t.gp, Q_GP_RATES, k) == Min(15, Tokens(w.gp, Q_GP_RATES, k) + 1)
  {
    ReplenishIsDense(w.rx, RX_RATES, k);
    ReplenishIsDense(w.pg, PING_RATES, k);
    ReplenishIsDense(w.gp, Q_GP_RATES, k);
  }
}
