// A get-peers conversation closes end to end: question, peer, answer, lookup.

module Conversation {
  import opened Dht
  import opened Krpc
  import opened Contents
  import opened Render
  import opened Msg
  import opened Encoder
  import opened RoundTrip
  import opened Message
  import opened Hops
  import opened Gpm
  import opened Handler

  lemma LoadStore(tok: U16)
    ensures LoadU16(StoreU16(tok) + [OUR_TOK_GP]) == tok
  {
  }

  /** Reading a field through its pointer gives its contents. */
  lemma BareReads(f: Fields)
    requires Shaped(f)
    ensures Shaped(BareFields(f))
    ensures NihAt(BareFields(f).nid) == NihAt(f.nid) && NihAt(BareFields(f).ih) == NihAt(f.ih)
    ensures TokBytes(BareFields(f)) == TokBytes(f) && NodesOf(BareFields(f)) == NodesOf(f)
    ensures ReplyTo(BareFields(f)) == ReplyTo(f)
  {
    var b := BareFields(f);
    assert Shaped(b);
    forall i | 0 <= i < f.nNodes ensures NodeAt(b, i) == NodeAt(f, i) { }
  }

  /** The question, as the peer it is put to reads it. */
  lemma QuestionArrives(nid: Nih, ih: Nih, tok: U16, tail: Bytes)
    ensures var r := Decode(QGpMsg(nid, ih, tok) + tail);
      && r.Accepted? && r.meth == QGp && Shaped(r.f)
      && NihAt(r.f.ih) == Some(ih)
      && ReplyTo(r.f) == Some(KReply(MaskSid(nid), StoreU16(tok) + [OUR_TOK_GP]))
  {
    var text := RMsg(QGpTree(MaskSid(nid), ih, tok));
    assert QGpMsg(nid, ih, tok) + tail == text + ([0] + tail);
    QGpDecodes(MaskSid(nid), ih, tok, [0] + tail);
    AcceptedShaped(text + ([0] + tail));
    BareReads(Decode(text + ([0] + tail)).f);
  }

  /** The peer's answer, as we read it: it carries the id we addressed. */
  lemma AnswerArrives(nid: Nih, tok: U16, payload: PNode, tail: Bytes)
    ensures var k := KReply(MaskSid(nid), StoreU16(tok) + [OUR_TOK_GP]);
      var r := Decode(RMsg(RGpTree(MaskSid(k.nid), payload, k.tok)) + tail);
      && r.Accepted? && r.meth == RGp && Shaped(r.f)
      && NihAt(r.f.nid) == Some(nid)
      && TokBytes(r.f) == k.tok
      && NodesOf(r.f) == [payload]
  {
    var t := StoreU16(tok) + [OUR_TOK_GP];
    MaskInvolution(nid);
    var d := RMsg(RGpTree(nid, payload, t)) + tail;
    RGpDecodes(nid, payload, t, tail);
    AcceptedShaped(d);
    BareReads(Decode(d).f);
    OneNode(BareFields(Decode(d).f), payload);
  }

  lemma OneNode(f: Fields, p: PNode)
    requires Shaped(f) && f.nNodes == 1 && f.nodes == Some(Raw(p))
    ensures NodesOf(f) == [p]
  {
    assert NodeAt(f, 0) == p[0..26] == p;
  }

  lemma {:induction false} CellStays(t: Table, qs: seq<Question>, tok: U16)
    requires forall i :: 0 <= i < |qs| ==> qs[i].tok != tok || qs[i].hop > GP_MAX_HOPS
    ensures RunQuestions(t, qs)[tok] == t[tok]
    decreases |qs|
  {
    if qs != [] {
      CellStays(t, qs[..|qs| - 1], tok);
    }
  }

  lemma OneHop(ih: Nih, p: PNode)
    ensures NextHops(ih, [p]) == [p]
  {
    BestSlotsInRange(Distances(ih, [p]), 0);
    assert NextHops(ih, [p])[0] == Hop(ih, [p], 0);
  }

  /** After registering a question, with no later accepted registration of its token:
      the question decodes at the peer, the peer's reply decodes here as an accepted
      get-peers reply carrying the very id that was addressed, and extracting its token
      gives back the info hash, the hop and the peer's contact. */
  lemma {:induction false} ConversationCloses(t: Table, nid: Nih, ih: Nih, hop: nat, tok: U16, later: seq<Question>,
                           payload: PNode, tail: Bytes, tail2: Bytes)
    requires hop <= GP_MAX_HOPS
    requires forall i :: 0 <= i < |later| ==> later[i].tok != tok || later[i].hop > GP_MAX_HOPS
    ensures var q := Decode(QGpMsg(nid, ih, tok) + tail);
      && q.Accepted? && q.meth == QGp && Shaped(q.f) && NihAt(q.f.ih) == Some(ih) && ReplyTo(q.f).Some?
      && var k := ReplyTo(q.f).value;
      var a := Decode(RMsg(RGpTree(MaskSid(k.nid), payload, k.tok)) + tail2);
      && a.Accepted? && a.meth == RGp && Shaped(a.f) && |TokBytes(a.f)| == 3
      && NihAt(a.f.nid) == Some(nid)
      && var table := RunQuestions(Register(t, nid, ih, hop, tok), later);
      var l := LookupTok(table, TokBytes(a.f), NihAt(a.f.nid));
      l.Hit? && NextHopOf(l.cell, NodesOf(a.f)) == NextHop(ih, [payload], hop)
  {
    QuestionArrives(nid, ih, tok, tail);
    AnswerArrives(nid, tok, payload, tail2);
    CellStays(Register(t, nid, ih, hop, tok), later, tok);
    LoadStore(tok);
    OneHop(ih, payload);
  }
}
