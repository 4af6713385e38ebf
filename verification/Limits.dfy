// The rate limits over whole runs of the crawler: how many messages it looks at, how many
// pings it sends and how many follow-up questions, by address and by key.

module Limits {
  import opened Dht
  import opened Krpc
  import opened Message
  import opened Gpm
  import opened SpamFilter
  import opened Handler
  import opened Questions
  import opened Pursuit

  ghost function Elapses(h: seq<Event>): nat
    decreases |h|
  {
    if h == [] then 0 else Elapses(h[..|h| - 1]) + if h[|h| - 1].Elapsed? then 1 else 0
  }

  // ----- pings -----

  /** The pings among sent messages that go to one address. */
  ghost function PingsTo(sent: seq<Sent>, k: Bytes): nat {
    if sent == [] then 0
    else (if sent[0].acct == TxQPg && InAddr(sent[0].dest) == k then 1 else 0) + PingsTo(sent[1..], k)
  }

  lemma {:induction false} PingsConcat(a: seq<Sent>, b: seq<Sent>, k: Bytes)
    ensures PingsTo(a + b, k) == PingsTo(a, k) + PingsTo(b, k)
    decreases |a|
  {
    if a == [] {
      assert a + b == b;
    } else {
      assert (a + b)[1..] == a[1..] + b;
      PingsConcat(a[1..], b, k);
    }
  }

  /** A sweep pays for every ping it sends. */
  lemma {:induction false} SweepPays(pg: Buckets, nodes: seq<PNode>, k: Bytes)
    requires Sparse(pg, PING_RATES)
    ensures var r := Sweep(pg, nodes);
      15 * PingsTo(r.1, k) + Tokens(r.0, PING_RATES, k) == Tokens(pg, PING_RATES, k)
    decreases |nodes|
  {
    if nodes != [] {
      SweepStep(pg, nodes);
      var to := PeerinfoOf(nodes[0]);
      WithdrawIsDense(pg, PING_RATES, InAddr(to), k);
      var pg' := WithdrawFrom(pg, PING_RATES, InAddr(to));
      SweepPays(pg', nodes[1..], k);
      var rest := Sweep(pg', nodes[1..]).1;
      assert [] + rest == rest;
      var s := Sent(to, TxQPg, QPgMsg(NidOf(nodes[0])));
      assert ([s] + rest)[1..] == rest;
    }
  }

  lemma {:induction false} ChaseSendsNoPings(t: Table, gp: Buckets, pnodes: seq<PNode>, ih: Nih, hop: nat,
                                             draws: seq<Option<U16>>, k: Bytes)
    requires Sparse(gp, Q_GP_RATES)
    ensures PingsTo(Chase(t, gp, pnodes, ih, hop, draws).sent, k) == 0
    decreases |pnodes|
  {
    if pnodes != [] {
      var pn := pnodes[0];
      var key := GpKey(PeerinfoOf(pn), ih);
      WithdrawIsDense(gp, Q_GP_RATES, key, key);
      var gp' := WithdrawFrom(gp, Q_GP_RATES, key);
      if !Handler.Allowed(gp, Q_GP_RATES, key) {
        ChaseSendsNoPings(t, gp', pnodes[1..], ih, hop, draws, k);
      } else if draws != [] && draws[0].Some? {
        var t' := Register(t, NidOf(pn), ih, hop, draws[0].value);
        ChaseSendsNoPings(t', gp', pnodes[1..], ih, hop, draws[1..], k);
        var rest := Chase(t', gp', pnodes[1..], ih, hop, draws[1..]).sent;
        var s := Sent(PeerinfoOf(pn), TxQGp, QGpMsg(NidOf(pn), ih, draws[0].value));
        assert ([s] + rest)[1..] == rest;
      }
    }
  }

  lemma HopsSendNoPings(t: Table, gp: Buckets, next: NextHop, draws: seq<Option<U16>>, k: Bytes)
    requires Sparse(gp, Q_GP_RATES)
    ensures PingsTo(ChaseHops(t, gp, next, draws).sent, k) == 0
  {
    ChaseSendsNoPings(t, gp, next.pnodes, next.ih, next.hop + 1, draws, k);
  }

  ghost function Pings(w: World, h: seq<Event>, k: Bytes): nat
    requires ValidWorld(w) && ValidHistory(h)
    decreases |h|
  {
    if h == [] then 0 else Pings(w, h[..|h| - 1], k) + PingsTo(SentBy(w, h, |h| - 1), k)
  }

  lemma {:induction false} NoPings(sent: seq<Sent>, k: Bytes)
    requires forall i :: 0 <= i < |sent| ==> sent[i].acct != TxQPg
    ensures PingsTo(sent, k) == 0
  {
    if sent != [] {
      NoPings(sent[1..], k);
    }
  }

  lemma HitPings(v: World, g: Datagram, f: Fields, cell: Cell, k: Bytes)
    requires ValidWorld(v) && Shaped(f) && |TokBytes(f)| == 3 && FollowUp(v, g, f).Done?
    requires LookupTok(v.gpm, TokBytes(f), NihAt(f.nid)) == Hit(cell)
    ensures FollowUp(v, g, f).w.pg == Sweep(v.pg, NodesOf(f)).0
    ensures PingsTo(FollowUp(v, g, f).sent, k) == PingsTo(Sweep(v.pg, NodesOf(f)).1, k)
  {
    FollowUpHit(v, g, f, cell);
    var next := NextHopOf(cell, NodesOf(f));
    HopsSendNoPings(v.gpm, v.gp, next, g.draws, k);
    PingsConcat(Sweep(v.pg, NodesOf(f)).1, ChaseHops(v.gpm, v.gp, next, g.draws).sent, k);
  }

  lemma FollowUpPays(w: World, g: Datagram, f: Fields, k: Bytes)
    requires ValidWorld(w) && Shaped(f) && |TokBytes(f)| == 3 && FollowUp(w, g, f).Done?
    ensures 15 * PingsTo(FollowUp(w, g, f).sent, k) + Tokens(FollowUp(w, g, f).w.pg, PING_RATES, k)
      == Tokens(w.pg, PING_RATES, k)
  {
    SweepPays(w.pg, NodesOf(f), k);
    var l := LookupTok(w.gpm, TokBytes(f), NihAt(f.nid));
    if l.Hit? {
      HitPings(w, g, f, l.cell, k);
    } else {
      FollowUpMiss(w, g, f);
    }
  }

  lemma OthersSendNoPings(w: World, g: Datagram, m: Method, f: Fields, k: Bytes)
    requires ValidWorld(w) && ValidDatagram(g) && Shaped(f) && m != RGp && m != RFn && Dispatch(w, g, m, f).Done?
    ensures PingsTo(Dispatch(w, g, m, f).sent, k) == 0 && Dispatch(w, g, m, f).w.pg == w.pg
  {
    NoPings(Dispatch(w, g, m, f).sent, k);
  }

  lemma DispatchPays(w: World, g: Datagram, m: Method, f: Fields, k: Bytes)
    requires ValidWorld(w) && ValidDatagram(g) && Shaped(f) && (m == RGp ==> |TokBytes(f)| == 3)
    requires Dispatch(w, g, m, f).Done?
    ensures var r := Dispatch(w, g, m, f);
      15 * PingsTo(r.sent, k) + Tokens(r.w.pg, PING_RATES, k) == Tokens(w.pg, PING_RATES, k)
  {
    if m == RGp {
      if f.nNodes > 0 {
        if f.nPeers > 0 {
          InsertKeepsCells(w.rt, NihAt(f.nid).value, SenderOf(g));
          FollowUpPays(w.(rt := RoutingTable.InsertAt(w.rt, NihAt(f.nid).value, SenderOf(g))), g, f, k);
        } else {
          FollowUpPays(w, g, f, k);
        }
      }
    } else if m == RFn {
      SweepPays(w.pg, NodesOf(f), k);
    } else {
      OthersSendNoPings(w, g, m, f, k);
    }
  }

  lemma HandlePays(v: World, g: Datagram, k: Bytes)
    requires ValidWorld(v) && ValidDatagram(g) && Handle(v, g).Done?
    ensures var r := Handle(v, g);
      15 * PingsTo(r.sent, k) + Tokens(r.w.pg, PING_RATES, k) == Tokens(v.pg, PING_RATES, k)
  {
    WithdrawIsDense(v.rx, RX_RATES, g.ip, g.ip);
    var v1 := v.(rx := WithdrawFrom(v.rx, RX_RATES, g.ip));
    if !Ignored(|g.msg|) && Handler.Allowed(v.rx, RX_RATES, g.ip) && Decode(g.msg).Accepted? {
      AcceptedShaped(g.msg);
      if Decode(g.msg).meth == RGp { GetPeersReplyShape(g.msg); }
      DispatchPays(v1, g, Decode(g.msg).meth, Decode(g.msg).f, k);
    }
  }

  /** Over every history, the pings sent to one address, at fifteen tokens each, are
      covered by one full bucket and one token per epoch. */
  lemma {:induction false} PingsAreLimited(w: World, h: seq<Event>, k: Bytes)
    requires ValidWorld(w) && ValidHistory(h)
    ensures After(w, h).Some? ==>
      15 * Pings(w, h, k) + Tokens(After(w, h).value.pg, PING_RATES, k) <= 15 + Elapses(h)
    decreases |h|
  {
    if h != [] {
      var n := |h| - 1;
      PingsAreLimited(w, h[..n], k);
      var v := After(w, h[..n]);
      if v.Some? {
        match h[n] {
          case Elapsed => ReplenishIsDense(v.value.pg, PING_RATES, k);
          case Received(g) =>
            if Handle(v.value, g).Done? {
              HandlePays(v.value, g, k);
            }
        }
      }
    } else {
      TokensCapped(w.pg, PING_RATES, k);
    }
  }

  /** From any valid state on, fewer than fifteen epochs leave
      room for at most one ping to an address, whatever is received. */
  lemma PingsAreRare(w: World, h: seq<Event>, k: Bytes)
    requires ValidWorld(w) && ValidHistory(h) && After(w, h).Some? && Elapses(h) < 15
    ensures Pings(w, h, k) <= 1
  {
    PingsAreLimited(w, h, k);
  }

  // ----- messages looked at -----

  /** The datagrams from one address that are decoded; every accepted one is among them. */
  ghost function LookedAtFrom(w: World, h: seq<Event>, k: Bytes): nat
    requires ValidWorld(w) && ValidHistory(h)
    decreases |h|
  {
    if h == [] then 0
    else
      var n := |h| - 1;
      var v := After(w, h[..n]);
      LookedAtFrom(w, h[..n], k)
      + if v.Some? && h[n].Received? && h[n].g.ip == k && LookedAt(v.value, h[n].g) then 1 else 0
  }

  lemma ReplyKeepsRx(w: World, g: Datagram, f: Fields)
    requires ValidWorld(w) && ValidDatagram(g) && Shaped(f) && |TokBytes(f)| == 3
    ensures OnRGp(w, g, f).Done? ==> OnRGp(w, g, f).w.rx == w.rx
  {
  }

  lemma DispatchKeepsRx(w: World, g: Datagram, m: Method, f: Fields)
    requires ValidWorld(w) && ValidDatagram(g) && Shaped(f) && (m == RGp ==> |TokBytes(f)| == 3)
    ensures Dispatch(w, g, m, f).Done? ==> Dispatch(w, g, m, f).w.rx == w.rx
  {
    if m == RGp {
      ReplyKeepsRx(w, g, f);
    }
  }

  lemma HandlePaysRx(v: World, g: Datagram, k: Bytes)
    requires ValidWorld(v) && ValidDatagram(g) && Handle(v, g).Done?
    ensures (if g.ip == k && LookedAt(v, g) then 1 else 0) + Tokens(Handle(v, g).w.rx, RX_RATES, k)
      == Tokens(v.rx, RX_RATES, k)
  {
    WithdrawIsDense(v.rx, RX_RATES, g.ip, g.ip);
    WithdrawIsDense(v.rx, RX_RATES, g.ip, k);
    var v1 := v.(rx := WithdrawFrom(v.rx, RX_RATES, g.ip));
    if LookedAt(v, g) && Decode(g.msg).Accepted? {
      AcceptedShaped(g.msg);
      if Decode(g.msg).meth == RGp { GetPeersReplyShape(g.msg); }
      DispatchKeepsRx(v1, g, Decode(g.msg).meth, Decode(g.msg).f);
    }
  }

  /** Over every history, the datagrams from one address that are looked at are at most
      twelve and four per epoch. */
  lemma {:induction false} MessagesAreLimited(w: World, h: seq<Event>, k: Bytes)
    requires ValidWorld(w) && ValidHistory(h)
    ensures After(w, h).Some? ==> LookedAtFrom(w, h, k) + Tokens(After(w, h).value.rx, RX_RATES, k) <= 12 + 4 * Elapses(h)
    decreases |h|
  {
    if h == [] {
      TokensCapped(w.rx, RX_RATES, k);
    } else {
      var n := |h| - 1;
      MessagesAreLimited(w, h[..n], k);
      var v := After(w, h[..n]);
      if v.Some? {
        match h[n] {
          case Elapsed => ReplenishIsDense(v.value.rx, RX_RATES, k);
          case Received(g) =>
            if Handle(v.value, g).Done? {
              HandlePaysRx(v.value, g, k);
            }
        }
      }
    }
  }

  // ----- follow-up questions -----

  /** The key a get-peers question is limited under: its address and the info hash it names. */
  function KeyOf(s: Sent): Option<Bytes> {
    if s.acct == TxQGp && |s.text| == 97 then Some(GpKey(s.dest, s.text[46..66])) else None
  }

  lemma MiddleOf(h: Bytes, s: Bytes, k: Bytes, i: Bytes, g: Bytes, t: Bytes, o: Bytes)
    requires |h| + |s| + |k| == 46 && |i| == 20 && |g| + |t| + |o| == 31
    ensures var text := h + s + k + i + g + t + o; |text| == 97 && text[46..66] == i
  {
  }

  lemma KeyOfQuestion(p: PNode, ih: Nih, tok: U16)
    ensures KeyOf(QuestionTo(p, ih, tok)) == Some(GpKey(PeerinfoOf(p), ih))
  {
    var sid := Encoder.MaskSid(NidOf(p));
    Msg.QGpText(sid, ih, tok);
    MiddleOf(Msg.Q_HEAD, sid, Msg.IH_KEY, ih, Msg.GP_TAIL, StoreU16(tok), [OUR_TOK_GP] + Msg.Y_QUERY + [0]);
  }

  /** The questions among sent messages that fall under one key. */
  ghost function QuestionsTo(sent: seq<Sent>, k: Bytes): nat {
    if sent == [] then 0 else (if KeyOf(sent[0]) == Some(k) then 1 else 0) + QuestionsTo(sent[1..], k)
  }

  lemma {:induction false} QuestionsConcat(a: seq<Sent>, b: seq<Sent>, k: Bytes)
    ensures QuestionsTo(a + b, k) == QuestionsTo(a, k) + QuestionsTo(b, k)
    decreases |a|
  {
    if a == [] {
      assert a + b == b;
    } else {
      assert (a + b)[1..] == a[1..] + b;
      QuestionsConcat(a[1..], b, k);
    }
  }

  lemma {:induction false} SweepAsksNothing(pg: Buckets, nodes: seq<PNode>, k: Bytes)
    requires Sparse(pg, PING_RATES)
    ensures QuestionsTo(Sweep(pg, nodes).1, k) == 0
    decreases |nodes|
  {
    if nodes != [] {
      SweepStep(pg, nodes);
      var to := PeerinfoOf(nodes[0]);
      var rest := Sweep(WithdrawFrom(pg, PING_RATES, InAddr(to)), nodes[1..]).1;
      SweepAsksNothing(WithdrawFrom(pg, PING_RATES, InAddr(to)), nodes[1..], k);
      assert [] + rest == rest;
      assert ([Sent(to, TxQPg, QPgMsg(NidOf(nodes[0])))] + rest)[1..] == rest;
    }
  }

  /** A pursuit pays for every question it asks. */
  lemma {:induction false} ChasePays(t: Table, gp: Buckets, pnodes: seq<PNode>, ih: Nih, hop: nat,
                                     draws: seq<Option<U16>>, k: Bytes)
    requires Sparse(gp, Q_GP_RATES)
    ensures var r := Chase(t, gp, pnodes, ih, hop, draws);
      15 * QuestionsTo(r.sent, k) + Tokens(r.gp, Q_GP_RATES, k) <= Tokens(gp, Q_GP_RATES, k)
    decreases |pnodes|
  {
    if pnodes != [] {
      ChaseStep(t, gp, pnodes, ih, hop, draws);
      var key := GpKey(PeerinfoOf(pnodes[0]), ih);
      WithdrawIsDense(gp, Q_GP_RATES, key, k);
      var gp' := WithdrawFrom(gp, Q_GP_RATES, key);
      if !Handler.Allowed(gp, Q_GP_RATES, key) {
        ChasePays(t, gp', pnodes[1..], ih, hop, draws, k);
      } else if draws != [] && draws[0].Some? {
        var tok := draws[0].value;
        var t' := Register(t, NidOf(pnodes[0]), ih, hop, tok);
        ChasePays(t', gp', pnodes[1..], ih, hop, draws[1..], k);
        KeyOfQuestion(pnodes[0], ih, tok);
        var rest := Chase(t', gp', pnodes[1..], ih, hop, draws[1..]).sent;
        assert ([QuestionTo(pnodes[0], ih, tok)] + rest)[1..] == rest;
      }
    }
  }

  /** The follow-up questions under one key sent in a history: those sent while a reply was
      handled. The first question of a pursuit, sent for a query, is not limited. */
  ghost function FollowUps(w: World, h: seq<Event>, k: Bytes): nat
    requires ValidWorld(w) && ValidHistory(h)
    decreases |h|
  {
    if h == [] then 0
    else
      var n := |h| - 1;
      FollowUps(w, h[..n], k) + if Accepts(h, n, RGp) then QuestionsTo(SentBy(w, h, n), k) else 0
  }

  lemma HopsPay(t: Table, gp: Buckets, next: NextHop, draws: seq<Option<U16>>, k: Bytes)
    requires Sparse(gp, Q_GP_RATES)
    ensures var r := ChaseHops(t, gp, next, draws);
      15 * QuestionsTo(r.sent, k) + Tokens(r.gp, Q_GP_RATES, k) <= Tokens(gp, Q_GP_RATES, k)
  {
    ChasePays(t, gp, next.pnodes, next.ih, next.hop + 1, draws, k);
  }

  lemma HitAsks(v: World, g: Datagram, f: Fields, cell: Cell, k: Bytes)
    requires ValidWorld(v) && Shaped(f) && |TokBytes(f)| == 3 && FollowUp(v, g, f).Done?
    requires LookupTok(v.gpm, TokBytes(f), NihAt(f.nid)) == Hit(cell)
    ensures var p := ChaseHops(v.gpm, v.gp, NextHopOf(cell, NodesOf(f)), g.draws);
      FollowUp(v, g, f).w.gp == p.gp && QuestionsTo(FollowUp(v, g, f).sent, k) == QuestionsTo(p.sent, k)
  {
    FollowUpHit(v, g, f, cell);
    SweepAsksNothing(v.pg, NodesOf(f), k);
    QuestionsConcat(Sweep(v.pg, NodesOf(f)).1, ChaseHops(v.gpm, v.gp, NextHopOf(cell, NodesOf(f)), g.draws).sent, k);
  }

  lemma FollowUpAsks(v: World, g: Datagram, f: Fields, k: Bytes)
    requires ValidWorld(v) && Shaped(f) && |TokBytes(f)| == 3 && FollowUp(v, g, f).Done?
    ensures var r := FollowUp(v, g, f);
      15 * QuestionsTo(r.sent, k) + Tokens(r.w.gp, Q_GP_RATES, k) <= Tokens(v.gp, Q_GP_RATES, k)
  {
    var l := LookupTok(v.gpm, TokBytes(f), NihAt(f.nid));
    if l.Hit? {
      HitAsks(v, g, f, l.cell, k);
      HopsPay(v.gpm, v.gp, NextHopOf(l.cell, NodesOf(f)), g.draws, k);
    } else {
      FollowUpMiss(v, g, f);
      SweepAsksNothing(v.pg, NodesOf(f), k);
    }
  }

  lemma ReplyAsks(v: World, g: Datagram, f: Fields, k: Bytes)
    requires ValidWorld(v) && ValidDatagram(g) && Shaped(f) && |TokBytes(f)| == 3 && OnRGp(v, g, f).Done?
    ensures var r := OnRGp(v, g, f);
      15 * QuestionsTo(r.sent, k) + Tokens(r.w.gp, Q_GP_RATES, k) <= Tokens(v.gp, Q_GP_RATES, k)
  {
    if f.nNodes > 0 {
      if f.nPeers > 0 {
        InsertKeepsCells(v.rt, NihAt(f.nid).value, SenderOf(g));
        FollowUpAsks(v.(rt := RoutingTable.InsertAt(v.rt, NihAt(f.nid).value, SenderOf(g))), g, f, k);
      } else {
        FollowUpAsks(v, g, f, k);
      }
    }
  }

  lemma OthersKeepGp(v: World, g: Datagram, m: Method, f: Fields)
    requires ValidWorld(v) && ValidDatagram(g) && Shaped(f) && m != RGp
    ensures Dispatch(v, g, m, f).Done? ==> Dispatch(v, g, m, f).w.gp == v.gp
  {
  }

  lemma HandleAsks(v: World, g: Datagram, k: Bytes)
    requires ValidWorld(v) && ValidDatagram(g) && Handle(v, g).Done?
    ensures var r := Handle(v, g); var asked := Decode(g.msg).Accepted? && Decode(g.msg).meth == RGp;
      (if asked then 15 * QuestionsTo(r.sent, k) else 0) + Tokens(r.w.gp, Q_GP_RATES, k) <= Tokens(v.gp, Q_GP_RATES, k)
  {
    WithdrawIsDense(v.rx, RX_RATES, g.ip, g.ip);
    var v1 := v.(rx := WithdrawFrom(v.rx, RX_RATES, g.ip));
    if LookedAt(v, g) && Decode(g.msg).Accepted? {
      AcceptedShaped(g.msg);
      if Decode(g.msg).meth == RGp {
        GetPeersReplyShape(g.msg);
        ReplyAsks(v1, g, Decode(g.msg).f, k);
      } else {
        OthersKeepGp(v1, g, Decode(g.msg).meth, Decode(g.msg).f);
      }
    }
  }

  /** Over every history, the follow-up questions under one key, at fifteen tokens each, are
      covered by one full bucket and one token per epoch. */
  lemma {:induction false} FollowUpsAreLimited(w: World, h: seq<Event>, k: Bytes)
    requires ValidWorld(w) && ValidHistory(h)
    ensures After(w, h).Some? ==>
      15 * FollowUps(w, h, k) + Tokens(After(w, h).value.gp, Q_GP_RATES, k) <= 15 + Elapses(h)
    decreases |h|
  {
    if h == [] {
      TokensCapped(w.gp, Q_GP_RATES, k);
    } else {
      var n := |h| - 1;
      FollowUpsAreLimited(w, h[..n], k);
      var v := After(w, h[..n]);
      if v.Some? {
        match h[n] {
          case Elapsed => ReplenishIsDense(v.value.gp, Q_GP_RATES, k);
          case Received(g) =>
            if Handle(v.value, g).Done? {
              HandleAsks(v.value, g, k);
            }
        }
      }
    }
  }
}
