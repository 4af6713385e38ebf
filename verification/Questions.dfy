// The get-peers questions a datagram makes the crawler ask. They determine both the
// messages that go out and what becomes of the table of pursuits.

module Questions {
  import opened Dht
  import opened Krpc
  import opened Message
  import opened Gpm
  import opened SpamFilter
  import opened Handler

  /** A get-peers question: asked while handling event `at`, of the contact `node`, about the
      info hash `ih`, under the token `tok`, `hop` replies behind the query that began it. */
  datatype Ask = Ask(at: nat, node: PNode, ih: Nih, hop: nat, tok: U16)

  /** The message that puts a question to a contact. */
  function QuestionTo(p: PNode, ih: Nih, tok: U16): Sent {
    Sent(PeerinfoOf(p), TxQGp, QGpMsg(NidOf(p), ih, tok))
  }

  function MessageOf(a: Ask): Sent { QuestionTo(a.node, a.ih, a.tok) }

  function QuestionOf(a: Ask): Question { Question(NidOf(a.node), a.ih, a.hop, a.tok) }

  /** The messages that put the questions, in order. */
  function Messages(asks: seq<Ask>): (r: seq<Sent>)
    ensures |r| == |asks|
    decreases |asks|
  {
    if asks == [] then [] else [MessageOf(asks[0])] + Messages(asks[1..])
  }

  /** Their registrations, in order. */
  function Registrations(asks: seq<Ask>): (r: seq<Question>)
    ensures |r| == |asks|
  {
    seq(|asks|, i requires 0 <= i < |asks| => QuestionOf(asks[i]))
  }

  lemma {:induction false} MessagesConcat(a: seq<Ask>, b: seq<Ask>)
    ensures Messages(a + b) == Messages(a) + Messages(b)
    decreases |a|
  {
    if a == [] {
      assert a + b == b;
    } else {
      assert (a + b)[1..] == a[1..] + b;
      MessagesConcat(a[1..], b);
    }
  }

  lemma RegistrationsConcat(a: seq<Ask>, b: seq<Ask>)
    ensures Registrations(a + b) == Registrations(a) + Registrations(b)
  {
    forall i | 0 <= i < |a| + |b| ensures Registrations(a + b)[i] == (Registrations(a) + Registrations(b))[i] {}
  }

  lemma {:induction false} RunQuestionsConcat(t: Table, a: seq<Question>, b: seq<Question>)
    ensures RunQuestions(t, a + b) == RunQuestions(RunQuestions(t, a), b)
    decreases |b|
  {
    if b == [] {
      assert a + b == a;
    } else {
      var n := |b| - 1;
      assert (a + b)[..|a + b| - 1] == a + b[..n];
      RunQuestionsConcat(t, a, b[..n]);
    }
  }

  // ----- the questions of one pursuit -----

  /** The questions asked of the hops of a reply. */
  function Asking(gp: Buckets, pnodes: seq<PNode>, ih: Nih, hop: nat, draws: seq<Option<U16>>, at: nat): (r: seq<Ask>)
    requires Sparse(gp, Q_GP_RATES)
    ensures forall a :: a in r ==> a.at == at && a.ih == ih && a.hop == hop && a.node in pnodes
    decreases |pnodes|
  {
    if pnodes == [] then []
    else
      var key := GpKey(PeerinfoOf(pnodes[0]), ih);
      WithdrawIsDense(gp, Q_GP_RATES, key, key);
      var gp' := WithdrawFrom(gp, Q_GP_RATES, key);
      if !Handler.Allowed(gp, Q_GP_RATES, key) then Asking(gp', pnodes[1..], ih, hop, draws, at)
      else if draws == [] || draws[0] == None then []
      else [Ask(at, pnodes[0], ih, hop, draws[0].value)] + Asking(gp', pnodes[1..], ih, hop, draws[1..], at)
  }

  lemma OneMore(t: Table, a: Ask, rest: seq<Ask>)
    ensures Messages([a] + rest) == [MessageOf(a)] + Messages(rest)
    ensures RunQuestions(t, Registrations([a] + rest))
      == RunQuestions(Register(t, NidOf(a.node), a.ih, a.hop, a.tok), Registrations(rest))
  {
    RegistrationsConcat([a], rest);
    RunQuestionsConcat(t, Registrations([a]), Registrations(rest));
    assert Registrations([a]) == [QuestionOf(a)];
    assert [QuestionOf(a)][..0] == [];
    assert ([a] + rest)[1..] == rest;
  }

  /** A pursuit registers and sends these questions, in order. */
  ghost predicate Puts(t: Table, p: Pursued, asks: seq<Ask>) {
    p.gpm == RunQuestions(t, Registrations(asks)) && p.sent == Messages(asks)
  }

  lemma PutsOneMore(t: Table, p: Pursued, a: Ask, rest: seq<Ask>)
    requires Puts(Register(t, NidOf(a.node), a.ih, a.hop, a.tok), p, rest)
    ensures Puts(t, Sending(MessageOf(a), p), [a] + rest)
  {
    OneMore(t, a, rest);
  }

  /** What a pursuit registers and sends are the questions it asks. */
  lemma {:induction false} ChaseAsks(t: Table, gp: Buckets, pnodes: seq<PNode>, ih: Nih, hop: nat,
                                     draws: seq<Option<U16>>, at: nat)
    requires Sparse(gp, Q_GP_RATES)
    ensures Puts(t, Chase(t, gp, pnodes, ih, hop, draws), Asking(gp, pnodes, ih, hop, draws, at))
    decreases |pnodes|
  {
    if pnodes != [] {
      ChaseStep(t, gp, pnodes, ih, hop, draws);
      var key := GpKey(PeerinfoOf(pnodes[0]), ih);
      var gp' := WithdrawFrom(gp, Q_GP_RATES, key);
      if !Handler.Allowed(gp, Q_GP_RATES, key) {
        ChaseAsks(t, gp', pnodes[1..], ih, hop, draws, at);
      } else if draws != [] && draws[0].Some? {
        var tok := draws[0].value;
        var t' := Register(t, NidOf(pnodes[0]), ih, hop, tok);
        ChaseAsks(t', gp', pnodes[1..], ih, hop, draws[1..], at);
        PutsOneMore(t, Chase(t', gp', pnodes[1..], ih, hop, draws[1..]), Ask(at, pnodes[0], ih, hop, tok),
                    Asking(gp', pnodes[1..], ih, hop, draws[1..], at));
      }
    }
  }

  /** The questions asked of the hops of a lookup. */
  function HopAsks(gp: Buckets, next: NextHop, draws: seq<Option<U16>>, at: nat): seq<Ask>
    requires Sparse(gp, Q_GP_RATES)
  {
    Asking(gp, next.pnodes, next.ih, next.hop + 1, draws, at)
  }

  // ----- the questions of one datagram -----

  /** A get-peers query leads to the first question of a pursuit, if a token was drawn. */
  function FirstAsk(v: World, g: Datagram, f: Fields, at: nat): seq<Ask>
    requires ValidWorld(v) && ValidDatagram(g) && Shaped(f)
  {
    if f.ih == None || f.nid == None || g.draws == [] || g.draws[0] == None then []
    else
      var ih := NihAt(f.ih).value;
      [Ask(at, FirstHop(v.rt, ih, NihAt(f.nid).value, g), ih, 0, g.draws[0].value)]
  }

  /** A get-peers reply that answers a question leads to questions one hop further. */
  function NextAsks(t: Table, gp: Buckets, f: Fields, draws: seq<Option<U16>>, at: nat): seq<Ask>
    requires Sparse(gp, Q_GP_RATES) && Shaped(f)
  {
    if |TokBytes(f)| != 3 || f.nNodes == 0 then []
    else
      match LookupTok(t, TokBytes(f), NihAt(f.nid))
      case Hit(cell) => HopAsks(gp, NextHopOf(cell, NodesOf(f)), draws, at)
      case _ => []
  }

  function AsksFor(v: World, g: Datagram, m: Method, f: Fields, at: nat): seq<Ask>
    requires ValidWorld(v) && ValidDatagram(g) && Shaped(f)
  {
    if m == QGp then FirstAsk(v, g, f, at) else if m == RGp then NextAsks(v.gpm, v.gp, f, g.draws, at) else []
  }

  /** A datagram passes the length check and the rate limit on its sender. */
  predicate LookedAt(v: World, g: Datagram) {
    !Ignored(|g.msg|) && Handler.Allowed(v.rx, RX_RATES, g.ip)
  }

  /** The questions asked while handling a datagram. */
  function AsksIn(v: World, g: Datagram, at: nat): seq<Ask>
    requires ValidWorld(v) && ValidDatagram(g)
  {
    if !LookedAt(v, g) || !Decode(g.msg).Accepted? then []
    else AcceptedShaped(g.msg); AsksFor(v, g, Decode(g.msg).meth, Decode(g.msg).f, at)
  }

  // ----- they are the get-peers messages sent -----

  /** The get-peers messages among those sent, in order. */
  function GetPeers(sent: seq<Sent>): (r: seq<Sent>)
    ensures forall s :: s in r <==> s in sent && s.acct == TxQGp
  {
    if sent == [] then [] else (if sent[0].acct == TxQGp then [sent[0]] else []) + GetPeers(sent[1..])
  }

  /** The question a get-peers message puts. */
  lemma MessageFrom(sent: seq<Sent>, asks: seq<Ask>, s: Sent) returns (a: Ask)
    requires GetPeers(sent) == Messages(asks) && s in sent && s.acct == TxQGp
    ensures a in asks && MessageOf(a) == s
  {
    assert s in GetPeers(sent);
    a := AskOf(asks, s);
  }

  lemma {:induction false} AskOf(asks: seq<Ask>, s: Sent) returns (a: Ask)
    requires s in Messages(asks)
    ensures a in asks && MessageOf(a) == s
    decreases |asks|
  {
    if MessageOf(asks[0]) == s {
      a := asks[0];
    } else {
      a := AskOf(asks[1..], s);
    }
  }

  lemma {:induction false} GetPeersConcat(a: seq<Sent>, b: seq<Sent>)
    ensures GetPeers(a + b) == GetPeers(a) + GetPeers(b)
    decreases |a|
  {
    if a == [] {
      assert a + b == b;
    } else {
      assert (a + b)[1..] == a[1..] + b;
      GetPeersConcat(a[1..], b);
    }
  }

  lemma {:induction false} AllGetPeers(asks: seq<Ask>)
    ensures GetPeers(Messages(asks)) == Messages(asks)
    decreases |asks|
  {
    if asks != [] {
      AllGetPeers(asks[1..]);
      GetPeersFirst(MessageOf(asks[0]), Messages(asks[1..]));
    }
  }

  lemma GetPeersFirst(s: Sent, rest: seq<Sent>)
    requires s.acct == TxQGp
    ensures GetPeers([s] + rest) == [s] + GetPeers(rest)
  {
    assert ([s] + rest)[1..] == rest;
  }

  lemma {:induction false} NoGetPeers(sent: seq<Sent>)
    requires forall i :: 0 <= i < |sent| ==> sent[i].acct != TxQGp
    ensures GetPeers(sent) == []
    decreases |sent|
  {
    if sent != [] {
      NoGetPeers(sent[1..]);
    }
  }

  lemma {:induction false} SweepAsksNothing(pg: Buckets, nodes: seq<PNode>)
    requires Sparse(pg, PING_RATES)
    ensures GetPeers(Sweep(pg, nodes).1) == []
    decreases |nodes|
  {
    if nodes != [] {
      SweepStep(pg, nodes);
      var rest := Sweep(WithdrawFrom(pg, PING_RATES, InAddr(PeerinfoOf(nodes[0]))), nodes[1..]).1;
      var ping := Sent(PeerinfoOf(nodes[0]), TxQPg, QPgMsg(NidOf(nodes[0])));
      SweepAsksNothing(WithdrawFrom(pg, PING_RATES, InAddr(PeerinfoOf(nodes[0]))), nodes[1..]);
      assert [] + rest == rest;
      assert ([ping] + rest)[1..] == rest;
    }
  }

  lemma OnlyGetPeers(before: seq<Sent>, among: seq<Sent>, behind: seq<Sent>)
    requires GetPeers(before) == [] && GetPeers(among) == among && GetPeers(behind) == []
    ensures GetPeers(before + among + behind) == among
  {
    GetPeersConcat(before + among, behind);
    GetPeersConcat(before, among);
  }

  /** The outcome of handling something registers the questions asked and sends them. */
  ghost predicate Carries(t: Table, r: Handled, asks: seq<Ask>) {
    r.Done? ==> r.w.gpm == RunQuestions(t, Registrations(asks)) && GetPeers(r.sent) == Messages(asks)
  }

  /** The asks of a pursuit, behind the pings of a sweep. */
  lemma PursuitCarries(t: Table, r: Handled, asks: seq<Ask>, pings: seq<Sent>, p: Pursued)
    requires Puts(t, p, asks) && GetPeers(pings) == []
    requires r.Done? && r.w.gpm == p.gpm && r.sent == pings + p.sent
    ensures Carries(t, r, asks)
  {
    AllGetPeers(asks);
    OnlyGetPeers(pings, p.sent, []);
    assert pings + p.sent + [] == pings + p.sent;
  }

  lemma HopsCarry(t: Table, gp: Buckets, next: NextHop, draws: seq<Option<U16>>, at: nat)
    requires Sparse(gp, Q_GP_RATES)
    ensures Puts(t, ChaseHops(t, gp, next, draws), HopAsks(gp, next, draws, at))
  {
    ChaseAsks(t, gp, next.pnodes, next.ih, next.hop + 1, draws, at);
  }

  lemma HitCarries(v: World, g: Datagram, f: Fields, at: nat, cell: Cell)
    requires ValidWorld(v) && Shaped(f) && |TokBytes(f)| == 3
    requires LookupTok(v.gpm, TokBytes(f), NihAt(f.nid)) == Hit(cell)
    ensures Carries(v.gpm, FollowUp(v, g, f), HopAsks(v.gp, NextHopOf(cell, NodesOf(f)), g.draws, at))
  {
    FollowUpHit(v, g, f, cell);
    var next, pings := NextHopOf(cell, NodesOf(f)), Sweep(v.pg, NodesOf(f)).1;
    HopsCarry(v.gpm, v.gp, next, g.draws, at);
    SweepAsksNothing(v.pg, NodesOf(f));
    PursuitCarries(v.gpm, FollowUp(v, g, f), HopAsks(v.gp, next, g.draws, at), pings, ChaseHops(v.gpm, v.gp, next, g.draws));
  }

  lemma FollowUpCarries(v: World, g: Datagram, f: Fields, at: nat)
    requires ValidWorld(v) && Shaped(f) && |TokBytes(f)| == 3 && f.nNodes > 0
    ensures Carries(v.gpm, FollowUp(v, g, f), NextAsks(v.gpm, v.gp, f, g.draws, at))
  {
    var l := LookupTok(v.gpm, TokBytes(f), NihAt(f.nid));
    if l.Hit? {
      HitCarries(v, g, f, at, l.cell);
    } else if l.Miss? {
      FollowUpMiss(v, g, f);
      SweepAsksNothing(v.pg, NodesOf(f));
    }
  }

  lemma ReplyCarries(v: World, g: Datagram, f: Fields, at: nat)
    requires ValidWorld(v) && ValidDatagram(g) && Shaped(f) && |TokBytes(f)| == 3
    ensures Carries(v.gpm, OnRGp(v, g, f), NextAsks(v.gpm, v.gp, f, g.draws, at))
  {
    if f.nNodes == 0 {
      NothingAsked(v.gpm);
    } else if f.nPeers > 0 && f.nid.Some? {
      InsertKeepsCells(v.rt, NihAt(f.nid).value, SenderOf(g));
      FollowUpCarries(v.(rt := RoutingTable.InsertAt(v.rt, NihAt(f.nid).value, SenderOf(g))), g, f, at);
    } else if f.nPeers == 0 {
      FollowUpCarries(v, g, f, at);
    }
  }

  lemma NothingAsked(t: Table)
    ensures RunQuestions(t, Registrations([])) == t && GetPeers([]) == Messages([])
  {
  }

  lemma InsertKeepsCells(rt: seq<RoutingTable.Nodeinfo>, nid: Nih, p: Peerinfo)
    requires RoutingTable.ValidCells(rt)
    ensures RoutingTable.ValidCells(RoutingTable.InsertAt(rt, nid, p))
  {
    RoutingTable.StepCellsValid(rt, RoutingTable.Insert(nid, p));
  }

  /** One question and a reply behind it. */
  lemma QuestionCarries(t: Table, r: Handled, a: Ask, reply: Sent)
    requires r.Done? && r.sent == [MessageOf(a), reply] && reply.acct != TxQGp
    requires r.w.gpm == Register(t, NidOf(a.node), a.ih, a.hop, a.tok)
    ensures Carries(t, r, [a])
  {
    NothingAsked(r.w.gpm);
    OneMore(t, a, []);
    assert [a] == [a] + [];
    NoGetPeers([reply]);
    AllGetPeers([a]);
    assert Messages([a]) == [MessageOf(a)];
    OnlyGetPeers([], Messages([a]), [reply]);
    assert [] + Messages([a]) + [reply] == r.sent;
  }

  lemma QueryCarries(v: World, g: Datagram, f: Fields, at: nat)
    requires ValidWorld(v) && ValidDatagram(g) && Shaped(f)
    ensures Carries(v.gpm, OnQGp(v, g, f), FirstAsk(v, g, f, at))
  {
    var asks, r := FirstAsk(v, g, f, at), OnQGp(v, g, f);
    if asks != [] {
      QuestionCarries(v.gpm, r, asks[0], r.sent[1]);
    } else if r.Done? {
      NoGetPeers(r.sent);
      NothingAsked(v.gpm);
    }
  }

  lemma OthersCarry(v: World, g: Datagram, m: Method, f: Fields)
    requires ValidWorld(v) && ValidDatagram(g) && Shaped(f) && m != RGp && m != QGp
    ensures Carries(v.gpm, Dispatch(v, g, m, f), [])
  {
    NothingAsked(v.gpm);
    if m == RFn {
      SweepAsksNothing(v.pg, NodesOf(f));
    } else if Dispatch(v, g, m, f).Done? {
      NoGetPeers(Dispatch(v, g, m, f).sent);
    }
  }

  lemma DispatchCarries(v: World, g: Datagram, m: Method, f: Fields, at: nat)
    requires ValidWorld(v) && ValidDatagram(g) && Shaped(f) && (m == RGp ==> |TokBytes(f)| == 3)
    ensures Carries(v.gpm, Dispatch(v, g, m, f), AsksFor(v, g, m, f, at))
  {
    if m == RGp {
      ReplyCarries(v, g, f, at);
    } else if m == QGp {
      QueryCarries(v, g, f, at);
    } else {
      OthersCarry(v, g, m, f);
    }
  }

  /** A datagram that is looked at and accepted goes to the case of its method. */
  lemma HandleIs(w: World, g: Datagram)
    requires ValidWorld(w) && ValidDatagram(g) && LookedAt(w, g) && Decode(g.msg).Accepted?
    ensures var m, f := Decode(g.msg).meth, Decode(g.msg).f;
      var w1 := w.(rx := WithdrawFrom(w.rx, RX_RATES, g.ip));
      && ValidWorld(w1) && Shaped(f) && (m == RGp ==> |TokBytes(f)| == 3)
      && Handle(w, g) == Dispatch(w1, g, m, f)
  {
    WithdrawIsDense(w.rx, RX_RATES, g.ip, g.ip);
    AcceptedShaped(g.msg);
    if Decode(g.msg).meth == RGp { GetPeersReplyShape(g.msg); }
  }

  /** Handling a datagram registers and sends exactly the questions it leads to, in order. */
  lemma HandleCarries(v: World, g: Datagram, at: nat)
    requires ValidWorld(v) && ValidDatagram(g)
    ensures Carries(v.gpm, Handle(v, g), AsksIn(v, g, at))
  {
    NothingAsked(v.gpm);
    if LookedAt(v, g) && Decode(g.msg).Accepted? {
      HandleIs(v, g);
      DispatchCarries(v.(rx := WithdrawFrom(v.rx, RX_RATES, g.ip)), g, Decode(g.msg).meth, Decode(g.msg).f, at);
    } else {
      OthersDoLittle(v, g);
    }
  }

  /** Any other datagram crashes the crawler, or leaves all but the limit on senders alone. */
  lemma OthersDoLittle(v: World, g: Datagram)
    requires ValidWorld(v) && ValidDatagram(g) && !(LookedAt(v, g) && Decode(g.msg).Accepted?)
    ensures var r := Handle(v, g); r.Done? ==> r.w == v.(rx := r.w.rx) && r.sent == []
  {
    WithdrawIsDense(v.rx, RX_RATES, g.ip, g.ip);
  }
}
