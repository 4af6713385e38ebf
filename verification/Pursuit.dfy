// Properties of whole runs of the crawler: over any history of datagrams, draws and
// epochs, what the tables hold can be traced back to the messages received.

module Pursuit {
  import opened Dht
  import opened Krpc
  import opened Message
  import opened Hops
  import opened Gpm
  import opened SpamFilter
  import opened Handler
  import opened Questions
  import opened Causes

  datatype Event = Received(g: Datagram) | Elapsed

  ghost predicate ValidHistory(h: seq<Event>) {
    forall i :: 0 <= i < |h| && h[i].Received? ==> ValidDatagram(h[i].g)
  }

  // ----- every step keeps the world valid -----

  lemma DispatchKeepsValid(w: World, g: Datagram, m: Method, f: Fields)
    requires ValidWorld(w) && ValidDatagram(g) && Shaped(f) && (m == RGp ==> |TokBytes(f)| == 3)
    ensures var r := Dispatch(w, g, m, f); r.Done? ==> ValidWorld(r.w)
  {
    if f.nid.Some? {
      InsertKeepsCells(w.rt, NihAt(f.nid).value, SenderOf(g));
      InsertKeepsCells(w.rt, NihAt(f.nid).value, SenderHostOrder(g));
    }
  }

  lemma HandleKeepsValid(w: World, g: Datagram)
    requires ValidWorld(w) && ValidDatagram(g)
    ensures Handle(w, g).Done? ==> ValidWorld(Handle(w, g).w)
  {
    WithdrawIsDense(w.rx, RX_RATES, g.ip, g.ip);
    var w1 := w.(rx := WithdrawFrom(w.rx, RX_RATES, g.ip));
    if !Ignored(|g.msg|) && Allowed(w.rx, RX_RATES, g.ip) && Decode(g.msg).Accepted? {
      AcceptedShaped(g.msg);
      if Decode(g.msg).meth == RGp { GetPeersReplyShape(g.msg); }
      DispatchKeepsValid(w1, g, Decode(g.msg).meth, Decode(g.msg).f);
    }
  }

  lemma TickKeepsValid(w: World)
    requires ValidWorld(w)
    ensures ValidWorld(Tick(w))
  {
  }

  /** The world after a history, unless the process crashed. */
  ghost function After(w: World, h: seq<Event>): (r: Option<World>)
    requires ValidWorld(w) && ValidHistory(h)
    ensures r.Some? ==> ValidWorld(r.value)
    decreases |h|
  {
    if h == [] then Some(w)
    else
      var n := |h| - 1;
      match After(w, h[..n])
      case None => None
      case Some(v) =>
        match h[n]
        case Elapsed => TickKeepsValid(v); Some(Tick(v))
        case Received(g) =>
          HandleKeepsValid(v, g);
          if Handle(v, g).Done? then Some(Handle(v, g).w) else None
  }

  /** The messages sent while handling event i. */
  ghost function SentBy(w: World, h: seq<Event>, i: nat): seq<Sent>
    requires ValidWorld(w) && ValidHistory(h) && i < |h|
  {
    var v := After(w, h[..i]);
    if v.Some? && h[i].Received? && Handle(v.value, h[i].g).Done? then Handle(v.value, h[i].g).sent else []
  }

  /** Event i is an accepted message with the given method. */
  ghost predicate Accepts(h: seq<Event>, i: nat, m: Method) {
    && i < |h| && h[i].Received?
    && Decode(h[i].g.msg).Accepted? && Decode(h[i].g.msg).meth == m
  }

  ghost function FieldsAt(h: seq<Event>, i: nat, m: Method): (f: Fields)
    requires Accepts(h, i, m)
    ensures Shaped(f)
  {
    AcceptedShaped(h[i].g.msg);
    Decode(h[i].g.msg).f
  }

  // ----- the questions asked in a history -----

  /** The questions asked while handling event i. */
  ghost function AsksBy(w: World, h: seq<Event>, i: nat): (r: seq<Ask>)
    requires ValidWorld(w) && ValidHistory(h) && i < |h|
    ensures forall a :: a in r ==> a.at == i
  {
    var v := After(w, h[..i]);
    if v.Some? && h[i].Received? && Handle(v.value, h[i].g).Done? then AsksIn(v.value, h[i].g, i) else []
  }

  ghost function AskLog(w: World, h: seq<Event>): (r: seq<seq<Ask>>)
    requires ValidWorld(w) && ValidHistory(h)
    ensures |r| == |h|
  {
    seq(|h|, i requires 0 <= i < |h| => AsksBy(w, h, i))
  }

  ghost function SentLog(w: World, h: seq<Event>): (r: seq<seq<Sent>>)
    requires ValidWorld(w) && ValidHistory(h)
    ensures |r| == |h|
  {
    seq(|h|, i requires 0 <= i < |h| => SentBy(w, h, i))
  }

  /** All questions asked in a history, in order. */
  ghost function Asks(w: World, h: seq<Event>): seq<Ask>
    requires ValidWorld(w) && ValidHistory(h)
  {
    Flat(AskLog(w, h))
  }

  /** All messages sent in a history, in order. */
  ghost function AllSent(w: World, h: seq<Event>): seq<Sent>
    requires ValidWorld(w) && ValidHistory(h)
  {
    Flat(SentLog(w, h))
  }

  lemma LogPrefix(w: World, h: seq<Event>, at: nat)
    requires ValidWorld(w) && ValidHistory(h) && at <= |h|
    ensures AskLog(w, h[..at]) == AskLog(w, h)[..at] && SentLog(w, h[..at]) == SentLog(w, h)[..at]
  {
    forall i | 0 <= i < at
      ensures AskLog(w, h[..at])[i] == AskLog(w, h)[i] && SentLog(w, h[..at])[i] == SentLog(w, h)[i]
    {
      assert h[..at][..i] == h[..i];
    }
  }

  lemma EventCarries(w: World, h: seq<Event>, i: nat)
    requires ValidWorld(w) && ValidHistory(h) && i < |h|
    ensures GetPeers(SentBy(w, h, i)) == Messages(AsksBy(w, h, i))
  {
    var v := After(w, h[..i]);
    assert GetPeers([]) == Messages([]);
    if v.Some? && h[i].Received? {
      HandleCarries(v.value, h[i].g, i);
    }
  }

  lemma {:induction false} LogsAgree(asks: seq<seq<Ask>>, sent: seq<seq<Sent>>)
    requires |asks| == |sent|
    requires forall i :: 0 <= i < |asks| ==> GetPeers(sent[i]) == Messages(asks[i])
    ensures GetPeers(Flat(sent)) == Messages(Flat(asks))
    decreases |asks|
  {
    if asks != [] {
      var n := |asks| - 1;
      LogsAgree(asks[..n], sent[..n]);
      GetPeersConcat(Flat(sent[..n]), sent[n]);
      MessagesConcat(Flat(asks[..n]), asks[n]);
    }
  }

  /** The get-peers messages sent in a history are those that put its questions, in order. */
  lemma QuestionsAreSent(w: World, h: seq<Event>)
    requires ValidWorld(w) && ValidHistory(h)
    ensures GetPeers(AllSent(w, h)) == Messages(Asks(w, h))
  {
    forall i | 0 <= i < |h| ensures GetPeers(SentLog(w, h)[i]) == Messages(AskLog(w, h)[i]) {
      EventCarries(w, h, i);
    }
    LogsAgree(AskLog(w, h), SentLog(w, h));
  }

  lemma AsksStep(w: World, h: seq<Event>)
    requires ValidWorld(w) && ValidHistory(h) && h != []
    ensures Asks(w, h) == Asks(w, h[..|h| - 1]) + AsksBy(w, h, |h| - 1)
  {
    LogPrefix(w, h, |h| - 1);
  }

  lemma TableStep(t: Table, t1: Table, t2: Table, a: seq<Ask>, b: seq<Ask>)
    requires t1 == RunQuestions(t, Registrations(a)) && t2 == RunQuestions(t1, Registrations(b))
    ensures t2 == RunQuestions(t, Registrations(a + b))
  {
    RegistrationsConcat(a, b);
    RunQuestionsConcat(t, Registrations(a), Registrations(b));
  }

  /** At any time the table of pursuits is the outcome of registering the questions asked so
      far, in order. */
  lemma {:induction false} TableIsQuestions(w: World, h: seq<Event>)
    requires ValidWorld(w) && ValidHistory(h)
    ensures After(w, h).Some? ==> After(w, h).value.gpm == RunQuestions(w.gpm, Registrations(Asks(w, h)))
    decreases |h|
  {
    if h == [] {
      NothingAsked(w.gpm);
    } else {
      var n := |h| - 1;
      TableIsQuestions(w, h[..n]);
      AsksStep(w, h);
      var v := After(w, h[..n]);
      if v.Some? && After(w, h).Some? {
        if h[n].Received? {
          HandleCarries(v.value, h[n].g, n);
        } else {
          NothingAsked(v.value.gpm);
        }
        TableStep(w.gpm, v.value.gpm, After(w, h).value.gpm, Asks(w, h[..n]), AsksBy(w, h, n));
      }
    }
  }

  /** So over any history a reply is tied to a question exactly when the latest registered
      question under its token was put to a node with the checksum of its sender. */
  lemma AnswersBelongToAsks(w: World, h: seq<Event>, tok: Bytes, nid: Nih, cell: Cell)
    requires ValidWorld(w) && ValidHistory(h) && NoneSet(w.gpm) && After(w, h).Some? && |tok| == 3
    ensures LookupTok(After(w, h).value.gpm, tok, Some(nid)) == Hit(cell)
      <==> exists i: nat :: IsLatest(Registrations(Asks(w, h)), i, LoadU16(tok))
                       && Checksum(NidOf(Asks(w, h)[i].node)) == Checksum(nid)
                       && cell == Cell(Asks(w, h)[i].ih, Checksum(nid), Asks(w, h)[i].hop, true)
  {
    TableIsQuestions(w, h);
    AnswersBelongToQuestions(w.gpm, Registrations(Asks(w, h)), tok, nid, cell);
  }

  /** Where question i was asked: the questions asked before are those of the events before. */
  lemma AskOrigin(w: World, h: seq<Event>, i: nat)
    requires ValidWorld(w) && ValidHistory(h) && i < |Asks(w, h)|
    ensures var a := Asks(w, h)[i];
      a.at < |h| && a in AsksBy(w, h, a.at) && |Asks(w, h[..a.at])| <= i && Asks(w, h[..a.at]) <= Asks(w, h)
  {
    var at, j := FlatOrigin(AskLog(w, h), i);
    LogPrefix(w, h, at);
    FlatPrefix(AskLog(w, h), at);
    assert AskLog(w, h)[at] == AsksBy(w, h, at);
  }

  // ----- provenance of pursuits -----

  /** A pursuit begins with a get-peers query for its info hash: the first question goes to
      the first hop of the routing table of that moment, if any. */
  ghost predicate Begins(w: World, h: seq<Event>, a: Ask)
    requires ValidWorld(w) && ValidHistory(h)
  {
    && Accepts(h, a.at, QGp) && a.hop == 0
    && var f := FieldsAt(h, a.at, QGp);
    && NihAt(f.ih) == Some(a.ih) && f.nid.Some?
    && var v := After(w, h[..a.at]);
    v.Some? && a.node == FirstHop(v.value.rt, a.ih, NihAt(f.nid).value, h[a.at].g)
  }

  /** A question was asked because of a get-peers reply to question k: the reply carries the
      token of question k, the latest registered under it at that time, and the checksum of
      the node asked; and the addressee is one of the hops selected from the reply. */
  ghost predicate Follows(w: World, h: seq<Event>, k: nat, a: Ask)
    requires ValidWorld(w) && ValidHistory(h)
  {
    && Accepts(h, a.at, RGp)
    && var f := FieldsAt(h, a.at, RGp);
    && var asks := Asks(w, h[..a.at]);
    && |TokBytes(f)| == 3 && IsLatest(Registrations(asks), k, LoadU16(TokBytes(f)))
    && var q := asks[k];
    && f.nid.Some? && Checksum(NihAt(f.nid).value) == Checksum(NidOf(q.node))
    && a.ih == q.ih && a.hop == q.hop + 1 && a.node in NextHops(q.ih, NodesOf(f))
  }

  /** A lookup that hits finds the latest registered question. */
  lemma HitIsAsk(w: World, h: seq<Event>, tok: Bytes, nid: Option<Nih>, cell: Cell) returns (k: nat)
    requires ValidWorld(w) && ValidHistory(h) && NoneSet(w.gpm) && After(w, h).Some? && |tok| == 3
    requires LookupTok(After(w, h).value.gpm, tok, nid) == Hit(cell)
    ensures IsLatest(Registrations(Asks(w, h)), k, LoadU16(tok)) && nid.Some?
    ensures var q := Asks(w, h)[k]; Checksum(NidOf(q.node)) == Checksum(nid.value) && cell.ih == q.ih && cell.hop == q.hop
  {
    AnswersBelongToAsks(w, h, tok, nid.value, cell);
    k :| IsLatest(Registrations(Asks(w, h)), k, LoadU16(tok))
         && Checksum(NidOf(Asks(w, h)[k].node)) == Checksum(nid.value)
         && cell == Cell(Asks(w, h)[k].ih, Checksum(nid.value), Asks(w, h)[k].hop, true);
  }

  /** The cell a reply hits, if questions follow from it. */
  lemma ReplyHits(v: World, f: Fields, draws: seq<Option<U16>>, at: nat, a: Ask) returns (cell: Cell)
    requires ValidWorld(v) && Shaped(f) && a in NextAsks(v.gpm, v.gp, f, draws, at)
    ensures |TokBytes(f)| == 3 && LookupTok(v.gpm, TokBytes(f), NihAt(f.nid)) == Hit(cell)
    ensures a.ih == cell.ih && a.hop == cell.hop + 1 && a.node in NextHops(cell.ih, NodesOf(f))
  {
    cell := LookupTok(v.gpm, TokBytes(f), NihAt(f.nid)).cell;
  }

  /** The world in which the questions of event `at` were asked, and the fields of its message. */
  lemma AskedIn(w: World, h: seq<Event>, a: Ask) returns (v: World, f: Fields)
    requires ValidWorld(w) && ValidHistory(h) && a.at < |h| && a in AsksBy(w, h, a.at)
    ensures After(w, h[..a.at]) == Some(v) && ValidWorld(v) && h[a.at].Received? && ValidDatagram(h[a.at].g) && Shaped(f)
    ensures Accepts(h, a.at, QGp) || Accepts(h, a.at, RGp)
    ensures Accepts(h, a.at, QGp) ==> FieldsAt(h, a.at, QGp) == f && a in FirstAsk(v, h[a.at].g, f, a.at)
    ensures Accepts(h, a.at, RGp) ==> FieldsAt(h, a.at, RGp) == f && a in NextAsks(v.gpm, v.gp, f, h[a.at].g.draws, a.at)
  {
    v, f := After(w, h[..a.at]).value, Decode(h[a.at].g.msg).f;
    AcceptedShaped(h[a.at].g.msg);
  }

  lemma AskFollows(w: World, h: seq<Event>, a: Ask, v: World, f: Fields) returns (k: nat)
    requires ValidWorld(w) && ValidHistory(h) && NoneSet(w.gpm)
    requires Accepts(h, a.at, RGp) && FieldsAt(h, a.at, RGp) == f && After(w, h[..a.at]) == Some(v)
    requires ValidWorld(v) && a in NextAsks(v.gpm, v.gp, f, h[a.at].g.draws, a.at)
    ensures Follows(w, h, k, a)
  {
    var cell := ReplyHits(v, f, h[a.at].g.draws, a.at, a);
    k := HitIsAsk(w, h[..a.at], TokBytes(f), NihAt(f.nid), cell);
  }

  lemma AskCaused(w: World, h: seq<Event>, a: Ask)
    requires ValidWorld(w) && ValidHistory(h) && NoneSet(w.gpm) && a.at < |h| && a in AsksBy(w, h, a.at)
    ensures Begins(w, h, a) || exists k: nat :: Follows(w, h, k, a)
  {
    var v, f := AskedIn(w, h, a);
    if Accepts(h, a.at, RGp) {
      var k := AskFollows(w, h, a, v, f);
    }
  }

  /** Question i is about the same info hash as question k, one hop further. */
  ghost predicate OneFurther(asks: seq<Ask>, k: nat, i: nat) {
    && k < |asks| && i < |asks|
    && asks[i].ih == asks[k].ih && asks[i].hop == asks[k].hop + 1 && asks[k].hop <= GP_MAX_HOPS
  }

  /** Question i begins a pursuit. */
  ghost predicate BeginsAt(w: World, h: seq<Event>, i: nat)
    requires ValidWorld(w) && ValidHistory(h)
  {
    i < |Asks(w, h)| && Begins(w, h, Asks(w, h)[i])
  }

  /** Question i was asked because of a reply to question k, a registered one. */
  ghost predicate Linked(w: World, h: seq<Event>, k: nat, i: nat)
    requires ValidWorld(w) && ValidHistory(h)
  {
    && k < i < |Asks(w, h)| && Follows(w, h, k, Asks(w, h)[i])
    && OneFurther(Asks(w, h), k, i)
  }

  lemma FollowsHops(w: World, h: seq<Event>, k: nat, a: Ask)
    requires ValidWorld(w) && ValidHistory(h) && Follows(w, h, k, a)
    ensures var asks := Asks(w, h[..a.at]);
      k < |asks| && a.ih == asks[k].ih && a.hop == asks[k].hop + 1 && asks[k].hop <= GP_MAX_HOPS
  {
    var asks := Asks(w, h[..a.at]);
    assert Registrations(asks)[k] == QuestionOf(asks[k]);
  }

  lemma FollowsIsLink(w: World, h: seq<Event>, k: nat, i: nat)
    requires ValidWorld(w) && ValidHistory(h) && i < |Asks(w, h)| && Follows(w, h, k, Asks(w, h)[i])
    ensures Linked(w, h, k, i)
  {
    AskOrigin(w, h, i);
    FollowsHops(w, h, k, Asks(w, h)[i]);
  }

  ghost function BeginsIn(w: World, h: seq<Event>): nat -> bool
    requires ValidWorld(w) && ValidHistory(h)
  {
    (i: nat) => BeginsAt(w, h, i)
  }

  ghost function LinkedIn(w: World, h: seq<Event>): (nat, nat) -> bool
    requires ValidWorld(w) && ValidHistory(h)
  {
    (k: nat, i: nat) => Linked(w, h, k, i)
  }

  lemma EveryAskIsCaused(w: World, h: seq<Event>, i: nat)
    requires ValidWorld(w) && ValidHistory(h) && NoneSet(w.gpm) && i < |Asks(w, h)|
    ensures Causes.Caused(BeginsIn(w, h), LinkedIn(w, h), i)
  {
    AskOrigin(w, h, i);
    AskCaused(w, h, Asks(w, h)[i]);
    if !Begins(w, h, Asks(w, h)[i]) {
      var k: nat :| Follows(w, h, k, Asks(w, h)[i]);
      FollowsIsLink(w, h, k, i);
      assert LinkedIn(w, h)(k, i);
    }
  }

  /** A chain of questions that leads to question i: the first was asked for a query for its
      info hash, each other one because of a reply to the one before. */
  ghost predicate ChainTo(w: World, h: seq<Event>, c: seq<nat>, i: nat)
    requires ValidWorld(w) && ValidHistory(h)
  {
    && IsChain(BeginsIn(w, h), LinkedIn(w, h), c, i)
    && OnePursuit(Asks(w, h), c)
  }

  /** The questions of a chain are about one info hash and one hop apart. */
  ghost predicate OnePursuit(asks: seq<Ask>, c: seq<nat>) {
    && |c| <= GP_MAX_HOPS + 2
    && (forall j :: 0 <= j < |c| ==> c[j] < |asks|)
    && (forall j :: 0 <= j < |c| ==> asks[c[j]].hop == j && asks[c[j]].ih == asks[c[0]].ih)
  }

  lemma {:induction false} StaysOnePursuit(asks: seq<Ask>, c: seq<nat>)
    requires |c| > 0 && c[0] < |asks| && asks[c[0]].hop == 0
    requires forall j :: 1 <= j < |c| ==> OneFurther(asks, c[j - 1], c[j])
    ensures OnePursuit(asks, c)
    decreases |c|
  {
    var n := |c| - 1;
    if n > 0 {
      StaysOnePursuit(asks, c[..n]);
      assert forall j :: 0 <= j < n ==> c[j] == c[..n][j];
      assert OneFurther(asks, c[n - 1], c[n]);
    }
  }

  lemma ChainIsPursuit(w: World, h: seq<Event>, c: seq<nat>, i: nat)
    requires ValidWorld(w) && ValidHistory(h) && IsChain(BeginsIn(w, h), LinkedIn(w, h), c, i)
    ensures ChainTo(w, h, c, i)
  {
    var asks := Asks(w, h);
    assert BeginsAt(w, h, c[0]);
    forall j | 1 <= j < |c| ensures OneFurther(asks, c[j - 1], c[j]) {
      assert LinkedIn(w, h)(c[j - 1], c[j]);
    }
    StaysOnePursuit(asks, c);
  }

  /** Over every history from an empty table, every question ends a chain that begins with a
      received query for its info hash and has one link more than the replies between; and
      there are never more than GP_MAX_HOPS + 2 links. */
  lemma EveryQuestionIsTraced(w: World, h: seq<Event>, i: nat)
    requires ValidWorld(w) && ValidHistory(h) && NoneSet(w.gpm) && i < |Asks(w, h)|
    ensures exists c :: ChainTo(w, h, c, i)
  {
    forall x: nat | x <= i ensures Causes.Caused(BeginsIn(w, h), LinkedIn(w, h), x) { EveryAskIsCaused(w, h, x); }
    ChainExists(BeginsIn(w, h), LinkedIn(w, h), i);
    var c :| IsChain(BeginsIn(w, h), LinkedIn(w, h), c, i);
    ChainIsPursuit(w, h, c, i);
  }

  lemma GetPeersIsAsk(w: World, h: seq<Event>, at: nat, s: Sent) returns (i: nat, a: Ask)
    requires ValidWorld(w) && ValidHistory(h) && at < |h| && s in SentBy(w, h, at) && s.acct == TxQGp
    ensures i < |Asks(w, h)| && Asks(w, h)[i] == a && a.at == at && MessageOf(a) == s
  {
    EventCarries(w, h, at);
    a := MessageFrom(SentBy(w, h, at), AsksBy(w, h, at), s);
    assert AskLog(w, h)[at] == AsksBy(w, h, at);
    i := FlatMember(AskLog(w, h), at, a);
  }

  /** And so does every get-peers message sent. */
  lemma EveryGetPeersIsTraced(w: World, h: seq<Event>, at: nat, s: Sent)
    requires ValidWorld(w) && ValidHistory(h) && NoneSet(w.gpm)
    requires at < |h| && s in SentBy(w, h, at) && s.acct == TxQGp
    ensures exists i: nat, c :: ChainTo(w, h, c, i) && Asks(w, h)[i].at == at && MessageOf(Asks(w, h)[i]) == s
  {
    var i, a := GetPeersIsAsk(w, h, at, s);
    EveryQuestionIsTraced(w, h, i);
  }

  /** The cell was set by question i, the latest registered under its token, which ends such
      a chain as long as its hop counter says. */
  ghost predicate Traced(w: World, h: seq<Event>, cell: Cell, tok: U16, i: nat, c: seq<nat>)
    requires ValidWorld(w) && ValidHistory(h)
  {
    && IsLatest(Registrations(Asks(w, h)), i, tok) && ChainTo(w, h, c, i)
    && var a := Asks(w, h)[i];
    && cell == Cell(a.ih, Checksum(NidOf(a.node)), a.hop, true) && a.tok == tok
    && cell.hop == |c| - 1 && cell.hop <= GP_MAX_HOPS
  }

  lemma CellIsAsk(w: World, h: seq<Event>, tok: U16) returns (i: nat)
    requires ValidWorld(w) && ValidHistory(h) && NoneSet(w.gpm) && After(w, h).Some?
    requires After(w, h).value.gpm[tok].isSet
    ensures IsLatest(Registrations(Asks(w, h)), i, tok)
    ensures var a := Asks(w, h)[i];
      After(w, h).value.gpm[tok] == Cell(a.ih, Checksum(NidOf(a.node)), a.hop, true) && a.tok == tok && a.hop <= GP_MAX_HOPS
  {
    TableIsQuestions(w, h);
    var qs := Registrations(Asks(w, h));
    CellIsLatest(w.gpm, qs, tok);
    i :| IsLatest(qs, i, tok) && RunQuestions(w.gpm, qs)[tok] == Cell(qs[i].ih, Checksum(qs[i].nid), qs[i].hop, true);
    assert qs[i] == QuestionOf(Asks(w, h)[i]);
  }

  /** Over every history from an empty table, every set cell holds the latest registered
      question under its token, and that question ends such a chain, as long as the hop
      counter says: at most GP_MAX_HOPS replies behind the query. */
  lemma EveryPursuitIsTraced(w: World, h: seq<Event>, tok: U16)
    requires ValidWorld(w) && ValidHistory(h) && NoneSet(w.gpm) && After(w, h).Some?
    requires After(w, h).value.gpm[tok].isSet
    ensures exists i: nat, c :: Traced(w, h, After(w, h).value.gpm[tok], tok, i, c)
  {
    var i := CellIsAsk(w, h, tok);
    EveryQuestionIsTraced(w, h, i);
    var c :| ChainTo(w, h, c, i);
    assert Asks(w, h)[c[|c| - 1]].hop == |c| - 1;
    assert Traced(w, h, After(w, h).value.gpm[tok], tok, i, c);
  }

  // ----- one question too many -----

  /** A question lies beyond the hop limit exactly when it was asked because of a reply to
      a question at the limit. */
  lemma BeyondLimitExact(w: World, h: seq<Event>, i: nat)
    requires ValidWorld(w) && ValidHistory(h) && NoneSet(w.gpm) && i < |Asks(w, h)|
    ensures Asks(w, h)[i].hop > GP_MAX_HOPS
      <==> exists k: nat :: Linked(w, h, k, i) && Asks(w, h)[k].hop == GP_MAX_HOPS
  {
    EveryAskIsCaused(w, h, i);
    if !BeginsAt(w, h, i) {
      var k: nat :| k < i && LinkedIn(w, h)(k, i);
      assert Linked(w, h, k, i);
    }
  }

  /** The replies to a question registered at the hop limit are still followed up: the
      questions go out one hop further, and the table of pursuits does not know them. */
  lemma AsksBeyondLimit(v: World, g: Datagram, f: Fields, cell: Cell)
    requires ValidWorld(v) && Shaped(f) && |TokBytes(f)| == 3 && f.nNodes > 0
    requires LookupTok(v.gpm, TokBytes(f), NihAt(f.nid)) == Hit(cell) && cell.hop == GP_MAX_HOPS
    requires g.draws != [] && g.draws[0].Some?
    requires Handler.Allowed(v.gp, Q_GP_RATES, GpKey(PeerinfoOf(NextHops(cell.ih, NodesOf(f))[0]), cell.ih))
    ensures var r := FollowUp(v, g, f); var p := NextHops(cell.ih, NodesOf(f))[0];
      r.Done? && r.w.gpm == v.gpm && QuestionTo(p, cell.ih, g.draws[0].value) in r.sent
  {
    var next := NextHopOf(cell, NodesOf(f));
    FollowUpHit(v, g, f, cell);
    NoneRegistered(v.gpm, v.gp, next.pnodes, cell.ih, cell.hop + 1, g.draws);
    ChaseStep(v.gpm, v.gp, next.pnodes, cell.ih, cell.hop + 1, g.draws);
  }

  lemma {:induction false} NoneRegistered(t: Table, gp: Buckets, pnodes: seq<PNode>, ih: Nih, hop: nat,
                                          draws: seq<Option<U16>>)
    requires Sparse(gp, Q_GP_RATES) && hop > GP_MAX_HOPS
    ensures Chase(t, gp, pnodes, ih, hop, draws).gpm == t
    decreases |pnodes|
  {
    if pnodes != [] {
      ChaseStep(t, gp, pnodes, ih, hop, draws);
      var key := GpKey(PeerinfoOf(pnodes[0]), ih);
      var gp' := WithdrawFrom(gp, Q_GP_RATES, key);
      if !Handler.Allowed(gp, Q_GP_RATES, key) {
        NoneRegistered(t, gp', pnodes[1..], ih, hop, draws);
      } else if draws != [] && draws[0].Some? {
        NoneRegistered(t, gp', pnodes[1..], ih, hop, draws[1..]);
      }
    }
  }
}
