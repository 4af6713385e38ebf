// What one received datagram does to the crawler (KRPCServer::handle_recv,
// cht/server.hpp), as a function on the contents of its tables. Random draws, the
// result of the token search and the verdict on an announced name are inputs.

module Handler {
  import opened Dht
  import opened Krpc
  import opened Msg
  import opened Render
  import opened Encoder
  import opened Message
  import opened Gpm
  import opened SpamFilter
  import Dkad
  import RoutingTable

  type Buckets = map<Bytes, U8>

  /** The crawler's tables. */
  datatype World = World(gpm: Table, rt: seq<RoutingTable.Nodeinfo>, rx: Buckets, pg: Buckets, gp: Buckets)

  /** A datagram, its sender, and the outcomes of the draws made while handling it. */
  datatype Datagram = Datagram(msg: Bytes, ip: Bytes, port: U16, draws: seq<Option<U16>>, scan: nat, scan2: nat, nameOk: bool)

  /** The counter a sent message is booked under. */
  datatype Acct = TxQPg | TxQGp | TxRPg | TxRFn | TxRGp | TxRAp

  datatype Sent = Sent(dest: Peerinfo, acct: Acct, text: Bytes)

  /** A crash is a failing assertion or a null pointer read. */
  datatype Handled = Done(w: World, sent: seq<Sent>) | Crash

  ghost predicate ValidWorld(w: World) {
    && RoutingTable.ValidCells(w.rt)
    && Sparse(w.rx, RX_RATES) && Sparse(w.pg, PING_RATES) && Sparse(w.gp, Q_GP_RATES)
  }

  ghost predicate ValidDatagram(g: Datagram) {
    |g.ip| == 4 && g.scan < RoutingTable.RT_SIZE && g.scan2 < RoutingTable.RT_SIZE
  }

  /** The sender in network byte order. */
  function SenderOf(g: Datagram): Peerinfo
    requires |g.ip| == 4
  {
    g.ip + [g.port / 256, g.port % 256]
  }

  /** The ping-reply case stores the port as it is in host order. */
  function SenderHostOrder(g: Datagram): Peerinfo
    requires |g.ip| == 4
  {
    g.ip + StoreU16(g.port)
  }

  /** One rate-limited permission, and the table behind it. */
  function Allowed(m: Buckets, r: Rates, key: Bytes): bool
    requires ValidRates(r)
  {
    Tokens(m, r, key) >= r.price
  }

  /** The rate-limiting key of a get-peers query. */
  function GpKey(dest: Peerinfo, ih: Nih): Bytes {
    Dkad.XorBytes(Checksum(ih), InAddr(dest))
  }

  function QPgMsg(nid: Nih): Bytes { RMsg(QPgTree(MaskSid(nid))) }

  function QGpMsg(nid: Nih, ih: Nih, tok: U16): Bytes { RMsg(QGpTree(MaskSid(nid), ih, tok)) + [0] }

  /** Pinging the contacts of a reply, in order, as far as the rate limit allows. */
  function Sweep(pg: Buckets, nodes: seq<PNode>): (r: (Buckets, seq<Sent>))
    requires Sparse(pg, PING_RATES)
    ensures Sparse(r.0, PING_RATES)
    decreases |nodes|
  {
    if nodes == [] then (pg, [])
    else
      var to := PeerinfoOf(nodes[0]);
      var key := InAddr(to);
      WithdrawIsDense(pg, PING_RATES, key, key);
      var rest := Sweep(WithdrawFrom(pg, PING_RATES, key), nodes[1..]);
      (rest.0, (if Allowed(pg, PING_RATES, key) then [Sent(to, TxQPg, QPgMsg(NidOf(nodes[0])))] else []) + rest.1)
  }

  lemma SweepStep(pg: Buckets, nodes: seq<PNode>)
    requires Sparse(pg, PING_RATES) && nodes != []
    ensures var to := PeerinfoOf(nodes[0]);
      var pg' := WithdrawFrom(pg, PING_RATES, InAddr(to));
      && Sparse(pg', PING_RATES)
      && Sweep(pg, nodes).0 == Sweep(pg', nodes[1..]).0
      && Sweep(pg, nodes).1 ==
           (if Allowed(pg, PING_RATES, InAddr(to)) then [Sent(to, TxQPg, QPgMsg(NidOf(nodes[0])))] else [])
           + Sweep(pg', nodes[1..]).1
  {
    WithdrawIsDense(pg, PING_RATES, InAddr(PeerinfoOf(nodes[0])), InAddr(PeerinfoOf(nodes[0])));
  }

  datatype Pursued = Pursued(gpm: Table, gp: Buckets, sent: seq<Sent>)

  /** Asking the next hops, in order: the rate limit skips a hop, a failed token search
      ends the loop, and each question asked is registered one hop further. */
  function Chase(gpm: Table, gp: Buckets, pnodes: seq<PNode>, ih: Nih, hop: nat, draws: seq<Option<U16>>): (r: Pursued)
    requires Sparse(gp, Q_GP_RATES)
    ensures Sparse(r.gp, Q_GP_RATES)
    decreases |pnodes|
  {
    if pnodes == [] then Pursued(gpm, gp, [])
    else
      var pn := pnodes[0];
      var to := PeerinfoOf(pn);
      var key := GpKey(to, ih);
      WithdrawIsDense(gp, Q_GP_RATES, key, key);
      var gp' := WithdrawFrom(gp, Q_GP_RATES, key);
      if !Allowed(gp, Q_GP_RATES, key) then Chase(gpm, gp', pnodes[1..], ih, hop, draws)
      else if draws == [] || draws[0] == None then Pursued(gpm, gp', [])
      else
        var tok := draws[0].value;
        var rest := Chase(Register(gpm, NidOf(pn), ih, hop, tok), gp', pnodes[1..], ih, hop, draws[1..]);
        Pursued(rest.gpm, rest.gp, [Sent(to, TxQGp, QGpMsg(NidOf(pn), ih, tok))] + rest.sent)
  }

  lemma ChaseStep(gpm: Table, gp: Buckets, pnodes: seq<PNode>, ih: Nih, hop: nat, draws: seq<Option<U16>>)
    requires Sparse(gp, Q_GP_RATES) && pnodes != []
    ensures var to := PeerinfoOf(pnodes[0]);
      var gp' := WithdrawFrom(gp, Q_GP_RATES, GpKey(to, ih));
      && Sparse(gp', Q_GP_RATES)
      && Chase(gpm, gp, pnodes, ih, hop, draws) ==
           if !Allowed(gp, Q_GP_RATES, GpKey(to, ih)) then Chase(gpm, gp', pnodes[1..], ih, hop, draws)
           else if draws == [] || draws[0] == None then Pursued(gpm, gp', [])
           else Sending(Sent(to, TxQGp, QGpMsg(NidOf(pnodes[0]), ih, draws[0].value)),
                      Chase(Register(gpm, NidOf(pnodes[0]), ih, hop, draws[0].value), gp', pnodes[1..], ih, hop, draws[1..]))
  {
    WithdrawIsDense(gp, Q_GP_RATES, GpKey(PeerinfoOf(pnodes[0]), ih), GpKey(PeerinfoOf(pnodes[0]), ih));
  }

  function Sending(s: Sent, rest: Pursued): Pursued { rest.(sent := [s] + rest.sent) }

  lemma NodesBehind(nodes: seq<PNode>, i: nat)
    requires i < |nodes|
    ensures nodes[i..] == [nodes[i]] + nodes[i + 1..] && nodes[i..][0] == nodes[i] && nodes[i..][1..] == nodes[i + 1..]
  {
  }

  lemma SentAssoc(a: seq<Sent>, b: seq<Sent>, c: seq<Sent>)
    ensures a + (b + c) == a + b + c
  {
  }

  /** A pursuit of which some messages were sent before. */
  function Resumed(sent: seq<Sent>, rest: Pursued): Pursued { rest.(sent := sent + rest.sent) }

  lemma SentInOrder(sent: seq<Sent>, one: seq<Sent>, rest: Pursued)
    ensures Resumed(sent, Resumed(one, rest)) == Resumed(sent + one, rest)
  {
    SentAssoc(sent, one, rest.sent);
  }

  /** Asking the hops of a lookup, one hop further than the question answered. */
  function ChaseHops(gpm: Table, gp: Buckets, next: NextHop, draws: seq<Option<U16>>): (r: Pursued)
    requires Sparse(gp, Q_GP_RATES)
    ensures Sparse(r.gp, Q_GP_RATES)
  {
    Chase(gpm, gp, next.pnodes, next.ih, next.hop + 1, draws)
  }

  // ----- the cases -----

  function OnQPg(w: World, g: Datagram, f: Fields): Handled
    requires ValidWorld(w) && ValidDatagram(g) && Shaped(f)
  {
    match ReplyTo(f)
    case None => Crash
    case Some(k) =>
      Done(w.(rt := RoutingTable.InsertAt(w.rt, k.nid, SenderOf(g))),
           [Sent(SenderOf(g), TxRPg, RMsg(RPgTree(MaskSid(k.nid), k.tok)))])
  }

  function OnQFn(w: World, g: Datagram, f: Fields): Handled
    requires ValidWorld(w) && ValidDatagram(g) && Shaped(f)
  {
    if f.target == None || f.nid == None then Crash
    else
      var k := ReplyTo(f).value;
      var payload := RoutingTable.Neighbor(w.rt, NihAt(f.target).value, g.scan);
      Done(w.(rt := RoutingTable.InsertAt(w.rt, k.nid, SenderOf(g))),
           [Sent(SenderOf(g), TxRFn, RMsg(RFnTree(MaskSid(k.nid), payload, k.tok)))])
  }

  /** The contact asked about a new info hash: a neighbour, or, should that be the asker, a
      scanned contact, which is not compared again. */
  function FirstHop(rt: seq<RoutingTable.Nodeinfo>, ih: Nih, asker: Nih, g: Datagram): PNode
    requires RoutingTable.ValidCells(rt)
  {
    var n := RoutingTable.Neighbor(rt, ih, g.scan);
    if Checksum(NidOf(n)) == Checksum(asker) then RoutingTable.RandomNode(rt, g.scan2) else n
  }

  function OnQGp(w: World, g: Datagram, f: Fields): Handled
    requires ValidWorld(w) && ValidDatagram(g) && Shaped(f)
  {
    if f.ih == None || f.nid == None then Crash
    else
      var k := ReplyTo(f).value;
      var ih := NihAt(f.ih).value;
      var pursue := g.draws != [] && g.draws[0].Some?;
      var neig := if pursue then FirstHop(w.rt, ih, k.nid, g) else RoutingTable.Neighbor(w.rt, ih, g.scan);
      var reply := Sent(SenderOf(g), TxRGp, RMsg(RGpTree(MaskSid(k.nid), neig, k.tok)));
      var rt' := RoutingTable.InsertAt(w.rt, k.nid, SenderOf(g));
      if pursue then
        var tok := g.draws[0].value;
        Done(w.(rt := rt', gpm := Register(w.gpm, NidOf(neig), ih, 0, tok)),
             [Sent(PeerinfoOf(neig), TxQGp, QGpMsg(NidOf(neig), ih, tok)), reply])
      else Done(w.(rt := rt'), [reply])
  }

  function OnQAp(w: World, g: Datagram, f: Fields): Handled
    requires ValidWorld(w) && ValidDatagram(g) && Shaped(f)
  {
    if f.apName.Some? && |f.apName.value.bytes| > 0 && !g.nameOk then Done(w, [])
    else
      match ReplyTo(f)
      case None => Crash
      case Some(k) => Done(w, [Sent(SenderOf(g), TxRAp, RMsg(RPgTree(MaskSid(k.nid), k.tok)))])
  }

  function OnRFn(w: World, f: Fields): Handled
    requires ValidWorld(w) && Shaped(f)
  {
    if f.nNodes == 0 then Done(w, [])
    else
      var (pg, sent) := Sweep(w.pg, NodesOf(f));
      Done(w.(pg := pg), sent)
  }

  /** The contacts of a get-peers reply are pinged and, if the reply answers one of our
      questions, asked in turn. */
  function FollowUp(w: World, g: Datagram, f: Fields): Handled
    requires ValidWorld(w) && Shaped(f) && |TokBytes(f)| == 3
  {
    var (pg, pings) := Sweep(w.pg, NodesOf(f));
    match LookupTok(w.gpm, TokBytes(f), NihAt(f.nid))
    case NullNid => Crash
    case Miss => Done(w.(pg := pg), pings)
    case Hit(cell) =>
      var p := ChaseHops(w.gpm, w.gp, NextHopOf(cell, NodesOf(f)), g.draws);
      Done(w.(pg := pg, gpm := p.gpm, gp := p.gp), pings + p.sent)
  }

  /** The reply answers a question: its contacts are pinged, then its hops are asked. */
  lemma FollowUpHit(v: World, g: Datagram, f: Fields, cell: Cell)
    requires ValidWorld(v) && Shaped(f) && |TokBytes(f)| == 3
    requires LookupTok(v.gpm, TokBytes(f), NihAt(f.nid)) == Hit(cell)
    ensures var p := ChaseHops(v.gpm, v.gp, NextHopOf(cell, NodesOf(f)), g.draws);
      var s := Sweep(v.pg, NodesOf(f));
      FollowUp(v, g, f) == Done(v.(pg := s.0, gpm := p.gpm, gp := p.gp), s.1 + p.sent)
  {
  }

  lemma FollowUpMiss(v: World, g: Datagram, f: Fields)
    requires ValidWorld(v) && Shaped(f) && |TokBytes(f)| == 3
    requires LookupTok(v.gpm, TokBytes(f), NihAt(f.nid)) == Miss
    ensures FollowUp(v, g, f) == Done(v.(pg := Sweep(v.pg, NodesOf(f)).0), Sweep(v.pg, NodesOf(f)).1)
  {
  }

  function OnRGp(w: World, g: Datagram, f: Fields): Handled
    requires ValidWorld(w) && ValidDatagram(g) && Shaped(f) && |TokBytes(f)| == 3
  {
    if f.nPeers > 0 && f.nid == None then Crash
    else
      var w1 := if f.nPeers > 0 then w.(rt := RoutingTable.InsertAt(w.rt, NihAt(f.nid).value, SenderOf(g))) else w;
      if f.nNodes == 0 then Done(w1, []) else FollowUp(w1, g, f)
  }

  function OnRPg(w: World, g: Datagram, f: Fields): Handled
    requires ValidWorld(w) && ValidDatagram(g) && Shaped(f)
  {
    if f.nid == None then Crash
    else Done(w.(rt := RoutingTable.InsertAt(w.rt, NihAt(f.nid).value, SenderHostOrder(g))), [])
  }

  function Dispatch(w: World, g: Datagram, m: Method, f: Fields): Handled
    requires ValidWorld(w) && ValidDatagram(g) && Shaped(f)
    requires m == RGp ==> |TokBytes(f)| == 3
  {
    match m
    case QPg => OnQPg(w, g, f)
    case QFn => OnQFn(w, g, f)
    case QGp => OnQGp(w, g, f)
    case QAp => OnQAp(w, g, f)
    case RFn => OnRFn(w, f)
    case RGp => OnRGp(w, g, f)
    case RPg => OnRPg(w, g, f)
  }

  /** Datagrams of a length the handler does not look at. */
  predicate Ignored(n: nat) { n < MIN_MSG_LEN || n >= MAXLEN }

  function Handle(w: World, g: Datagram): Handled
    requires ValidWorld(w) && ValidDatagram(g)
  {
    if Ignored(|g.msg|) then Done(w, [])
    else
      WithdrawIsDense(w.rx, RX_RATES, g.ip, g.ip);
      var w1 := w.(rx := WithdrawFrom(w.rx, RX_RATES, g.ip));
      if !Allowed(w.rx, RX_RATES, g.ip) then Done(w1, [])
      else
        match Decode(g.msg)
        case Rejected(_) => Done(w1, [])
        case Aborted => Crash
        case Accepted(m, f) =>
          AcceptedShaped(g.msg);
          if m == RGp then GetPeersReplyShape(g.msg); Dispatch(w1, g, m, f) else Dispatch(w1, g, m, f)
  }

  /** The periodic replenishment of the three rate limiters. */
  function Tick(w: World): World
    requires ValidWorld(w)
  {
    w.(rx := ReplenishAll(w.rx, RX_RATES), pg := ReplenishAll(w.pg, PING_RATES), gp := ReplenishAll(w.gp, Q_GP_RATES))
  }
}
