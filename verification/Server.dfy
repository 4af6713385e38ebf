// The server object (cht/server.hpp): its receive handler updates the decoder, the
// tables and the send buffer in place, and does exactly what module Handler says.

module Server {
  import opened Dht
  import opened Krpc
  import opened Msg
  import opened Message
  import opened Gpm
  import opened SpamFilter
  import opened Handler
  import Decoder

  class KRPCServer {
    const krpc: Decoder.KRPC
    const gpm: GPM
    const rt: RoutingTable.RT
    const rx: CTMap<Bytes>
    const pg: CTMap<Bytes>
    const gp: CTMap<Bytes>
    const buf: array<Byte>

    ghost predicate Valid()
      reads rt.cells, rx, pg, gp
    {
      && krpc.Valid() && gpm.Valid() && rt.Valid()
      && rx.Valid() && pg.Valid() && gp.Valid()
      && rx.rates == RX_RATES && pg.rates == PING_RATES && gp.rates == Q_GP_RATES
      && rx != pg && rx != gp && pg != gp
      && buf.Length == MSG_BUF_LEN && buf != krpc.data
    }

    /** The contents of all tables. */
    ghost function Tables(): World
      requires Valid()
      reads rt.cells, rx, pg, gp, gpm.cells
    {
      World(gpm.Contents(), rt.cells[..], rx.table, pg.table, gp.table)
    }

    constructor ()
      ensures Valid() && NoneSet(Tables().gpm)
    {
      krpc := new Decoder.KRPC();
      gpm := new GPM();
      rt := new RoutingTable.RT();
      rx := new CTMap<Bytes>(RX_RATES);
      pg := new CTMap<Bytes>(PING_RATES);
      gp := new CTMap<Bytes>(Q_GP_RATES);
      buf := new Byte[MSG_BUF_LEN](_ => 0);
    }

    /** One ping, if the rate limit allows it. */
    method PingOne(p: PNode) returns (sent: seq<Sent>)
      requires Valid()
      modifies pg, buf
      ensures Valid()
      ensures pg.table == WithdrawFrom(old(pg.table), PING_RATES, InAddr(PeerinfoOf(p)))
      ensures sent == if Allowed(old(pg.table), PING_RATES, InAddr(PeerinfoOf(p)))
                      then [Sent(PeerinfoOf(p), TxQPg, QPgMsg(NidOf(p)))] else []
    {
      var to := PeerinfoOf(p);
      var ok := pg.Withdraw(InAddr(to));
      if !ok {
        return [];
      }
      var n := Encoder.QPg(buf, NidOf(p));
      return [Sent(to, TxQPg, buf[..n])];
    }

    /** Pings every contact the rate limit allows. */
    method PingSweepNodes(nodes: seq<PNode>) returns (sent: seq<Sent>)
      requires Valid()
      modifies pg, buf
      ensures Valid() && pg.table == Sweep(old(pg.table), nodes).0 && sent == Sweep(old(pg.table), nodes).1
    {
      ghost var table := pg.table;
      sent := [];
      var ix := 0;
      assert nodes[0..] == nodes;
      while ix < |nodes|
        invariant 0 <= ix <= |nodes| && Valid()
        invariant Sweep(table, nodes).0 == Sweep(pg.table, nodes[ix..]).0
        invariant Sweep(table, nodes).1 == sent + Sweep(pg.table, nodes[ix..]).1
      {
        NodesBehind(nodes, ix);
        SweepStep(pg.table, nodes[ix..]);
        var one := PingOne(nodes[ix]);
        SentAssoc(sent, one, Sweep(pg.table, nodes[ix + 1..]).1);
        sent := sent + one;
        ix := ix + 1;
      }
      assert nodes[ix..] == [];
    }

    /** One question to a next hop. */
    method AskOne(pn: PNode, ih: Nih, hop: nat, tok: U16) returns (sent: Sent)
      requires Valid()
      modifies gpm.cells, buf
      ensures Valid()
      ensures gpm.Contents() == Register(old(gpm.Contents()), NidOf(pn), ih, hop, tok)
      ensures sent == Sent(PeerinfoOf(pn), TxQGp, QGpMsg(NidOf(pn), ih, tok))
    {
      var n := Encoder.QGp(buf, NidOf(pn), ih, tok);
      sent := Sent(PeerinfoOf(pn), TxQGp, buf[..n]);
      gpm.RegisterQGpIhash(NidOf(pn), ih, hop, tok);
    }

    /** Asks one hop of a pursuit, if the rate limit allows it and a token could be drawn. */
    method TryHop(pn: PNode, ghost rest: seq<PNode>, ih: Nih, hop: nat, draws: seq<Option<U16>>)
      returns (stop: bool, left: seq<Option<U16>>, one: seq<Sent>)
      requires Valid()
      modifies gp, gpm.cells, buf
      ensures Valid()
      ensures Chase(old(gpm.Contents()), old(gp.table), [pn] + rest, ih, hop, draws)
        == if stop then Pursued(gpm.Contents(), gp.table, one)
           else Resumed(one, Chase(gpm.Contents(), gp.table, rest, ih, hop, left))
    {
      ChaseStep(gpm.Contents(), gp.table, [pn] + rest, ih, hop, draws);
      assert ([pn] + rest)[1..] == rest;
      stop, left, one := false, draws, [];
      var ok := gp.Withdraw(GpKey(PeerinfoOf(pn), ih));
      if ok {
        if draws == [] || draws[0] == None {
          stop := true;
        } else {
          var s := AskOne(pn, ih, hop, draws[0].value);
          left, one := draws[1..], [s];
        }
      }
      ghost var r := Chase(gpm.Contents(), gp.table, rest, ih, hop, left);
      assert [] + r.sent == r.sent;
    }

    /** Asks the next hops of a pursuit, registering each question. */
    method AskHops(next: NextHop, draws: seq<Option<U16>>) returns (sent: seq<Sent>)
      requires Valid()
      modifies gp, gpm.cells, buf
      ensures Valid()
      ensures var p := ChaseHops(old(gpm.Contents()), old(gp.table), next, draws);
        gpm.Contents() == p.gpm && gp.table == p.gp && sent == p.sent
    {
      ghost var whole := ChaseHops(gpm.Contents(), gp.table, next, draws);
      sent := [];
      var ix, left := 0, draws;
      assert next.pnodes[0..] == next.pnodes;
      while ix < |next.pnodes|
        invariant 0 <= ix <= |next.pnodes| && Valid()
        invariant whole == Resumed(sent, Chase(gpm.Contents(), gp.table, next.pnodes[ix..], next.ih, next.hop + 1, left))
      {
        ghost var rest := next.pnodes[ix + 1..];
        NodesBehind(next.pnodes, ix);
        var stop, one;
        stop, left, one := TryHop(next.pnodes[ix], rest, next.ih, next.hop + 1, left);
        SentInOrder(sent, one, Chase(gpm.Contents(), gp.table, rest, next.ih, next.hop + 1, left));
        sent := sent + one;
        ix := ix + 1;
        if stop {
          return;
        }
      }
    }

    // ----- the cases of the handler -----

    /** What the decoder holds is the message the handler works on. */
    ghost predicate Holds(f: Fields)
      reads krpc
    {
      krpc.View() == f && Shaped(f)
    }

    /** The tables and the messages sent are those of the outcome. */
    ghost predicate Ends(o: Handled, crash: bool, sent: seq<Sent>)
      requires Valid()
      reads rt.cells, rx, pg, gp, gpm.cells
    {
      match o
      case Crash => crash
      case Done(w, s) => !crash && Tables() == w && sent == s
    }

    /** The part of the message a reply needs; null if there is no sender id. */
    method MakeReply(ghost f: Fields) returns (k: Option<KReply>)
      requires Holds(f)
      ensures k == ReplyTo(f)
    {
      if krpc.nid == None {
        return None;
      }
      return Some(KReply(krpc.nid.value.bytes, if krpc.tok == None then [] else krpc.tok.value.bytes));
    }

    method HandleQPg(g: Datagram, ghost f: Fields) returns (crash: bool, sent: seq<Sent>)
      requires Valid() && ValidDatagram(g) && Holds(f)
      modifies rt.cells, buf
      ensures Valid() && Ends(OnQPg(old(Tables()), g, f), crash, sent)
    {
      var k := MakeReply(f);
      if k == None {
        return true, [];
      }
      var n := Encoder.RPg(buf, k.value);
      sent := [Sent(SenderOf(g), TxRPg, buf[..n])];
      rt.InsertContact(k.value.nid, SenderOf(g));
      crash := false;
    }

    method HandleQFn(g: Datagram, ghost f: Fields) returns (crash: bool, sent: seq<Sent>)
      requires Valid() && ValidDatagram(g) && Holds(f)
      modifies rt.cells, buf
      ensures Valid() && Ends(OnQFn(old(Tables()), g, f), crash, sent)
    {
      if krpc.target == None {
        return true, [];
      }
      var payload := rt.GetNeighborContact(krpc.target.value.bytes, g.scan);
      var k := MakeReply(f);
      if k == None {
        return true, [];
      }
      var n := Encoder.RFn(buf, k.value, payload);
      sent := [Sent(SenderOf(g), TxRFn, buf[..n])];
      rt.InsertContact(k.value.nid, SenderOf(g));
      crash := false;
    }

    /** Starts the pursuit of an info hash, if a token could be drawn: asks a neighbour, or a
        scanned contact in place of the asker. */
    method StartPursuit(ih: Nih, asker: Nih, g: Datagram) returns (neig: PNode, sent: seq<Sent>)
      requires Valid() && ValidDatagram(g)
      modifies gpm.cells, buf
      ensures Valid()
      ensures var pursue := g.draws != [] && g.draws[0].Some?;
        && neig == (if pursue then FirstHop(rt.cells[..], ih, asker, g) else RoutingTable.Neighbor(rt.cells[..], ih, g.scan))
        && gpm.Contents() == (if pursue then Register(old(gpm.Contents()), NidOf(neig), ih, 0, g.draws[0].value)
                              else old(gpm.Contents()))
        && sent == (if pursue then [Sent(PeerinfoOf(neig), TxQGp, QGpMsg(NidOf(neig), ih, g.draws[0].value))] else [])
    {
      neig := rt.GetNeighborContact(ih, g.scan);
      sent := [];
      if g.draws != [] && g.draws[0].Some? {
        if Checksum(NidOf(neig)) == Checksum(asker) {
          neig := rt.GetRandomValidNode(g.scan2);
        }
        var one := AskOne(neig, ih, 0, g.draws[0].value);
        sent := [one];
      }
    }

    method HandleQGp(g: Datagram, ghost f: Fields) returns (crash: bool, sent: seq<Sent>)
      requires Valid() && ValidDatagram(g) && Holds(f)
      modifies rt.cells, gpm.cells, buf
      ensures Valid() && Ends(OnQGp(old(Tables()), g, f), crash, sent)
    {
      if krpc.ih == None || krpc.nid == None {
        return true, [];
      }
      var neig, asked := StartPursuit(krpc.ih.value.bytes, krpc.nid.value.bytes, g);
      var k := MakeReply(f);
      var n := Encoder.RGp(buf, k.value, neig);
      sent := asked + [Sent(SenderOf(g), TxRGp, buf[..n])];
      rt.InsertContact(k.value.nid, SenderOf(g));
      crash := false;
    }

    method HandleQAp(g: Datagram, ghost f: Fields) returns (crash: bool, sent: seq<Sent>)
      requires Valid() && ValidDatagram(g) && Holds(f)
      modifies buf
      ensures Valid() && Ends(OnQAp(old(Tables()), g, f), crash, sent)
    {
      if krpc.apName.Some? && |krpc.apName.value.bytes| > 0 && !g.nameOk {
        return false, [];
      }
      var k := MakeReply(f);
      if k == None {
        return true, [];
      }
      var n := Encoder.RPg(buf, k.value);
      return false, [Sent(SenderOf(g), TxRAp, buf[..n])];
    }

    method HandleRFn(g: Datagram, ghost f: Fields) returns (crash: bool, sent: seq<Sent>)
      requires Valid() && Holds(f)
      modifies pg, buf
      ensures Valid() && Ends(OnRFn(old(Tables()), f), crash, sent)
    {
      crash, sent := false, [];
      if krpc.nNodes != 0 {
        var nodes := Contacts(f);
        sent := PingSweepNodes(nodes);
      }
    }

    /** The contact array the decoder points to. */
    method Contacts(ghost f: Fields) returns (nodes: seq<PNode>)
      requires Holds(f)
      ensures nodes == NodesOf(f)
    {
      nodes := [];
      for i := 0 to krpc.nNodes
        invariant |nodes| == i && nodes == NodesOf(f)[..i]
      {
        assert PNODE_LEN * i + PNODE_LEN <= PNODE_LEN * krpc.nNodes;
        var p: PNode := krpc.nodes.value.bytes[PNODE_LEN * i..PNODE_LEN * i + PNODE_LEN];
        assert p == NodesOf(f)[i];
        nodes := nodes + [p];
      }
    }

    /** Looks the reply's token up and asks the hops it offers. */
    method Pursue(g: Datagram, nodes: seq<PNode>, ghost f: Fields)
      returns (r: Lookup, next: NextHop, asked: seq<Sent>)
      requires Valid() && Holds(f) && |TokBytes(f)| == 3 && 0 < |nodes| <= 255
      modifies gp, gpm.cells, buf
      ensures Valid() && r == LookupTok(old(gpm.Contents()), TokBytes(f), NihAt(f.nid))
      ensures r.Hit? ==> next == NextHopOf(r.cell, nodes)
      ensures var p := if r.Hit? then ChaseHops(old(gpm.Contents()), old(gp.table), next, g.draws)
                       else Pursued(old(gpm.Contents()), old(gp.table), []);
        gpm.Contents() == p.gpm && gp.table == p.gp && asked == p.sent
    {
      asked := [];
      var nid := if krpc.nid == None then None else Some(krpc.nid.value.bytes);
      r, next := gpm.ExtractTok(krpc.tok.value.bytes, nid, nodes);
      if r.Hit? {
        asked := AskHops(next, g.draws);
      }
    }

    method HandleNodes(g: Datagram, ghost f: Fields) returns (crash: bool, sent: seq<Sent>)
      requires Valid() && ValidDatagram(g) && Holds(f) && |TokBytes(f)| == 3 && f.nNodes > 0
      modifies pg, gp, gpm.cells, buf
      ensures Valid() && Ends(FollowUp(old(Tables()), g, f), crash, sent)
    {
      ghost var before := Tables();
      var nodes := Contacts(f);
      sent := PingSweepNodes(nodes);
      var r, next, asked := Pursue(g, nodes, f);
      crash := r == NullNid;
      if r.Hit? {
        FollowUpHit(before, g, f, r.cell);
        sent := sent + asked;
      } else if r == Miss {
        FollowUpMiss(before, g, f);
      }
    }

    method HandleRGp(g: Datagram, ghost f: Fields) returns (crash: bool, sent: seq<Sent>)
      requires Valid() && ValidDatagram(g) && Holds(f) && |TokBytes(f)| == 3
      modifies rt.cells, pg, gp, gpm.cells, buf
      ensures Valid() && Ends(OnRGp(old(Tables()), g, f), crash, sent)
    {
      crash, sent := false, [];
      if krpc.nPeers > 0 {
        if krpc.nid == None {
          return true, [];
        }
        if gpm.cells[LoadU16(krpc.tok.value.bytes)].check == Checksum(krpc.nid.value.bytes) {
          gpm.UnsetCell(LoadU16(krpc.tok.value.bytes));
        }
        rt.InsertContact(krpc.nid.value.bytes, SenderOf(g));
      }
      if krpc.nNodes != 0 {
        crash, sent := HandleNodes(g, f);
      }
    }

    method HandleRPg(g: Datagram, ghost f: Fields) returns (crash: bool)
      requires Valid() && ValidDatagram(g) && Holds(f)
      modifies rt.cells
      ensures Valid() && Ends(OnRPg(old(Tables()), g, f), crash, [])
    {
      if krpc.nid == None {
        return true;
      }
      rt.InsertContact(krpc.nid.value.bytes, SenderHostOrder(g));
      return false;
    }

    /** The queries among the cases. */
    method HandleQuery(g: Datagram, ghost m: Method, ghost f: Fields) returns (crash: bool, sent: seq<Sent>)
      requires Valid() && ValidDatagram(g) && Holds(f) && krpc.meth == {m} && m in Q_ANY
      modifies rt.cells, gpm.cells, buf
      ensures Valid() && Ends(Dispatch(old(Tables()), g, m, f), crash, sent)
    {
      if krpc.meth == {QPg} {
        crash, sent := HandleQPg(g, f);
      } else if krpc.meth == {QFn} {
        crash, sent := HandleQFn(g, f);
      } else if krpc.meth == {QGp} {
        crash, sent := HandleQGp(g, f);
      } else {
        crash, sent := HandleQAp(g, f);
      }
    }

    /** The switch over the method of an accepted message. */
    method HandleMsg(g: Datagram, ghost m: Method, ghost f: Fields) returns (crash: bool, sent: seq<Sent>)
      requires Valid() && ValidDatagram(g) && Holds(f) && krpc.meth == {m} && (m == RGp ==> |TokBytes(f)| == 3)
      modifies rt.cells, pg, gp, gpm.cells, buf
      ensures Valid() && Ends(Dispatch(old(Tables()), g, m, f), crash, sent)
    {
      crash, sent := false, [];
      if krpc.meth <= Q_ANY {
        crash, sent := HandleQuery(g, m, f);
      } else if krpc.meth == {RFn} {
        crash, sent := HandleRFn(g, f);
      } else if krpc.meth == {RGp} {
        crash, sent := HandleRGp(g, f);
      } else {
        assert m == RPg;
        crash := HandleRPg(g, f);
      }
    }

    /** One received datagram, already in the receive buffer. */
    method HandleRecv(g: Datagram) returns (crash: bool, sent: seq<Sent>)
      requires Valid() && ValidDatagram(g)
      requires |g.msg| <= MAXLEN && krpc.data[..|g.msg|] == g.msg
      modifies krpc, rx, rt.cells, pg, gp, gpm.cells, buf
      ensures Valid() && Ends(Handle(old(Tables()), g), crash, sent)
    {
      crash, sent := false, [];
      var nread := |g.msg|;
      if nread < MIN_MSG_LEN || nread >= MAXLEN {
        return;
      }
      var ok := rx.Withdraw(g.ip);
      if !ok {
        return;
      }
      krpc.Clear();
      crash := krpc.ParseMsg(nread as U32);
      if crash || krpc.status != NoError {
        return;
      }
      RejectionIsAnError(g.msg, CLEARED);
      ghost var r := Decode(g.msg);
      AcceptedShaped(g.msg);
      if r.meth == RGp {
        GetPeersReplyShape(g.msg);
      }
      crash, sent := HandleMsg(g, r.meth, r.f);
    }
  }
}
