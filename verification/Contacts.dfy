// Whom the crawler asks first about an info hash, and what it stores about a sender: where
// the handler does less than its comments and names promise.

module Contacts {
  import opened Dht
  import opened Krpc
  import opened Message
  import opened Gpm
  import opened Handler
  import opened RoutingTable

  // ----- the first contact asked -----

  /** A scan from this draw finds nothing. */
  ghost predicate Misses(rt: seq<Nodeinfo>, start: nat)
    requires ValidCells(rt)
  {
    start == 0 || forall k :: start <= k < RT_SIZE ==> IsEmpty(rt[k % N_CELLS])
  }

  lemma RandomNodeMisses(rt: seq<Nodeinfo>, start: nat)
    requires ValidCells(rt)
    ensures RandomNode(rt, start) == EMPTY_CONTACT <==> Misses(rt, start)
  {
    ScanPassNone(rt, start, RT_SIZE);
    var r := ScanPass(rt, start, RT_SIZE);
    if r == None {
      forall k: nat | start <= k < RT_SIZE ensures IsEmpty(rt[k % N_CELLS]) { ScanCellIsMod(k); }
    } else {
      OccupiedContact(r.value, rt[r.value]);
      var k: nat :| start <= k < RT_SIZE && !IsEmpty(rt[ScanCell(k)]);
      ScanCellIsMod(k);
    }
  }

  lemma NeighborMisses(rt: seq<Nodeinfo>, target: Nih, start: nat)
    requires ValidCells(rt)
    ensures Neighbor(rt, target, start) == EMPTY_CONTACT <==> SlotOf(target) !in Occupants(rt) && Misses(rt, start)
  {
    RandomNodeMisses(rt, start);
    if SlotOf(target) in Occupants(rt) {
      NeighborIsOccupant(rt, target, start);
      OccupiedContact(SlotOf(target), rt[SlotOf(target)]);
    }
  }

  ghost predicate SameNode(a: Nih, b: Nih) { Checksum(a) == Checksum(b) }

  /** The asker itself is asked exactly when both the neighbour and the contact scanned in
      its place have its checksum. */
  lemma AskerAskedExact(rt: seq<Nodeinfo>, ih: Nih, asker: Nih, g: Datagram)
    requires ValidCells(rt)
    ensures SameNode(NidOf(FirstHop(rt, ih, asker, g)), asker)
       <==> SameNode(NidOf(Neighbor(rt, ih, g.scan)), asker) && SameNode(NidOf(RandomNode(rt, g.scan2)), asker)
  {
  }

  /** So it is when it is the only contact known and the info hash has its prefix. */
  lemma OnlyAskerIsAsked(rt: seq<Nodeinfo>, ih: Nih, asker: Nih, p: Peerinfo, g: Datagram)
    requires ValidCells(rt) && Occupants(rt) == map[SlotOf(asker) := asker + p]
    requires SlotOf(ih) == SlotOf(asker) && 1 <= g.scan2 <= RT_SIZE - N_CELLS
    ensures FirstHop(rt, ih, asker, g) == asker + p
  {
    var i := SlotOf(asker);
    assert i in Occupants(rt);
    NeighborIsOccupant(rt, ih, g.scan);
    ScanReaches(rt, g.scan2, i);
    var r := ScanPass(rt, g.scan2, RT_SIZE);
    assert r.Some? && r.value in Occupants(rt);
    assert NidOf(asker + p) == asker;
  }

  /** Nobody is asked, at 0.0.0.0:0, exactly when the neighbour is not the asker and its
      cell is empty and the scan finds nothing, or when it is the asker and the second scan
      finds nothing. */
  lemma NobodyAskedExact(rt: seq<Nodeinfo>, ih: Nih, asker: Nih, g: Datagram)
    requires ValidCells(rt)
    ensures FirstHop(rt, ih, asker, g) == EMPTY_CONTACT <==>
      if SameNode(NidOf(Neighbor(rt, ih, g.scan)), asker) then Misses(rt, g.scan2)
      else SlotOf(ih) !in Occupants(rt) && Misses(rt, g.scan)
  {
    NeighborMisses(rt, ih, g.scan);
    RandomNodeMisses(rt, g.scan2);
  }

  /** From an empty table the question goes out to nobody and is registered all the same,
      under the checksum zero. */
  lemma NobodyIsRegistered(w: World, g: Datagram, f: Fields)
    requires ValidWorld(w) && ValidDatagram(g) && Shaped(f) && f.ih.Some? && f.nid.Some?
    requires Occupants(w.rt) == map[] && g.draws != [] && g.draws[0].Some?
    ensures var r := OnQGp(w, g, f); var ih := NihAt(f.ih).value; var tok := g.draws[0].value;
      && r.Done? && r.sent != []
      && r.sent[0] == Sent(Zeros(6), TxQGp, QGpMsg(Zeros(20), ih, tok))
      && r.w.gpm[tok] == Cell(ih, ZERO_CHECK, 0, true)
  {
    NobodyInEmptyTable(w.rt, NihAt(f.ih).value, NihAt(f.nid).value, g);
    EmptyContact();
    FirstQuestion(w, g, f);
  }

  lemma EmptyContact()
    ensures NidOf(EMPTY_CONTACT) == Zeros(20) && PeerinfoOf(EMPTY_CONTACT) == Zeros(6) && Checksum(Zeros(20)) == ZERO_CHECK
  {
  }

  lemma NobodyInEmptyTable(rt: seq<Nodeinfo>, ih: Nih, asker: Nih, g: Datagram)
    requires ValidCells(rt) && Occupants(rt) == map[]
    ensures FirstHop(rt, ih, asker, g) == EMPTY_CONTACT
  {
    forall k: nat ensures IsEmpty(rt[k % N_CELLS]) {
      assert k % N_CELLS !in Occupants(rt);
    }
    NobodyAskedExact(rt, ih, asker, g);
  }

  /** The first question of a pursuit and its registration. */
  lemma FirstQuestion(w: World, g: Datagram, f: Fields)
    requires ValidWorld(w) && ValidDatagram(g) && Shaped(f) && f.ih.Some? && f.nid.Some?
    requires g.draws != [] && g.draws[0].Some?
    ensures var r := OnQGp(w, g, f); var ih := NihAt(f.ih).value; var tok := g.draws[0].value;
      var p := FirstHop(w.rt, ih, NihAt(f.nid).value, g);
      && r.Done? && r.sent != []
      && r.sent[0] == Sent(PeerinfoOf(p), TxQGp, QGpMsg(NidOf(p), ih, tok))
      && r.w.gpm[tok] == Cell(ih, Checksum(NidOf(p)), 0, true)
  {
  }

  // ----- the port of a ping reply -----

  lemma StoredContact(w: World, g: Datagram, f: Fields)
    requires ValidWorld(w) && ValidDatagram(g) && Shaped(f) && f.nid.Some?
    ensures var nid := NihAt(f.nid).value; var r := OnRPg(w, g, f);
      r.Done? && |r.w.rt| == N_CELLS && Contact(SlotOf(nid), r.w.rt[SlotOf(nid)]) == nid + SenderHostOrder(g)
  {
    ContactOfInserted(NihAt(f.nid).value, SenderHostOrder(g));
  }

  /** After a ping reply the table holds the sender's true address exactly when the two
      bytes of its port are equal. */
  lemma PingPortExact(w: World, g: Datagram, f: Fields)
    requires ValidWorld(w) && ValidDatagram(g) && Shaped(f) && f.nid.Some?
    ensures var nid := NihAt(f.nid).value; var r := OnRPg(w, g, f);
      && r.Done? && |r.w.rt| == N_CELLS
      && (Contact(SlotOf(nid), r.w.rt[SlotOf(nid)]) == nid + SenderOf(g) <==> g.port / 256 == g.port % 256)
  {
    var nid := NihAt(f.nid).value;
    StoredContact(w, g, f);
    assert (nid + SenderHostOrder(g))[24] == g.port % 256 && (nid + SenderOf(g))[24] == g.port / 256;
    assert (nid + SenderHostOrder(g))[25] == g.port / 256 && (nid + SenderOf(g))[25] == g.port % 256;
    if g.port / 256 == g.port % 256 {
      assert SenderHostOrder(g) == SenderOf(g);
    }
  }

  lemma SwappedPort(g: Datagram)
    requires |g.ip| == 4 && g.port == 6881
    ensures SenderHostOrder(g) == SenderOf(g.(port := 57626)) && SenderHostOrder(g) != SenderOf(g)
  {
    assert StoreU16(6881) == [225, 26];
    assert SenderHostOrder(g)[4] == 225 && SenderOf(g)[4] == 26;
  }

  /** A node at port 6881 is remembered at port 57626. */
  lemma PingPortWitness(w: World, g: Datagram, f: Fields)
    requires ValidWorld(w) && ValidDatagram(g) && Shaped(f) && f.nid.Some? && g.port == 6881
    ensures var nid := NihAt(f.nid).value; var r := OnRPg(w, g, f);
      r.Done? && |r.w.rt| == N_CELLS && Contact(SlotOf(nid), r.w.rt[SlotOf(nid)]) == nid + SenderOf(g.(port := 57626))
  {
    StoredContact(w, g, f);
    SwappedPort(g);
  }
}
