// Where the contacts of the routing table come from, over whole runs of the crawler.

module Memory {
  import opened Dht
  import opened Krpc
  import opened Message
  import opened Handler
  import opened Questions
  import opened Causes
  import opened Pursuit
  import opened RoutingTable

  // ----- what one datagram stores -----

  /** The sender as the table remembers it: a ping reply's port is stored as it is. */
  function StoredSender(m: Method, g: Datagram): Peerinfo
    requires |g.ip| == 4
  {
    if m == RPg then SenderHostOrder(g) else SenderOf(g)
  }

  /** Announces and find-node replies are not remembered, nor get-peers replies without peers. */
  function StoredFor(g: Datagram, m: Method, f: Fields): seq<Op>
    requires ValidDatagram(g) && Shaped(f)
  {
    if m == QAp || m == RFn || f.nid == None || (m == RGp && f.nPeers == 0) then []
    else [Insert(NihAt(f.nid).value, StoredSender(m, g))]
  }

  /** What handling a datagram stores: its sender, or nothing. */
  function StoredIn(v: World, g: Datagram): seq<Op>
    requires ValidWorld(v) && ValidDatagram(g)
  {
    if !LookedAt(v, g) || !Decode(g.msg).Accepted? then []
    else AcceptedShaped(g.msg); StoredFor(g, Decode(g.msg).meth, Decode(g.msg).f)
  }

  lemma OneStored(rt: seq<Nodeinfo>, op: Op)
    requires ValidCells(rt)
    ensures RunCells(rt, []) == rt && RunCells(rt, [op]) == StepCells(rt, op)
  {
    assert [op][..0] == [];
  }

  ghost predicate Stores(rt: seq<Nodeinfo>, r: Handled, ops: seq<Op>)
    requires ValidCells(rt)
  {
    r.Done? ==> r.w.rt == RunCells(rt, ops)
  }

  lemma ReplyStores(v: World, g: Datagram, f: Fields)
    requires ValidWorld(v) && ValidDatagram(g) && Shaped(f) && |TokBytes(f)| == 3 && OnRGp(v, g, f).Done?
    ensures OnRGp(v, g, f).w.rt ==
      if f.nPeers > 0 && f.nid.Some? then InsertAt(v.rt, NihAt(f.nid).value, SenderOf(g)) else v.rt
  {
  }

  lemma DispatchStores(v: World, g: Datagram, m: Method, f: Fields)
    requires ValidWorld(v) && ValidDatagram(g) && Shaped(f) && (m == RGp ==> |TokBytes(f)| == 3)
    ensures Stores(v.rt, Dispatch(v, g, m, f), StoredFor(g, m, f))
  {
    if f.nid.Some? {
      OneStored(v.rt, Insert(NihAt(f.nid).value, StoredSender(m, g)));
    }
    if m == RGp && Dispatch(v, g, m, f).Done? {
      ReplyStores(v, g, f);
    }
  }

  lemma HandleStores(v: World, g: Datagram)
    requires ValidWorld(v) && ValidDatagram(g)
    ensures Stores(v.rt, Handle(v, g), StoredIn(v, g))
  {
    SpamFilter.WithdrawIsDense(v.rx, SpamFilter.RX_RATES, g.ip, g.ip);
    if LookedAt(v, g) && Decode(g.msg).Accepted? {
      AcceptedShaped(g.msg);
      if Decode(g.msg).meth == RGp { GetPeersReplyShape(g.msg); }
      var v1 := v.(rx := SpamFilter.WithdrawFrom(v.rx, SpamFilter.RX_RATES, g.ip));
      DispatchStores(v1, g, Decode(g.msg).meth, Decode(g.msg).f);
    }
  }

  // ----- what a history stores -----

  /** What handling event i stores. */
  ghost function StoredBy(w: World, h: seq<Event>, i: nat): seq<Op>
    requires ValidWorld(w) && ValidHistory(h) && i < |h|
  {
    var v := After(w, h[..i]);
    if v.Some? && h[i].Received? then StoredIn(v.value, h[i].g) else []
  }

  /** Everything stored in a history, in order. */
  ghost function Stored(w: World, h: seq<Event>): seq<Op>
    requires ValidWorld(w) && ValidHistory(h)
  {
    Flat(StoreLog(w, h))
  }

  ghost function StoreLog(w: World, h: seq<Event>): (r: seq<seq<Op>>)
    requires ValidWorld(w) && ValidHistory(h)
    ensures |r| == |h|
  {
    seq(|h|, i requires 0 <= i < |h| => StoredBy(w, h, i))
  }

  lemma StorePrefix(w: World, h: seq<Event>)
    requires ValidWorld(w) && ValidHistory(h) && h != []
    ensures StoreLog(w, h[..|h| - 1]) == StoreLog(w, h)[..|h| - 1]
  {
    var n := |h| - 1;
    forall i | 0 <= i < n ensures StoreLog(w, h[..n])[i] == StoreLog(w, h)[i] {
      assert h[..n][..i] == h[..i];
    }
  }

  lemma StoredStep(w: World, h: seq<Event>)
    requires ValidWorld(w) && ValidHistory(h) && h != []
    ensures Stored(w, h) == Stored(w, h[..|h| - 1]) + StoredBy(w, h, |h| - 1)
  {
    StorePrefix(w, h);
  }

  lemma {:induction false} RunCellsConcat(rt: seq<Nodeinfo>, a: seq<Op>, b: seq<Op>)
    requires ValidCells(rt)
    ensures RunCells(rt, a + b) == RunCells(RunCells(rt, a), b)
    decreases |b|
  {
    if b == [] {
      assert a + b == a;
    } else {
      var n := |b| - 1;
      assert (a + b)[..|a + b| - 1] == a + b[..n];
      RunCellsConcat(rt, a, b[..n]);
    }
  }

  /** At any time the routing table is what the contacts stored so far, in order, make of the
      table that was there at the start. */
  lemma {:induction false} TableIsStored(w: World, h: seq<Event>)
    requires ValidWorld(w) && ValidHistory(h)
    ensures After(w, h).Some? ==> After(w, h).value.rt == RunCells(w.rt, Stored(w, h))
    decreases |h|
  {
    if h != [] {
      var n := |h| - 1;
      TableIsStored(w, h[..n]);
      StoredStep(w, h);
      RunCellsConcat(w.rt, Stored(w, h[..n]), StoredBy(w, h, n));
      var v := After(w, h[..n]);
      if v.Some? && h[n].Received? {
        HandleStores(v.value, h[n].g);
      }
    }
  }

  // ----- every contact was heard, or there before -----

  /** Event i is an accepted message from this id, sent from this address. */
  ghost predicate Heard(h: seq<Event>, i: nat, p: PNode)
    requires ValidHistory(h)
  {
    && i < |h| && h[i].Received? && Decode(h[i].g.msg).Accepted?
    && var m := Decode(h[i].g.msg).meth; var nid := FieldsAt(h, i, m).nid;
    nid.Some? && p == NihAt(nid).value + StoredSender(m, h[i].g)
  }

  /** Operation k inserts the contact p, and no later one is about the cell of its prefix. */
  ghost predicate LastAt(ops: seq<Op>, k: nat, j: nat, p: PNode) {
    && k < |ops| && ops[k].Insert? && SlotOf(ops[k].nid) == j && p == ops[k].nid + ops[k].peer
    && forall l :: k < l < |ops| ==> !About(ops[l], j)
  }

  predicate About(op: Op, j: nat) {
    j == SlotOf(if op.Insert? then op.nid else op.target)
  }

  ghost predicate Untouched(ops: seq<Op>, j: nat) { forall l :: 0 <= l < |ops| ==> !About(ops[l], j) }

  lemma InsertedOrKept(m: map<nat, PNode>, op: Op, j: nat)
    requires op.Insert? && j in StepMap(m, op)
    ensures if About(op, j) then StepMap(m, op)[j] == op.nid + op.peer else j in m && StepMap(m, op)[j] == m[j]
  {
  }

  lemma LastStays(ops: seq<Op>, k: nat, j: nat, p: PNode)
    requires ops != [] && LastAt(ops[..|ops| - 1], k, j, p) && !About(ops[|ops| - 1], j)
    ensures LastAt(ops, k, j, p)
  {
    var n := |ops| - 1;
    forall l | k < l < |ops| ensures !About(ops[l], j) {
      assert l < n ==> ops[..n][l] == ops[l];
    }
  }

  lemma UntouchedStays(ops: seq<Op>, j: nat)
    requires ops != [] && Untouched(ops[..|ops| - 1], j) && !About(ops[|ops| - 1], j)
    ensures Untouched(ops, j)
  {
    var n := |ops| - 1;
    forall l | 0 <= l < |ops| ensures !About(ops[l], j) {
      assert l < n ==> ops[..n][l] == ops[l];
    }
  }

  /** An occupant of the map is the last insertion under its prefix, or was there before. */
  lemma {:induction false} OccupantOrigin(m: map<nat, PNode>, ops: seq<Op>, j: nat)
    requires j in RunMap(m, ops) && forall k :: 0 <= k < |ops| ==> ops[k].Insert?
    ensures (exists k :: LastAt(ops, k, j, RunMap(m, ops)[j]))
      || (j in m && m[j] == RunMap(m, ops)[j] && Untouched(ops, j))
    decreases |ops|
  {
    if ops != [] {
      var n := |ops| - 1;
      var p := RunMap(m, ops)[j];
      InsertedOrKept(RunMap(m, ops[..n]), ops[n], j);
      if About(ops[n], j) {
        assert LastAt(ops, n, j, p);
      } else {
        OccupantOrigin(m, ops[..n], j);
        if k :| LastAt(ops[..n], k, j, p) {
          LastStays(ops, k, j, p);
        } else {
          UntouchedStays(ops, j);
        }
      }
    }
  }

  lemma StoredWasHeard(w: World, h: seq<Event>, k: nat) returns (i: nat)
    requires ValidWorld(w) && ValidHistory(h) && k < |Stored(w, h)|
    ensures Stored(w, h)[k].Insert? && Heard(h, i, Stored(w, h)[k].nid + Stored(w, h)[k].peer)
  {
    var at, j := FlatOrigin(StoreLog(w, h), k);
    i := at;
    assert StoreLog(w, h)[at] == StoredBy(w, h, at);
    AcceptedShaped(h[at].g.msg);
  }

  /** Over every history each contact in the routing table is the last one stored under its
      prefix, an id with the address it came from, of a message that was received and
      accepted (port reversed if it was a ping reply); or it was in the table at the start
      and nothing has been stored under its prefix since. */
  lemma EveryContactWasHeard(w: World, h: seq<Event>, j: nat)
    requires ValidWorld(w) && ValidHistory(h) && After(w, h).Some? && j in Occupants(After(w, h).value.rt)
    ensures var p := Occupants(After(w, h).value.rt)[j];
      || (exists k, i :: LastAt(Stored(w, h), k, j, p) && Heard(h, i, p))
      || (j in Occupants(w.rt) && Occupants(w.rt)[j] == p && Untouched(Stored(w, h), j))
  {
    var ops := Stored(w, h);
    TableIsStored(w, h);
    RunRefines(w.rt, ops);
    forall k: nat | k < |ops| ensures ops[k].Insert? { var i := StoredWasHeard(w, h, k); }
    OccupantOrigin(Occupants(w.rt), ops, j);
    var p := RunMap(Occupants(w.rt), ops)[j];
    if k :| LastAt(ops, k, j, p) {
      var i := StoredWasHeard(w, h, k);
    }
  }
}
