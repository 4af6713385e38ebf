// Choosing the next hops of a pursuit (find_best_hops, cht/gpmap.cpp): a stable
// selection of the closest contacts, kept in two short arrays shifted in place.

module Hops {
  import opened Dht
  import opened Dkad

  const MAX_GP_PNODES := 8
  const BULLSHIT_DKAD := 100
  const PAD := 160

  datatype Slot = Slot(d: nat, ix: nat)

  /** By distance, and by arrival among equals. */
  predicate Before(a: Slot, b: Slot) {
    a.d < b.d || (a.d == b.d && a.ix < b.ix)
  }

  predicate IsCandidate(d: nat) { BULLSHIT_DKAD < d < PAD }

  /** The declarative result: `best` holds, in order, the (at most eight) first of all
      candidates, and padding behind them. */
  ghost predicate TopK(dks: seq<nat>, best: seq<Slot>, m: nat) {
    && |best| == MAX_GP_PNODES && m <= MAX_GP_PNODES
    && (forall j :: 0 <= j < m ==> best[j].ix < |dks| && best[j].d == dks[best[j].ix] && IsCandidate(best[j].d))
    && (forall j, k :: 0 <= j < k < m ==> Before(best[j], best[k]))
    && (forall j :: m <= j < MAX_GP_PNODES ==> best[j] == Slot(PAD, 0))
    && (forall i :: 0 <= i < |dks| && IsCandidate(dks[i]) ==>
          Slot(dks[i], i) in best[..m] || (m == MAX_GP_PNODES && Before(best[7], Slot(dks[i], i))))
  }

  /** There is only one such result. */
  lemma TopKUnique(dks: seq<nat>, a: seq<Slot>, m: nat, b: seq<Slot>, n: nat)
    requires TopK(dks, a, m) && TopK(dks, b, n)
    ensures m == n && a == b
  {
    Agree(dks, a, m, b, n, 0);
  }

  lemma OneMoreAgrees(a: seq<Slot>, b: seq<Slot>, j: nat)
    requires j < |a| && j < |b| && a[..j] == b[..j] && a[j] == b[j]
    ensures a[..j + 1] == b[..j + 1]
  {
    assert a[..j + 1] == a[..j] + [a[j]] && b[..j + 1] == b[..j] + [b[j]];
  }

  lemma PaddedAgree(a: seq<Slot>, b: seq<Slot>, j: nat)
    requires |a| == |b| && j <= |a| && a[..j] == b[..j]
    requires forall k :: j <= k < |a| ==> a[k] == Slot(PAD, 0) && b[k] == Slot(PAD, 0)
    ensures a == b
  {
    assert forall k :: 0 <= k < j ==> a[k] == a[..j][k] && b[k] == b[..j][k];
  }

  lemma {:induction false} Agree(dks: seq<nat>, a: seq<Slot>, m: nat, b: seq<Slot>, n: nat, j: nat)
    requires TopK(dks, a, m) && TopK(dks, b, n) && j <= m && j <= n && a[..j] == b[..j]
    ensures m == n && a == b
    decreases MAX_GP_PNODES - j
  {
    if j < m || j < n {
      if j < m { ComesLater(dks, a, m, b, n, j); }
      if j < n { ComesLater(dks, b, n, a, m, j); }
      assert j < m && j < n && a[j] == b[j];
      OneMoreAgrees(a, b, j);
      Agree(dks, a, m, b, n, j + 1);
    } else {
      PaddedAgree(a, b, j);
    }
  }

  lemma NotAmongFirst(dks: seq<nat>, a: seq<Slot>, m: nat, b: seq<Slot>, j: nat)
    requires TopK(dks, a, m) && j < m && j <= |b| && a[..j] == b[..j]
    ensures forall k :: 0 <= k < j ==> b[k] != a[j]
  {
    forall k | 0 <= k < j ensures b[k] != a[j] {
      assert b[k] == b[..j][k] == a[..j][k] == a[k];
      assert Before(a[k], a[j]);
    }
  }

  /** A slot of one result that is not among the first j of the other comes later there. */
  lemma ComesLater(dks: seq<nat>, a: seq<Slot>, m: nat, b: seq<Slot>, n: nat, j: nat)
    requires TopK(dks, a, m) && TopK(dks, b, n) && j < m && j <= n && a[..j] == b[..j]
    ensures j < n && (a[j] == b[j] || Before(b[j], a[j]))
  {
    var s := a[j];
    assert s == Slot(dks[s.ix], s.ix);
    NotAmongFirst(dks, a, m, b, j);
  }

  // ----- one insertion -----

  /** Where the inner loop starts displacing: the first slot farther away; 8 if none. */
  function Position(best: seq<Slot>, d: nat, j: nat): (p: nat)
    requires j <= |best|
    ensures j <= p <= |best|
    ensures d > BULLSHIT_DKAD ==> forall k :: j <= k < p ==> best[k].d <= d
    ensures p < |best| ==> d < best[p].d && d > BULLSHIT_DKAD
    decreases |best| - j
  {
    if j == |best| then j
    else if d < best[j].d && d > BULLSHIT_DKAD then j
    else Position(best, d, j + 1)
  }

  function Insert(best: seq<Slot>, p: nat, s: Slot): (r: seq<Slot>)
    requires p <= |best|
    ensures |r| == |best|
    ensures forall k :: 0 <= k < |best| ==> r[k] == if k < p then best[k] else if k == p then s else best[k - 1]
  {
    seq(|best|, k requires 0 <= k < |best| => if k < p then best[k] else if k == p then s else best[k - 1])
  }

  /** Scanning one more contact keeps the selection right. */
  lemma InsertKeepsTopK(dks: seq<nat>, best: seq<Slot>, m: nat, d: nat)
    requires TopK(dks, best, m) && d < PAD
    ensures TopK(dks + [d], Insert(best, Position(best, d, 0), Slot(d, |dks|)), CountAfter(best, m, d))
  {
    if Position(best, d, 0) == MAX_GP_PNODES {
      SkipKeepsTopK(dks, best, m, d);
    } else {
      PositionInRange(dks, best, m, d);
      InsertOrdered(dks, best, m, d);
      var r := Insert(best, Position(best, d, 0), Slot(d, |dks|));
      var m' := CountAfter(best, m, d);
      forall i | 0 <= i < |dks + [d]| && IsCandidate((dks + [d])[i])
        ensures Slot((dks + [d])[i], i) in r[..m'] || (m' == MAX_GP_PNODES && Before(r[7], Slot((dks + [d])[i], i)))
      {
        InsertedOrDropped(dks, best, m, d, i);
      }
    }
  }

  function CountAfter(best: seq<Slot>, m: nat, d: nat): nat {
    if Position(best, d, 0) < |best| && m < MAX_GP_PNODES then m + 1 else m
  }

  lemma SkipKeepsTopK(dks: seq<nat>, best: seq<Slot>, m: nat, d: nat)
    requires TopK(dks, best, m) && d < PAD && Position(best, d, 0) == MAX_GP_PNODES
    ensures TopK(dks + [d], Insert(best, MAX_GP_PNODES, Slot(d, |dks|)), m)
  {
    assert Insert(best, MAX_GP_PNODES, Slot(d, |dks|)) == best;
    assert forall i :: 0 <= i < |dks| ==> (dks + [d])[i] == dks[i];
    if d > BULLSHIT_DKAD {
      assert best[7].d <= d;
    }
  }

  lemma PositionInRange(dks: seq<nat>, best: seq<Slot>, m: nat, d: nat)
    requires TopK(dks, best, m) && d < PAD && Position(best, d, 0) < MAX_GP_PNODES
    ensures Position(best, d, 0) <= m && IsCandidate(d)
  {
    assert m < Position(best, d, 0) ==> best[m].d <= d;
  }

  lemma InsertBefore(dks: seq<nat>, best: seq<Slot>, m: nat, d: nat, j: nat, k: nat)
    requires TopK(dks, best, m) && IsCandidate(d)
    requires Position(best, d, 0) < MAX_GP_PNODES && Position(best, d, 0) <= m && j < k < CountAfter(best, m, d)
    ensures var r := Insert(best, Position(best, d, 0), Slot(d, |dks|)); k < |r| && Before(r[j], r[k])
  {
    var p := Position(best, d, 0);
    if j < p && p < k {
      assert Before(best[j], best[k - 1]);
    } else if k == p {
      assert best[j].d <= d;
    } else if j == p {
      assert k - 1 == p || Before(best[p], best[k - 1]);
    }
  }

  lemma InsertFills(dks: seq<nat>, best: seq<Slot>, m: nat, d: nat, j: nat)
    requires TopK(dks, best, m) && IsCandidate(d) && j < MAX_GP_PNODES
    requires Position(best, d, 0) < MAX_GP_PNODES && Position(best, d, 0) <= m
    ensures var x := Insert(best, Position(best, d, 0), Slot(d, |dks|))[j]; var all := dks + [d];
      if j < CountAfter(best, m, d) then x.ix < |all| && x.d == all[x.ix] && IsCandidate(x.d) else x == Slot(PAD, 0)
  {
  }

  lemma InsertOrdered(dks: seq<nat>, best: seq<Slot>, m: nat, d: nat)
    requires TopK(dks, best, m) && IsCandidate(d)
    requires Position(best, d, 0) < MAX_GP_PNODES && Position(best, d, 0) <= m
    ensures var r := Insert(best, Position(best, d, 0), Slot(d, |dks|)); var m' := CountAfter(best, m, d); var all := dks + [d];
      && m' <= MAX_GP_PNODES
      && (forall j :: 0 <= j < m' ==> r[j].ix < |all| && r[j].d == all[r[j].ix] && IsCandidate(r[j].d))
      && (forall j, k :: 0 <= j < k < m' ==> Before(r[j], r[k]))
      && (forall j :: m' <= j < MAX_GP_PNODES ==> r[j] == Slot(PAD, 0))
  {
    var r := Insert(best, Position(best, d, 0), Slot(d, |dks|));
    forall j: nat, k: nat | j < k < CountAfter(best, m, d) ensures k < |r| && Before(r[j], r[k]) {
      InsertBefore(dks, best, m, d, j, k);
    }
    forall j: nat | j < MAX_GP_PNODES
      ensures var all := dks + [d];
        if j < CountAfter(best, m, d) then r[j].ix < |all| && r[j].d == all[r[j].ix] && IsCandidate(r[j].d)
        else r[j] == Slot(PAD, 0)
    {
      InsertFills(dks, best, m, d, j);
    }
  }

  /** A slot keeps its place or moves one up; only the last can fall out. */
  lemma Shifted(best: seq<Slot>, m: nat, d: nat, s: Slot, j: nat)
    requires |best| == MAX_GP_PNODES && j < m <= MAX_GP_PNODES && Position(best, d, 0) < MAX_GP_PNODES
    ensures best[j] in Insert(best, Position(best, d, 0), s)[..CountAfter(best, m, d)] || (j == 7 && m == MAX_GP_PNODES)
  {
    var p := Position(best, d, 0);
    var k := if j < p then j else j + 1;
    if k < MAX_GP_PNODES {
      assert Insert(best, p, s)[..CountAfter(best, m, d)][k] == best[j];
    }
  }

  /** Every candidate is kept, or pushed out at the far end by closer ones. */
  lemma InsertedOrDropped(dks: seq<nat>, best: seq<Slot>, m: nat, d: nat, i: nat)
    requires TopK(dks, best, m) && IsCandidate(d)
    requires Position(best, d, 0) < MAX_GP_PNODES && Position(best, d, 0) <= m
    requires i <= |dks| && IsCandidate((dks + [d])[i])
    ensures var r := Insert(best, Position(best, d, 0), Slot(d, |dks|)); var m' := CountAfter(best, m, d);
      var x := Slot((dks + [d])[i], i);
      x in r[..m'] || (m' == MAX_GP_PNODES && Before(r[7], x))
  {
    var p := Position(best, d, 0);
    var r := Insert(best, p, Slot(d, |dks|));
    var m' := CountAfter(best, m, d);
    var x := Slot((dks + [d])[i], i);
    if i == |dks| {
      assert r[..m'][p] == x;
    } else {
      LastComesEarlier(dks, best, m, d);
      if x in best[..m] {
        var j :| 0 <= j < m && best[j] == x;
        Shifted(best, m, d, Slot(d, |dks|), j);
      }
    }
  }

  /** What ends up in the last slot comes before what stood there. */
  lemma LastComesEarlier(dks: seq<nat>, best: seq<Slot>, m: nat, d: nat)
    requires TopK(dks, best, m) && IsCandidate(d)
    requires Position(best, d, 0) < MAX_GP_PNODES && Position(best, d, 0) <= m
    ensures m == MAX_GP_PNODES ==> Before(Insert(best, Position(best, d, 0), Slot(d, |dks|))[7], best[7])
  {
    assert m == MAX_GP_PNODES ==> Before(best[6], best[7]);
  }

  // ----- the whole selection -----

  function EmptySlots(): (r: seq<Slot>)
    ensures |r| == MAX_GP_PNODES && forall k :: 0 <= k < |r| ==> r[k] == Slot(PAD, 0)
  {
    seq(MAX_GP_PNODES, _ => Slot(PAD, 0))
  }

  function Offer(best: seq<Slot>, s: Slot): (r: seq<Slot>)
    ensures |r| == |best|
  {
    Insert(best, Position(best, s.d, 0), s)
  }

  /** What the two arrays hold once every distance has been offered. */
  function BestSlots(dks: seq<nat>): (r: seq<Slot>)
    ensures |r| == MAX_GP_PNODES
    decreases |dks|
  {
    if dks == [] then EmptySlots()
    else Offer(BestSlots(dks[..|dks| - 1]), Slot(dks[|dks| - 1], |dks| - 1))
  }

  lemma {:induction false} BestSlotsInRange(dks: seq<nat>, j: nat)
    requires dks != [] && j < MAX_GP_PNODES
    ensures BestSlots(dks)[j].ix < |dks|
    decreases |dks|
  {
    var n := |dks| - 1;
    if n > 0 {
      BestSlotsInRange(dks[..n], j);
      BestSlotsInRange(dks[..n], if j > 0 then j - 1 else 0);
    }
  }

  function BestCount(dks: seq<nat>): (m: nat)
    ensures m <= |dks|
    decreases |dks|
  {
    if dks == [] then 0
    else CountAfter(BestSlots(dks[..|dks| - 1]), BestCount(dks[..|dks| - 1]), dks[|dks| - 1])
  }

  lemma AllButLast(dks: seq<nat>)
    requires dks != []
    ensures dks[..|dks| - 1] + [dks[|dks| - 1]] == dks
  {
  }

  lemma OfferKeepsTopK(dks: seq<nat>, best: seq<Slot>, m: nat, d: nat)
    requires TopK(dks, best, m) && d < PAD
    ensures TopK(dks + [d], Offer(best, Slot(d, |dks|)), CountAfter(best, m, d))
  {
    InsertKeepsTopK(dks, best, m, d);
  }

  /** The arrays hold the eight first candidates, in order. */
  lemma {:induction false} BestSlotsAreTopK(dks: seq<nat>)
    requires forall i :: 0 <= i < |dks| ==> dks[i] < PAD
    ensures TopK(dks, BestSlots(dks), BestCount(dks))
    decreases |dks|
  {
    if dks != [] {
      var n := |dks| - 1;
      AllButLast(dks);
      BestSlotsAreTopK(dks[..n]);
      OfferKeepsTopK(dks[..n], BestSlots(dks[..n]), BestCount(dks[..n]), dks[n]);
    }
  }

  lemma BestSlotsStep(dks: seq<nat>, i: nat)
    requires i < |dks|
    ensures BestSlots(dks[..i + 1]) == Offer(BestSlots(dks[..i]), Slot(dks[i], i))
  {
    assert dks[..i + 1][..i] == dks[..i];
  }

  // ----- the loops -----

  function Distances(ih: Nih, nodes: seq<PNode>): (r: seq<nat>)
    ensures |r| == |nodes|
  {
    seq(|nodes|, i requires 0 <= i < |nodes| => Distance(ih, NidOf(nodes[i])))
  }

  lemma DistancesBelowPad(ih: Nih, nodes: seq<PNode>, i: nat)
    requires i < |nodes|
    ensures Distances(ih, nodes)[i] < PAD
  {
    DistanceBucket(ih, NidOf(nodes[i]));
  }

  ghost function Slots(ds: array<U8>, ixs: array<U8>): (r: seq<Slot>)
    requires ds.Length == ixs.Length
    reads ds, ixs
    ensures |r| == ds.Length
    ensures forall k :: 0 <= k < |r| ==> r[k] == Slot(ds[k] as nat, ixs[k] as nat)
  {
    seq(ds.Length, k requires 0 <= k < ds.Length reads ds, ixs => Slot(ds[k] as nat, ixs[k] as nat))
  }

  /** Puts one entry into slot j of both arrays and hands out what was there. */
  method Exchange(ds: array<U8>, ixs: array<U8>, j: nat, d: U8, ix: U8) returns (nextDkad: U8, nextIx: U8)
    requires ds.Length == ixs.Length && j < ds.Length && ds != ixs
    modifies ds, ixs
    ensures Slot(nextDkad as nat, nextIx as nat) == old(Slots(ds, ixs))[j]
    ensures Slots(ds, ixs) == old(Slots(ds, ixs))[j := Slot(d as nat, ix as nat)]
  {
    nextDkad, nextIx := ds[j], ixs[j];
    ds[j], ixs[j] := d, ix;
  }

  /** The inner loop: displaces everything behind the first slot that is farther away. */
  method Displace(ds: array<U8>, ixs: array<U8>, d: U8, ix: U8)
    requires ds.Length == ixs.Length == MAX_GP_PNODES && ds != ixs
    modifies ds, ixs
    ensures Slots(ds, ixs) == Insert(old(Slots(ds, ixs)), Position(old(Slots(ds, ixs)), d as nat, 0), Slot(d as nat, ix as nat))
  {
    ghost var best := Slots(ds, ixs);
    ghost var p := Position(best, d as nat, 0);
    ghost var s := Slot(d as nat, ix as nat);
    ghost var r, cur := Insert(best, p, s), best;
    var thisDkad, thisIx, displace := d, ix, false;
    var jx := 0;
    while jx < MAX_GP_PNODES
      invariant 0 <= jx <= MAX_GP_PNODES
      invariant displace <==> p < jx
      invariant Slot(thisDkad as nat, thisIx as nat) == if displace then best[jx - 1] else s
      invariant cur == Slots(ds, ixs)
      invariant forall k :: 0 <= k < jx ==> cur[k] == r[k]
      invariant forall k :: jx <= k < MAX_GP_PNODES ==> cur[k] == best[k]
    {
      assert cur[jx] == best[jx];
      if thisDkad < ds[jx] && thisDkad > BULLSHIT_DKAD as U8 {
        displace := true;
      }
      if displace {
        thisDkad, thisIx := Exchange(ds, ixs, jx, thisDkad, thisIx);
        cur := cur[jx := r[jx]];
      }
      jx := jx + 1;
    }
  }

  /** The hops a reply offers: the contacts of the selected slots, in order, as many as
      there are contacts (at most eight); padding slots stand for the first contact. */
  function NextHops(ih: Nih, nodes: seq<PNode>): (r: seq<PNode>)
    ensures |r| <= MAX_GP_PNODES && |r| <= |nodes|
  {
    seq(HopCount(nodes), j requires 0 <= j < HopCount(nodes) => Hop(ih, nodes, j))
  }

  function HopCount(nodes: seq<PNode>): nat {
    if MAX_GP_PNODES < |nodes| then MAX_GP_PNODES else |nodes|
  }

  /** The contact the j-th hop stands for. */
  function HopIndex(ih: Nih, nodes: seq<PNode>, j: nat): (i: nat)
    requires j < HopCount(nodes)
    ensures i < |nodes|
  {
    BestSlotsInRange(Distances(ih, nodes), j);
    BestSlots(Distances(ih, nodes))[j].ix
  }

  function Hop(ih: Nih, nodes: seq<PNode>, j: nat): PNode
    requires j < HopCount(nodes)
  {
    nodes[HopIndex(ih, nodes, j)]
  }

  /** One contact is offered to the two arrays. */
  method OfferHop(ih: Nih, nid: Nih, ix: U8, ds: array<U8>, ixs: array<U8>)
    requires ds.Length == ixs.Length == MAX_GP_PNODES && ds != ixs
    modifies ds, ixs
    ensures Slots(ds, ixs) == Offer(old(Slots(ds, ixs)), Slot(Distance(ih, nid), ix as nat))
  {
    var d := ComputeDkad(ih, nid);
    Displace(ds, ixs, d, ix);
  }

  /** The outer loop: offers every contact to the two arrays. */
  method SelectHops(ih: Nih, nodes: seq<PNode>, ds: array<U8>, ixs: array<U8>)
    requires |nodes| <= 255 && ds.Length == ixs.Length == MAX_GP_PNODES && ds != ixs
    requires Slots(ds, ixs) == EmptySlots()
    modifies ds, ixs
    ensures Slots(ds, ixs) == BestSlots(Distances(ih, nodes))
  {
    ghost var dks := Distances(ih, nodes);
    for ix := 0 to |nodes|
      invariant Slots(ds, ixs) == BestSlots(dks[..ix])
    {
      BestSlotsStep(dks, ix);
      OfferHop(ih, NidOf(nodes[ix]), ix as U8, ds, ixs);
    }
    assert dks[..|nodes|] == dks;
  }

  method FindBestHops(ih: Nih, nodes: seq<PNode>) returns (pnodes: seq<PNode>)
    requires |nodes| <= 255
    ensures pnodes == NextHops(ih, nodes)
  {
    var ixs := new U8[MAX_GP_PNODES](_ => 0);
    var ds := new U8[MAX_GP_PNODES](_ => 160);
    assert Slots(ds, ixs) == EmptySlots();
    SelectHops(ih, nodes, ds, ixs);
    assert forall j :: 0 <= j < MAX_GP_PNODES ==> Slots(ds, ixs)[j].ix == ixs[j] as nat;
    forall j | 0 <= j < HopCount(nodes) ensures ixs[j] as nat < |nodes| && nodes[ixs[j] as nat] == Hop(ih, nodes, j) {
      BestSlotsInRange(Distances(ih, nodes), j);
    }
    pnodes := PushHops(nodes, ixs, HopCount(nodes));
  }

  /** The final loop: pushes the chosen contacts. */
  method PushHops(nodes: seq<PNode>, ixs: array<U8>, n: nat) returns (pnodes: seq<PNode>)
    requires n <= ixs.Length && forall j :: 0 <= j < n ==> ixs[j] as nat < |nodes|
    ensures |pnodes| == n && forall j :: 0 <= j < n ==> pnodes[j] == nodes[ixs[j] as nat]
  {
    pnodes := [];
    for dx := 0 to n
      invariant |pnodes| == dx && forall j :: 0 <= j < dx ==> pnodes[j] == nodes[ixs[j] as nat]
    {
      pnodes := pnodes + [nodes[ixs[dx] as nat]];
    }
  }

  lemma CloserComesFirst(dks: seq<nat>, best: seq<Slot>, m: nat, a: nat, k: nat)
    requires TopK(dks, best, m)
    requires a < |dks| && IsCandidate(dks[a]) && k < m && dks[a] < best[k].d
    ensures exists j :: 0 <= j < k && best[j].ix == a
  {
    var sa := Slot(dks[a], a);
    assert m == MAX_GP_PNODES ==> k == 7 || Before(best[k], best[7]);
    assert sa in best[..m];
    var j :| 0 <= j < m && best[j] == sa;
    assert j < k;
  }

  /** A contact that shares strictly more leading bytes with the info hash comes before
      one that shares fewer, if both are above the cut-off; if the farther one is chosen
      at all, so is the closer one. */
  lemma MoreSharedComesFirst(ih: Nih, nodes: seq<PNode>, best: seq<Slot>, m: nat, a: nat, k: nat)
    requires TopK(Distances(ih, nodes), best, m) && k < m
    requires a < |nodes| && Distance(ih, NidOf(nodes[a])) > BULLSHIT_DKAD
    requires Shared(ih, NidOf(nodes[a]), 0) > Shared(ih, NidOf(nodes[best[k].ix]), 0)
    ensures exists j :: 0 <= j < k && best[j].ix == a
  {
    MoreSharedIsCloser(ih, NidOf(nodes[a]), NidOf(nodes[best[k].ix]));
    DistancesBelowPad(ih, nodes, a);
    CloserComesFirst(Distances(ih, nodes), best, m, a, k);
  }

  lemma SlotsOfNodes(ih: Nih, nodes: seq<PNode>)
    ensures TopK(Distances(ih, nodes), BestSlots(Distances(ih, nodes)), BestCount(Distances(ih, nodes)))
  {
    forall i | 0 <= i < |nodes| ensures Distances(ih, nodes)[i] < PAD { DistancesBelowPad(ih, nodes, i); }
    BestSlotsAreTopK(Distances(ih, nodes));
  }

  /** The contacts of a slot array, in order; every selected slot is among them. */
  ghost predicate Chosen(nodes: seq<PNode>, best: seq<Slot>, m: nat, hops: seq<PNode>) {
    && |hops| == (if |nodes| < 8 then |nodes| else 8) <= |best| && m <= |hops|
    && forall j :: 0 <= j < |hops| ==> best[j].ix < |nodes| && hops[j] == nodes[best[j].ix]
  }

  /** The hops pursued are the contacts of the eight first candidates, the nearest first
      and equals by arrival, filled up with the first contact; and nothing else is. */
  lemma NextHopsAreTopK(ih: Nih, nodes: seq<PNode>, hops: seq<PNode>)
    ensures hops == NextHops(ih, nodes)
      <==> exists best, m :: TopK(Distances(ih, nodes), best, m) && Chosen(nodes, best, m, hops)
  {
    var dks := Distances(ih, nodes);
    SlotsOfNodes(ih, nodes);
    forall j | 0 <= j < HopCount(nodes) ensures BestSlots(dks)[j].ix < |nodes| { BestSlotsInRange(dks, j); }
    assert Chosen(nodes, BestSlots(dks), BestCount(dks), NextHops(ih, nodes));
    forall best, m | TopK(dks, best, m) && Chosen(nodes, best, m, hops) ensures hops == NextHops(ih, nodes) {
      TopKUnique(dks, best, m, BestSlots(dks), BestCount(dks));
    }
  }

  // ----- padding: contacts at or below the cut-off -----

  /** How many distances are above the cut-off. */
  function Candidates(dks: seq<nat>): (n: nat)
    ensures n <= |dks|
    decreases |dks|
  {
    if dks == [] then 0 else Candidates(dks[..|dks| - 1]) + if IsCandidate(dks[|dks| - 1]) then 1 else 0
  }

  lemma {:induction false} CandidatesConcat(a: seq<nat>, b: seq<nat>)
    ensures Candidates(a + b) == Candidates(a) + Candidates(b)
    decreases |b|
  {
    if b == [] {
      assert a + b == a;
    } else {
      var n := |b| - 1;
      assert (a + b)[..|a + b| - 1] == a + b[..n];
      CandidatesConcat(a, b[..n]);
    }
  }

  lemma CandidatesFirst(dks: seq<nat>)
    requires dks != []
    ensures Candidates(dks) == Candidates(dks[1..]) + if IsCandidate(dks[0]) then 1 else 0
  {
    assert dks == [dks[0]] + dks[1..] && [dks[0]][..0] == [];
    CandidatesConcat([dks[0]], dks[1..]);
  }

  lemma {:induction false} AllCandidates(dks: seq<nat>)
    ensures Candidates(dks) == |dks| <==> forall i :: 0 <= i < |dks| ==> IsCandidate(dks[i])
    decreases |dks|
  {
    if dks != [] {
      var n := |dks| - 1;
      AllCandidates(dks[..n]);
      assert forall i :: 0 <= i < n ==> dks[..n][i] == dks[i];
    }
  }

  lemma CountedIfCandidate(dks: seq<nat>, best: seq<Slot>, m: nat, d: nat)
    requires TopK(dks, best, m) && d < PAD && m < MAX_GP_PNODES
    ensures CountAfter(best, m, d) == m + if IsCandidate(d) then 1 else 0
  {
    if Position(best, d, 0) < MAX_GP_PNODES {
      PositionInRange(dks, best, m, d);
    } else {
      assert best[m] == Slot(PAD, 0);
    }
  }

  /** The slots are filled with candidates as far as there are any. */
  lemma {:induction false} FilledSlots(dks: seq<nat>)
    requires forall i :: 0 <= i < |dks| ==> dks[i] < PAD
    ensures BestCount(dks) == if Candidates(dks) < MAX_GP_PNODES then Candidates(dks) else MAX_GP_PNODES
    decreases |dks|
  {
    if dks != [] {
      var n := |dks| - 1;
      FilledSlots(dks[..n]);
      BestSlotsAreTopK(dks[..n]);
      if BestCount(dks[..n]) < MAX_GP_PNODES {
        CountedIfCandidate(dks[..n], BestSlots(dks[..n]), BestCount(dks[..n]), dks[n]);
      }
    }
  }

  /** A contact is above the cut-off. */
  predicate AboveCutoff(ih: Nih, p: PNode) { Distance(ih, NidOf(p)) > 100 }

  /** How many contacts are. */
  function CountAbove(ih: Nih, nodes: seq<PNode>): nat { Candidates(Distances(ih, nodes)) }

  lemma AboveIsCandidate(ih: Nih, nodes: seq<PNode>, i: nat)
    requires i < |nodes|
    ensures AboveCutoff(ih, nodes[i]) <==> IsCandidate(Distances(ih, nodes)[i])
  {
    DistancesBelowPad(ih, nodes, i);
  }

  /** Behind the candidates every hop is the first contact. */
  lemma HopAt(ih: Nih, nodes: seq<PNode>, j: nat)
    requires j < HopCount(nodes)
    ensures var i := HopIndex(ih, nodes, j);
      NextHops(ih, nodes)[j] == nodes[i] && if j < CountAbove(ih, nodes) then AboveCutoff(ih, nodes[i]) else i == 0
  {
    SlotsOfNodes(ih, nodes);
    forall i | 0 <= i < |nodes| ensures Distances(ih, nodes)[i] < PAD { DistancesBelowPad(ih, nodes, i); }
    FilledSlots(Distances(ih, nodes));
  }

  lemma HopIndexesDiffer(ih: Nih, nodes: seq<PNode>, j: nat, k: nat)
    requires j < k < HopCount(nodes) && k < CountAbove(ih, nodes)
    ensures HopIndex(ih, nodes, j) != HopIndex(ih, nodes, k)
  {
    SlotsOfNodes(ih, nodes);
    forall i | 0 <= i < |nodes| ensures Distances(ih, nodes)[i] < PAD { DistancesBelowPad(ih, nodes, i); }
    FilledSlots(Distances(ih, nodes));
    assert Before(BestSlots(Distances(ih, nodes))[j], BestSlots(Distances(ih, nodes))[k]);
  }

  /** If the first contact is above the cut-off and slots are left, it has one of the others. */
  lemma FirstSelected(ih: Nih, nodes: seq<PNode>) returns (j: nat)
    requires nodes != [] && AboveCutoff(ih, nodes[0]) && CountAbove(ih, nodes) < HopCount(nodes)
    ensures j < CountAbove(ih, nodes) && HopIndex(ih, nodes, j) == 0
  {
    var dks := Distances(ih, nodes);
    SlotsOfNodes(ih, nodes);
    AboveIsCandidate(ih, nodes, 0);
    forall i | 0 <= i < |nodes| ensures dks[i] < PAD { DistancesBelowPad(ih, nodes, i); }
    FilledSlots(dks);
    assert Slot(dks[0], 0) in BestSlots(dks)[..BestCount(dks)];
    j :| 0 <= j < BestCount(dks) && BestSlots(dks)[j] == Slot(dks[0], 0);
  }

  lemma CountOthers(ih: Nih, nodes: seq<PNode>)
    requires nodes != []
    ensures CountAbove(ih, nodes) == CountAbove(ih, nodes[1..]) + if AboveCutoff(ih, nodes[0]) then 1 else 0
  {
    var dks := Distances(ih, nodes);
    assert Distances(ih, nodes[1..]) == dks[1..];
    CandidatesFirst(dks);
    AboveIsCandidate(ih, nodes, 0);
  }

  /** All hops are above the cut-off exactly when the first contact is, or eight contacts are. */
  lemma CutoffExact(ih: Nih, nodes: seq<PNode>)
    requires nodes != []
    ensures (forall j :: 0 <= j < HopCount(nodes) ==> AboveCutoff(ih, NextHops(ih, nodes)[j]))
      <==> AboveCutoff(ih, nodes[0]) || CountAbove(ih, nodes) >= MAX_GP_PNODES
  {
    forall j: nat | j < HopCount(nodes)
      ensures AboveCutoff(ih, NextHops(ih, nodes)[j]) <==> j < CountAbove(ih, nodes) || AboveCutoff(ih, nodes[0])
    {
      HopAt(ih, nodes, j);
    }
    CountOthers(ih, nodes);
    if !AboveCutoff(ih, nodes[0]) && CountAbove(ih, nodes) < MAX_GP_PNODES {
      assert !AboveCutoff(ih, NextHops(ih, nodes)[CountAbove(ih, nodes)]);
    }
  }

  /** Some contact is pushed twice. */
  ghost predicate PushesTwice(ih: Nih, nodes: seq<PNode>) {
    exists j: nat, k: nat :: j < k < HopCount(nodes) && HopIndex(ih, nodes, j) == HopIndex(ih, nodes, k)
  }

  /** That is so exactly when there are fewer other contacts above the cut-off than hops
      behind the first. */
  lemma PushesTwiceExact(ih: Nih, nodes: seq<PNode>)
    requires nodes != []
    ensures PushesTwice(ih, nodes) <==> CountAbove(ih, nodes[1..]) + 1 < HopCount(nodes)
  {
    var n, c := HopCount(nodes), CountAbove(ih, nodes);
    CountOthers(ih, nodes);
    if CountAbove(ih, nodes[1..]) + 1 < n {
      HopAt(ih, nodes, n - 1);
      if AboveCutoff(ih, nodes[0]) {
        var j := FirstSelected(ih, nodes);
        assert HopIndex(ih, nodes, j) == HopIndex(ih, nodes, n - 1);
      } else {
        HopAt(ih, nodes, n - 2);
        assert HopIndex(ih, nodes, n - 2) == HopIndex(ih, nodes, n - 1);
      }
    } else if j: nat, k: nat :| j < k < n && HopIndex(ih, nodes, j) == HopIndex(ih, nodes, k) {
      HopAt(ih, nodes, j);
      HopAt(ih, nodes, k);
      if k < c {
        HopIndexesDiffer(ih, nodes, j, k);
      }
    }
  }

  lemma AllAbove(ih: Nih, nodes: seq<PNode>)
    ensures CountAbove(ih, nodes) <= |nodes|
    ensures CountAbove(ih, nodes) == |nodes| <==> forall i :: 0 <= i < |nodes| ==> AboveCutoff(ih, nodes[i])
  {
    AllCandidates(Distances(ih, nodes));
    forall i: nat | i < |nodes| ensures AboveCutoff(ih, nodes[i]) <==> IsCandidate(Distances(ih, nodes)[i]) {
      AboveIsCandidate(ih, nodes, i);
    }
  }

  lemma OthersAbove(ih: Nih, nodes: seq<PNode>)
    requires nodes != []
    ensures CountAbove(ih, nodes[1..]) + 1 < |nodes| <==> exists i :: 1 <= i < |nodes| && !AboveCutoff(ih, nodes[i])
  {
    var others := nodes[1..];
    AllAbove(ih, others);
    if i :| 1 <= i < |nodes| && !AboveCutoff(ih, nodes[i]) {
      assert others[i - 1] == nodes[i];
    } else {
      assert forall i :: 0 <= i < |others| ==> others[i] == nodes[i + 1];
    }
  }

  /** With at most eight contacts, as the decoder admits, all hops are above the cut-off
      exactly when the first contact is. */
  lemma CutoffOfFew(ih: Nih, nodes: seq<PNode>)
    requires 0 < |nodes| <= MAX_GP_PNODES
    ensures (forall j :: 0 <= j < |nodes| ==> AboveCutoff(ih, NextHops(ih, nodes)[j])) <==> AboveCutoff(ih, nodes[0])
  {
    CutoffExact(ih, nodes);
    AllAbove(ih, nodes);
  }

  /** And a contact is pushed twice exactly when one behind the first is not above it. */
  lemma TwiceOfFew(ih: Nih, nodes: seq<PNode>)
    requires 0 < |nodes| <= MAX_GP_PNODES
    ensures PushesTwice(ih, nodes) <==> exists i :: 1 <= i < |nodes| && !AboveCutoff(ih, nodes[i])
  {
    PushesTwiceExact(ih, nodes);
    OthersAbove(ih, nodes);
  }
}
