// The routing table (cht/rt.cpp, cht/rt.hpp): a direct-mapped cache with one cell per
// two-byte prefix, refining a map from prefixes to whole contacts.

module RoutingTable {
  import opened Dht

  const N_CELLS := 65536

  /** The source's size constant is in bytes: 24 per cell. */
  const RT_SIZE := 1572864

  /** The last 18 bytes of an id and an address; the prefix is the cell's position. */
  datatype Nodeinfo = Nodeinfo(low: Bytes, peerinfo: Peerinfo)

  ghost predicate ValidNode(c: Nodeinfo) { |c.low| == NIH_LEN - 2 }

  ghost predicate ValidCells(rt: seq<Nodeinfo>) {
    |rt| == N_CELLS && forall i :: 0 <= i < N_CELLS ==> ValidNode(rt[i])
  }

  const ZERO_CHECK: Bytes := [0, 0, 0, 0]

  predicate IsEmpty(c: Nodeinfo)
    requires |c.low| == 18
  {
    c.low[14..] == ZERO_CHECK
  }

  function High(nid: Nih): Bytes { nid[..2] }

  function Low(nid: Nih): Bytes { nid[2..] }

  function CellOf(a: Byte, b: Byte): (i: nat)
    ensures i < N_CELLS
  {
    256 * (a as int) + b
  }

  function SlotOf(nid: Nih): nat { CellOf(nid[0], nid[1]) }

  function PrefixOf(i: nat): (h: Bytes)
    requires i < N_CELLS
    ensures |h| == 2 && CellOf(h[0], h[1]) == i
  {
    [i / 256, i % 256]
  }

  /** The contact a cell stands for. */
  function Contact(i: nat, c: Nodeinfo): PNode
    requires i < N_CELLS && |c.low| == 18
  {
    PrefixOf(i) + c.low + c.peerinfo
  }

  const EMPTY_CONTACT: PNode := Zeros(PNODE_LEN)

  // ----- what the operations do to the cells -----

  function InsertAt(rt: seq<Nodeinfo>, nid: Nih, p: Peerinfo): seq<Nodeinfo>
    requires |rt| == N_CELLS
  {
    rt[SlotOf(nid) := Nodeinfo(Low(nid), p)]
  }

  function DeleteFrom(rt: seq<Nodeinfo>, target: Nih): seq<Nodeinfo>
    requires |rt| == N_CELLS && |rt[SlotOf(target)].low| == 18
  {
    var c := rt[SlotOf(target)];
    if c.low[14..] == Checksum(target) then rt[SlotOf(target) := c.(low := c.low[..14] + ZERO_CHECK)] else rt
  }

  function Neighbor(rt: seq<Nodeinfo>, target: Nih, start: nat): PNode
    requires ValidCells(rt)
  {
    var c := rt[SlotOf(target)];
    if IsEmpty(c) then RandomNode(rt, start) else High(target) + c.low + c.peerinfo
  }

  /** An 8-bit cast of the shifted index. */
  function ScanHigh(ix: nat): Byte { ix / 256 % 256 }

  /** The cell the scan looks at for an index. */
  function ScanCell(ix: nat): nat { CellOf(ScanHigh(ix), ix % 256) }

  lemma PrefixOfCell(a: Byte, b: Byte)
    ensures PrefixOf(CellOf(a, b)) == [a, b]
  {
  }

  /** One scanning pass over [ix, end). */
  function ScanPass(rt: seq<Nodeinfo>, ix: nat, end: nat): (r: Option<nat>)
    requires ValidCells(rt)
    ensures r.Some? ==> r.value < N_CELLS && !IsEmpty(rt[r.value])
    decreases end - ix
  {
    if ix >= end then None
    else if !IsEmpty(rt[ScanCell(ix)]) then Some(ScanCell(ix))
    else ScanPass(rt, ix + 1, end)
  }

  /** The scan from a starting draw: the outer loop runs its body only for a nonzero
      start, and then only once. */
  function RandomNode(rt: seq<Nodeinfo>, start: nat): PNode
    requires ValidCells(rt)
  {
    if start == 0 then EMPTY_CONTACT
    else
      var r := ScanPass(rt, start, RT_SIZE);
      if r == None then EMPTY_CONTACT else Contact(r.value, rt[r.value])
  }

  class RT {
    const cells: array<Nodeinfo>

    ghost predicate Valid()
      reads cells
    {
      ValidCells(cells[..])
    }

    /** An empty table. */
    constructor ()
      ensures Valid() && fresh(cells)
      ensures forall i :: 0 <= i < N_CELLS ==> IsEmpty(cells[i])
    {
      cells := new Nodeinfo[N_CELLS](_ => Nodeinfo(Zeros(18), Zeros(6)));
    }

    method InsertContact(nid: Nih, peer: Peerinfo)
      requires Valid()
      modifies cells
      ensures Valid() && cells[..] == InsertAt(old(cells[..]), nid, peer)
    {
      cells[SlotOf(nid)] := Nodeinfo(Low(nid), peer);
    }

    method DeleteNode(target: Nih)
      requires Valid()
      modifies cells
      ensures Valid() && cells[..] == DeleteFrom(old(cells[..]), target)
    {
      var i := SlotOf(target);
      if cells[i].low[14..] == Checksum(target) {
        cells[i] := cells[i].(low := cells[i].low[..14] + ZERO_CHECK);
      }
    }

    method GetNeighborContact(target: Nih, start: nat) returns (p: PNode)
      requires Valid() && start < RT_SIZE
      ensures p == Neighbor(cells[..], target, start)
    {
      var out := cells[SlotOf(target)];
      if IsEmpty(out) {
        p := GetRandomValidNode(start);
      } else {
        p := High(target) + out.low + out.peerinfo;
      }
    }

    method GetRandomValidNode(draw: nat) returns (p: PNode)
      requires Valid() && draw < RT_SIZE
      ensures p == RandomNode(cells[..], draw)
    {
      var start, end := draw, RT_SIZE;
      while start > 0
        invariant (start == draw && end == RT_SIZE)
               || (start == 0 && (draw > 0 ==> ScanPass(cells[..], draw, RT_SIZE) == None))
        decreases start
      {
        var found := Scan(start, end);
        if found.Some? {
          return found.value;
        }
        end := start;
        start := 0;
      }
      return EMPTY_CONTACT;
    }

    /** The inner loop of the scan. */
    method Scan(start: nat, end: nat) returns (p: Option<PNode>)
      requires Valid() && start <= end
      ensures var r := ScanPass(cells[..], start, end);
        p == if r == None then None else Some(Contact(r.value, cells[r.value]))
    {
      var ix := start;
      while ix < end
        invariant start <= ix <= end
        invariant ScanPass(cells[..], ix, end) == ScanPass(cells[..], start, end)
      {
        var ax, bx := ScanHigh(ix), ix % 256;
        var out := cells[CellOf(ax, bx)];
        if !IsEmpty(out) {
          PrefixOfCell(ax, bx);
          return Some([ax, bx] + out.low + out.peerinfo);
        }
        ix := ix + 1;
      }
      return None;
    }
  }

  // ----- the abstract map -----

  /** The contacts the table holds, by prefix cell. */
  ghost function Occupants(rt: seq<Nodeinfo>): map<nat, PNode>
    requires ValidCells(rt)
  {
    map i: nat | i < N_CELLS && !IsEmpty(rt[i]) :: Contact(i, rt[i])
  }

  lemma ContactOfInserted(nid: Nih, p: Peerinfo)
    ensures Contact(SlotOf(nid), Nodeinfo(Low(nid), p)) == nid + p
    ensures Low(nid)[14..] == Checksum(nid)
  {
    PrefixOfCell(nid[0], nid[1]);
    assert PrefixOf(SlotOf(nid)) == High(nid);
    assert High(nid) + Low(nid) == nid;
  }

  datatype Op = Insert(nid: Nih, peer: Peerinfo) | Delete(target: Nih)

  /** The map semantics: the last contact inserted under a prefix stays until a contact
      of the same checksum is deleted. An id whose checksum is zero empties its cell. */
  ghost function StepMap(m: map<nat, PNode>, op: Op): map<nat, PNode> {
    match op
    case Insert(nid, p) =>
      if Checksum(nid) == ZERO_CHECK then m - {SlotOf(nid)} else m[SlotOf(nid) := nid + p]
    case Delete(t) =>
      if SlotOf(t) in m && Checksum(NidOf(m[SlotOf(t)])) == Checksum(t) then m - {SlotOf(t)} else m
  }

  function StepCells(rt: seq<Nodeinfo>, op: Op): seq<Nodeinfo>
    requires ValidCells(rt)
  {
    match op
    case Insert(nid, p) => InsertAt(rt, nid, p)
    case Delete(t) => DeleteFrom(rt, t)
  }

  lemma StepCellsValid(rt: seq<Nodeinfo>, op: Op)
    requires ValidCells(rt)
    ensures ValidCells(StepCells(rt, op))
  {
  }

  lemma ContactChecksum(i: nat, c: Nodeinfo)
    requires i < N_CELLS && |c.low| == 18
    ensures Checksum(NidOf(Contact(i, c))) == c.low[14..]
  {
  }

  lemma InsertRefines(rt: seq<Nodeinfo>, nid: Nih, p: Peerinfo)
    requires ValidCells(rt)
    ensures ValidCells(InsertAt(rt, nid, p))
    ensures Occupants(InsertAt(rt, nid, p)) == StepMap(Occupants(rt), Insert(nid, p))
  {
    ContactOfInserted(nid, p);
  }

  lemma DeletedCells(rt: seq<Nodeinfo>, t: Nih, j: nat)
    requires ValidCells(rt) && j < N_CELLS
    ensures var rt' := DeleteFrom(rt, t); var hit := j == SlotOf(t) && rt[j].low[14..] == Checksum(t);
      |rt'| == N_CELLS && |rt'[j].low| == 18 && if hit then IsEmpty(rt'[j]) else rt'[j] == rt[j]
  {
  }

  /** The occupants after cell i was emptied, and nothing else changed. */
  lemma EmptiedCell(rt: seq<Nodeinfo>, rt': seq<Nodeinfo>, i: nat)
    requires ValidCells(rt) && ValidCells(rt') && i < N_CELLS && IsEmpty(rt'[i])
    requires forall j :: 0 <= j < N_CELLS && j != i ==> rt'[j] == rt[j]
    ensures Occupants(rt') == Occupants(rt) - {i}
  {
  }

  lemma DeleteRefines(rt: seq<Nodeinfo>, t: Nih)
    requires ValidCells(rt) && ValidCells(DeleteFrom(rt, t))
    ensures Occupants(DeleteFrom(rt, t)) == StepMap(Occupants(rt), Delete(t))
  {
    var i := SlotOf(t);
    ContactChecksum(i, rt[i]);
    if rt[i].low[14..] == Checksum(t) {
      DeletedCells(rt, t, i);
      EmptiedCell(rt, DeleteFrom(rt, t), i);
    }
  }

  /** Each operation on the cells is the map operation. */
  lemma StepRefines(rt: seq<Nodeinfo>, op: Op)
    requires ValidCells(rt)
    ensures ValidCells(StepCells(rt, op))
    ensures Occupants(StepCells(rt, op)) == StepMap(Occupants(rt), op)
  {
    StepCellsValid(rt, op);
    match op {
      case Insert(nid, p) => InsertRefines(rt, nid, p);
      case Delete(t) => DeleteRefines(rt, t);
    }
  }

  ghost function RunCells(rt: seq<Nodeinfo>, ops: seq<Op>): (r: seq<Nodeinfo>)
    requires ValidCells(rt)
    ensures ValidCells(r)
    decreases |ops|
  {
    if ops == [] then rt else
      var last := |ops| - 1;
      StepCellsValid(RunCells(rt, ops[..last]), ops[last]);
      StepCells(RunCells(rt, ops[..last]), ops[last])
  }

  ghost function RunMap(m: map<nat, PNode>, ops: seq<Op>): map<nat, PNode>
    decreases |ops|
  {
    if ops == [] then m else StepMap(RunMap(m, ops[..|ops| - 1]), ops[|ops| - 1])
  }

  /** Over any run of insertions and deletions the table is the map of last contacts. */
  lemma {:induction false} RunRefines(rt: seq<Nodeinfo>, ops: seq<Op>)
    requires ValidCells(rt)
    ensures Occupants(RunCells(rt, ops)) == RunMap(Occupants(rt), ops)
    decreases |ops|
  {
    if ops != [] {
      var last := |ops| - 1;
      RunRefines(rt, ops[..last]);
      StepRefines(RunCells(rt, ops[..last]), ops[last]);
    }
  }

  /** Looking up a target whose prefix is occupied yields that occupant, whole. */
  lemma NeighborIsOccupant(rt: seq<Nodeinfo>, target: Nih, start: nat)
    requires ValidCells(rt) && SlotOf(target) in Occupants(rt)
    ensures Neighbor(rt, target, start) == Occupants(rt)[SlotOf(target)]
  {
    PrefixOfCell(target[0], target[1]);
    assert PrefixOf(SlotOf(target)) == High(target);
  }

  // ----- the random scan -----

  /** The scan's index map is the index modulo the number of cells. */
  lemma ScanCellIsMod(ix: nat)
    ensures ScanCell(ix) == ix % N_CELLS
  {
    assert ix == 65536 * (ix / 65536) + 256 * (ix / 256 % 256) + ix % 256;
  }

  lemma {:induction false} ScanPassNone(rt: seq<Nodeinfo>, ix: nat, end: nat)
    requires ValidCells(rt)
    ensures ScanPass(rt, ix, end) == None <==> forall k :: ix <= k < end ==> IsEmpty(rt[ScanCell(k)])
    decreases end - ix
  {
    if ix < end {
      ScanPassNone(rt, ix + 1, end);
    }
  }

  lemma {:induction false} ScanPassFirst(rt: seq<Nodeinfo>, ix: nat, end: nat, k: nat)
    requires ValidCells(rt) && ix <= k < end && !IsEmpty(rt[ScanCell(k)])
    requires forall j :: ix <= j < k ==> IsEmpty(rt[ScanCell(j)])
    ensures ScanPass(rt, ix, end) == Some(ScanCell(k))
    decreases end - ix
  {
    if ix < k {
      ScanPassFirst(rt, ix + 1, end, k);
    }
  }

  /** Index k is the first at or after the draw whose cell is occupied. */
  ghost predicate FirstFrom(rt: seq<Nodeinfo>, start: nat, k: nat)
    requires ValidCells(rt)
  {
    && start <= k < RT_SIZE && k % N_CELLS in Occupants(rt)
    && forall j :: start <= j < k ==> j % N_CELLS !in Occupants(rt)
  }

  /** The scan returns the first occupant at or after the draw, whole. */
  lemma RandomNodeIsFirst(rt: seq<Nodeinfo>, start: nat, k: nat)
    requires ValidCells(rt) && 1 <= start && FirstFrom(rt, start, k)
    ensures RandomNode(rt, start) == Occupants(rt)[k % N_CELLS]
  {
    ScanCellIsMod(k);
    forall j | start <= j < k ensures IsEmpty(rt[ScanCell(j)]) {
      ScanCellIsMod(j);
      assert j % N_CELLS !in Occupants(rt);
    }
    ScanPassFirst(rt, start, RT_SIZE, k);
  }

  /** So the draw decides: every occupant is the result of some draw. */
  lemma EveryOccupantIsDrawn(rt: seq<Nodeinfo>, i: nat)
    requires ValidCells(rt) && i in Occupants(rt)
    ensures 1 <= N_CELLS + i < RT_SIZE && RandomNode(rt, N_CELLS + i) == Occupants(rt)[i]
  {
    var k := N_CELLS + i;
    NextRound(i);
    assert FirstFrom(rt, k, k);
    RandomNodeIsFirst(rt, k, k);
  }

  lemma NextRound(i: nat)
    requires i < N_CELLS
    ensures (N_CELLS + i) % N_CELLS == i
  {
  }

  /** A lookup under an empty prefix yields the first occupant at or after the draw. */
  lemma NeighborIsFirst(rt: seq<Nodeinfo>, target: Nih, start: nat, k: nat)
    requires ValidCells(rt) && SlotOf(target) !in Occupants(rt) && 1 <= start && FirstFrom(rt, start, k)
    ensures Neighbor(rt, target, start) == Occupants(rt)[k % N_CELLS]
  {
    RandomNodeIsFirst(rt, start, k);
  }

  /** What a draw yields: the first occupant at or after it, or the empty contact if the draw
      is zero or there is none. */
  ghost predicate IsScanned(rt: seq<Nodeinfo>, start: nat, p: PNode)
    requires ValidCells(rt)
  {
    && (forall k: nat :: 1 <= start && FirstFrom(rt, start, k) ==> p == Occupants(rt)[k % N_CELLS])
    && (start == 0 || !(exists k: nat :: FirstFrom(rt, start, k)) ==> p == EMPTY_CONTACT)
  }

  /** What a lookup yields: the occupant under the prefix, or else what the draw yields. */
  ghost predicate IsNeighbor(rt: seq<Nodeinfo>, target: Nih, start: nat, p: PNode)
    requires ValidCells(rt)
  {
    if SlotOf(target) in Occupants(rt) then p == Occupants(rt)[SlotOf(target)] else IsScanned(rt, start, p)
  }

  ghost predicate EmptyAt(rt: seq<Nodeinfo>, j: nat)
    requires ValidCells(rt)
  {
    IsEmpty(rt[ScanCell(j)])
  }

  lemma PassStep(rt: seq<Nodeinfo>, ix: nat, end: nat)
    requires ValidCells(rt) && ScanPass(rt, ix, end).Some?
    ensures ix < end && (EmptyAt(rt, ix) ==> ScanPass(rt, ix + 1, end).Some?)
  {
  }

  lemma {:induction false} FirstInPass(rt: seq<Nodeinfo>, ix: nat, end: nat) returns (k: nat)
    requires ValidCells(rt) && ScanPass(rt, ix, end).Some?
    ensures ix <= k < end && !EmptyAt(rt, k) && forall j: nat :: ix <= j < k ==> EmptyAt(rt, j)
    decreases end - ix
  {
    PassStep(rt, ix, end);
    k := ix;
    if EmptyAt(rt, ix) {
      k := FirstInPass(rt, ix + 1, end);
    }
  }

  lemma OccupiedIsFirst(rt: seq<Nodeinfo>, start: nat, k: nat)
    requires ValidCells(rt) && start <= k < RT_SIZE && !EmptyAt(rt, k)
    requires forall j: nat :: start <= j < k ==> EmptyAt(rt, j)
    ensures FirstFrom(rt, start, k)
  {
    ScanCellIsMod(k);
    forall j: nat | start <= j < k ensures j % N_CELLS !in Occupants(rt) {
      ScanCellIsMod(j);
      assert EmptyAt(rt, j);
    }
  }

  lemma RandomNodeIs(rt: seq<Nodeinfo>, start: nat)
    requires ValidCells(rt)
    ensures IsScanned(rt, start, RandomNode(rt, start))
  {
    forall k: nat | 1 <= start && FirstFrom(rt, start, k) ensures RandomNode(rt, start) == Occupants(rt)[k % N_CELLS] {
      RandomNodeIsFirst(rt, start, k);
    }
    if start > 0 && ScanPass(rt, start, RT_SIZE).Some? {
      var k := FirstInPass(rt, start, RT_SIZE);
      OccupiedIsFirst(rt, start, k);
    }
  }

  lemma NeighborIs(rt: seq<Nodeinfo>, target: Nih, start: nat)
    requires ValidCells(rt)
    ensures IsNeighbor(rt, target, start, Neighbor(rt, target, start))
  {
    RandomNodeIs(rt, start);
    if SlotOf(target) in Occupants(rt) {
      NeighborIsOccupant(rt, target, start);
    }
  }

  /** Any contact the scan returns is the occupant of its own cell. */
  lemma RandomNodeIsOccupant(rt: seq<Nodeinfo>, start: nat)
    requires ValidCells(rt)
    ensures var p := RandomNode(rt, start);
      Checksum(NidOf(p)) != ZERO_CHECK ==>
        SlotOf(NidOf(p)) in Occupants(rt) && Occupants(rt)[SlotOf(NidOf(p))] == p
  {
    var r := ScanPass(rt, start, RT_SIZE);
    if start > 0 && r.Some? {
      assert PrefixOf(r.value) == RandomNode(rt, start)[..2];
    }
  }

  /** The scan misses nothing exactly for draws of at least one that leave a whole
      table's length to go. */
  ghost predicate FindsAny(start: nat) {
    forall rt: seq<Nodeinfo> :: ValidCells(rt) && Occupants(rt) != map[] ==> RandomNode(rt, start) != EMPTY_CONTACT
  }

  lemma OccupiedContact(i: nat, c: Nodeinfo)
    requires i < N_CELLS && |c.low| == 18 && !IsEmpty(c)
    ensures Contact(i, c) != EMPTY_CONTACT
  {
    ContactChecksum(i, c);
    assert EMPTY_CONTACT[16..20] == ZERO_CHECK;
  }

  lemma DrawReaching(start: nat, i: nat) returns (k: nat)
    requires start <= RT_SIZE - N_CELLS && i < N_CELLS
    ensures start <= k < RT_SIZE && k % N_CELLS == i
  {
    var q, r := start / N_CELLS, start % N_CELLS;
    k := if i >= r then q * N_CELLS + i else (q + 1) * N_CELLS + i;
  }

  lemma ScanReaches(rt: seq<Nodeinfo>, start: nat, i: nat)
    requires ValidCells(rt) && 1 <= start <= RT_SIZE - N_CELLS && i < N_CELLS && !IsEmpty(rt[i])
    ensures RandomNode(rt, start) != EMPTY_CONTACT
  {
    var k := DrawReaching(start, i);
    ScanCellIsMod(k);
    ScanPassNone(rt, start, RT_SIZE);
    var r := ScanPass(rt, start, RT_SIZE);
    OccupiedContact(r.value, rt[r.value]);
  }

  /** A table with one occupied cell. */
  function OneCell(i: nat): (rt: seq<Nodeinfo>)
    requires i < N_CELLS
    ensures ValidCells(rt) && forall j :: 0 <= j < N_CELLS ==> (IsEmpty(rt[j]) <==> j != i)
  {
    var full := Nodeinfo(seq(18, _ => 1), Zeros(6));
    assert full.low[14..][0] == 1;
    assert Zeros(18)[14..] == ZERO_CHECK;
    seq(N_CELLS, j => if j == i then full else Nodeinfo(Zeros(18), Zeros(6)))
  }

  lemma MissesCell(i: nat, start: nat)
    requires i < N_CELLS && start < RT_SIZE
    requires start > 0 ==> RandomNode(OneCell(i), start) == EMPTY_CONTACT
    ensures RandomNode(OneCell(i), start) == EMPTY_CONTACT && !FindsAny(start)
  {
    assert i in Occupants(OneCell(i));
  }

  lemma OtherCell(a: nat, k: nat)
    requires a < k < a + N_CELLS
    ensures a % N_CELLS != k % N_CELLS
  {
    assert a == N_CELLS * (a / N_CELLS) + a % N_CELLS && k == N_CELLS * (k / N_CELLS) + k % N_CELLS;
  }

  lemma PassesCell(i: nat, start: nat)
    requires RT_SIZE - N_CELLS < start < RT_SIZE && i == (start - 1) % N_CELLS
    ensures RandomNode(OneCell(i), start) == EMPTY_CONTACT
  {
    var rt := OneCell(i);
    forall k | start <= k < RT_SIZE ensures IsEmpty(rt[ScanCell(k)]) {
      ScanCellIsMod(k);
      OtherCell(start - 1, k);
    }
    ScanPassNone(rt, start, RT_SIZE);
  }

  lemma ScanMisses(start: nat)
    requires start == 0 || RT_SIZE - N_CELLS < start < RT_SIZE
    ensures !FindsAny(start)
  {
    if start > 0 {
      PassesCell((start - 1) % N_CELLS, start);
      MissesCell((start - 1) % N_CELLS, start);
    } else {
      MissesCell(0, start);
    }
  }

  lemma ScanFindsAny(start: nat)
    requires start < RT_SIZE
    ensures FindsAny(start) <==> 1 <= start <= RT_SIZE - N_CELLS
  {
    if 1 <= start <= RT_SIZE - N_CELLS {
      forall rt: seq<Nodeinfo> | ValidCells(rt) && Occupants(rt) != map[]
        ensures RandomNode(rt, start) != EMPTY_CONTACT
      {
        assert exists i :: i in Occupants(rt);
        var i :| i in Occupants(rt);
        ScanReaches(rt, start, i);
      }
    } else {
      ScanMisses(start);
    }
  }
}
