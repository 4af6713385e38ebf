// The get-peers manager (cht/gpmap.cpp): a table indexed by 16-bit tokens that ties a
// reply to the question it answers.

module Gpm {
  import opened Dht
  import opened Hops

  const N_BINS := 65536
  const GP_MAX_HOPS := 8

  datatype Cell = Cell(ih: Nih, check: Bytes, hop: nat, isSet: bool)

  datatype NextHop = NextHop(ih: Nih, pnodes: seq<PNode>, hop: nat)

  type Table = t: seq<Cell> | |t| == N_BINS witness seq(N_BINS, _ => UNSET)

  const UNSET := Cell(Zeros(NIH_LEN), Zeros(4), 0, false)

  /** What a registration does: nothing beyond the hop limit, else it takes the cell. */
  function Register(t: Table, nid: Nih, ih: Nih, hop: nat, tok: U16): Table {
    if hop > GP_MAX_HOPS then t else t[tok := Cell(ih, Checksum(nid), hop, true)]
  }

  /** A lookup misses, hits a cell, or reads through a null nid. */
  datatype Lookup = Miss | Hit(cell: Cell) | NullNid

  function LookupTok(t: Table, tok: Bytes, nid: Option<Nih>): Lookup
    requires |tok| == 3
  {
    var cell := t[LoadU16(tok)];
    if !cell.isSet then Miss
    else if nid == None then NullNid
    else if cell.check != Checksum(nid.value) then Miss
    else Hit(cell)
  }

  function NextHopOf(cell: Cell, nodes: seq<PNode>): NextHop {
    NextHop(cell.ih, NextHops(cell.ih, nodes), cell.hop)
  }

  class GPM {
    const cells: array<Cell>

    ghost predicate Valid() { cells.Length == N_BINS }

    ghost function Contents(): Table
      requires Valid()
      reads cells
    {
      cells[..]
    }

    constructor ()
      ensures Valid() && fresh(cells)
      ensures forall i :: 0 <= i < N_BINS ==> !Contents()[i].isSet
    {
      cells := new Cell[N_BINS](_ => UNSET);
    }

    /** Marks the cell as used. */
    method SetCell(tok: U16)
      requires Valid()
      modifies cells
      ensures Contents() == old(Contents())[tok := old(Contents())[tok].(isSet := true)]
    {
      if !cells[tok].isSet {
        cells[tok] := cells[tok].(isSet := true);
      }
    }

    /** Clears the flag only where it is already clear: a set cell is never released. */
    method UnsetCell(tok: U16)
      requires Valid()
      modifies cells
      ensures Contents() == old(Contents())
    {
      if !cells[tok].isSet {
        cells[tok] := cells[tok].(isSet := false);
      }
    }

    method RegisterQGpIhash(nid: Nih, ih: Nih, hop: nat, tok: U16)
      requires Valid()
      modifies cells
      ensures Contents() == Register(old(Contents()), nid, ih, hop, tok)
    {
      if hop > GP_MAX_HOPS {
        return;
      }
      SetCell(tok);
      cells[tok] := cells[tok].(check := Checksum(nid), ih := ih, hop := hop);
    }

    method Find(tok: Bytes, nid: Option<Nih>) returns (r: Lookup)
      requires Valid() && |tok| == 3
      ensures r == LookupTok(Contents(), tok, nid)
    {
      var cell := cells[LoadU16(tok)];
      if !cell.isSet {
        return Miss;
      }
      if nid == None {
        return NullNid;
      }
      if cell.check != Checksum(nid.value) {
        return Miss;
      }
      return Hit(cell);
    }

    /** Finds the pursuit a reply belongs to and the hops it offers. */
    method ExtractTok(tok: Bytes, nid: Option<Nih>, nodes: seq<PNode>) returns (r: Lookup, next: NextHop)
      requires Valid() && |tok| == 3 && 0 < |nodes| <= 255
      modifies cells
      ensures Contents() == old(Contents())
      ensures r == LookupTok(old(Contents()), tok, nid)
      ensures r.Hit? ==> next == NextHopOf(r.cell, nodes)
    {
      r := Find(tok, nid);
      next := NextHop(Zeros(NIH_LEN), [], 0);
      if r.Hit? {
        var pnodes := FindBestHops(r.cell.ih, nodes);
        next := NextHop(r.cell.ih, pnodes, r.cell.hop);
        if r.cell.check == Checksum(nid.value) {
          UnsetCell(LoadU16(tok));
        }
      }
    }
  }

  // ----- answers belong to questions -----

  /** One call of the registration. */
  datatype Question = Question(nid: Nih, ih: Nih, hop: nat, tok: U16)

  function RunQuestions(t: Table, qs: seq<Question>): Table
    decreases |qs|
  {
    if qs == [] then t
    else
      var q := qs[|qs| - 1];
      Register(RunQuestions(t, qs[..|qs| - 1]), q.nid, q.ih, q.hop, q.tok)
  }

  /** Question i is the most recent accepted registration of its token. */
  ghost predicate IsLatest(qs: seq<Question>, i: nat, tok: U16) {
    && i < |qs| && qs[i].tok == tok && qs[i].hop <= GP_MAX_HOPS
    && forall j :: i < j < |qs| ==> qs[j].tok != tok || qs[j].hop > GP_MAX_HOPS
  }

  ghost predicate NoneSet(t: Table) { forall i :: 0 <= i < N_BINS ==> !t[i].isSet }

  lemma {:induction false} CellIsLatest(t: Table, qs: seq<Question>, tok: U16)
    requires NoneSet(t)
    ensures var c := RunQuestions(t, qs)[tok];
      c.isSet ==> exists i: nat :: IsLatest(qs, i, tok) && c == Cell(qs[i].ih, Checksum(qs[i].nid), qs[i].hop, true)
    decreases |qs|
  {
    if qs != [] {
      var n := |qs| - 1;
      var c := RunQuestions(t, qs)[tok];
      CellIsLatest(t, qs[..n], tok);
      if qs[n].tok == tok && qs[n].hop <= GP_MAX_HOPS {
        assert IsLatest(qs, n, tok);
      } else if c.isSet {
        var i: nat :| IsLatest(qs[..n], i, tok) && c == Cell(qs[..n][i].ih, Checksum(qs[..n][i].nid), qs[..n][i].hop, true);
        assert IsLatest(qs, i, tok);
      }
    }
  }

  lemma {:induction false} LatestIsCell(t: Table, qs: seq<Question>, i: nat, tok: U16)
    requires IsLatest(qs, i, tok)
    ensures RunQuestions(t, qs)[tok] == Cell(qs[i].ih, Checksum(qs[i].nid), qs[i].hop, true)
    decreases |qs|
  {
    var n := |qs| - 1;
    if i < n {
      LatestIsCell(t, qs[..n], i, tok);
    }
  }

  /** Over any run of registrations from an empty table, a reply is tied to a question
      exactly when the latest accepted registration of its token addressed a node with
      the checksum of the reply's sender; and it gets that registration's info hash and
      hop. */
  lemma {:induction false} AnswersBelongToQuestions(t: Table, qs: seq<Question>, tok: Bytes, nid: Nih, cell: Cell)
    requires NoneSet(t) && |tok| == 3
    ensures LookupTok(RunQuestions(t, qs), tok, Some(nid)) == Hit(cell)
      <==> exists i: nat :: IsLatest(qs, i, LoadU16(tok)) && Checksum(qs[i].nid) == Checksum(nid)
                       && cell == Cell(qs[i].ih, Checksum(nid), qs[i].hop, true)
  {
    CellIsLatest(t, qs, LoadU16(tok));
    forall i: nat | IsLatest(qs, i, LoadU16(tok)) && Checksum(qs[i].nid) == Checksum(nid)
               && cell == Cell(qs[i].ih, Checksum(nid), qs[i].hop, true)
      ensures LookupTok(RunQuestions(t, qs), tok, Some(nid)) == Hit(cell)
    {
      LatestIsCell(t, qs, i, LoadU16(tok));
    }
  }
}
