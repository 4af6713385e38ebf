// Whom the crawler turns to when a reply brings contacts: which of them are pinged, which
// are asked and under which token, and what arrives there.

module Outreach {
  import opened Dht
  import opened Bits
  import opened Krpc
  import opened Msg
  import opened Encoder
  import opened RoundTrip
  import opened Message
  import opened Dkad
  import opened SpamFilter
  import opened Handler
  import opened Questions
  import opened Causes
  import opened Conversation

  // ----- pings -----

  /** The i-th contact is due a ping: its address has a full bucket, and is the first such. */
  ghost predicate PingDue(pg: Buckets, nodes: seq<PNode>, i: nat)
    requires i < |nodes|
  {
    && Tokens(pg, PING_RATES, nodes[i][20..24]) >= 15
    && forall j :: 0 <= j < i ==> nodes[j][20..24] != nodes[i][20..24]
  }

  /** A ping to a contact, made out to it. */
  function PingTo(p: PNode): Sent { Sent(p[20..26], TxQPg, QPgMsg(p[..20])) }

  function Pings(ps: seq<PNode>): seq<Sent>
    decreases |ps|
  {
    if ps == [] then [] else [PingTo(ps[0])] + Pings(ps[1..])
  }

  ghost function DueIn(pg: Buckets, nodes: seq<PNode>): nat -> bool {
    (k: nat) => k < |nodes| && PingDue(pg, nodes, k)
  }

  /** The contacts that are due a ping, in order. */
  ghost function Due(pg: Buckets, nodes: seq<PNode>): seq<PNode> { Pick(nodes, DueIn(pg, nodes), 0) }

  lemma SameAddr(p: PNode)
    ensures InAddr(PeerinfoOf(p)) == p[20..24] && PeerinfoOf(p) == p[20..26] && NidOf(p) == p[..20]
  {
  }

  /** A full bucket is emptied by one ping, and no other key is touched. */
  lemma DueBehind(pg: Buckets, nodes: seq<PNode>, i: nat)
    requires Sparse(pg, PING_RATES) && nodes != [] && i < |nodes| - 1
    ensures var pg' := WithdrawFrom(pg, PING_RATES, nodes[0][20..24]);
      PingDue(pg', nodes[1..], i) <==> PingDue(pg, nodes, i + 1)
  {
    var pg' := WithdrawFrom(pg, PING_RATES, nodes[0][20..24]);
    WithdrawIsDense(pg, PING_RATES, nodes[0][20..24], nodes[i + 1][20..24]);
    TokensCapped(pg, PING_RATES, nodes[i + 1][20..24]);
    if PingDue(pg', nodes[1..], i) {
      forall j | 0 <= j < i + 1 ensures nodes[j][20..24] != nodes[i + 1][20..24] {
        if j > 0 {
          assert nodes[1..][j - 1] == nodes[j] && nodes[1..][i] == nodes[i + 1];
        }
      }
    }
    if PingDue(pg, nodes, i + 1) {
      assert forall j :: 0 <= j < i ==> nodes[1..][j] == nodes[j + 1];
    }
  }

  lemma AllDueBehind(pg: Buckets, nodes: seq<PNode>)
    requires Sparse(pg, PING_RATES) && nodes != []
    ensures Due(WithdrawFrom(pg, PING_RATES, nodes[0][20..24]), nodes[1..]) == Pick(nodes, DueIn(pg, nodes), 1)
  {
    var pg' := WithdrawFrom(pg, PING_RATES, nodes[0][20..24]);
    forall k: nat | k < |nodes| - 1 ensures DueIn(pg', nodes[1..])(k) <==> DueIn(pg, nodes)(k + 1) {
      DueBehind(pg, nodes, k);
    }
    PickBehind(nodes, DueIn(pg, nodes), DueIn(pg', nodes[1..]), 0);
  }

  /** The contacts a sweep has tokens for. */
  ghost function Afforded(pg: Buckets, nodes: seq<PNode>): seq<PNode>
    requires Sparse(pg, PING_RATES)
    decreases |nodes|
  {
    if nodes == [] then []
    else
      var key := nodes[0][20..24];
      WithdrawIsDense(pg, PING_RATES, key, key);
      (if Handler.Allowed(pg, PING_RATES, key) then [nodes[0]] else [])
      + Afforded(WithdrawFrom(pg, PING_RATES, key), nodes[1..])
  }

  lemma {:induction false} AffordedIsDue(pg: Buckets, nodes: seq<PNode>)
    requires Sparse(pg, PING_RATES)
    ensures Afforded(pg, nodes) == Due(pg, nodes)
    decreases |nodes|
  {
    if nodes != [] {
      var key := nodes[0][20..24];
      WithdrawIsDense(pg, PING_RATES, key, key);
      AffordedIsDue(WithdrawFrom(pg, PING_RATES, key), nodes[1..]);
      AllDueBehind(pg, nodes);
      assert DueIn(pg, nodes)(0) <==> Handler.Allowed(pg, PING_RATES, key);
    }
  }

  lemma PingIs(p: PNode)
    ensures Sent(PeerinfoOf(p), TxQPg, QPgMsg(NidOf(p))) == PingTo(p)
  {
    SameAddr(p);
  }

  lemma PingFirst(p: PNode, go: bool, rest: seq<PNode>)
    ensures Pings((if go then [p] else []) + rest) == (if go then [PingTo(p)] else []) + Pings(rest)
  {
    assert ([p] + rest)[1..] == rest && [] + rest == rest && [] + Pings(rest) == Pings(rest);
  }

  lemma {:induction false} SweepPings(pg: Buckets, nodes: seq<PNode>)
    requires Sparse(pg, PING_RATES)
    ensures Sweep(pg, nodes).1 == Pings(Afforded(pg, nodes))
    decreases |nodes|
  {
    if nodes != [] {
      var key := nodes[0][20..24];
      SweepStep(pg, nodes);
      SameAddr(nodes[0]);
      PingIs(nodes[0]);
      SweepPings(WithdrawFrom(pg, PING_RATES, key), nodes[1..]);
      PingFirst(nodes[0], Handler.Allowed(pg, PING_RATES, key), Afforded(WithdrawFrom(pg, PING_RATES, key), nodes[1..]));
    }
  }

  /** The sweep sends exactly the pings that are due, in order. */
  lemma SweepExact(pg: Buckets, nodes: seq<PNode>)
    requires Sparse(pg, PING_RATES)
    ensures Sweep(pg, nodes).1 == Pings(Due(pg, nodes))
  {
    SweepPings(pg, nodes);
    AffordedIsDue(pg, nodes);
  }

  ghost predicate DueAt(pg: Buckets, nodes: seq<PNode>, k: nat, p: PNode) {
    k < |nodes| && PingDue(pg, nodes, k) && nodes[k] == p
  }

  /** Those due are exactly the contacts with a full bucket no earlier contact has emptied. */
  lemma DueExact(pg: Buckets, nodes: seq<PNode>, p: PNode)
    ensures p in Due(pg, nodes) <==> exists k :: DueAt(pg, nodes, k, p)
  {
    if p in Due(pg, nodes) {
      var k := PickedIsKept(nodes, DueIn(pg, nodes), 0, p);
      assert DueAt(pg, nodes, k, p);
    }
    if k :| DueAt(pg, nodes, k, p) {
      KeptIsPicked(nodes, DueIn(pg, nodes), 0, k, p);
    }
  }

  /** A ping, as the node it is made out to reads it: it comes from that node's own id under
      the mask, so the answer names the node. */
  lemma PingArrives(nid: Nih, tail: Bytes)
    ensures var r := Decode(QPgMsg(nid) + tail);
      && r.Accepted? && r.meth == QPg && Shaped(r.f)
      && ReplyTo(r.f) == Some(KReply(MaskSid(nid), [OUR_TOK_PG]))
  {
    QPgDecodes(MaskSid(nid), tail);
    AcceptedShaped(QPgMsg(nid) + tail);
    BareReads(Decode(QPgMsg(nid) + tail).f);
  }

  /** The answer is accepted here as a ping reply from the node pinged. */
  lemma PingAnswerArrives(nid: Nih, tail: Bytes, tail2: Bytes)
    ensures var q := Decode(QPgMsg(nid) + tail);
      && q.Accepted? && Shaped(q.f) && ReplyTo(q.f).Some?
      && var k := ReplyTo(q.f).value; var r := Decode(Render.RMsg(RPgTree(MaskSid(k.nid), k.tok)) + tail2);
      && r.Accepted? && r.meth == RPg && Shaped(r.f) && NihAt(r.f.nid) == Some(nid)
  {
    PingArrives(nid, tail);
    MaskInvolution(nid);
    RPgDecodes(nid, [OUR_TOK_PG], tail2);
    AcceptedShaped(Render.RMsg(RPgTree(nid, [OUR_TOK_PG])) + tail2);
    BareReads(Decode(Render.RMsg(RPgTree(nid, [OUR_TOK_PG])) + tail2).f);
  }

  // ----- the key of a question -----

  lemma {:induction false} XorSwap(a: nat, b: nat, c: nat, d: nat)
    ensures Xor(a, b) == Xor(c, d) <==> Xor(a, c) == Xor(b, d)
    decreases a + b + c + d
  {
    if a + b + c + d > 0 {
      XorSwap(a / 2, b / 2, c / 2, d / 2);
      XorDigits(a, b);
      XorDigits(c, d);
      XorDigits(a, c);
      XorDigits(b, d);
      SameDigitsExact(Xor(a, b), Xor(c, d));
      SameDigitsExact(Xor(a, c), Xor(b, d));
    }
  }

  lemma SameDigitsExact(x: nat, y: nat)
    ensures x == y <==> x % 2 == y % 2 && x / 2 == y / 2
  {
  }

  /** Two questions fall under one limit exactly when the checksums of their hashes differ
      as their addresses do. */
  lemma KeyExact(d: Peerinfo, a: Nih, e: Peerinfo, b: Nih)
    ensures GpKey(d, a) == GpKey(e, b) <==> forall i :: 0 <= i < 4 ==> Xor(a[16 + i], b[16 + i]) == Xor(d[i], e[i])
  {
    var x, y := GpKey(d, a), GpKey(e, b);
    forall i | 0 <= i < 4 ensures x[i] == y[i] <==> Xor(a[16 + i], b[16 + i]) == Xor(d[i], e[i]) {
      assert x[i] == Xor(a[16 + i], d[i]) && y[i] == Xor(b[16 + i], e[i]);
      XorSwap(a[16 + i], d[i], b[16 + i], e[i]);
    }
    if forall i :: 0 <= i < 4 ==> x[i] == y[i] {
      assert x == y;
    }
  }

  /** For one address: when the checksums are equal. */
  lemma OneAddressKey(d: Peerinfo, a: Nih, b: Nih)
    ensures GpKey(d, a) == GpKey(d, b) <==> a[16..20] == b[16..20]
  {
    KeyExact(d, a, d, b);
    forall i | 0 <= i < 4 ensures Xor(a[16 + i], b[16 + i]) == Xor(d[i], d[i]) <==> a[16..20][i] == b[16..20][i] {
      XorZero(a[16 + i], b[16 + i]);
      XorZero(d[i], d[i]);
    }
  }

  /** For one hash: when the addresses are equal. */
  lemma OneHashKey(d: Peerinfo, e: Peerinfo, a: Nih)
    ensures GpKey(d, a) == GpKey(e, a) <==> d[..4] == e[..4]
  {
    KeyExact(d, a, e, a);
    forall i | 0 <= i < 4 ensures Xor(a[16 + i], a[16 + i]) == Xor(d[i], e[i]) <==> d[..4][i] == e[..4][i] {
      XorZero(a[16 + i], a[16 + i]);
      XorZero(d[i], e[i]);
    }
  }

  // ----- questions -----

  /** The i-th hop is due a question: its bucket for this hash is full, and no hop before it
      has the same address. */
  ghost predicate AskDue(gp: Buckets, pnodes: seq<PNode>, ih: Nih, i: nat)
    requires i < |pnodes|
  {
    && Tokens(gp, Q_GP_RATES, GpKey(pnodes[i][20..26], ih)) >= 15
    && forall j :: 0 <= j < i ==> pnodes[j][20..24] != pnodes[i][20..24]
  }

  /** The questions to the hops from the i-th on that are due one, in order, each under the
      next token drawn; the first failing draw ends them. */
  ghost function AsksDue(gp: Buckets, pnodes: seq<PNode>, ih: Nih, hop: nat, draws: seq<Option<U16>>, at: nat,
                         i: nat): seq<Ask>
    requires i <= |pnodes|
    decreases |pnodes| - i
  {
    if i == |pnodes| then []
    else if !AskDue(gp, pnodes, ih, i) then AsksDue(gp, pnodes, ih, hop, draws, at, i + 1)
    else if draws == [] || draws[0] == None then []
    else [Ask(at, pnodes[i], ih, hop, draws[0].value)] + AsksDue(gp, pnodes, ih, hop, draws[1..], at, i + 1)
  }

  lemma AskDueBehind(gp: Buckets, pnodes: seq<PNode>, ih: Nih, i: nat)
    requires Sparse(gp, Q_GP_RATES) && pnodes != [] && i < |pnodes| - 1
    ensures AskDue(WithdrawFrom(gp, Q_GP_RATES, GpKey(pnodes[0][20..26], ih)), pnodes[1..], ih, i)
      <==> AskDue(gp, pnodes, ih, i + 1)
  {
    var k0, k := GpKey(pnodes[0][20..26], ih), GpKey(pnodes[i + 1][20..26], ih);
    var gp' := WithdrawFrom(gp, Q_GP_RATES, k0);
    WithdrawIsDense(gp, Q_GP_RATES, k0, k);
    TokensCapped(gp, Q_GP_RATES, k);
    OneHashKey(pnodes[0][20..26], pnodes[i + 1][20..26], ih);
    AddrOf(pnodes[0]);
    AddrOf(pnodes[i + 1]);
    if AskDue(gp', pnodes[1..], ih, i) {
      forall j | 0 <= j < i + 1 ensures pnodes[j][20..24] != pnodes[i + 1][20..24] {
        if j > 0 {
          assert pnodes[1..][j - 1] == pnodes[j] && pnodes[1..][i] == pnodes[i + 1];
        }
      }
    }
    if AskDue(gp, pnodes, ih, i + 1) {
      assert forall j :: 0 <= j < i ==> pnodes[1..][j] == pnodes[j + 1];
    }
  }

  lemma AddrOf(p: PNode)
    ensures p[20..26][..4] == p[20..24]
  {
  }

  lemma {:induction false} AsksBehind(gp: Buckets, pnodes: seq<PNode>, ih: Nih, hop: nat, draws: seq<Option<U16>>,
                                      at: nat, i: nat)
    requires Sparse(gp, Q_GP_RATES) && pnodes != [] && i <= |pnodes| - 1
    ensures AsksDue(WithdrawFrom(gp, Q_GP_RATES, GpKey(pnodes[0][20..26], ih)), pnodes[1..], ih, hop, draws, at, i)
      == AsksDue(gp, pnodes, ih, hop, draws, at, i + 1)
    decreases |pnodes| - i
  {
    if i < |pnodes| - 1 {
      AskDueBehind(gp, pnodes, ih, i);
      AsksBehind(gp, pnodes, ih, hop, draws, at, i + 1);
      if draws != [] {
        AsksBehind(gp, pnodes, ih, hop, draws[1..], at, i + 1);
      }
    }
  }

  /** A pursuit asks exactly the questions that are due. */
  lemma {:induction false} AskingExact(gp: Buckets, pnodes: seq<PNode>, ih: Nih, hop: nat, draws: seq<Option<U16>>, at: nat)
    requires Sparse(gp, Q_GP_RATES)
    ensures Asking(gp, pnodes, ih, hop, draws, at) == AsksDue(gp, pnodes, ih, hop, draws, at, 0)
    decreases |pnodes|
  {
    if pnodes != [] {
      var key := GpKey(pnodes[0][20..26], ih);
      SameAddr(pnodes[0]);
      WithdrawIsDense(gp, Q_GP_RATES, key, key);
      var gp' := WithdrawFrom(gp, Q_GP_RATES, key);
      AskingExact(gp', pnodes[1..], ih, hop, draws, at);
      AsksBehind(gp, pnodes, ih, hop, draws, at, 0);
      if draws != [] {
        AskingExact(gp', pnodes[1..], ih, hop, draws[1..], at);
        AsksBehind(gp, pnodes, ih, hop, draws[1..], at, 0);
      }
    }
  }

  /** What is asked leaves every bucket alone whose key is none of the hops'. */
  lemma {:induction false} OtherKeysStay(t: Gpm.Table, gp: Buckets, pnodes: seq<PNode>, ih: Nih, hop: nat,
                                         draws: seq<Option<U16>>, k: Bytes)
    requires Sparse(gp, Q_GP_RATES) && forall p :: p in pnodes ==> GpKey(PeerinfoOf(p), ih) != k
    ensures Tokens(Chase(t, gp, pnodes, ih, hop, draws).gp, Q_GP_RATES, k) == Tokens(gp, Q_GP_RATES, k)
    decreases |pnodes|
  {
    if pnodes != [] {
      ChaseStep(t, gp, pnodes, ih, hop, draws);
      var key := GpKey(PeerinfoOf(pnodes[0]), ih);
      WithdrawIsDense(gp, Q_GP_RATES, key, k);
      var gp' := WithdrawFrom(gp, Q_GP_RATES, key);
      if !Handler.Allowed(gp, Q_GP_RATES, key) {
        OtherKeysStay(t, gp', pnodes[1..], ih, hop, draws, k);
      } else if draws != [] && draws[0].Some? {
        OtherKeysStay(Gpm.Register(t, NidOf(pnodes[0]), ih, hop, draws[0].value), gp', pnodes[1..], ih, hop, draws[1..], k);
      }
    }
  }

  /** So a hop with a full bucket is asked if a token is drawn, whatever was asked just
      before at its address about hashes with other checksums. */
  lemma OtherHashesDoNotCount(t: Gpm.Table, gp: Buckets, pnodes: seq<PNode>, other: Nih, hop: nat, draws: seq<Option<U16>>,
                              p: PNode, ih: Nih, hop': nat, tok: U16, at: nat)
    requires Sparse(gp, Q_GP_RATES) && other[16..20] != ih[16..20]
    requires forall q :: q in pnodes ==> q[20..24] == p[20..24]
    requires Tokens(gp, Q_GP_RATES, GpKey(p[20..26], ih)) == 15
    ensures Asking(Chase(t, gp, pnodes, other, hop, draws).gp, [p], ih, hop', [Some(tok)], at) == [Ask(at, p, ih, hop', tok)]
  {
    SameAddr(p);
    var k := GpKey(p[20..26], ih);
    forall q | q in pnodes ensures GpKey(PeerinfoOf(q), other) != k {
      SameAddr(q);
      AddrOf(q);
      AddrOf(p);
      OneHashKey(q[20..26], p[20..26], other);
      OneAddressKey(p[20..26], other, ih);
    }
    OtherKeysStay(t, gp, pnodes, other, hop, draws, k);
    var gp' := Chase(t, gp, pnodes, other, hop, draws).gp;
    AskingExact(gp', [p], ih, hop', [Some(tok)], at);
    assert AskDue(gp', [p], ih, 0);
    assert AsksDue(gp', [p], ih, hop', [Some(tok)][1..], at, 1) == [];
  }

  // ----- what it costs -----

  lemma {:induction false} SweepTakes(pg: Buckets, nodes: seq<PNode>, k: Bytes)
    requires Sparse(pg, PING_RATES)
    ensures Tokens(Sweep(pg, nodes).0, PING_RATES, k)
      == if exists p :: p in Afforded(pg, nodes) && p[20..24] == k then 0 else Tokens(pg, PING_RATES, k)
    decreases |nodes|
  {
    if nodes != [] {
      var key := nodes[0][20..24];
      SweepStep(pg, nodes);
      SameAddr(nodes[0]);
      WithdrawIsDense(pg, PING_RATES, key, k);
      TokensCapped(pg, PING_RATES, k);
      SweepTakes(WithdrawFrom(pg, PING_RATES, key), nodes[1..], k);
      assert Handler.Allowed(pg, PING_RATES, key) ==> nodes[0] in Afforded(pg, nodes);
    }
  }

  /** After a sweep the bucket of an address is empty if a ping went there, and else as it was. */
  lemma SweepTakesExact(pg: Buckets, nodes: seq<PNode>, k: Bytes)
    requires Sparse(pg, PING_RATES)
    ensures Tokens(Sweep(pg, nodes).0, PING_RATES, k)
      == if exists p :: p in Due(pg, nodes) && p[20..24] == k then 0 else Tokens(pg, PING_RATES, k)
  {
    SweepTakes(pg, nodes, k);
    AffordedIsDue(pg, nodes);
  }

  /** The keys a pursuit pays for: those of the hops asked, and that of a hop for which no
      token could be drawn, which ends it. */
  ghost function Charged(gp: Buckets, pnodes: seq<PNode>, ih: Nih, draws: seq<Option<U16>>, i: nat): seq<Bytes>
    requires i <= |pnodes|
    decreases |pnodes| - i
  {
    if i == |pnodes| then []
    else if !AskDue(gp, pnodes, ih, i) then Charged(gp, pnodes, ih, draws, i + 1)
    else
      [GpKey(pnodes[i][20..26], ih)]
      + if draws == [] || draws[0] == None then [] else Charged(gp, pnodes, ih, draws[1..], i + 1)
  }

  lemma {:induction false} ChargedBehind(gp: Buckets, pnodes: seq<PNode>, ih: Nih, draws: seq<Option<U16>>, i: nat)
    requires Sparse(gp, Q_GP_RATES) && pnodes != [] && i <= |pnodes| - 1
    ensures Charged(WithdrawFrom(gp, Q_GP_RATES, GpKey(pnodes[0][20..26], ih)), pnodes[1..], ih, draws, i)
      == Charged(gp, pnodes, ih, draws, i + 1)
    decreases |pnodes| - i
  {
    if i < |pnodes| - 1 {
      AskDueBehind(gp, pnodes, ih, i);
      ChargedBehind(gp, pnodes, ih, draws, i + 1);
      if draws != [] {
        ChargedBehind(gp, pnodes, ih, draws[1..], i + 1);
      }
    }
  }

  /** The same, bucket by bucket. */
  ghost function Paid(gp: Buckets, pnodes: seq<PNode>, ih: Nih, draws: seq<Option<U16>>): seq<Bytes>
    requires Sparse(gp, Q_GP_RATES)
    decreases |pnodes|
  {
    if pnodes == [] then []
    else
      var key := GpKey(pnodes[0][20..26], ih);
      WithdrawIsDense(gp, Q_GP_RATES, key, key);
      var gp' := WithdrawFrom(gp, Q_GP_RATES, key);
      if !Handler.Allowed(gp, Q_GP_RATES, key) then Paid(gp', pnodes[1..], ih, draws)
      else [key] + if draws == [] || draws[0] == None then [] else Paid(gp', pnodes[1..], ih, draws[1..])
  }

  lemma {:induction false} PaidIsCharged(gp: Buckets, pnodes: seq<PNode>, ih: Nih, draws: seq<Option<U16>>)
    requires Sparse(gp, Q_GP_RATES)
    ensures Paid(gp, pnodes, ih, draws) == Charged(gp, pnodes, ih, draws, 0)
    decreases |pnodes|
  {
    if pnodes != [] {
      var key := GpKey(pnodes[0][20..26], ih);
      WithdrawIsDense(gp, Q_GP_RATES, key, key);
      PaidIsCharged(WithdrawFrom(gp, Q_GP_RATES, key), pnodes[1..], ih, draws);
      ChargedBehind(gp, pnodes, ih, draws, 0);
      if draws != [] {
        PaidIsCharged(WithdrawFrom(gp, Q_GP_RATES, key), pnodes[1..], ih, draws[1..]);
        ChargedBehind(gp, pnodes, ih, draws[1..], 0);
      }
    }
  }

  /** One withdrawal: of a full bucket, or of one that is not full. */
  lemma OneTaken(gp: Buckets, key: Bytes, k: Bytes)
    requires Sparse(gp, Q_GP_RATES)
    ensures Tokens(WithdrawFrom(gp, Q_GP_RATES, key), Q_GP_RATES, k)
      == if Handler.Allowed(gp, Q_GP_RATES, key) && k == key then 0 else Tokens(gp, Q_GP_RATES, k)
  {
    WithdrawIsDense(gp, Q_GP_RATES, key, k);
    TokensCapped(gp, Q_GP_RATES, k);
  }

  lemma {:induction false} ChaseTakes(t: Gpm.Table, gp: Buckets, pnodes: seq<PNode>, ih: Nih, hop: nat,
                                      draws: seq<Option<U16>>, k: Bytes)
    requires Sparse(gp, Q_GP_RATES)
    ensures Tokens(Chase(t, gp, pnodes, ih, hop, draws).gp, Q_GP_RATES, k)
      == if k in Paid(gp, pnodes, ih, draws) then 0 else Tokens(gp, Q_GP_RATES, k)
    decreases |pnodes|
  {
    if pnodes != [] {
      SameAddr(pnodes[0]);
      ChaseStep(t, gp, pnodes, ih, hop, draws);
      var key := GpKey(pnodes[0][20..26], ih);
      var gp' := WithdrawFrom(gp, Q_GP_RATES, key);
      OneTaken(gp, key, k);
      if !Handler.Allowed(gp, Q_GP_RATES, key) {
        ChaseTakes(t, gp', pnodes[1..], ih, hop, draws, k);
      } else if draws != [] && draws[0].Some? {
        ChaseTakes(Gpm.Register(t, NidOf(pnodes[0]), ih, hop, draws[0].value), gp', pnodes[1..], ih, hop, draws[1..], k);
      }
    }
  }

  /** After a pursuit the buckets of those keys are empty, and all others as they were. */
  lemma ChaseTakesExact(t: Gpm.Table, gp: Buckets, pnodes: seq<PNode>, ih: Nih, hop: nat,
                        draws: seq<Option<U16>>, k: Bytes)
    requires Sparse(gp, Q_GP_RATES)
    ensures Tokens(Chase(t, gp, pnodes, ih, hop, draws).gp, Q_GP_RATES, k)
      == if k in Charged(gp, pnodes, ih, draws, 0) then 0 else Tokens(gp, Q_GP_RATES, k)
  {
    ChaseTakes(t, gp, pnodes, ih, hop, draws, k);
    PaidIsCharged(gp, pnodes, ih, draws);
  }

  // ----- our id towards a peer -----

  /** Our id differs from the peer's own by the mask: not in the first three bytes, in the
      fourth if the build says so, and in each of the last sixteen. */
  lemma MaskExact(nid: Nih, i: nat)
    requires i < 20
    ensures MaskSid(nid)[i] == Xor(nid[i], SID_MASK[i])
    ensures MaskSid(nid)[i] == nid[i] <==> i < 3 || (i == 3 && SID4 == 0)
  {
    XorZero(nid[i], MaskSid(nid)[i]);
    XorSwap(nid[i], SID_MASK[i], nid[i], 0);
    XorZero(nid[i], nid[i]);
    XorZero(SID_MASK[i], 0);
    XorNothing(nid[i]);
    MaskZero(i);
  }

  lemma {:induction false} XorNothing(a: nat)
    ensures Xor(a, 0) == a
  {
    if a > 0 {
      XorNothing(a / 2);
    }
  }

  lemma MaskZero(i: nat)
    requires i < 20
    ensures SID_MASK[i] == 0 <==> i < 3 || (i == 3 && SID4 == 0)
  {
  }

  lemma {:induction false} SharedUpTo(x: Nih, y: Nih, i: nat, n: nat)
    requires i <= n < 20 && x[n] != y[n] && forall j :: i <= j < n ==> x[j] == y[j]
    ensures Shared(x, y, i) == n
    decreases n - i
  {
    if i < n {
      SharedUpTo(x, y, i + 1, n);
    }
  }

  /** A build with SID4 zero shares four leading bytes with the peer, any other build three. */
  lemma OurIdIsNear(nid: Nih)
    ensures Shared(nid, MaskSid(nid), 0) == if SID4 == 0 then 4 else 3
  {
    var n := if SID4 == 0 then 4 else 3;
    forall i: nat | i <= n ensures nid[i] == MaskSid(nid)[i] <==> i < n { MaskExact(nid, i); }
    SharedUpTo(nid, MaskSid(nid), 0, n);
  }
}
