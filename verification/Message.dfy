// Reading the fields of a decoded message the way the handlers do.

module Message {
  import opened Dht
  import opened Krpc
  import opened Bounds

  /** The shapes every decoded message has, wherever its fields lie. */
  ghost predicate Shaped(f: Fields) {
    && HasLength(f.nid, NIH_LEN) && HasLength(f.ih, NIH_LEN) && HasLength(f.target, NIH_LEN)
    && AtMost(f.tok, MAXLEN_TOK)
    && f.nNodes <= MAX_NODES && (f.nNodes > 0 <==> f.nodes.Some?) && HasLength(f.nodes, PNODE_LEN * f.nNodes)
  }

  lemma AcceptedShaped(d: Bytes)
    requires Decode(d).Accepted?
    ensures Shaped(Decode(d).f)
  {
    AcceptedInside(d);
  }

  /** An id behind a pointer; None for the null pointer. */
  function NihAt(s: Option<Str>): Option<Nih>
    requires HasLength(s, NIH_LEN)
  {
    if s == None then None else Some(s.value.bytes)
  }

  function NodeAt(f: Fields, i: nat): PNode
    requires Shaped(f) && i < f.nNodes
  {
    assert PNODE_LEN * i + PNODE_LEN <= PNODE_LEN * f.nNodes;
    f.nodes.value.bytes[PNODE_LEN * i..PNODE_LEN * i + PNODE_LEN]
  }

  /** The contact array of a message. */
  function NodesOf(f: Fields): (r: seq<PNode>)
    requires Shaped(f)
    ensures |r| == f.nNodes
  {
    seq(f.nNodes, i requires 0 <= i < f.nNodes => NodeAt(f, i))
  }

  /** An accepted get-peers reply carries a three-byte tok and some contact or peer. */
  lemma GetPeersReplyShape(d: Bytes)
    requires Decode(d).Accepted? && Decode(d).meth == RGp
    ensures var f := Decode(d).f; |TokBytes(f)| == 3 && f.nNodes + f.nPeers > 0
  {
  }
}
