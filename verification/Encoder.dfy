// The encoders as the source runs them: copy a template into the send buffer,
// patch it in place, advance an offset. Each leaves in the buffer exactly the
// canonical text of its message tree.

module Encoder {
  import opened Dht
  import opened Numeral
  import opened Bits
  import opened Render
  import opened Msg

  /** Our id towards a peer: its own id under the mask. */
  function MaskSid(nid: Nih): Nih {
    seq(NIH_LEN, i requires 0 <= i < NIH_LEN => XorByte(nid[i], SID_MASK[i]))
  }

  /** Masking twice gives the id back: a reply to our query carries the id we addressed. */
  lemma MaskInvolution(nid: Nih)
    ensures MaskSid(MaskSid(nid)) == nid
  {
    forall i | 0 <= i < NIH_LEN ensures MaskSid(MaskSid(nid))[i] == nid[i] {
      XorInvolution(nid[i], SID_MASK[i]);
    }
  }

  /** `s` with the bytes from `off` on replaced by `src`. */
  function Patch(s: Bytes, off: nat, src: Bytes): (r: Bytes)
    requires off + |src| <= |s|
    ensures |r| == |s|
  {
    s[..off] + src + s[off + |src|..]
  }

  lemma PatchMiddle(a: Bytes, mid: Bytes, b: Bytes, src: Bytes)
    requires |src| == |mid|
    ensures Patch(a + mid + b, |a|, src) == a + src + b
  {
  }

  method Memcpy(buf: array<Byte>, off: nat, src: Bytes)
    requires off + |src| <= buf.Length
    modifies buf
    ensures buf[..] == Patch(old(buf[..]), off, src)
  {
    forall i | 0 <= i < |src| {
      buf[off + i] := src[i];
    }
  }

  /** XORs the mask over the id standing at `off`. */
  method WriteSidRaw(buf: array<Byte>, off: nat)
    requires off + NIH_LEN <= buf.Length
    modifies buf
    ensures buf[..] == Patch(old(buf[..]), off, MaskSid(old(buf[off..off + NIH_LEN])))
  {
    ghost var before: Nih := buf[off..off + NIH_LEN];
    ghost var masked := MaskSid(before);
    for ix := 0 to NIH_LEN
      invariant forall k :: 0 <= k < ix ==> buf[off + k] == masked[k]
      invariant forall k :: ix <= k < NIH_LEN ==> buf[off + k] == before[k]
      invariant buf[..off] == old(buf[..off]) && buf[off + NIH_LEN..] == old(buf[off + NIH_LEN..])
    {
      assert masked[ix] == XorByte(before[ix], SID_MASK[ix]);
      buf[off + ix] := XorByte(buf[off + ix], SID_MASK[ix]);
    }
    assert buf[off..off + NIH_LEN] == masked;
    assert buf[..] == buf[..off] + buf[off..off + NIH_LEN] + buf[off + NIH_LEN..];
  }

  method WriteSid(buf: array<Byte>, off: nat, nid: Nih)
    requires off + NIH_LEN <= buf.Length
    modifies buf
    ensures buf[..] == Patch(old(buf[..]), off, MaskSid(nid))
  {
    Memcpy(buf, off, nid);
    assert buf[off..off + NIH_LEN] == nid;
    WriteSidRaw(buf, off);
  }

  // ----- queries -----

  /** The prefix of a patched buffer is the patched prefix. */
  lemma PatchPrefix(s: Bytes, off: nat, src: Bytes, n: nat)
    requires off + |src| <= n <= |s|
    ensures Patch(s, off, src)[..n] == Patch(s[..n], off, src)
  {
  }

  method QGp(buf: array<Byte>, nid: Nih, infohash: Nih, tok: U16) returns (n: nat)
    requires buf.Length >= MSG_BUF_LEN
    modifies buf
    ensures n == 97 && buf[..n] == RMsg(QGpTree(MaskSid(nid), infohash, tok)) + [0]
  {
    n := |Q_GP_PROTO|;
    Memcpy(buf, 0, Q_GP_PROTO);
    assert buf[..n] == Q_GP_PROTO;
    ghost var s0 := buf[..];
    WriteSid(buf, Q_GP_SID_OFFSET, nid);
    ghost var s1 := buf[..];
    Memcpy(buf, Q_GP_IH_OFFSET, infohash);
    ghost var s2 := buf[..];
    Memcpy(buf, Q_GP_TOK_OFFSET, StoreU16(tok));
    PatchPrefix(s0, Q_GP_SID_OFFSET, MaskSid(nid), n);
    PatchPrefix(s1, Q_GP_IH_OFFSET, infohash, n);
    PatchPrefix(s2, Q_GP_TOK_OFFSET, StoreU16(tok), n);
    GpPatched(MaskSid(nid), infohash, StoreU16(tok));
    QGpText(MaskSid(nid), infohash, tok);
  }

  lemma GpPatched(sid: Nih, ih: Nih, tok: Bytes)
    requires |tok| == 2
    ensures Patch(Patch(Patch(Q_GP_PROTO, Q_GP_SID_OFFSET, sid), Q_GP_IH_OFFSET, ih), Q_GP_TOK_OFFSET, tok)
      == Q_HEAD + sid + IH_KEY + ih + GP_TAIL + tok + ([OUR_TOK_GP] + Y_QUERY + [0])
  {
    ThreeHoles(Q_HEAD, IH_KEY, GP_TAIL, [OUR_TOK_GP] + Y_QUERY + [0], sid, ih, tok, Zeros(20), Zeros(20), Zeros(2));
  }

  /** Filling the holes of a template one after the other. */
  lemma ThreeHoles(a: Bytes, b: Bytes, c: Bytes, e: Bytes, x: Bytes, y: Bytes, z: Bytes, x0: Bytes, y0: Bytes, z0: Bytes)
    requires |x| == |x0| && |y| == |y0| && |z| == |z0|
    ensures var t := a + x0 + b + y0 + c + z0 + e;
      Patch(Patch(Patch(t, |a|, x), |a| + |x| + |b|, y), |a| + |x| + |b| + |y| + |c|, z)
        == a + x + b + y + c + z + e
  {
    TwoHoles(a, b, c + z0 + e, x, y, x0, y0);
    assert a + x0 + b + y0 + (c + z0 + e) == a + x0 + b + y0 + c + z0 + e;
    assert a + x + b + y + (c + z0 + e) == (a + x + b + y + c) + z0 + e;
    PatchMiddle(a + x + b + y + c, z0, e, z);
  }

  lemma TwoHoles(a: Bytes, b: Bytes, c: Bytes, x: Bytes, y: Bytes, x0: Bytes, y0: Bytes)
    requires |x| == |x0| && |y| == |y0|
    ensures Patch(Patch(a + x0 + b + y0 + c, |a|, x), |a| + |x| + |b|, y) == a + x + b + y + c
  {
    assert a + x0 + b + y0 + c == a + x0 + (b + y0 + c);
    PatchMiddle(a, x0, b + y0 + c, x);
    assert a + x + (b + y0 + c) == (a + x + b) + y0 + c;
    PatchMiddle(a + x + b, y0, c, y);
  }

  method QFn(buf: array<Byte>, nid: Nih, target: Nih) returns (n: nat)
    requires buf.Length >= MSG_BUF_LEN
    modifies buf
    ensures n == 91 && buf[..n] == RMsg(QFnTree(MaskSid(nid), target))
  {
    n := |Q_FN_PROTO|;
    Memcpy(buf, 0, Q_FN_PROTO);
    assert buf[..n] == Q_FN_PROTO;
    ghost var s0 := buf[..];
    Memcpy(buf, Q_FN_TARGET_OFFSET, target);
    ghost var s1 := buf[..];
    WriteSid(buf, Q_FN_SID_OFFSET, nid);
    PatchPrefix(s0, Q_FN_TARGET_OFFSET, target, n);
    PatchPrefix(s1, Q_FN_SID_OFFSET, MaskSid(nid), n);
    FnPatched(MaskSid(nid), target);
    QFnText(MaskSid(nid), target);
  }

  lemma FnPatched(sid: Nih, t: Nih)
    ensures Patch(Patch(Q_FN_PROTO, Q_FN_TARGET_OFFSET, t), Q_FN_SID_OFFSET, sid)
      == Q_HEAD + sid + TARGET_KEY + t + (FN_TAIL + [OUR_TOK_FN] + Y_QUERY)
  {
    var e := FN_TAIL + [OUR_TOK_FN] + Y_QUERY;
    PatchMiddle(Q_HEAD + Zeros(20) + TARGET_KEY, Zeros(20), e, t);
    assert Q_HEAD + Zeros(20) + TARGET_KEY + t + e == Q_HEAD + Zeros(20) + (TARGET_KEY + t + e);
    PatchMiddle(Q_HEAD, Zeros(20), TARGET_KEY + t + e, sid);
    assert Q_HEAD + sid + (TARGET_KEY + t + e) == Q_HEAD + sid + TARGET_KEY + t + e;
  }

  method QPg(buf: array<Byte>, nid: Nih) returns (n: nat)
    requires buf.Length >= MSG_BUF_LEN
    modifies buf
    ensures n == 55 && buf[..n] == RMsg(QPgTree(MaskSid(nid)))
  {
    n := |Q_PG_PROTO|;
    Memcpy(buf, 0, Q_PG_PROTO);
    assert buf[..n] == Q_PG_PROTO;
    ghost var s0 := buf[..];
    WriteSid(buf, Q_PG_SID_OFFSET, nid);
    PatchPrefix(s0, Q_PG_SID_OFFSET, MaskSid(nid), n);
    PatchMiddle(Q_HEAD, Zeros(20), PG_TAIL + [OUR_TOK_PG] + Y_QUERY, MaskSid(nid));
    QPgText(MaskSid(nid));
  }

  // ----- replies -----

  /** Copies a block behind what is already written. */
  method Append(buf: array<Byte>, offset: nat, src: Bytes) returns (next: nat)
    requires offset + |src| <= buf.Length
    modifies buf
    ensures next == offset + |src| && buf[..next] == old(buf[..offset]) + src
  {
    Memcpy(buf, offset, src);
    next := offset + |src|;
  }

  /** Overwrites the end of what is already written. */
  lemma PatchEnd(a: Bytes, mid: Bytes, tail: Bytes, src: Bytes)
    requires |src| == |mid|
    ensures Patch(a + mid + tail, |a|, src)[..|a| + |mid|] == a + src
  {
  }

  /** Closes the inner dictionary, writes the tok behind its decimal length and closes
      the message. The printed text leaves a NUL behind, which is overwritten. */
  method CloseRWithTok(offset: nat, buf: array<Byte>, krpc: KReply) returns (n: nat)
    requires ValidReply(krpc) && offset + 8 + |krpc.tok| <= buf.Length
    modifies buf
    ensures n <= offset + 8 + |krpc.tok|
    ensures n == offset + 4 + |RStr(krpc.tok)| + 1
    ensures buf[..n] == old(buf[..offset]) + [CH_E] + T_KEY + (RStr(krpc.tok) + [CH_E])
  {
    n := Append(buf, offset, [CH_E]);
    n := PrintLength(n, buf, |krpc.tok|);
    n := Append(buf, n, krpc.tok);
    n := Append(buf, n, [CH_E]);
    CloseGlue(old(buf[..offset]), T_KEY, Decimal(|krpc.tok|), [CH_COLON], krpc.tok, [CH_E]);
  }

  lemma CloseGlue(b: Bytes, k: Bytes, n: Bytes, c: Bytes, t: Bytes, e: Bytes)
    ensures b + e + (k + n + c) + t + e == b + e + k + (n + c + t + e)
  {
  }

  /** Writes the tok key and a decimal length; the printed text ends in a NUL that is
      not counted. */
  method PrintLength(offset: nat, buf: array<Byte>, len: nat) returns (n: nat)
    requires len < 100 && offset + 7 <= buf.Length
    modifies buf
    ensures n <= offset + 6 && n == offset + 4 + |Decimal(len)|
    ensures buf[..n] == old(buf[..offset]) + (T_KEY + Decimal(len) + [CH_COLON])
  {
    DecimalWidth(len);
    var text := T_KEY + Decimal(len) + [CH_COLON];
    var printed := Append(buf, offset, text + [0]);
    n := offset + |text|;
    assert buf[..n] == buf[..printed][..n];
  }

  lemma DecimalWidth(n: nat)
    requires n < 100
    ensures |Decimal(n)| <= 2
  {
  }

  lemma HeadWritten(s: Bytes, a: Bytes, b: Bytes)
    requires |a| + |b| <= |s| && s[..|a| + |b|] == a + b
    ensures s == a + b + s[|a| + |b|..]
  {
  }

  /** The head of every reply: our id towards the peer. */
  method ReplyHead(buf: array<Byte>, krpc: KReply) returns (offset: nat)
    requires buf.Length >= MSG_BUF_LEN
    modifies buf
    ensures offset == 38 && buf[..offset] == R_HEAD + MaskSid(krpc.nid)
  {
    offset := Append(buf, 0, R_BASE);
    ghost var s := buf[..];
    HeadWritten(s, R_HEAD, Zeros(20));
    WriteSid(buf, offset - 20, krpc.nid);
    PatchEnd(R_HEAD, Zeros(20), s[38..], MaskSid(krpc.nid));
  }

  method ReplyNodes(buf: array<Byte>, offset: nat, pnode: PNode) returns (next: nat)
    requires offset + 36 <= buf.Length
    modifies buf
    ensures next == offset + 36 && buf[..next] == old(buf[..offset]) + NODES_KEY + pnode
  {
    ghost var before := buf[..offset];
    next := Append(buf, offset, R_NODES);
    ghost var s := buf[..];
    assert s == s[..next] + s[next..];
    assert s == (before + NODES_KEY) + Zeros(26) + s[next..];
    Memcpy(buf, next - 26, pnode);
    PatchEnd(before + NODES_KEY, Zeros(26), s[next..], pnode);
  }

  method RPg(buf: array<Byte>, krpc: KReply) returns (offset: nat)
    requires buf.Length >= MSG_BUF_LEN && ValidReply(krpc)
    modifies buf
    ensures offset <= 124 && buf[..offset] == RMsg(RPgTree(MaskSid(krpc.nid), krpc.tok))
  {
    offset := ReplyHead(buf, krpc);
    offset := CloseRWithTok(offset, buf, krpc);
    RPgText(MaskSid(krpc.nid), krpc.tok);
  }

  method RFn(buf: array<Byte>, krpc: KReply, pnode: PNode) returns (offset: nat)
    requires buf.Length >= MSG_BUF_LEN && ValidReply(krpc)
    modifies buf
    ensures offset <= 124 && buf[..offset] == RMsg(RFnTree(MaskSid(krpc.nid), pnode, krpc.tok))
  {
    offset := ReplyHead(buf, krpc);
    offset := ReplyNodes(buf, offset, pnode);
    offset := CloseRWithTok(offset, buf, krpc);
    RFnText(MaskSid(krpc.nid), pnode, krpc.tok);
  }

  method RGp(buf: array<Byte>, krpc: KReply, payload: PNode) returns (offset: nat)
    requires buf.Length >= MSG_BUF_LEN && ValidReply(krpc)
    modifies buf
    ensures offset <= 124 && buf[..offset] == RMsg(RGpTree(MaskSid(krpc.nid), payload, krpc.tok))
  {
    offset := ReplyHead(buf, krpc);
    offset := ReplyNodes(buf, offset, payload);
    offset := Append(buf, offset, R_TOKEN);
    offset := CloseRWithTok(offset, buf, krpc);
    RGpText(MaskSid(krpc.nid), payload, krpc.tok);
  }
}
