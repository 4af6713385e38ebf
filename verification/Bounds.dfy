// What every step of the decoder keeps: each recorded field is a slice of the
// part of the message already consumed, and the recorded counts stay within
// their limits. From that, a message's decoding does not depend on anything
// behind the position where it ended.

module Bounds {
  import opened Dht
  import opened Numeral
  import opened Krpc

  /** A recorded slice lies inside d[..pos] and shows what stands there. */
  ghost predicate Within(s: Option<Str>, d: Bytes, pos: nat)
    requires pos <= |d|
  {
    s.Some? ==>
      && s.value.start + |s.value.bytes| <= pos
      && s.value.bytes == d[s.value.start..s.value.start + |s.value.bytes|]
  }

  ghost predicate HasLength(s: Option<Str>, n: nat) { s.Some? ==> |s.value.bytes| == n }

  ghost predicate AtMost(s: Option<Str>, n: nat) { s.Some? ==> |s.value.bytes| <= n }

  ghost predicate IdsInside(f: Fields, d: Bytes, pos: nat)
    requires pos <= |d|
  {
    && Within(f.nid, d, pos) && HasLength(f.nid, NIH_LEN)
    && Within(f.ih, d, pos) && HasLength(f.ih, NIH_LEN)
    && Within(f.target, d, pos) && HasLength(f.target, NIH_LEN)
  }

  ghost predicate TextsInside(f: Fields, d: Bytes, pos: nat)
    requires pos <= |d|
  {
    && Within(f.tok, d, pos) && AtMost(f.tok, MAXLEN_TOK)
    && Within(f.token, d, pos) && AtMost(f.token, MAXLEN_TOKEN)
    && Within(f.apName, d, pos) && AtMost(f.apName, MAXLEN_AP_NAME)
  }

  /** The contact array is exactly nNodes records long. Of the peers only the first
      position is kept, but nPeers records from there on still lie inside the message. */
  ghost predicate ContactsInside(f: Fields, d: Bytes, pos: nat)
    requires pos <= |d|
  {
    && Within(f.nodes, d, pos) && HasLength(f.nodes, PNODE_LEN * f.nNodes)
    && f.nNodes <= MAX_NODES && (f.nNodes > 0 <==> f.nodes.Some?)
    && Within(f.peers, d, pos) && HasLength(f.peers, PEERINFO_LEN)
    && f.nPeers <= MAX_PEERS && (f.nPeers > 0 <==> f.peers.Some?)
    && (f.peers.Some? ==> f.peers.value.start + PEERINFO_LEN * f.nPeers <= pos)
  }

  ghost predicate Inside(f: Fields, d: Bytes, pos: nat)
    requires pos <= |d|
  {
    IdsInside(f, d, pos) && TextsInside(f, d, pos) && ContactsInside(f, d, pos)
  }

  lemma InsideGrows(f: Fields, d: Bytes, pos: nat, next: nat)
    requires pos <= next <= |d| && Inside(f, d, pos)
    ensures Inside(f, d, next)
  {
  }

  /** `v` is a string just read behind `pos`, and `next` is the position behind it. */
  ghost predicate JustRead(d: Bytes, pos: nat, v: Str, next: nat) {
    pos <= v.start && v.start + |v.bytes| == next <= |d| && v.bytes == d[v.start..next]
  }

  lemma OuterStrKeepsInside(d: Bytes, c: Ctx, pos: nat, v: Str, next: nat)
    requires JustRead(d, pos, v, next) && Inside(c.f, d, pos)
    ensures var r := OnOStr(c, v); r.Ok? ==> Inside(r.ctx.f, d, next)
  {
    InsideGrows(c.f, d, pos, next);
  }

  lemma TakeOfSlice(d: Bytes, i: nat, j: nat, n: nat)
    requires i <= j <= |d| && n <= j - i
    ensures d[i..j][..n] == d[i..i + n]
  {
  }

  lemma NodesKeepInside(d: Bytes, c: Ctx, pos: nat, v: Str, next: nat)
    requires JustRead(d, pos, v, next) && Inside(c.f, d, pos)
    ensures var r := OnNodes(c, v); r.Ok? ==> Inside(r.ctx.f, d, next)
  {
    InsideGrows(c.f, d, pos, next);
    var r := OnNodes(c, v);
    if r.Ok? {
      TakeOfSlice(d, v.start, next, |r.ctx.f.nodes.value.bytes|);
    }
  }

  lemma IdKeepsInside(d: Bytes, c: Ctx, pos: nat, v: Str, next: nat)
    requires JustRead(d, pos, v, next) && Inside(c.f, d, pos)
    requires c.cur == Some(ITarget) || c.cur == Some(INid) || c.cur == Some(IIh)
    ensures var r := OnIStr(c, v); r.Ok? ==> Inside(r.ctx.f, d, next)
  {
    InsideGrows(c.f, d, pos, next);
  }

  lemma TextKeepsInside(d: Bytes, c: Ctx, pos: nat, v: Str, next: nat)
    requires JustRead(d, pos, v, next) && Inside(c.f, d, pos)
    requires c.cur == Some(IToken) || c.cur == Some(IApName)
    ensures var r := OnIStr(c, v); r.Ok? ==> Inside(r.ctx.f, d, next)
  {
    InsideGrows(c.f, d, pos, next);
    if c.cur == Some(IToken) && |v.bytes| <= MAXLEN_TOKEN {
      assert OnIStr(c, v).ctx.f.token == Some(v);
    }
  }

  lemma InnerStrKeepsInside(d: Bytes, c: Ctx, pos: nat, v: Str, next: nat)
    requires JustRead(d, pos, v, next) && Inside(c.f, d, pos)
    ensures var r := OnIStr(c, v); r.Ok? ==> Inside(r.ctx.f, d, next)
  {
    if c.cur == Some(INodes) {
      NodesKeepInside(d, c, pos, v, next);
    } else if c.cur == Some(ITarget) || c.cur == Some(INid) || c.cur == Some(IIh) {
      IdKeepsInside(d, c, pos, v, next);
    } else if c.cur == Some(IToken) || c.cur == Some(IApName) {
      TextKeepsInside(d, c, pos, v, next);
    } else {
      InsideGrows(c.f, d, pos, next);
    }
  }

  lemma ItemKeepsInside(d: Bytes, c: Ctx, pos: nat, v: Str, next: nat)
    requires JustRead(d, pos, v, next) && Inside(c.f, d, pos)
    ensures var r := OnItem(c, v); r.Ok? ==> Inside(r.ctx.f, d, next)
  {
    InsideGrows(c.f, d, pos, next);
  }

  lemma OnStrKeepsInside(d: Bytes, st: State, c: Ctx, pos: nat, v: Str, next: nat)
    requires st != Start && JustRead(d, pos, v, next) && Inside(c.f, d, pos)
    ensures var r := OnStr(st, next, c, v); r.Go? ==> r.m.pos == next && Inside(r.m.ctx.f, d, next)
  {
    match st {
      case OKey => InsideGrows(c.f, d, pos, next);
      case IKey => InsideGrows(c.f, d, pos, next);
      case OVal => OuterStrKeepsInside(d, c, pos, v, next);
      case IVal => InnerStrKeepsInside(d, c, pos, v, next);
      case IVList => ItemKeepsInside(d, c, pos, v, next);
    }
  }

  lemma ReadKeepsInside(d: Bytes, m: Machine)
    requires m.pos < |d| && Inside(m.ctx.f, d, m.pos) && StepStr(d, m).Go?
    ensures Inside(StepStr(d, m).m.ctx.f, d, StepStr(d, m).m.pos)
  {
    var v, next := TextRead(d, m);
    OnStrKeepsInside(d, m.st, m.ctx, m.pos, v, next);
  }

  lemma OthersKeepFields(d: Bytes, m: Machine)
    requires m.pos < |d| && !IsDigit(d[m.pos]) && Step(d, m).Go?
    ensures var f := Step(d, m).m.ctx.f; f == m.ctx.f.(apPort := f.apPort)
  {
  }

  lemma StepKeepsInside(d: Bytes, m: Machine)
    requires m.pos < |d| && Inside(m.ctx.f, d, m.pos)
    ensures var s := Step(d, m); s.Go? ==> Inside(s.m.ctx.f, d, s.m.pos)
  {
    if Step(d, m).Go? {
      if IsDigit(d[m.pos]) {
        ReadKeepsInside(d, m);
      } else {
        OthersKeepFields(d, m);
        InsideGrows(m.ctx.f, d, m.pos, Step(d, m).m.pos);
      }
    }
  }

  /** Over every run, what is recorded at the clean exit lies inside the message read. */
  lemma {:induction false} RunKeepsInside(d: Bytes, m: Machine)
    requires m.pos <= |d| && Inside(m.ctx.f, d, m.pos)
    ensures var r := Run(d, m); r.Exit? ==> Inside(r.ctx.f, d, r.pos)
    decreases |d| - m.pos
  {
    if m.pos < |d| {
      StepKeepsInside(d, m);
      var s := Step(d, m);
      if s.Go? {
        RunKeepsInside(d, s.m);
      }
    }
  }

  /** The byte the announce filter reads behind the token pointer is in the message. */
  lemma TokenByteInside(d: Bytes)
    ensures var r := Run(d, Machine(Start, 0, InitialCtx(CLEARED)));
      r.Exit? && r.ctx.f.token.Some? ==> r.ctx.f.token.value.start < |d|
  {
    RunKeepsInside(d, Machine(Start, 0, InitialCtx(CLEARED)));
  }

  /** Behind a token without text stands the next step of its dictionary, once taken. */
  ghost predicate Settled(d: Bytes, m: Machine)
    requires m.pos <= |d|
  {
    m.ctx.f.token.Some? && m.ctx.f.token.value.bytes == [] ==>
      var i := m.ctx.f.token.value.start;
      (i == m.pos && m.st == IKey) || (i < m.pos && (IsDigit(d[i]) || d[i] == CH_E))
  }

  lemma OnStrToken(st: State, pos: nat, c: Ctx, v: Str)
    requires st != Start && OnStr(st, pos, c, v).Go?
    ensures var m := OnStr(st, pos, c, v).m;
      m.ctx.f.token == c.f.token || (m.ctx.f.token == Some(v) && m.st == IKey && m.pos == pos)
  {
  }

  lemma TextKeepsSettled(d: Bytes, m: Machine)
    requires m.pos < |d| && Settled(d, m) && IsDigit(d[m.pos]) && StepStr(d, m).Go?
    ensures Settled(d, StepStr(d, m).m)
  {
    var v, next := TextRead(d, m);
    OnStrToken(m.st, next, m.ctx, v);
    OnStrAdvances(m.st, next, m.ctx, v);
  }

  lemma StepKeepsSettled(d: Bytes, m: Machine)
    requires m.pos < |d| && Settled(d, m) && Step(d, m).Go?
    ensures Settled(d, Step(d, m).m)
  {
    if IsDigit(d[m.pos]) {
      TextKeepsSettled(d, m);
    } else {
      OthersKeepFields(d, m);
    }
  }

  lemma {:induction false} RunKeepsSettled(d: Bytes, m: Machine)
    requires m.pos <= |d| && Settled(d, m) && Run(d, m).Exit?
    ensures Settled(d, Machine(OKey, Run(d, m).pos, Run(d, m).ctx))
    decreases |d| - m.pos
  {
    var s := Step(d, m);
    if s.Go? {
      StepKeepsSettled(d, m);
      RunKeepsSettled(d, s.m);
    }
  }

  /** What the announce filter decides, from the text of the token alone. */
  function TokenVerdict(f: Fields): Verdict {
    if f.token == None then Abort
    else if |f.token.value.bytes| >= 2 && f.token.value.bytes[0] == OUR_TOKEN then Accept(QAp)
    else Reject(TokenUnrecognized)
  }

  /** The filter accepts exactly the tokens of two bytes or more that begin with ours: the
      byte it reads behind an empty token is never that one. */
  lemma TokenFilterExact(d: Bytes)
    requires Run(d, Machine(Start, 0, InitialCtx(CLEARED))).Exit?
    ensures var f := Run(d, Machine(Start, 0, InitialCtx(CLEARED))).ctx.f; TokenFilter(d, f) == TokenVerdict(f)
  {
    var m := Machine(Start, 0, InitialCtx(CLEARED));
    RunKeepsInside(d, m);
    RunKeepsSettled(d, m);
    var t := Run(d, m).ctx.f.token;
    if t.Some? && t.value.bytes != [] {
      assert t.value.bytes[0] == d[t.value.start];
    }
  }

  /** Every field of an accepted message lies inside the message. */
  lemma AcceptedInside(d: Bytes)
    requires Decode(d).Accepted?
    ensures Inside(Decode(d).f, d, |d|)
  {
    var m := Machine(Start, 0, InitialCtx(CLEARED));
    RunKeepsInside(d, m);
    var r := Run(d, m);
    InsideGrows(r.ctx.f, d, r.pos, |d|);
  }

  // ----- nothing behind the exit matters -----

  lemma {:induction false} AtoiLocal(d: Bytes, e: Bytes, k: nat, pos: nat, acc: nat)
    requires pos <= k <= |d| && k <= |e| && d[..k] == e[..k]
    requires Atoi(d, pos, acc).Number? && Atoi(d, pos, acc).next <= k
    ensures Atoi(e, pos, acc) == Atoi(d, pos, acc)
    decreases k - pos
  {
    assert pos < k && d[..k][pos] == e[..k][pos];
    if IsDigit(d[pos]) {
      AtoiLocal(d, e, k, pos + 1, 10 * acc + (d[pos] - 0x30));
    }
  }

  lemma TextLocal(d: Bytes, e: Bytes, k: nat, m: Machine)
    requires m.pos < k <= |d| && k <= |e| && d[..k] == e[..k]
    requires StepStr(d, m).Go? && StepStr(d, m).m.pos <= k
    ensures StepStr(e, m) == StepStr(d, m)
  {
    var v, next := TextRead(d, m);
    OnStrAdvances(m.st, next, m.ctx, v);
    AtoiLocal(d, e, k, m.pos, 0);
    SliceLocal(d, e, k, v.start, next);
    TextIs(e, m, v, next);
  }

  lemma SliceLocal(d: Bytes, e: Bytes, k: nat, i: nat, j: nat)
    requires i <= j <= k <= |d| && k <= |e| && d[..k] == e[..k]
    ensures d[i..j] == e[i..j]
  {
    assert d[i..j] == d[..k][i..j];
    assert e[i..j] == e[..k][i..j];
  }

  lemma IntLocal(d: Bytes, e: Bytes, k: nat, m: Machine)
    requires m.pos < k <= |d| && k <= |e| && d[..k] == e[..k]
    requires StepInt(d, m).Go? && StepInt(d, m).m.pos <= k
    ensures StepInt(e, m) == StepInt(d, m)
  {
    AtoiLocal(d, e, k, m.pos + 1, 0);
  }

  lemma StepLocal(d: Bytes, e: Bytes, k: nat, m: Machine)
    requires m.pos < k <= |d| && k <= |e| && d[..k] == e[..k]
    requires Step(d, m).Go? && Step(d, m).m.pos <= k
    ensures Step(e, m) == Step(d, m)
  {
    assert d[..k][m.pos] == e[..k][m.pos];
    if IsDigit(d[m.pos]) {
      TextLocal(d, e, k, m);
    } else if d[m.pos] == CH_I {
      IntLocal(d, e, k, m);
    }
  }

  lemma OnStrAdvances(st: State, pos: nat, c: Ctx, v: Str)
    requires st != Start
    ensures var r := OnStr(st, pos, c, v); r.Go? ==> r.m.pos == pos
  {
  }

  lemma {:induction false} RunLocal(d: Bytes, e: Bytes, m: Machine)
    requires m.pos <= |d| && Run(d, m).Exit?
    requires var k := Run(d, m).pos + 1; k <= |e| && d[..k] == e[..k]
    ensures m.pos <= |e| && Run(e, m) == Run(d, m)
    decreases |d| - m.pos
  {
    var k := Run(d, m).pos + 1;
    var s := Step(d, m);
    if s.Go? {
      RunLocal(d, e, s.m);
      StepLocal(d, e, k, m);
    } else {
      assert d[..k][m.pos] == e[..k][m.pos];
    }
  }

  /** Acceptance is stable under extension: once the decoder leaves through the closing
      'e' at some position, any bytes at all behind it give the same result. */
  lemma DecodingIgnoresTail(d: Bytes, e: Bytes)
    requires Run(d, Machine(Start, 0, InitialCtx(CLEARED))).Exit?
    requires var k := Run(d, Machine(Start, 0, InitialCtx(CLEARED))).pos + 1;
             k <= |e| && d[..k] == e[..k]
    ensures Decode(e) == Decode(d)
  {
    var m := Machine(Start, 0, InitialCtx(CLEARED));
    var r := Run(d, m);
    RunLocal(d, e, m);
    RunKeepsInside(d, m);
    if r.ctx.f.token.Some? {
      var i := r.ctx.f.token.value.start;
      assert d[..r.pos + 1][i] == e[..r.pos + 1][i];
    }
  }

  lemma {:induction false} RunTruncated(d: Bytes, m: Machine)
    requires m.pos <= |d| && Run(d, m).Exit?
    ensures m.pos <= Run(d, m).pos && Run(d[..Run(d, m).pos], m) == RanOff
    decreases |d| - m.pos
  {
    var k := Run(d, m).pos;
    var s := Step(d, m);
    if s.Go? {
      RunTruncated(d, s.m);
      StepLocal(d, d[..k], k, m);
    }
  }

  /** A message cut just before its closing 'e' is not rejected: it runs off the end of
      the loop into the failing assertion. */
  lemma TruncatedMessageAborts(d: Bytes)
    requires Run(d, Machine(Start, 0, InitialCtx(CLEARED))).Exit?
    ensures var p := Run(d, Machine(Start, 0, InitialCtx(CLEARED))).pos;
      Decode(d[..p]) == Aborted
  {
    RunTruncated(d, Machine(Start, 0, InitialCtx(CLEARED)));
  }
}
