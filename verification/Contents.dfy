// Contents without positions. Forgetting where in the buffer each string stood
// commutes with the event semantics, so two messages with the same contents are
// decoded alike wherever their strings lie.

module Contents {
  import opened Dht
  import opened Krpc
  import opened Bounds
  import opened Grammar

  function BareStr(s: Str): Str { s.(start := 0) }

  function BareOpt(s: Option<Str>): Option<Str> {
    if s.Some? then Some(BareStr(s.value)) else None
  }

  function BareFields(f: Fields): Fields {
    Fields(BareOpt(f.nid), BareOpt(f.ih), BareOpt(f.target), BareOpt(f.tok), f.nNodes, BareOpt(f.nodes),
           f.nPeers, BareOpt(f.peers), BareOpt(f.token), f.apPort, BareOpt(f.apName))
  }

  function BareCtx(c: Ctx): Ctx { c.(f := BareFields(c.f)) }

  function BareRes(r: Res): Res {
    if r.Ok? then Ok(BareCtx(r.ctx)) else r
  }

  function BareDecoded(r: Decoded): Decoded {
    if r.Accepted? then Accepted(r.meth, BareFields(r.f)) else r
  }

  function BareItems(items: seq<Str>): (r: seq<Str>)
    ensures |r| == |items|
  {
    seq(|items|, i requires 0 <= i < |items| => BareStr(items[i]))
  }

  function BareIVal(v: IVal): IVal {
    match v
    case IStr(s) => IStr(BareStr(s))
    case IInt(n) => IInt(n)
    case IList(items) => IList(BareItems(items))
  }

  function BareIPair(p: IPair): IPair { IPair(BareStr(p.key), BareIVal(p.val)) }

  function BareIPairs(ps: seq<IPair>): (r: seq<IPair>)
    ensures |r| == |ps|
  {
    seq(|ps|, i requires 0 <= i < |ps| => BareIPair(ps[i]))
  }

  function BareOVal(v: OVal): OVal {
    match v
    case OStr(s) => OStr(BareStr(s))
    case OInt(n) => OInt(n)
    case ODict(pairs) => ODict(BareIPairs(pairs))
  }

  function BareOPair(p: OPair): OPair { OPair(BareStr(p.key), BareOVal(p.val)) }

  function BareOPairs(ps: seq<OPair>): (r: seq<OPair>)
    ensures |r| == |ps|
  {
    seq(|ps|, i requires 0 <= i < |ps| => BareOPair(ps[i]))
  }

  lemma BareItemsCons(s: Str, rest: seq<Str>)
    ensures BareItems([s] + rest) == [BareStr(s)] + BareItems(rest)
  {
  }

  lemma BareIPairsCons(p: IPair, rest: seq<IPair>)
    ensures BareIPairs([p] + rest) == [BareIPair(p)] + BareIPairs(rest)
  {
  }

  lemma BareOPairsCons(p: OPair, rest: seq<OPair>)
    ensures BareOPairs([p] + rest) == [BareOPair(p)] + BareOPairs(rest)
  {
  }

  lemma BareNodes(c: Ctx, v: Str)
    ensures OnNodes(BareCtx(c), BareStr(v)) == BareRes(OnNodes(c, v))
  {
  }

  lemma BareIds(c: Ctx, v: Str)
    requires c.cur == Some(ITarget) || c.cur == Some(INid) || c.cur == Some(IIh)
    ensures OnIStr(BareCtx(c), BareStr(v)) == BareRes(OnIStr(c, v))
  {
  }

  lemma BareIStr(c: Ctx, v: Str)
    ensures OnIStr(BareCtx(c), BareStr(v)) == BareRes(OnIStr(c, v))
  {
    if c.cur == Some(INodes) {
      BareNodes(c, v);
    } else if c.cur == Some(ITarget) || c.cur == Some(INid) || c.cur == Some(IIh) {
      BareIds(c, v);
    }
  }

  lemma BareItem(c: Ctx, v: Str)
    ensures OnItem(BareCtx(c), BareStr(v)) == BareRes(OnItem(c, v))
  {
  }

  lemma {:induction false} BareFoldItems(c: Ctx, items: seq<Str>)
    ensures FoldItems(BareCtx(c), BareItems(items)) == BareRes(FoldItems(c, items))
    decreases |items|
  {
    if items != [] {
      BareItem(c, items[0]);
      assert BareItems(items)[1..] == BareItems(items[1..]);
      if OnItem(c, items[0]).Ok? {
        BareFoldItems(OnItem(c, items[0]).ctx, items[1..]);
      }
    }
  }

  lemma BareIKey(c: Ctx, k: Str)
    ensures OnIKey(BareCtx(c), BareStr(k)) == BareCtx(OnIKey(c, k))
  {
    var x, s := BareCtx(c), BareStr(k);
    assert s.bytes == k.bytes && x.kind == c.kind;
    if k.bytes == KEY_ID || k.bytes == KEY_NAME || k.bytes == KEY_PORT || k.bytes == KEY_NODES {
    } else if k.bytes == KEY_TOKEN || k.bytes == KEY_VALUES || k.bytes == KEY_TARGET {
    } else {
    }
  }

  lemma BareFoldIVal(c: Ctx, v: IVal)
    ensures FoldIVal(BareCtx(c), BareIVal(v)) == BareRes(FoldIVal(c, v))
  {
    match v {
      case IStr(s) => BareIStr(c, s);
      case IInt(n) =>
      case IList(items) => BareFoldItems(c, items);
    }
  }

  lemma BareFoldIPair(c: Ctx, p: IPair)
    ensures FoldIPair(BareCtx(c), BareIPair(p)) == BareRes(FoldIPair(c, p))
  {
    BareIKey(c, p.key);
    BareFoldIVal(OnIKey(c, p.key), p.val);
  }

  lemma {:induction false} BareFoldIPairs(c: Ctx, ps: seq<IPair>)
    ensures FoldIPairs(BareCtx(c), BareIPairs(ps)) == BareRes(FoldIPairs(c, ps))
    decreases |ps|
  {
    if ps != [] {
      BareFoldIPair(c, ps[0]);
      assert BareIPairs(ps)[1..] == BareIPairs(ps[1..]);
      if FoldIPair(c, ps[0]).Ok? {
        BareFoldIPairs(FoldIPair(c, ps[0]).ctx, ps[1..]);
      }
    }
  }

  lemma BareOKey(c: Ctx, k: Str)
    ensures OnOKey(BareCtx(c), BareStr(k)) == BareRes(OnOKey(c, k))
  {
  }

  lemma BareFoldOVal(c: Ctx, v: OVal)
    ensures FoldOVal(BareCtx(c), BareOVal(v)) == BareRes(FoldOVal(c, v))
  {
    match v {
      case OStr(s) => BareOStr(c, s);
      case OInt(n) =>
      case ODict(pairs) => BareFoldIPairs(c, pairs);
    }
  }

  lemma BareOStr(c: Ctx, v: Str)
    ensures OnOStr(BareCtx(c), BareStr(v)) == BareRes(OnOStr(c, v))
  {
  }

  lemma BareFoldOPair(c: Ctx, p: OPair)
    ensures FoldOPair(BareCtx(c), BareOPair(p)) == BareRes(FoldOPair(c, p))
  {
    BareOKey(c, p.key);
    if OnOKey(c, p.key).Ok? {
      BareFoldOVal(OnOKey(c, p.key).ctx, p.val);
    }
  }

  /** Folding commutes with forgetting positions. */
  lemma {:induction false} BareFoldOPairs(c: Ctx, ps: seq<OPair>)
    ensures FoldOPairs(BareCtx(c), BareOPairs(ps)) == BareRes(FoldOPairs(c, ps))
    decreases |ps|
  {
    if ps != [] {
      BareFoldOPair(c, ps[0]);
      assert BareOPairs(ps)[1..] == BareOPairs(ps[1..]);
      if FoldOPair(c, ps[0]).Ok? {
        BareFoldOPairs(FoldOPair(c, ps[0]).ctx, ps[1..]);
      }
    }
  }

  function TokenText(f: Fields): Bytes {
    if f.token == None then [] else f.token.value.bytes
  }

  /** What a message with the folded, bare contents `r` decodes to, positions aside. The
      announce filter is given the text of the token and nothing else to look at. */
  function Judge(r: Res): Decoded {
    match r
    case Bad(s) => Rejected(s)
    case Ok(c) =>
      match Validate(TokenText(c.f), c)
      case Accept(m) => Accepted(m, c.f)
      case Reject(s) => Rejected(s)
      case Abort => Aborted
  }

  lemma ValidateBare(d: Bytes, c: Ctx)
    requires TokenFilter(d, c.f) == TokenVerdict(c.f)
    ensures Validate(d, c) == Validate(TokenText(c.f), BareCtx(c))
  {
    assert TokenFilter(TokenText(c.f), BareFields(c.f)) == TokenVerdict(c.f);
  }


  /** Two contents are the same up to the current key, which no verdict looks at. */
  ghost predicate SameButCur(a: Ctx, b: Ctx) { a.(cur := None) == b.(cur := None) }

  lemma JudgeSame(a: Res, b: Res)
    requires a.Ok? && b.Ok? && SameButCur(a.ctx, b.ctx)
    ensures Judge(a) == Judge(b)
  {
  }

  /** The decoding of any bytes that parse is the judgement of their bare contents. */
  lemma DecodeByContents(d: Bytes)
    requires ParseMsg(d).Parsed?
    ensures BareDecoded(Decode(d)) == Judge(FoldOPairs(InitialCtx(CLEARED), BareOPairs(ParseMsg(d).value)))
  {
    var msg := ParseMsg(d);
    var c := InitialCtx(CLEARED);
    BareFoldOPairs(c, msg.value);
    ParsedRun(d, CLEARED);
    var r := FoldOPairs(c, msg.value);
    if r.Ok? {
      TokenFilterExact(d);
      ValidateBare(d, r.ctx);
    }
  }
}
