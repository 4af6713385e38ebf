// What a message says, read off its text without the decoder's registers: which key
// governs each value, which field the value ends up in, and which value is the first that
// the decoder refuses.

module Readings {
  import opened Dht
  import opened Krpc
  import opened Grammar

  // ----- a message as one list of keys and values -----

  datatype Val = VStr(s: Str) | VInt(n: nat) | VList(items: seq<Str>) | VDict

  /** A key with its value; the entries of a dictionary stand behind the entry it is the
      value of. */
  datatype Entry = Entry(outer: bool, key: Bytes, val: Val)

  function InnerEntry(p: IPair): Entry {
    Entry(false, p.key.bytes,
          match p.val case IStr(s) => VStr(s) case IInt(n) => VInt(n) case IList(items) => VList(items))
  }

  function InnerEntries(ps: seq<IPair>): (r: seq<Entry>)
    decreases |ps|
  {
    if ps == [] then [] else [InnerEntry(ps[0])] + InnerEntries(ps[1..])
  }

  function OuterEntries(p: OPair): seq<Entry> {
    match p.val
    case OStr(s) => [Entry(true, p.key.bytes, VStr(s))]
    case OInt(n) => [Entry(true, p.key.bytes, VInt(n))]
    case ODict(ps) => [Entry(true, p.key.bytes, VDict)] + InnerEntries(ps)
  }

  function Entries(ps: seq<OPair>): seq<Entry>
    decreases |ps|
  {
    if ps == [] then [] else OuterEntries(ps[0]) + Entries(ps[1..])
  }

  // ----- the key that governs a value -----

  /** The keys of the protocol, by the level they belong to and their text. */
  function KeyNamed(outer: bool, text: Bytes): Option<Key> {
    if outer then
      if text == [0x61] then Some(OA) else if text == [0x72] then Some(OR) else if text == [0x74] then Some(OT)
      else if text == [0x71] then Some(OQ) else if text == [0x79] then Some(OY) else None
    else if text == KEY_ID then Some(INid)
    else if text == KEY_NAME then Some(IApName)
    else if text == KEY_PORT then Some(IPort)
    else if text == KEY_NODES then Some(INodes)
    else if text == KEY_TOKEN then Some(IToken)
    else if text == KEY_VALUES then Some(IValues)
    else if text == KEY_TARGET then Some(ITarget)
    else if text == KEY_INFO_HASH then Some(IIh)
    else if text == KEY_IMPLIED_PORT then Some(IImplPort)
    else None
  }

  predicate IsOuter(k: Key) { k == OA || k == OR || k == OT || k == OQ || k == OY }

  /** Outer keys that are not one byte long, inner keys of an unlisted length and `port`
      leave the key before them in force. */
  predicate IsOverlooked(e: Entry) {
    if e.outer then |e.key| != 1
    else e.key == KEY_PORT || (|e.key| != 2 && |e.key| != 4 && |e.key| != 5 && |e.key| != 6 && |e.key| != 9 && |e.key| != 12)
  }

  /** What a key puts in force: itself if it is one of the protocol, or nothing, or it leaves
      what was in force. */
  function GoverningKey(gov: Option<Key>, e: Entry): Option<Key> {
    if IsOverlooked(e) then gov else KeyNamed(e.outer, e.key)
  }

  /** The key in force behind some entries. */
  function Governing(es: seq<Entry>): Option<Key>
    decreases |es|
  {
    if es == [] then None else GoverningKey(Governing(es[..|es| - 1]), es[|es| - 1])
  }

  /** The value of the last entry is read as the value of this key. */
  predicate ReadAs(es: seq<Entry>, k: Key)
    requires es != []
  {
    es[|es| - 1].outer == IsOuter(k) && Governing(es) == Some(k)
  }

  /** The last string read as the value of a key. */
  function LastText(es: seq<Entry>, k: Key): Option<Str>
    decreases |es|
  {
    if es == [] then None
    else
      var e := es[|es| - 1];
      if e.val.VStr? && ReadAs(es, k) then Some(e.val.s) else LastText(es[..|es| - 1], k)
  }

  /** The last name that is not too long. */
  function LastName(es: seq<Entry>): Option<Str>
    decreases |es|
  {
    if es == [] then None
    else
      var e := es[|es| - 1];
      if e.val.VStr? && |e.val.s.bytes| <= 256 && ReadAs(es, IApName) then Some(e.val.s) else LastName(es[..|es| - 1])
  }

  /** The items of all lists of peers. */
  function Peers(es: seq<Entry>): seq<Str>
    decreases |es|
  {
    if es == [] then []
    else
      var e := es[|es| - 1];
      Peers(es[..|es| - 1]) + if e.val.VList? && ReadAs(es, IValues) then e.val.items else []
  }

  /** A key of the protocol occurs. */
  predicate Shows(es: seq<Entry>, k: Key) {
    exists i :: 0 <= i < |es| && KeyNamed(es[i].outer, es[i].key) == Some(k)
  }

  // ----- what is refused -----

  function TextFault(k: Key, v: Bytes): Option<Status> {
    match k
    case OQ => if v == VAL_PG || v == VAL_GP || v == VAL_FN then None else Some(UnknownQuery)
    case OT => if |v| <= 32 then None else Some(TokTooLong)
    case OY => if v == [0x71] || v == [0x72] then None else if v == [0x65] then Some(ErrorType) else Some(UnknownType)
    case INid => if |v| == 20 then None else Some(BadLengthNid)
    case IIh => if |v| == 20 then None else Some(BadLengthIh)
    case ITarget => if |v| == 20 then None else Some(BadLengthTarget)
    case INodes => if v != [] && |v| % 26 == 0 then None else Some(BadLengthNodes)
    case IToken => if |v| <= 32 then None else Some(TokenTooLong)
    case _ => None
  }

  /** A key that contradicts the kind of message the keys before it made. */
  predicate Contradicts(before: seq<Entry>, k: Option<Key>) {
    || ((k == Some(OA) || k == Some(OQ)) && Shows(before, OR))
    || (k == Some(OR) && (Shows(before, OA) || Shows(before, OQ)))
  }

  /** What is wrong with a value: a text that does not fit its key, or a list that is not
      one of peers. */
  function ValFault(gov: Option<Key>, outer: bool, v: Val): Option<Status> {
    match v
    case VStr(s) => if gov.Some? && IsOuter(gov.value) == outer then TextFault(gov.value, s.bytes) else None
    case VList(items) =>
      if outer || items == [] then None
      else if gov != Some(IValues) then Some(UnexpectedList)
      else if exists i :: 0 <= i < |items| && |items[i].bytes| != 6 then Some(BadLengthPeer)
      else None
    case _ => None
  }

  /** What is wrong with the last entry. */
  function Fault(es: seq<Entry>): Option<Status>
    requires es != []
  {
    var e := es[|es| - 1];
    if Contradicts(es[..|es| - 1], KeyNamed(e.outer, e.key)) then Some(InconsistentType)
    else ValFault(Governing(es), e.outer, e.val)
  }

  /** The first fault among some entries. */
  function FirstFault(es: seq<Entry>): Option<Status>
    decreases |es|
  {
    if es == [] then None
    else
      var r := FirstFault(es[..|es| - 1]);
      if r.Some? then r else Fault(es)
  }

  // ----- the fold, entry by entry -----

  function OnKey(c: Ctx, e: Entry): Res {
    if e.outer then OnOKey(c, Str(0, e.key)) else Ok(OnIKey(c, Str(0, e.key)))
  }

  function OnVal(c: Ctx, outer: bool, v: Val): Res {
    match v
    case VStr(s) => if outer then OnOStr(c, s) else OnIStr(c, s)
    case VInt(n) => if outer then Ok(c) else OnIInt(c, n)
    case VList(items) => if outer then Ok(c) else FoldItems(c, items)
    case VDict => Ok(c)
  }

  function FoldEntry(c: Ctx, e: Entry): Res {
    match OnKey(c, e)
    case Bad(s) => Bad(s)
    case Ok(c') => OnVal(c', e.outer, e.val)
  }

  function FoldEntries(c: Ctx, es: seq<Entry>): Res
    decreases |es|
  {
    if es == [] then Ok(c)
    else
      match FoldEntries(c, es[..|es| - 1])
      case Bad(s) => Bad(s)
      case Ok(c') => FoldEntry(c', es[|es| - 1])
  }

  function Onwards(r: Res, es: seq<Entry>): Res {
    if r.Ok? then FoldEntries(r.ctx, es) else r
  }

  lemma {:induction false} FoldConcat(c: Ctx, a: seq<Entry>, b: seq<Entry>)
    ensures FoldEntries(c, a + b) == Onwards(FoldEntries(c, a), b)
    decreases |b|
  {
    if b == [] {
      assert a + b == a;
    } else {
      var n := |b| - 1;
      assert (a + b)[..|a + b| - 1] == a + b[..n];
      FoldConcat(c, a, b[..n]);
    }
  }

  lemma FoldOne(c: Ctx, e: Entry)
    ensures FoldEntries(c, [e]) == FoldEntry(c, e)
  {
    assert [e][..0] == [];
  }

  lemma FoldFirst(c: Ctx, e: Entry, es: seq<Entry>)
    ensures FoldEntries(c, [e] + es) == Onwards(FoldEntry(c, e), es)
  {
    FoldConcat(c, [e], es);
    FoldOne(c, e);
  }

  lemma {:induction false} InnerFold(c: Ctx, ps: seq<IPair>)
    ensures FoldEntries(c, InnerEntries(ps)) == FoldIPairs(c, ps)
    decreases |ps|
  {
    if ps != [] {
      FoldFirst(c, InnerEntry(ps[0]), InnerEntries(ps[1..]));
      assert FoldEntry(c, InnerEntry(ps[0])) == FoldIPair(c, ps[0]);
      if FoldIPair(c, ps[0]).Ok? {
        InnerFold(FoldIPair(c, ps[0]).ctx, ps[1..]);
      }
    }
  }

  lemma OuterFold(c: Ctx, p: OPair)
    ensures FoldEntries(c, OuterEntries(p)) == FoldOPair(c, p)
  {
    match p.val {
      case OStr(s) => FoldOne(c, Entry(true, p.key.bytes, VStr(s)));
      case OInt(n) => FoldOne(c, Entry(true, p.key.bytes, VInt(n)));
      case ODict(ps) => DictFold(c, p, ps);
    }
  }

  lemma DictFold(c: Ctx, p: OPair, ps: seq<IPair>)
    requires p.val == ODict(ps)
    ensures FoldEntries(c, OuterEntries(p)) == FoldOPair(c, p)
  {
    FoldFirst(c, Entry(true, p.key.bytes, VDict), InnerEntries(ps));
    if OnOKey(c, p.key).Ok? {
      InnerFold(OnOKey(c, p.key).ctx, ps);
    }
  }

  /** Folding the events over a tree is folding its entries. */
  lemma {:induction false} FoldIsEntries(c: Ctx, ps: seq<OPair>)
    ensures FoldOPairs(c, ps) == FoldEntries(c, Entries(ps))
    decreases |ps|
  {
    if ps != [] {
      FoldConcat(c, OuterEntries(ps[0]), Entries(ps[1..]));
      OuterFold(c, ps[0]);
      if FoldOPair(c, ps[0]).Ok? {
        FoldIsEntries(FoldOPair(c, ps[0]).ctx, ps[1..]);
      }
    }
  }

  // ----- the current key -----

  /** The register of the current key says what governs; a `name` key counts only while the
      message can still be an announce. */
  ghost predicate CurGoverns(c: Ctx, gov: Option<Key>) {
    && gov != Some(IPort)
    && (c.cur == gov || (gov == Some(IApName) && c.cur == None && QAp !in c.kind))
  }

  lemma OuterKeyGoverns(c: Ctx, gov: Option<Key>, e: Entry)
    requires CurGoverns(c, gov) && e.outer && OnKey(c, e).Ok?
    ensures CurGoverns(OnKey(c, e).ctx, GoverningKey(gov, e))
  {
    assert |e.key| == 1 ==> e.key == [e.key[0]];
  }

  lemma InnerKeyGoverns(c: Ctx, gov: Option<Key>, e: Entry)
    requires CurGoverns(c, gov) && !e.outer
    ensures CurGoverns(OnKey(c, e).ctx, GoverningKey(gov, e))
  {
  }

  lemma {:induction false} ItemsKeepCur(c: Ctx, items: seq<Str>)
    ensures var r := FoldItems(c, items);
      r.Ok? ==> r.ctx == c.(f := r.ctx.f) && r.ctx.f == c.f.(nPeers := r.ctx.f.nPeers, peers := r.ctx.f.peers)
    decreases |items|
  {
    if items != [] && OnItem(c, items[0]).Ok? {
      ItemsKeepCur(OnItem(c, items[0]).ctx, items[1..]);
    }
  }

  lemma ValKeepsCur(c: Ctx, outer: bool, v: Val)
    ensures var r := OnVal(c, outer, v);
      r.Ok? ==> r.ctx.cur == c.cur && r.ctx.seen == c.seen && r.ctx.kind <= c.kind
  {
    if v.VList? {
      ItemsKeepCur(c, v.items);
    }
  }

  lemma EntryGoverns(c: Ctx, gov: Option<Key>, e: Entry)
    requires CurGoverns(c, gov) && OnKey(c, e).Ok?
    ensures CurGoverns(OnKey(c, e).ctx, GoverningKey(gov, e))
    ensures FoldEntry(c, e).Ok? ==> CurGoverns(FoldEntry(c, e).ctx, GoverningKey(gov, e))
  {
    if e.outer { OuterKeyGoverns(c, gov, e); } else { InnerKeyGoverns(c, gov, e); }
    ValKeepsCur(OnKey(c, e).ctx, e.outer, e.val);
  }

  lemma {:induction false} FoldGoverns(f: Fields, es: seq<Entry>)
    ensures var r := FoldEntries(InitialCtx(f), es); r.Ok? ==> CurGoverns(r.ctx, Governing(es))
    decreases |es|
  {
    if es != [] {
      var n := |es| - 1;
      FoldGoverns(f, es[..n]);
      var r := FoldEntries(InitialCtx(f), es[..n]);
      if r.Ok? && OnKey(r.ctx, es[n]).Ok? {
        EntryGoverns(r.ctx, Governing(es[..n]), es[n]);
      }
    }
  }

  /** The registers before the value of the last entry, when nothing before was refused. */
  lemma LastKey(f: Fields, es: seq<Entry>) returns (before: Ctx, c: Ctx)
    requires es != [] && FoldEntries(InitialCtx(f), es[..|es| - 1]).Ok?
    requires OnKey(FoldEntries(InitialCtx(f), es[..|es| - 1]).ctx, es[|es| - 1]).Ok?
    ensures FoldEntries(InitialCtx(f), es[..|es| - 1]) == Ok(before) && OnKey(before, es[|es| - 1]) == Ok(c)
    ensures FoldEntries(InitialCtx(f), es) == OnVal(c, es[|es| - 1].outer, es[|es| - 1].val)
    ensures CurGoverns(c, Governing(es)) && c.f == before.f
  {
    var n := |es| - 1;
    before := FoldEntries(InitialCtx(f), es[..n]).ctx;
    c := OnKey(before, es[n]).ctx;
    FoldGoverns(f, es[..n]);
    EntryGoverns(before, Governing(es[..n]), es[n]);
    KeyKeepsFields(before, es[n]);
  }

  lemma KeyKeepsFields(c: Ctx, e: Entry)
    ensures OnKey(c, e).Ok? ==> OnKey(c, e).ctx.f == c.f
  {
  }

  // ----- which field a value ends up in -----

  function Or<T>(a: Option<T>, b: Option<T>): Option<T> { if a.Some? then a else b }

  /** The ids are the last strings read as theirs. */
  ghost predicate IdsSay(f: Fields, es: seq<Entry>, start: Fields) {
    && f.nid == Or(LastText(es, INid), start.nid)
    && f.ih == Or(LastText(es, IIh), start.ih)
    && f.target == Or(LastText(es, ITarget), start.target)
  }

  /** So are the tok and the token; the port is never read. */
  ghost predicate TextsSay(f: Fields, es: seq<Entry>, start: Fields) {
    && f.tok == Or(LastText(es, OT), start.tok)
    && f.token == Or(LastText(es, IToken), start.token)
    && f.apPort == start.apPort
  }

  /** The contacts are the first eight at most of the last string read as theirs. */
  ghost predicate NodesSay(f: Fields, es: seq<Entry>, start: Fields) {
    match LastText(es, INodes)
    case None => f.nNodes == start.nNodes && f.nodes == start.nodes
    case Some(v) =>
      var n := |v.bytes| / 26;
      && |v.bytes| == 26 * n && n > 0
      && f.nNodes == (if n < 8 then n else 8)
      && f.nodes == Some(Str(v.start, v.bytes[..26 * f.nNodes]))
  }

  lemma IdLands(c: Ctx, gov: Option<Key>, outer: bool, s: Str)
    requires CurGoverns(c, gov) && OnVal(c, outer, VStr(s)).Ok?
    ensures var f := OnVal(c, outer, VStr(s)).ctx.f;
      && f.nid == (if !outer && gov == Some(INid) then Some(s) else c.f.nid)
      && f.ih == (if !outer && gov == Some(IIh) then Some(s) else c.f.ih)
      && f.target == (if !outer && gov == Some(ITarget) then Some(s) else c.f.target)
  {
  }

  lemma TextLands(c: Ctx, gov: Option<Key>, outer: bool, s: Str)
    requires CurGoverns(c, gov) && OnVal(c, outer, VStr(s)).Ok?
    ensures var f := OnVal(c, outer, VStr(s)).ctx.f;
      && f.tok == (if outer && gov == Some(OT) then Some(s) else c.f.tok)
      && f.token == (if !outer && gov == Some(IToken) then Some(s) else c.f.token)
      && f.apPort == c.f.apPort
  {
  }

  lemma NodesLand(c: Ctx, gov: Option<Key>, outer: bool, s: Str)
    requires CurGoverns(c, gov) && OnVal(c, outer, VStr(s)).Ok?
    ensures var r := OnVal(c, outer, VStr(s));
      if !outer && gov == Some(INodes) then r == OnNodes(c, s)
      else r.ctx.f.nNodes == c.f.nNodes && r.ctx.f.nodes == c.f.nodes
  {
  }

  lemma NodesRead(c: Ctx, v: Str)
    ensures var r := OnNodes(c, v); var n := |v.bytes| / 26;
      r.Ok? ==>
        && |v.bytes| == 26 * n && n > 0
        && r.ctx.f.nNodes == (if n < 8 then n else 8)
        && r.ctx.f.nodes == Some(Str(v.start, v.bytes[..26 * r.ctx.f.nNodes]))
  {
    assert v.bytes[..|v.bytes|] == v.bytes;
  }

  /** Numbers and lists fill none of these. */
  lemma OthersLand(c: Ctx, gov: Option<Key>, outer: bool, v: Val)
    requires CurGoverns(c, gov) && !v.VStr? && OnVal(c, outer, v).Ok?
    ensures var f := OnVal(c, outer, v).ctx.f;
      f == c.f.(nPeers := f.nPeers, peers := f.peers) && (!v.VList? ==> f == c.f)
  {
    if v.VList? {
      ItemsKeepCur(c, v.items);
    }
  }

  lemma {:induction false} IdsExact(start: Fields, es: seq<Entry>)
    requires FoldEntries(InitialCtx(start), es).Ok?
    ensures IdsSay(FoldEntries(InitialCtx(start), es).ctx.f, es, start)
    decreases |es|
  {
    if es != [] {
      var n := |es| - 1;
      IdsExact(start, es[..n]);
      var before, c := LastKey(start, es);
      if es[n].val.VStr? {
        IdLands(c, Governing(es), es[n].outer, es[n].val.s);
      } else {
        OthersLand(c, Governing(es), es[n].outer, es[n].val);
      }
    }
  }

  lemma {:induction false} TextsExact(start: Fields, es: seq<Entry>)
    requires FoldEntries(InitialCtx(start), es).Ok?
    ensures TextsSay(FoldEntries(InitialCtx(start), es).ctx.f, es, start)
    decreases |es|
  {
    if es != [] {
      var n := |es| - 1;
      TextsExact(start, es[..n]);
      var before, c := LastKey(start, es);
      if es[n].val.VStr? {
        TextLands(c, Governing(es), es[n].outer, es[n].val.s);
      } else {
        OthersLand(c, Governing(es), es[n].outer, es[n].val);
      }
    }
  }

  lemma {:induction false} NodesExact(start: Fields, es: seq<Entry>)
    requires FoldEntries(InitialCtx(start), es).Ok?
    ensures NodesSay(FoldEntries(InitialCtx(start), es).ctx.f, es, start)
    decreases |es|
  {
    if es != [] {
      var n := |es| - 1;
      NodesExact(start, es[..n]);
      var before, c := LastKey(start, es);
      if es[n].val.VStr? {
        NodesLand(c, Governing(es), es[n].outer, es[n].val.s);
        NodesRead(c, es[n].val.s);
      } else {
        OthersLand(c, Governing(es), es[n].outer, es[n].val);
      }
    }
  }

  // ----- peers -----

  /** The peers are the items of all lists read as theirs: 36 at most are counted, and the
      first is kept. */
  ghost predicate PeersSay(f: Fields, items: seq<Str>) {
    && f.nPeers == (if |items| < 36 then |items| else 36)
    && f.peers == if items == [] then None else Some(items[0])
  }

  lemma OnePeer(c: Ctx, items: seq<Str>, v: Str)
    requires PeersSay(c.f, items) && OnItem(c, v).Ok?
    ensures PeersSay(OnItem(c, v).ctx.f, items + [v])
  {
  }

  lemma {:induction false} ItemsAreCounted(c: Ctx, before: seq<Str>, items: seq<Str>)
    requires PeersSay(c.f, before) && FoldItems(c, items).Ok?
    ensures PeersSay(FoldItems(c, items).ctx.f, before + items)
    decreases |items|
  {
    if items == [] {
      assert before + items == before;
    } else {
      OnePeer(c, before, items[0]);
      ItemsAreCounted(OnItem(c, items[0]).ctx, before + [items[0]], items[1..]);
      assert before + [items[0]] + items[1..] == before + items;
    }
  }

  lemma TextKeepsPeers(c: Ctx, outer: bool, s: Str)
    ensures var r := OnVal(c, outer, VStr(s)); r.Ok? ==> r.ctx.f.nPeers == c.f.nPeers && r.ctx.f.peers == c.f.peers
  {
  }

  lemma NoListElsewhere(c: Ctx, items: seq<Str>)
    requires c.cur != Some(IValues) && FoldItems(c, items).Ok?
    ensures items == []
  {
  }

  lemma {:induction false} PeersExact(es: seq<Entry>)
    requires FoldEntries(InitialCtx(CLEARED), es).Ok?
    ensures PeersSay(FoldEntries(InitialCtx(CLEARED), es).ctx.f, Peers(es))
    decreases |es|
  {
    if es != [] {
      var n := |es| - 1;
      PeersExact(es[..n]);
      var before, c := LastKey(CLEARED, es);
      assert Peers(es[..n]) + [] == Peers(es[..n]);
      match es[n].val {
        case VStr(s) => TextKeepsPeers(c, es[n].outer, s);
        case VList(items) =>
          if ReadAs(es, IValues) {
            ItemsAreCounted(c, Peers(es[..n]), items);
          } else if !es[n].outer {
            NoListElsewhere(c, items);
          }
        case _ =>
      }
    }
  }

  // ----- the name of an announce -----

  lemma NameLands(c: Ctx, gov: Option<Key>, outer: bool, s: Str)
    requires CurGoverns(c, gov) && QAp in c.kind && OnVal(c, outer, VStr(s)).Ok?
    ensures OnVal(c, outer, VStr(s)).ctx.f.apName
      == if !outer && gov == Some(IApName) && |s.bytes| <= 256 then Some(s) else c.f.apName
  {
  }

  lemma KeyKeepsAnnounce(c: Ctx, e: Entry)
    ensures OnKey(c, e).Ok? && QAp in OnKey(c, e).ctx.kind ==> QAp in c.kind
  {
  }

  /** As long as the message can be an announce, its name is the last one not too long. */
  lemma {:induction false} NameExact(start: Fields, es: seq<Entry>)
    requires FoldEntries(InitialCtx(start), es).Ok? && QAp in FoldEntries(InitialCtx(start), es).ctx.kind
    ensures FoldEntries(InitialCtx(start), es).ctx.f.apName == Or(LastName(es), start.apName)
    decreases |es|
  {
    if es != [] {
      var n := |es| - 1;
      var before, c := LastKey(start, es);
      ValKeepsCur(c, es[n].outer, es[n].val);
      KeyKeepsAnnounce(before, es[n]);
      NameExact(start, es[..n]);
      if es[n].val.VStr? {
        NameLands(c, Governing(es), es[n].outer, es[n].val.s);
      } else {
        OthersLand(c, Governing(es), es[n].outer, es[n].val);
      }
    }
  }

  // ----- the keys seen -----

  lemma KeyShows(c: Ctx, e: Entry, k: Key)
    requires OnKey(c, e).Ok? && (k != IApName || QAp in OnKey(c, e).ctx.kind)
    ensures k in OnKey(c, e).ctx.seen <==> k in c.seen || KeyNamed(e.outer, e.key) == Some(k)
  {
    assert e.outer && |e.key| == 1 ==> e.key == [e.key[0]];
    KeyKeepsAnnounce(c, e);
  }

  lemma ShowsLast(es: seq<Entry>, k: Key)
    requires es != []
    ensures var n := |es| - 1; Shows(es, k) <==> Shows(es[..n], k) || KeyNamed(es[n].outer, es[n].key) == Some(k)
  {
    var n := |es| - 1;
    if i :| 0 <= i < |es| && KeyNamed(es[i].outer, es[i].key) == Some(k) {
      assert i < n ==> es[..n][i] == es[i];
    }
  }

  /** The keys seen are the keys of the protocol that occur; a name is seen only where it
      can be one of an announce. */
  lemma {:induction false} SeenExact(start: Fields, es: seq<Entry>, k: Key)
    requires FoldEntries(InitialCtx(start), es).Ok?
    requires k != IApName || QAp in FoldEntries(InitialCtx(start), es).ctx.kind
    ensures k in FoldEntries(InitialCtx(start), es).ctx.seen <==> Shows(es, k)
    decreases |es|
  {
    if es != [] {
      var n := |es| - 1;
      var before, c := LastKey(start, es);
      ValKeepsCur(c, es[n].outer, es[n].val);
      KeyKeepsAnnounce(before, es[n]);
      SeenExact(start, es[..n], k);
      KeyShows(before, es[n], k);
      ShowsLast(es, k);
    }
  }

  // ----- what is refused -----

  /** A result is the one the first fault demands. */
  ghost predicate Refuses(r: Res, fault: Option<Status>) {
    match fault case None => r.Ok? case Some(s) => r == Bad(s)
  }

  lemma KeyRefused(c: Ctx, before: seq<Entry>, e: Entry)
    requires forall k: Key :: k != IApName ==> (k in c.seen <==> Shows(before, k))
    ensures if Contradicts(before, KeyNamed(e.outer, e.key)) then OnKey(c, e) == Bad(InconsistentType) else OnKey(c, e).Ok?
  {
    assert e.outer && |e.key| == 1 ==> e.key == [e.key[0]];
  }

  lemma {:induction false} ItemsRefused(c: Ctx, items: seq<Str>)
    requires c.cur == Some(IValues)
    ensures var wrong := exists i :: 0 <= i < |items| && |items[i].bytes| != 6;
      Refuses(FoldItems(c, items), if wrong then Some(BadLengthPeer) else None)
    decreases |items|
  {
    if items != [] {
      assert items[0] in items;
      if |items[0].bytes| == 6 {
        ItemsRefused(OnItem(c, items[0]).ctx, items[1..]);
        assert forall i :: 1 <= i < |items| ==> items[1..][i - 1] == items[i];
      }
    }
  }

  lemma OuterTextRefused(c: Ctx, gov: Option<Key>, s: Str)
    requires CurGoverns(c, gov)
    ensures Refuses(OnVal(c, true, VStr(s)), ValFault(gov, true, VStr(s)))
  {
    assert |s.bytes| == 1 ==> s.bytes == [s.bytes[0]];
  }

  lemma InnerTextRefused(c: Ctx, gov: Option<Key>, s: Str)
    requires CurGoverns(c, gov)
    ensures Refuses(OnVal(c, false, VStr(s)), ValFault(gov, false, VStr(s)))
  {
  }

  lemma ValRefused(c: Ctx, gov: Option<Key>, outer: bool, v: Val)
    requires CurGoverns(c, gov)
    ensures Refuses(OnVal(c, outer, v), ValFault(gov, outer, v))
  {
    match v {
      case VStr(s) => if outer { OuterTextRefused(c, gov, s); } else { InnerTextRefused(c, gov, s); }
      case VList(items) => if gov == Some(IValues) { ItemsRefused(c, items); }
      case _ =>
    }
  }

  /** The fold succeeds exactly when nothing is refused, and otherwise ends with the status
      of the first fault. */
  lemma {:induction false} FaultExact(es: seq<Entry>)
    ensures Refuses(FoldEntries(InitialCtx(CLEARED), es), FirstFault(es))
    decreases |es|
  {
    if es != [] {
      var n := |es| - 1;
      FaultExact(es[..n]);
      var r := FoldEntries(InitialCtx(CLEARED), es[..n]);
      if r.Ok? {
        forall k: Key | k != IApName ensures k in r.ctx.seen <==> Shows(es[..n], k) { SeenExact(CLEARED, es[..n], k); }
        KeyRefused(r.ctx, es[..n], es[n]);
        if OnKey(r.ctx, es[n]).Ok? {
          var before, c := LastKey(CLEARED, es);
          ValRefused(c, Governing(es), es[n].outer, es[n].val);
        }
      }
    }
  }
}
