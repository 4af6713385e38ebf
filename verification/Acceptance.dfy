// Which messages the decoder accepts, and on which it crashes, in terms of the message:
// its parse tree, the keys in it and what it says about its own type.

module Acceptance {
  import opened Dht
  import opened Krpc
  import opened Bounds
  import opened Grammar
  import opened Evidence
  import opened Truncation

  // ----- the statements in a tree -----

  /** What one outer pair says: the value that follows a `q` or a `y` key. */
  function PairSays(c: Ctx, p: OPair): seq<Saying> {
    match OnOKey(c, p.key)
    case Bad(_) => []
    case Ok(c') =>
      if p.val.OStr? && (c'.cur == Some(OQ) || c'.cur == Some(OY)) then [Saying(c'.cur.value, p.val.s.bytes)] else []
  }

  function TreeSays(c: Ctx, ps: seq<OPair>): seq<Saying>
    decreases |ps|
  {
    if ps == [] then []
    else
      match FoldOPair(c, ps[0])
      case Bad(_) => []
      case Ok(c') => PairSays(c, ps[0]) + TreeSays(c', ps[1..])
  }

  lemma {:induction false} ItemsKeepMasks(c: Ctx, items: seq<Str>)
    requires FoldItems(c, items).Ok?
    ensures var c' := FoldItems(c, items).ctx; c'.seen == c.seen && c'.kind == c.kind
    decreases |items|
  {
    if items != [] {
      InnerValuesKeepMasks(c, items[0], 0);
      ItemsKeepMasks(OnItem(c, items[0]).ctx, items[1..]);
    }
  }

  lemma IValKeepsMasks(c: Ctx, v: IVal)
    requires FoldIVal(c, v).Ok?
    ensures var c' := FoldIVal(c, v).ctx; c'.seen == c.seen && c'.kind == c.kind
  {
    match v {
      case IStr(s) => InnerValuesKeepMasks(c, s, 0);
      case IInt(n) => InnerValuesKeepMasks(c, Str(0, []), n);
      case IList(items) => ItemsKeepMasks(c, items);
    }
  }

  lemma {:induction false} IPairsAgree(c: Ctx, ps: seq<IPair>, said: seq<Saying>)
    requires Agrees(c, said) && FoldIPairs(c, ps).Ok?
    ensures Agrees(FoldIPairs(c, ps).ctx, said)
    decreases |ps|
  {
    if ps != [] {
      InnerKeyAgrees(c, said, ps[0].key);
      IValKeepsMasks(OnIKey(c, ps[0].key), ps[0].val);
      IPairsAgree(FoldIPair(c, ps[0]).ctx, ps[1..], said);
    }
  }

  lemma OPairAgrees(c: Ctx, p: OPair, said: seq<Saying>)
    requires Agrees(c, said) && FoldOPair(c, p).Ok?
    ensures Agrees(FoldOPair(c, p).ctx, said + PairSays(c, p))
  {
    var c1 := OnOKey(c, p.key).ctx;
    OuterKeyAgrees(c, said, p.key);
    assert said + [] == said;
    match p.val {
      case OStr(s) => SayingAgrees(c1, said, s);
      case OInt(_) =>
      case ODict(pairs) => IPairsAgree(c1, pairs, said);
    }
  }

  /** The method mask a tree leaves behind is exactly what its keys and statements allow. */
  lemma {:induction false} TreeAgrees(c: Ctx, ps: seq<OPair>, said: seq<Saying>)
    requires Agrees(c, said) && FoldOPairs(c, ps).Ok?
    ensures Agrees(FoldOPairs(c, ps).ctx, said + TreeSays(c, ps))
    decreases |ps|
  {
    if ps == [] {
      assert said + [] == said;
    } else {
      var c1 := FoldOPair(c, ps[0]).ctx;
      OPairAgrees(c, ps[0], said);
      TreeAgrees(c1, ps[1..], said + PairSays(c, ps[0]));
      assert said + PairSays(c, ps[0]) + TreeSays(c1, ps[1..]) == said + (PairSays(c, ps[0]) + TreeSays(c1, ps[1..]));
    }
  }

  // ----- whole messages -----

  /** A message that parses to its end, and none of whose events fails. */
  predicate Whole(d: Bytes) { ParseMsg(d).Parsed? && FoldOPairs(InitialCtx(CLEARED), ParseMsg(d).value).Ok? }

  /** The keys seen in a message, and its fields. */
  function Final(d: Bytes): Ctx
    requires Whole(d)
  {
    FoldOPairs(InitialCtx(CLEARED), ParseMsg(d).value).ctx
  }

  /** What a message says about its own type. */
  function Said(d: Bytes): seq<Saying>
    requires Whole(d)
  {
    TreeSays(InitialCtx(CLEARED), ParseMsg(d).value)
  }

  lemma WholeAgrees(d: Bytes)
    requires Whole(d)
    ensures Agrees(Final(d), Said(d))
    ensures TokenFilter(d, Final(d).f) == TokenVerdict(Final(d).f)
  {
    var c := InitialCtx(CLEARED);
    forall x ensures x in c.kind <==> Compatible(x, c.seen, []) { AllMethods(x); }
    TreeAgrees(c, ParseMsg(d).value, []);
    assert [] + Said(d) == Said(d);
    ParsedRun(d, CLEARED);
    TokenFilterExact(d);
  }

  function Outcome(v: Verdict, f: Fields): Decoded {
    match v
    case Accept(m) => Accepted(m, f)
    case Reject(s) => Rejected(s)
    case Abort => Aborted
  }

  /** Decoding is running off the end, failing, or classifying the whole message. */
  lemma DecodeWhole(d: Bytes)
    ensures Whole(d) ==> Decode(d) == Outcome(Validate(d, Final(d)), Final(d).f)
    ensures !Whole(d) ==> !Run(d, Machine(Start, 0, InitialCtx(CLEARED))).Exit?
  {
    var o := Run(d, Machine(Start, 0, InitialCtx(CLEARED)));
    if ParseMsg(d).Parsed? {
      ParsedRun(d, CLEARED);
    } else if o.Exit? {
      FlatRefinesGrammar(d, CLEARED, o.pos, o.ctx);
    }
  }

  // ----- verdicts -----

  lemma QueryIsPossible(d: Bytes, c: Ctx)
    requires ValidateQuery(d, c).Accept?
    ensures ValidateQuery(d, c).meth in c.kind
  {
  }

  lemma ReplyIsPossible(c: Ctx, said: seq<Saying>, x: Method)
    requires ValidateReply(c).Accept? && x in R_ANY && Compatible(x, c.seen, said)
    ensures Compatible(ValidateReply(c).meth, c.seen, said)
  {
    var y := ValidateReply(c).meth;
    forall i | 0 <= i < |said| ensures y in SaidMask(said[i].key, said[i].val) {
      assert x in SaidMask(said[i].key, said[i].val);
    }
    forall k | k in c.seen ensures y in KeyMask(k) {
      assert x in KeyMask(k);
    }
  }

  /** The classifier picks reply methods from the keys seen alone. They are still in
      the method mask: no evidence separates one reply method from another except
      the very keys it looks at. */
  lemma VerdictIsPossible(d: Bytes, c: Ctx, said: seq<Saying>)
    requires Agrees(c, said) && Validate(d, c).Accept?
    ensures Validate(d, c).meth in c.kind
  {
    if c.kind * Q_ANY == {} {
      var x :| x in c.kind * R_ANY;
      ReplyIsPossible(c, said, x);
    } else {
      QueryIsPossible(d, c);
    }
  }

  /** An accepted message's method is compatible with every key the message holds and
      with every statement it makes about its type and query. */
  lemma AcceptedAgreesWithEvidence(d: Bytes)
    requires Decode(d).Accepted?
    ensures Whole(d) && Compatible(Decode(d).meth, Final(d).seen, Said(d))
  {
    DecodeWhole(d);
    WholeAgrees(d);
    VerdictIsPossible(d, Final(d), Said(d));
  }

  /** Exactly one method is compatible with the evidence. */
  ghost predicate Only(m: Method, c: Ctx, said: seq<Saying>) {
    forall x :: Compatible(x, c.seen, said) <==> x == m
  }

  /** The evidence leaves reply methods, and nothing else. */
  ghost predicate ReplyOnly(c: Ctx, said: seq<Saying>) {
    && (exists x :: x in R_ANY && Compatible(x, c.seen, said))
    && (forall x :: Compatible(x, c.seen, said) ==> x in R_ANY)
  }

  /** An announce that names an info hash and a port. */
  ghost predicate Announces(c: Ctx, said: seq<Saying>) {
    Only(QAp, c, said) && IIh in c.seen && (IPort in c.seen || IImplPort in c.seen)
  }

  /** What a message must show to be taken for a method. Keys that the evidence already
      rules out for the method need no mention. */
  ghost predicate Warrants(m: Method, c: Ctx, said: seq<Saying>) {
    && INid in c.seen && OT in c.seen
    && match m
       case QAp =>
         && Announces(c, said)
         && c.f.token.Some? && |c.f.token.value.bytes| >= 2 && c.f.token.value.bytes[0] == OUR_TOKEN
       case QPg => Only(QPg, c, said) && IToken !in c.seen
       case QFn => Only(QFn, c, said) && ITarget in c.seen
       case QGp => Only(QGp, c, said) && IIh in c.seen
       case RPg => ReplyOnly(c, said) && INodes !in c.seen && IValues !in c.seen && TokBytes(c.f) == [OUR_TOK_PG]
       case RFn =>
         && ReplyOnly(c, said) && INodes in c.seen && IValues !in c.seen && IToken !in c.seen
         && TokBytes(c.f) == [OUR_TOK_FN]
       case RGp =>
         && ReplyOnly(c, said) && IToken in c.seen && (INodes in c.seen || IValues in c.seen)
         && |TokBytes(c.f)| == 3 && TokBytes(c.f)[2] == OUR_TOK_GP && c.f.nNodes + c.f.nPeers > 0
  }

  lemma OnlyIsMask(c: Ctx, said: seq<Saying>, m: Method)
    requires Agrees(c, said)
    ensures Only(m, c, said) <==> c.kind == {m}
  {
  }

  lemma ReplyOnlyIsMask(c: Ctx, said: seq<Saying>)
    requires Agrees(c, said)
    ensures ReplyOnly(c, said) <==> c.kind * Q_ANY == {} && c.kind * R_ANY != {}
  {
    forall x ensures x in Q_ANY || x in R_ANY { AllMethods(x); }
    if ReplyOnly(c, said) {
      var x :| x in R_ANY && Compatible(x, c.seen, said);
      assert x in c.kind * R_ANY;
    }
    if c.kind * R_ANY != {} {
      var x :| x in c.kind * R_ANY;
      assert Compatible(x, c.seen, said);
    }
    if c.kind * Q_ANY == {} {
      forall x | Compatible(x, c.seen, said) ensures x in R_ANY {
        assert x in c.kind && x !in c.kind * Q_ANY;
      }
    }
  }

  /** A reply carries no argument of a query. */
  lemma ReplyHasNoArguments(c: Ctx, said: seq<Saying>)
    requires ReplyOnly(c, said)
    ensures IIh !in c.seen && ITarget !in c.seen
  {
    var x :| x in R_ANY && Compatible(x, c.seen, said);
    assert x !in KeyMask(IIh) && x !in KeyMask(ITarget);
  }

  /** A lone ping carries no body key but possibly a token. */
  lemma PingHasNoArguments(c: Ctx, said: seq<Saying>)
    requires Only(QPg, c, said)
    ensures c.seen !! IKEY_ANY_NON_TOKEN_BODY
  {
    assert Compatible(QPg, c.seen, said);
    forall k | k in IKEY_ANY_NON_TOKEN_BODY ensures QPg !in KeyMask(k) {}
  }

  lemma QueryNeedsMask(d: Bytes, c: Ctx, m: Method)
    requires m in Q_ANY && INid in c.seen && OT in c.seen
    ensures Validate(d, c) == Accept(m) <==> c.kind == {m} && ValidateQuery(d, c) == Accept(m)
  {
    if c.kind == {m} {
      assert m in c.kind * Q_ANY && c.kind * R_ANY == {};
    }
  }

  lemma QueryVerdictExact(d: Bytes, c: Ctx, said: seq<Saying>, m: Method)
    requires Agrees(c, said) && m in Q_ANY && INid in c.seen && OT in c.seen
    requires TokenFilter(d, c.f) == TokenVerdict(c.f)
    ensures Validate(d, c) == Accept(m) <==> Warrants(m, c, said)
  {
    QueryNeedsMask(d, c, m);
    OnlyIsMask(c, said, m);
    if c.kind == {QPg} {
      OnlyIsMask(c, said, QPg);
      PingHasNoArguments(c, said);
    }
  }

  lemma ReplyVerdictExact(d: Bytes, c: Ctx, said: seq<Saying>, m: Method)
    requires Agrees(c, said) && m in {RPg, RFn, RGp} && INid in c.seen && OT in c.seen
    ensures Validate(d, c) == Accept(m) <==> Warrants(m, c, said)
  {
    ReplyOnlyIsMask(c, said);
    if ReplyOnly(c, said) {
      ReplyHasNoArguments(c, said);
      assert Validate(d, c) == ValidateReply(c);
    }
  }

  /** The decoder accepts a message as a method exactly when the message parses to its end,
      no event fails and it shows what that method requires; it then yields the fields
      read. */
  lemma AcceptanceExact(d: Bytes, m: Method, f: Fields)
    ensures Decode(d) == Accepted(m, f) <==> Whole(d) && Final(d).f == f && Warrants(m, Final(d), Said(d))
  {
    DecodeWhole(d);
    if Whole(d) && INid in Final(d).seen && OT in Final(d).seen {
      WholeAgrees(d);
      if m in Q_ANY {
        QueryVerdictExact(d, Final(d), Said(d), m);
      } else {
        AllMethods(m);
        ReplyVerdictExact(d, Final(d), Said(d), m);
      }
    }
  }

  /** The evidence leaves only queries, and more than one. */
  ghost predicate SeveralQueries(c: Ctx, said: seq<Saying>) {
    && (exists x, y :: x != y && Compatible(x, c.seen, said) && Compatible(y, c.seen, said))
    && (forall x :: Compatible(x, c.seen, said) ==> x in Q_ANY)
  }

  /** What the evidence leaves: no method, one query, several queries, replies, or both. */
  datatype Left = NoMethod | One(m: Method) | Queries | Replies | Both

  ghost predicate Leaves(c: Ctx, said: seq<Saying>, l: Left) {
    match l
    case NoMethod => forall x :: !Compatible(x, c.seen, said)
    case One(m) => m in Q_ANY && Only(m, c, said)
    case Queries => SeveralQueries(c, said)
    case Replies => ReplyOnly(c, said)
    case Both => Undecided(c, said)
  }

  /** Why a whole message with an id and a tok is refused. */
  predicate Refusal(s: Status, c: Ctx, l: Left) {
    match l
    case NoMethod => s == IncongruousMessage
    case Queries => s == UnknownQuery
    case Both => false
    case One(m) => QueryRefusal(s, c, m)
    case Replies => ReplyRefusal(s, c)
  }

  predicate QueryRefusal(s: Status, c: Ctx, m: Method) {
    match s
    case ApGpNoIh => (m == QAp || m == QGp) && IIh !in c.seen
    case ApNoPort => m == QAp && IIh in c.seen && IPort !in c.seen && IImplPort !in c.seen
    case TokenUnrecognized =>
      && m == QAp && IIh in c.seen && (IPort in c.seen || IImplPort in c.seen) && c.f.token.Some?
      && !(|c.f.token.value.bytes| >= 2 && c.f.token.value.bytes[0] == OUR_TOKEN)
    case FnNoTarget => m == QFn && ITarget !in c.seen
    case PingBody => m == QPg && IToken in c.seen
    case _ => false
  }

  predicate ReplyRefusal(s: Status, c: Ctx) {
    var tok := TokBytes(c.f);
    var contacts := INodes in c.seen || IValues in c.seen;
    match s
    case ValsWithoutToken => IValues in c.seen && IToken !in c.seen
    case BadTokPg => !contacts && tok != [OUR_TOK_PG]
    case BadTokFn => INodes in c.seen && IValues !in c.seen && IToken !in c.seen && tok != [OUR_TOK_FN]
    case BadTokGp => IToken in c.seen && contacts && !(|tok| == 3 && tok[2] == OUR_TOK_GP)
    case EmptyGpResponse =>
      IToken in c.seen && contacts && |tok| == 3 && tok[2] == OUR_TOK_GP && c.f.nNodes + c.f.nPeers == 0
    case _ => false
  }

  /** What the mask leaves. */
  function LeftBy(kind: set<Method>): Left {
    if kind * Q_ANY != {} && kind * R_ANY != {} then Both
    else if kind * R_ANY != {} then Replies
    else if kind * Q_ANY == {} then NoMethod
    else if kind == {QAp} then One(QAp)
    else if kind == {QFn} then One(QFn)
    else if kind == {QGp} then One(QGp)
    else if kind == {QPg} then One(QPg)
    else Queries
  }

  lemma SeveralIsMask(c: Ctx, said: seq<Saying>, a: Method, b: Method)
    requires Agrees(c, said) && a in c.kind && b in c.kind && a != b && c.kind * R_ANY == {}
    ensures SeveralQueries(c, said)
  {
    forall x | Compatible(x, c.seen, said) ensures x in Q_ANY {
      AllMethods(x);
      assert x in c.kind && x !in c.kind * R_ANY;
    }
  }

  lemma NothingIsMask(c: Ctx, said: seq<Saying>)
    requires Agrees(c, said) && c.kind * Q_ANY == {} && c.kind * R_ANY == {}
    ensures Leaves(c, said, NoMethod)
  {
    forall x ensures !Compatible(x, c.seen, said) {
      AllMethods(x);
      assert x !in c.kind * Q_ANY && x !in c.kind * R_ANY;
    }
  }

  lemma SingleOrSeveral(kind: set<Method>) returns (a: Method, b: Method)
    requires kind * Q_ANY != {} && kind != {QAp} && kind != {QFn} && kind != {QGp} && kind != {QPg}
    ensures a in kind && b in kind && a != b
  {
    a :| a in kind * Q_ANY;
    assert kind != {a};
    b :| b in kind && b != a;
  }

  /** The mask leaves what the evidence leaves. */
  lemma LeftIs(c: Ctx, said: seq<Saying>)
    requires Agrees(c, said)
    ensures Leaves(c, said, LeftBy(c.kind))
  {
    var l := LeftBy(c.kind);
    match l {
      case NoMethod => NothingIsMask(c, said);
      case One(m) => OnlyIsMask(c, said, m);
      case Queries =>
        var a, b := SingleOrSeveral(c.kind);
        SeveralIsMask(c, said, a, b);
      case Replies => ReplyOnlyIsMask(c, said);
      case Both => UndecidedIsMask(c, said);
    }
  }

  lemma SingleIs(kind: set<Method>, m: Method)
    requires LeftBy(kind) == One(m)
    ensures kind == {m} && kind * Q_ANY != {} && kind * R_ANY == {}
    ensures (kind == {QAp} <==> m == QAp) && (kind == {QFn} <==> m == QFn)
    ensures (kind == {QGp} <==> m == QGp) && (kind == {QPg} <==> m == QPg)
  {
    assert m in kind;
  }

  lemma QueryRefused(d: Bytes, c: Ctx, m: Method, s: Status)
    requires INid in c.seen && OT in c.seen && LeftBy(c.kind) == One(m) && TokenFilter(d, c.f) == TokenVerdict(c.f)
    requires m == QPg ==> c.seen !! IKEY_ANY_NON_TOKEN_BODY
    ensures Validate(d, c) == Reject(s) <==> QueryRefusal(s, c, m)
  {
    SingleIs(c.kind, m);
    if m == QPg {
      assert c.seen !! IKEY_ANY_BODY <==> IToken !in c.seen;
    }
  }

  lemma ReplyRefused(d: Bytes, c: Ctx, s: Status)
    requires INid in c.seen && OT in c.seen && LeftBy(c.kind) == Replies && IIh !in c.seen && ITarget !in c.seen
    ensures Validate(d, c) == Reject(s) <==> ReplyRefusal(s, c)
  {
    assert Validate(d, c) == ValidateReply(c);
  }

  lemma OneRefused(d: Bytes, c: Ctx, said: seq<Saying>, m: Method, s: Status)
    requires Agrees(c, said) && INid in c.seen && OT in c.seen && TokenFilter(d, c.f) == TokenVerdict(c.f)
    requires LeftBy(c.kind) == One(m)
    ensures Validate(d, c) == Reject(s) <==> QueryRefusal(s, c, m)
  {
    SingleIs(c.kind, m);
    if m == QPg {
      OnlyIsMask(c, said, QPg);
      PingHasNoArguments(c, said);
    }
    QueryRefused(d, c, m, s);
  }

  lemma RepliesRefused(d: Bytes, c: Ctx, said: seq<Saying>, s: Status)
    requires Agrees(c, said) && INid in c.seen && OT in c.seen && LeftBy(c.kind) == Replies
    ensures Validate(d, c) == Reject(s) <==> ReplyRefusal(s, c)
  {
    ReplyOnlyIsMask(c, said);
    ReplyHasNoArguments(c, said);
    ReplyRefused(d, c, s);
  }

  lemma Refused(d: Bytes, c: Ctx, said: seq<Saying>, s: Status)
    requires Agrees(c, said) && INid in c.seen && OT in c.seen && TokenFilter(d, c.f) == TokenVerdict(c.f)
    ensures Validate(d, c) == Reject(s) <==> Refusal(s, c, LeftBy(c.kind))
  {
    match LeftBy(c.kind) {
      case One(m) => OneRefused(d, c, said, m, s);
      case Replies => RepliesRefused(d, c, said, s);
      case _ =>
    }
  }

  /** A whole message is refused exactly when it lacks an id, a tok or what the method needs
      that its evidence leaves, with the status that says so. */
  lemma RejectionExact(d: Bytes, s: Status) returns (l: Left)
    requires Whole(d)
    ensures Leaves(Final(d), Said(d), l)
    ensures Decode(d) == Rejected(s) <==>
      if INid !in Final(d).seen then s == NoNid
      else if OT !in Final(d).seen then s == NoTok
      else Refusal(s, Final(d), l)
  {
    l := LeftBy(Final(d).kind);
    DecodeWhole(d);
    WholeAgrees(d);
    LeftIs(Final(d), Said(d));
    if INid in Final(d).seen && OT in Final(d).seen {
      Refused(d, Final(d), Said(d), s);
    }
  }

  /** The evidence leaves a query and a reply possible. */
  ghost predicate Undecided(c: Ctx, said: seq<Saying>) {
    && (exists x :: x in Q_ANY && Compatible(x, c.seen, said))
    && (exists y :: y in R_ANY && Compatible(y, c.seen, said))
  }

  lemma UndecidedIsMask(c: Ctx, said: seq<Saying>)
    requires Agrees(c, said)
    ensures Undecided(c, said) <==> c.kind * Q_ANY != {} && c.kind * R_ANY != {}
  {
    BothPossible(c, said, Q_ANY);
    BothPossible(c, said, R_ANY);
  }

  lemma AbortIsMask(d: Bytes, c: Ctx)
    requires INid in c.seen && OT in c.seen
    ensures Validate(d, c) == Abort <==>
      || (c.kind * Q_ANY != {} && c.kind * R_ANY != {})
      || (c.kind == {QAp} && IIh in c.seen && (IPort in c.seen || IImplPort in c.seen) && c.f.token == None)
  {
    if c.kind == {QAp} {
      assert QAp in c.kind * Q_ANY && c.kind * R_ANY == {};
    }
  }

  lemma AbortVerdict(d: Bytes, c: Ctx, said: seq<Saying>)
    requires Agrees(c, said) && INid in c.seen && OT in c.seen
    ensures Validate(d, c) == Abort <==> Undecided(c, said) || (Announces(c, said) && c.f.token == None)
  {
    UndecidedIsMask(c, said);
    OnlyIsMask(c, said, QAp);
    AbortIsMask(d, c);
  }

  /** A message that does not parse is refused with the status of its first event that fails,
      or of what stands where it breaks off; if it just ends, decoding it crashes. */
  lemma UnparsedExact(d: Bytes)
    requires ParseMsg(d).NoParse?
    ensures Decode(d) ==
      match FoldStub(InitialCtx(CLEARED), HaltMsg(d).done)
      case Bad(s) => Rejected(s)
      case Ok(_) => if HaltMsg(d).stop == Ends then Aborted else Rejected(HaltMsg(d).stop.status)
  {
    HaltExact(d, CLEARED);
  }

  /** An unfinished message none of whose events fails. */
  predicate StopsShort(d: Bytes) {
    Unfinished(d) && FoldStub(InitialCtx(CLEARED), HaltMsg(d).done).Ok?
  }

  /** The decoder crashes exactly on unfinished messages, and on whole messages with an id
      and a tok that either leave both a query and a reply possible, or announce without
      the text of a token. */
  lemma AbortExact(d: Bytes)
    ensures Decode(d) == Aborted <==>
      || StopsShort(d)
      || (Whole(d) && INid in Final(d).seen && OT in Final(d).seen
          && (Undecided(Final(d), Said(d)) || (Announces(Final(d), Said(d)) && Final(d).f.token == None)))
  {
    DecodeWhole(d);
    RanOffExact(d, CLEARED);
    if Whole(d) {
      ParsedRun(d, CLEARED);
      WholeAgrees(d);
      if INid in Final(d).seen && OT in Final(d).seen {
        AbortVerdict(d, Final(d), Said(d));
      }
    }
  }

  lemma BothPossible(c: Ctx, said: seq<Saying>, side: set<Method>)
    requires Agrees(c, said)
    ensures c.kind * side != {} <==> exists x :: x in side && Compatible(x, c.seen, said)
  {
    if c.kind * side != {} {
      var x :| x in c.kind * side;
      assert Compatible(x, c.seen, said);
    }
    if exists x :: x in side && Compatible(x, c.seen, said) {
      var x :| x in side && Compatible(x, c.seen, said);
      assert x in c.kind * side;
    }
  }
}
