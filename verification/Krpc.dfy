// The KRPC decoder (cht/krpc.hpp, cht/krpc.cpp): what each dictionary key and
// value does to the decoder's registers, the flat six-state machine that drives
// those events over the raw bytes, and the classifier run at the end.

module Krpc {
  import opened Dht
  import opened Numeral

  const MAXLEN := 1024
  const MAXLEN_AP_NAME := 256
  const MAXLEN_TOK := 32
  const MAXLEN_TOKEN := 32
  const MAX_PEERS := 36
  const MAX_NODES := 8

  const KEY_ID: Bytes := [105, 100]  // "id"
  const KEY_NAME: Bytes := [110, 97, 109, 101]  // "name"
  const KEY_PORT: Bytes := [112, 111, 114, 116]  // "port"
  const KEY_NODES: Bytes := [110, 111, 100, 101, 115]  // "nodes"
  const KEY_TOKEN: Bytes := [116, 111, 107, 101, 110]  // "token"
  const KEY_VALUES: Bytes := [118, 97, 108, 117, 101, 115]  // "values"
  const KEY_TARGET: Bytes := [116, 97, 114, 103, 101, 116]  // "target"
  const KEY_INFO_HASH: Bytes := [105, 110, 102, 111, 95, 104, 97, 115, 104]  // "info_hash"
  const KEY_IMPLIED_PORT: Bytes := [105, 109, 112, 108, 105, 101, 100, 95, 112, 111, 114, 116]  // "implied_port"

  const VAL_GP: Bytes := [103, 101, 116, 95, 112, 101, 101, 114, 115]  // "get_peers"
  const VAL_FN: Bytes := [102, 105, 110, 100, 95, 110, 111, 100, 101]  // "find_node"
  const VAL_PG: Bytes := [112, 105, 110, 103]  // "ping"

  // ----- methods and keys; a C++ bit mask is the set of its flags -----

  datatype Method = QAp | QFn | QGp | QPg | RFn | RGp | RPg

  const R_ANY: set<Method> := {RFn, RGp, RPg}
  const Q_ANY: set<Method> := {QAp, QFn, QGp, QPg}
  const ANY: set<Method> := R_ANY + Q_ANY

  datatype Key =
    | IValues | INodes | IToken | IIh | INid | ITarget | IImplPort | IPort | IApName
    | OA | OT | OQ | OR | OY

  const IKEY_ANY_NON_TOKEN_BODY: set<Key> := {INodes, IValues, IIh, ITarget}
  const IKEY_ANY_BODY: set<Key> := IKEY_ANY_NON_TOKEN_BODY + {IToken}

  datatype Status =
    | EnumStart | NoError
    | MsgTooLong | BadEom | BadChar | DictIsKey
    | BadLengthPeer | BadLengthNodes | BadLengthIh | BadLengthNid | BadLengthTarget
    | InconsistentType | NoNid | NoTok | PortOverflow | ApNoPort | ApGpNoIh
    | EmptyGpResponse | FnNoTarget | ValsWithoutToken
    | TokTooLong | BadTokFn | BadTokGp | BadTokPg | TokenTooLong | TokenUnrecognized
    | NakedValue | RogueInt | UnexpectedList | UnknownQuery | UnknownType
    | IncongruousMessage | DictsTooDeep | PingBody | ErrorType | NegativeInt

  // ----- what a message leaves behind -----

  /** A pointer into the message together with the bytes it designates. */
  datatype Str = Str(start: nat, bytes: Bytes)

  /** The fields a message fills in; None is the null pointer. */
  datatype Fields = Fields(
    nid: Option<Str>, ih: Option<Str>, target: Option<Str>,
    tok: Option<Str>,
    nNodes: nat, nodes: Option<Str>,
    nPeers: nat, peers: Option<Str>,
    token: Option<Str>,
    apPort: nat, apName: Option<Str>)

  const CLEARED := Fields(None, None, None, None, 0, None, 0, None, None, 0, None)

  /** The decoder's registers: the current key, the two bit masks and the fields. */
  datatype Ctx = Ctx(cur: Option<Key>, seen: set<Key>, kind: set<Method>, f: Fields)

  datatype Res = Ok(ctx: Ctx) | Bad(status: Status)

  function InitialCtx(f: Fields): Ctx { Ctx(None, {}, ANY, f) }

  // ----- the events -----

  function Match(c: Ctx, key: Key, mask: set<Method>): Ctx {
    c.(cur := Some(key), seen := c.seen + {key}, kind := c.kind * mask)
  }

  /** An outer key. A key whose length is not one leaves `cur` as it was. */
  function OnOKey(c: Ctx, k: Str): Res {
    if |k.bytes| != 1 then Ok(c)
    else if k.bytes[0] == 0x61 then       // 'a'
      if OR in c.seen then Bad(InconsistentType) else Ok(Match(c, OA, Q_ANY))
    else if k.bytes[0] == 0x72 then       // 'r'
      if OA in c.seen || OQ in c.seen then Bad(InconsistentType) else Ok(Match(c, OR, R_ANY))
    else if k.bytes[0] == 0x74 then       // 't'
      Ok(Match(c, OT, c.kind))
    else if k.bytes[0] == 0x71 then       // 'q'
      if OR in c.seen then Bad(InconsistentType) else Ok(Match(c, OQ, Q_ANY))
    else if k.bytes[0] == 0x79 then       // 'y'
      Ok(Match(c, OY, c.kind))
    else Ok(c.(cur := None))
  }

  /** The query name: only three of the four known names survive. */
  function OnQueryName(c: Ctx, v: Bytes): Res {
    if v == VAL_PG then Ok(c.(kind := c.kind * {QPg}))
    else if v == VAL_GP then Ok(c.(kind := c.kind * {QGp}))
    else if v == VAL_FN then Ok(c.(kind := c.kind * {QFn}))
    else Bad(UnknownQuery)                // also announce_peer, which falls through
  }

  function OnMessageType(c: Ctx, v: Bytes): Res {
    if |v| != 1 then Bad(UnknownType)
    else if v[0] == 0x65 then Bad(ErrorType)
    else if v[0] == 0x72 then Ok(c.(kind := c.kind * R_ANY))
    else if v[0] == 0x71 then Ok(c.(kind := c.kind * Q_ANY))
    else Bad(UnknownType)
  }

  /** A string in outer value position. */
  function OnOStr(c: Ctx, v: Str): Res {
    if c.cur == Some(OQ) then OnQueryName(c, v.bytes)
    else if c.cur == Some(OT) then
      if |v.bytes| > MAXLEN_TOK then Bad(TokTooLong)
      else Ok(c.(f := c.f.(tok := Some(v))))
    else if c.cur == Some(OY) then OnMessageType(c, v.bytes)
    else Ok(c)
  }

  predicate IsInnerKeyLength(n: nat) { n == 2 || n == 4 || n == 5 || n == 6 || n == 9 || n == 12 }

  /** An inner key. `port` and keys of an unlisted length leave `cur` as it was. */
  function OnIKey(c: Ctx, k: Str): Ctx {
    if k.bytes == KEY_ID then Match(c, INid, c.kind)
    else if k.bytes == KEY_NAME && QAp in c.kind then Match(c, IApName, {QAp})
    else if k.bytes == KEY_PORT then c.(seen := c.seen + {IPort})
    else if k.bytes == KEY_NODES then Match(c, INodes, {RFn, RGp})
    else if k.bytes == KEY_TOKEN then Match(c, IToken, ANY - {QFn})
    else if k.bytes == KEY_VALUES then Match(c, IValues, {RGp})
    else if k.bytes == KEY_TARGET then Match(c, ITarget, {QFn})
    else if k.bytes == KEY_INFO_HASH then Match(c, IIh, {QGp, QAp})
    else if k.bytes == KEY_IMPLIED_PORT then Match(c, IImplPort, {QAp})
    else if IsInnerKeyLength(|k.bytes|) then c.(cur := None)
    else c
  }

  /** The first `n` bytes of a slice. */
  function Take(s: Str, n: nat): Str
    requires n <= |s.bytes|
  {
    s.(bytes := s.bytes[..n])
  }

  function OnNodes(c: Ctx, v: Str): Res {
    if |v.bytes| == 0 || |v.bytes| % PNODE_LEN != 0 then Bad(BadLengthNodes)
    else
      var len := if |v.bytes| > PNODE_LEN * MAX_NODES then PNODE_LEN * MAX_NODES else |v.bytes|;
      Ok(c.(f := c.f.(nNodes := len / PNODE_LEN, nodes := Some(Take(v, len)))))
  }

  /** A string in inner value position. */
  function OnIStr(c: Ctx, v: Str): Res {
    if c.cur == Some(INodes) then OnNodes(c, v)
    else if c.cur == Some(IToken) then
      if |v.bytes| > MAXLEN_TOKEN then Bad(TokenTooLong)
      else Ok(c.(f := c.f.(token := Some(v))))
    else if c.cur == Some(ITarget) then
      if |v.bytes| != NIH_LEN then Bad(BadLengthTarget)
      else Ok(c.(f := c.f.(target := Some(v))))
    else if c.cur == Some(INid) then
      if |v.bytes| != NIH_LEN then Bad(BadLengthNid)
      else Ok(c.(f := c.f.(nid := Some(v))))
    else if c.cur == Some(IIh) then
      if |v.bytes| != NIH_LEN then Bad(BadLengthIh)
      else Ok(c.(f := c.f.(ih := Some(v))))
    else if c.cur == Some(IApName) then
      if |v.bytes| > MAXLEN_AP_NAME then Ok(c)
      else Ok(c.(f := c.f.(apName := Some(v))))
    else Ok(c)
  }

  /** A number in inner value position. */
  function OnIInt(c: Ctx, n: nat): Res {
    if c.cur == Some(IPort) then
      if n > 0xFFFF then Bad(PortOverflow)
      else Ok(c.(f := c.f.(apPort := n)))
    else Ok(c)
  }

  /** A string inside a list. Only the first peer's position is kept. */
  function OnItem(c: Ctx, v: Str): Res {
    if c.cur != Some(IValues) then Bad(UnexpectedList)
    else if |v.bytes| != PEERINFO_LEN then Bad(BadLengthPeer)
    else if c.f.nPeers < MAX_PEERS then
      Ok(c.(f := c.f.(nPeers := c.f.nPeers + 1,
                      peers := if c.f.peers == None then Some(v) else c.f.peers)))
    else Ok(c)
  }

  // ----- the flat machine -----

  datatype State = Start | OKey | IKey | OVal | IVal | IVList

  datatype Machine = Machine(st: State, pos: nat, ctx: Ctx)

  /** How the decoding loop ends: at the closing 'e' of the message, by rejecting,
      or by running off the end of the data into the failing assertion. */
  datatype Outcome = Exit(pos: nat, ctx: Ctx) | Fail(status: Status) | RanOff

  datatype Next = Go(m: Machine) | Stop(o: Outcome)

  function AtoiStatus(e: AtoiError): Status {
    match e
    case NegativeInt => Status.NegativeInt
    case BadChar => Status.BadChar
    case TooLong => MsgTooLong
  }

  function Proceed(st: State, pos: nat, r: Res): Next {
    match r
    case Ok(c) => Go(Machine(st, pos, c))
    case Bad(s) => Stop(Fail(s))
  }

  function StepDict(m: Machine): Next {
    match m.st
    case Start => Go(m.(st := OKey, pos := m.pos + 1))
    case OVal => Go(m.(st := IKey, pos := m.pos + 1))
    case IKey => Stop(Fail(DictIsKey))
    case OKey => Stop(Fail(DictIsKey))
    case IVList => Stop(Fail(DictsTooDeep))
    case IVal => Stop(Fail(DictsTooDeep))
  }

  function StepEnd(m: Machine): Next {
    match m.st
    case OKey => Stop(Exit(m.pos, m.ctx))
    case IKey => Go(m.(st := OKey, pos := m.pos + 1))
    case IVList => Go(m.(st := IKey, pos := m.pos + 1))
    case _ => Stop(Fail(BadEom))
  }

  function StepInt(d: Bytes, m: Machine): Next
    requires m.pos < |d|
  {
    match m.st
    case Start => Stop(Fail(NakedValue))
    case IVList => Stop(Fail(RogueInt))
    case IKey => Stop(Fail(RogueInt))
    case OKey => Stop(Fail(RogueInt))
    case _ =>
      match Atoi(d, m.pos + 1, 0)
      case NotNumber(e) => Stop(Fail(AtoiStatus(e)))
      case Number(n, next) =>
        if m.st == OVal then Go(Machine(OKey, next, m.ctx))
        else Proceed(IKey, next, OnIInt(m.ctx, n))
  }

  function StepList(m: Machine): Next {
    if m.st == IVal then Go(m.(st := IVList, pos := m.pos + 1))
    else Stop(Fail(UnexpectedList))
  }

  /** Dispatch of a complete string, already consumed up to `pos`. */
  function OnStr(st: State, pos: nat, c: Ctx, v: Str): Next
    requires st != Start
  {
    match st
    case OKey => Proceed(OVal, pos, OnOKey(c, v))
    case IKey => Go(Machine(IVal, pos, OnIKey(c, v)))
    case OVal => Proceed(OKey, pos, OnOStr(c, v))
    case IVal => Proceed(IKey, pos, OnIStr(c, v))
    case IVList => Proceed(IVList, pos, OnItem(c, v))
  }

  datatype TextScan = TextAt(v: Str, next: nat) | NoText(status: Status)

  /** A string behind its length, and the position behind it. */
  function ScanText(d: Bytes, pos: nat): TextScan
    requires pos <= |d|
  {
    match Atoi(d, pos, 0)
    case NotNumber(e) => NoText(AtoiStatus(e))
    case Number(n, next) =>
      if |d| < next + n then NoText(BadEom) else TextAt(Str(next, d[next..next + n]), next + n)
  }

  function StepStr(d: Bytes, m: Machine): Next
    requires m.pos < |d|
  {
    if m.st == Start then Stop(Fail(NakedValue))
    else
      match ScanText(d, m.pos)
      case NoText(s) => Stop(Fail(s))
      case TextAt(v, next) => OnStr(m.st, next, m.ctx, v)
  }

  /** One iteration of the decoding loop: it always consumes input or stops. */
  function Step(d: Bytes, m: Machine): (r: Next)
    requires m.pos < |d|
    ensures r.Go? ==> m.pos < r.m.pos <= |d|
    ensures r.Stop? ==> r.o != RanOff
    ensures r.Stop? && r.o.Exit? ==> m.st == OKey && d[m.pos] == CH_E && r.o == Exit(m.pos, m.ctx)
  {
    var b := d[m.pos];
    if b == CH_D then StepDict(m)
    else if b == CH_E then StepEnd(m)
    else if b == CH_I then StepInt(d, m)
    else if b == CH_L then StepList(m)
    else if IsDigit(b) then StepStr(d, m)
    else Stop(Fail(Status.BadChar))
  }

  function Run(d: Bytes, m: Machine): (r: Outcome)
    requires m.pos <= |d|
    ensures r.Exit? ==> m.pos <= r.pos < |d| && d[r.pos] == CH_E
    decreases |d| - m.pos
  {
    if m.pos == |d| then RanOff
    else
      match Step(d, m)
      case Go(next) => Run(d, next)
      case Stop(o) => o
  }

  /** The machine after k iterations, unless the loop has ended before. */
  function Reached(d: Bytes, m: Machine, k: nat): (r: Option<Machine>)
    requires m.pos <= |d|
    ensures r.Some? ==> m.pos + k <= r.value.pos <= |d|
    decreases k
  {
    if k == 0 then Some(m)
    else if m.pos == |d| then None
    else
      match Step(d, m)
      case Go(next) => Reached(d, next, k - 1)
      case Stop(_) => None
  }

  /** The string a step has read, and where it ends. */
  lemma TextRead(d: Bytes, m: Machine) returns (v: Str, next: nat)
    requires m.pos < |d| && StepStr(d, m).Go?
    ensures m.st != Start && StepStr(d, m) == OnStr(m.st, next, m.ctx, v)
    ensures m.pos < v.start && v.start + |v.bytes| == next <= |d| && v.bytes == d[v.start..next]
    ensures Atoi(d, m.pos, 0) == Number(|v.bytes|, v.start)
  {
    var t := ScanText(d, m.pos);
    v, next := t.v, t.next;
    TextScanned(d, m.pos);
  }

  lemma TextIs(d: Bytes, m: Machine, v: Str, next: nat)
    requires m.pos < |d| && m.st != Start && v.start <= next <= |d| && |v.bytes| == next - v.start
    requires Atoi(d, m.pos, 0) == Number(|v.bytes|, v.start) && v.bytes == d[v.start..next]
    ensures StepStr(d, m) == OnStr(m.st, next, m.ctx, v)
  {
    StrAt(d, v, next);
    assert ScanText(d, m.pos) == TextAt(v, next);
  }

  lemma StrAt(d: Bytes, v: Str, next: nat)
    requires v.start <= next <= |d| && |v.bytes| == next - v.start && v.bytes == d[v.start..next]
    ensures v.start + |v.bytes| == next && Str(v.start, d[v.start..v.start + |v.bytes|]) == v
  {
  }

  lemma TextScanned(d: Bytes, pos: nat)
    requires pos <= |d| && ScanText(d, pos).TextAt?
    ensures var t := ScanText(d, pos);
      && pos < t.v.start && t.v.start + |t.v.bytes| == t.next <= |d| && t.v.bytes == d[t.v.start..t.next]
      && Atoi(d, pos, 0) == Number(|t.v.bytes|, t.v.start)
  {
  }

  /** No rejection carries the status of success. */
  lemma StepErrors(d: Bytes, m: Machine)
    requires m.pos < |d|
    ensures Step(d, m).Stop? && Step(d, m).o.Fail? ==> Step(d, m).o.status != NoError
  {
    if IsDigit(d[m.pos]) && m.st != Start {
      var a := Atoi(d, m.pos, 0);
      if a.Number? && a.next + a.value <= |d| {
        StrErrors(m.st, a.next + a.value, m.ctx, Str(a.next, d[a.next..a.next + a.value]));
      }
    }
  }

  lemma StrErrors(st: State, pos: nat, c: Ctx, v: Str)
    requires st != Start
    ensures var r := OnStr(st, pos, c, v); r.Stop? && r.o.Fail? ==> r.o.status != NoError
  {
  }

  lemma {:induction false} RunErrors(d: Bytes, m: Machine)
    requires m.pos <= |d|
    ensures Run(d, m).Fail? ==> Run(d, m).status != NoError
    decreases |d| - m.pos
  {
    if m.pos < |d| {
      StepErrors(d, m);
      if Step(d, m).Go? {
        RunErrors(d, Step(d, m).m);
      }
    }
  }

  // ----- the classifier -----

  /** Abort is a failing assertion or a read through a null pointer. */
  datatype Verdict = Accept(meth: Method) | Reject(status: Status) | Abort

  /** The first byte behind the token pointer. It may lie past the token itself. */
  function TokenFilter(d: Bytes, f: Fields): Verdict {
    if f.token == None then Abort
    else if |f.token.value.bytes| == 1 then Reject(TokenUnrecognized)
    else if f.token.value.start < |d| && d[f.token.value.start] == OUR_TOKEN then Accept(QAp)
    else Reject(TokenUnrecognized)
  }

  function ValidateQuery(d: Bytes, c: Ctx): Verdict {
    if c.kind == {QAp} || c.kind == {QGp} then
      if IIh !in c.seen then Reject(ApGpNoIh)
      else if c.kind == {QGp} then Accept(QGp)
      else if IPort !in c.seen && IImplPort !in c.seen then Reject(ApNoPort)
      else TokenFilter(d, c.f)
    else if c.kind == {QFn} then
      if ITarget !in c.seen then Reject(FnNoTarget) else Accept(QFn)
    else if c.kind == {QPg} then
      if c.seen !! IKEY_ANY_BODY then Accept(QPg) else Reject(PingBody)
    else Reject(UnknownQuery)
  }

  function TokBytes(f: Fields): Bytes {
    if f.tok == None then [] else f.tok.value.bytes
  }

  function ValidateReply(c: Ctx): Verdict {
    var tok := TokBytes(c.f);
    if IToken in c.seen && (IValues in c.seen || INodes in c.seen) then
      if |tok| != 3 || tok[2] != OUR_TOK_GP then Reject(BadTokGp)
      else if c.f.nNodes + c.f.nPeers == 0 then Reject(EmptyGpResponse)
      else Accept(RGp)
    else if IValues in c.seen then Reject(ValsWithoutToken)
    else if INodes in c.seen then
      if tok != [OUR_TOK_FN] then Reject(BadTokFn) else Accept(RFn)
    else if c.seen * IKEY_ANY_NON_TOKEN_BODY != {} then Reject(PingBody)
    else if tok != [OUR_TOK_PG] then Reject(BadTokPg)
    else Accept(RPg)
  }

  function Validate(d: Bytes, c: Ctx): Verdict {
    if INid !in c.seen then Reject(NoNid)
    else if OT !in c.seen then Reject(NoTok)
    else if c.kind * Q_ANY != {} && c.kind * R_ANY != {} then Abort
    else if c.kind * Q_ANY != {} then ValidateQuery(d, c)
    else if c.kind * R_ANY != {} then ValidateReply(c)
    else Reject(IncongruousMessage)
  }

  /** What decoding a whole message yields, starting from the given fields. */
  datatype Decoded = Accepted(meth: Method, f: Fields) | Rejected(status: Status) | Aborted

  function DecodeFrom(d: Bytes, f: Fields): Decoded {
    match Run(d, Machine(Start, 0, InitialCtx(f)))
    case RanOff => Aborted
    case Fail(s) => Rejected(s)
    case Exit(_, c) =>
      match Validate(d, c)
      case Accept(m) => Accepted(m, c.f)
      case Reject(s) => Rejected(s)
      case Abort => Aborted
  }

  function Decode(d: Bytes): Decoded { DecodeFrom(d, CLEARED) }

  /** The status field alone tells the caller whether the message was accepted. */
  lemma RejectionIsAnError(d: Bytes, f: Fields)
    ensures DecodeFrom(d, f).Rejected? ==> DecodeFrom(d, f).status != NoError
  {
    RunErrors(d, Machine(Start, 0, InitialCtx(f)));
  }
}
