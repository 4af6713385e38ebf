// The KRPC object (cht/krpc.hpp, cht/krpc.cpp) in its own form: a receive buffer,
// the fields a message fills in, and the loop that updates them in place. Every
// method is tied to the functions of module Krpc, where the properties are proved.

module Decoder {
  import opened Dht
  import opened Numeral
  import opened Krpc

  /** The local struct of the decoding loop. */
  datatype XDHist = XDHist(cur: Option<Key>, seen: set<Key>, kind: set<Method>)

  class KRPC {
    const data: array<Byte>

    var status: Status
    var meth: set<Method>

    var nid: Option<Str>
    var ih: Option<Str>
    var target: Option<Str>
    var tok: Option<Str>
    var nNodes: nat
    var nodes: Option<Str>
    var nPeers: nat
    var peers: Option<Str>
    var token: Option<Str>
    var apPort: nat
    var apName: Option<Str>

    ghost predicate Valid()
    {
      data.Length == MAXLEN
    }

    /** The message fields, as a value. */
    ghost function View(): Fields
      reads this
    {
      Fields(nid, ih, target, tok, nNodes, nodes, nPeers, peers, token, apPort, apName)
    }

    ghost function Regs(h: XDHist): Ctx
      reads this
    {
      Ctx(h.cur, h.seen, h.kind, View())
    }

    constructor ()
      ensures Valid() && fresh(data)
      ensures status == EnumStart && meth == ANY && View() == CLEARED
    {
      data := new Byte[MAXLEN](_ => 0);
      status, meth := EnumStart, ANY;
      nid, ih, target, tok, nNodes, nodes := None, None, None, None, 0, None;
      nPeers, peers, token, apPort, apName := 0, None, None, 0, None;
    }

    method Clear()
      modifies this
      ensures status == EnumStart && meth == ANY && View() == CLEARED
    {
      status, meth := EnumStart, ANY;
      nid, ih, target := None, None, None;
      tok := None;
      ClearReply();
      apPort, apName := 0, None;
    }

    method ClearReply()
      modifies this`nNodes, this`nodes, this`nPeers, this`peers, this`token
      ensures nNodes == nPeers == 0 && nodes == peers == token == None
    {
      nNodes, nodes := 0, None;
      nPeers, peers := 0, None;
      token := None;
    }

    /** Decodes what was received, on top of whatever the fields hold. */
    method ParseMsg(nread: U32) returns (aborted: bool)
      requires Valid() && nread as nat <= MAXLEN
      modifies this
      ensures Yields(DecodeFrom(data[..nread as nat], old(View())), aborted)
    {
      status := NoError;
      aborted := Xdecode(nread);
    }

    /** The state of the object is the one a decoding result describes. */
    ghost predicate Yields(r: Decoded, aborted: bool)
      reads this
    {
      match r
      case Accepted(m, f) => !aborted && status == NoError && meth == {m} && View() == f
      case Rejected(s) => !aborted && status == s
      case Aborted => aborted
    }

    /** Reads a number in 32-bit arithmetic; no operation here can wrap. */
    method BdecodeAtoi(start: U32, dataLen: U32) returns (st: Status, dest: U32, curPos: U32)
      requires Valid() && start <= dataLen && dataLen as nat <= MAXLEN
      ensures match Atoi(data[..dataLen as nat], start as nat, 0)
              case NotNumber(e) => st == AtoiStatus(e)
              case Number(n, next) => st == NoError && dest as nat == n && curPos as nat == next
    {
      ghost var d := data[..dataLen as nat];
      dest, curPos := 0, start;
      while curPos < dataLen && dest < 0xFFF_FFFF
        invariant curPos <= dataLen
        invariant Atoi(d, curPos as nat, dest as nat) == Atoi(d, start as nat, 0)
        decreases dataLen - curPos
      {
        var val := data[curPos as nat];
        curPos := curPos + 1;
        if val == CH_MINUS {
          return Status.NegativeInt, dest, curPos;
        } else if IsDigit(val) {
          dest := 10 * dest + (val as U32 - 0x30);
        } else if IsTerminator(val) {
          return NoError, dest, curPos;
        } else {
          return Status.BadChar, dest, curPos;
        }
      }
      return MsgTooLong, dest, curPos;
    }

    method ReadOKey(h: XDHist, k: Str) returns (h': XDHist, ok: bool)
      modifies this`status
      ensures Outcome(OnOKey(old(Regs(h)), k), h', ok)
    {
      h', ok := h, true;
      if |k.bytes| != 1 {
        return;
      }
      var b := k.bytes[0];
      if b == 'a' as Byte {
        if OR in h.seen { status := InconsistentType; return h, false; }
        h' := XDHist(Some(OA), h.seen + {OA}, h.kind * Q_ANY);
      } else if b == 'r' as Byte {
        if OA in h.seen || OQ in h.seen { status := InconsistentType; return h, false; }
        h' := XDHist(Some(OR), h.seen + {OR}, h.kind * R_ANY);
      } else if b == 't' as Byte {
        h' := XDHist(Some(OT), h.seen + {OT}, h.kind);
      } else if b == 'q' as Byte {
        if OR in h.seen { status := InconsistentType; return h, false; }
        h' := XDHist(Some(OQ), h.seen + {OQ}, h.kind * Q_ANY);
      } else if b == 'y' as Byte {
        h' := XDHist(Some(OY), h.seen + {OY}, h.kind);
      } else {
        h' := h.(cur := None);
      }
    }

    /** Either the registers are those of the event, or its error is the status. */
    ghost predicate Outcome(r: Res, h: XDHist, ok: bool)
      reads this
    {
      match r
      case Ok(c) => ok && Regs(h) == c
      case Bad(s) => !ok && status == s
    }

    method ReadOStr(h: XDHist, v: Str) returns (h': XDHist, ok: bool)
      modifies this
      ensures Outcome(OnOStr(old(Regs(h)), v), h', ok)
    {
      h', ok := h, true;
      match h.cur {
        case Some(OQ) =>
          if v.bytes == VAL_PG {
            h' := h.(kind := h.kind * {QPg});
          } else if v.bytes == VAL_GP {
            h' := h.(kind := h.kind * {QGp});
          } else if v.bytes == VAL_FN {
            h' := h.(kind := h.kind * {QFn});
          } else {
            status := UnknownQuery;
            ok := false;
          }
        case Some(OT) =>
          if |v.bytes| > MAXLEN_TOK {
            status := TokTooLong;
            return h, false;
          }
          tok := Some(v);
        case Some(OY) =>
          if |v.bytes| == 1 && v.bytes[0] == 'e' as Byte {
            status := ErrorType;
            ok := false;
          } else if |v.bytes| == 1 && v.bytes[0] == 'r' as Byte {
            h' := h.(kind := h.kind * R_ANY);
          } else if |v.bytes| == 1 && v.bytes[0] == 'q' as Byte {
            h' := h.(kind := h.kind * Q_ANY);
          } else {
            status := UnknownType;
            ok := false;
          }
        case _ =>
      }
    }

    method ReadIKey(h: XDHist, k: Str) returns (h': XDHist)
      ensures Regs(h') == OnIKey(Regs(h), k)
    {
      h' := h;
      if k.bytes == KEY_ID {
        h' := XDHist(Some(INid), h.seen + {INid}, h.kind);
      } else if QAp in h.kind && k.bytes == KEY_NAME {
        assert h.kind * {QAp} == {QAp};
        h' := XDHist(Some(IApName), h.seen + {IApName}, {QAp});
      } else if k.bytes == KEY_PORT {
        h' := h.(seen := h.seen + {IPort});
      } else if k.bytes == KEY_NODES {
        h' := XDHist(Some(INodes), h.seen + {INodes}, h.kind * {RFn, RGp});
      } else if k.bytes == KEY_TOKEN {
        h' := XDHist(Some(IToken), h.seen + {IToken}, h.kind * (ANY - {QFn}));
      } else if k.bytes == KEY_VALUES {
        h' := XDHist(Some(IValues), h.seen + {IValues}, h.kind * {RGp});
      } else if k.bytes == KEY_TARGET {
        h' := XDHist(Some(ITarget), h.seen + {ITarget}, h.kind * {QFn});
      } else if k.bytes == KEY_INFO_HASH {
        h' := XDHist(Some(IIh), h.seen + {IIh}, h.kind * {QGp, QAp});
      } else if k.bytes == KEY_IMPLIED_PORT {
        h' := XDHist(Some(IImplPort), h.seen + {IImplPort}, h.kind * {QAp});
      } else if IsInnerKeyLength(|k.bytes|) {
        h' := h.(cur := None);
      }
    }

    method ReadNodes(h: XDHist, v: Str) returns (ok: bool)
      modifies this
      ensures Outcome(OnNodes(old(Regs(h)), v), h, ok)
    {
      var slen := |v.bytes|;
      if slen == 0 || slen % PNODE_LEN != 0 {
        status := BadLengthNodes;
        return false;
      }
      if slen > PNODE_LEN * MAX_NODES {
        slen := PNODE_LEN * MAX_NODES;
      }
      nNodes := slen / PNODE_LEN;
      nodes := Some(Take(v, slen));
      return true;
    }

    method ReadIStr(h: XDHist, v: Str) returns (ok: bool)
      modifies this
      ensures Outcome(OnIStr(old(Regs(h)), v), h, ok)
    {
      ok := true;
      if h.cur == Some(INodes) {
        ok := ReadNodes(h, v);
      } else if h.cur == Some(IToken) {
        if |v.bytes| > MAXLEN_TOKEN { status := TokenTooLong; return false; }
        token := Some(v);
      } else if h.cur == Some(ITarget) {
        if |v.bytes| != NIH_LEN { status := BadLengthTarget; return false; }
        target := Some(v);
      } else if h.cur == Some(INid) {
        if |v.bytes| != NIH_LEN { status := BadLengthNid; return false; }
        nid := Some(v);
      } else if h.cur == Some(IIh) {
        if |v.bytes| != NIH_LEN { status := BadLengthIh; return false; }
        ih := Some(v);
      } else if h.cur == Some(IApName) {
        if |v.bytes| <= MAXLEN_AP_NAME {
          apName := Some(v);
        }
      }
    }

    method ReadItem(h: XDHist, v: Str) returns (ok: bool)
      modifies this
      ensures Outcome(OnItem(old(Regs(h)), v), h, ok)
    {
      if h.cur != Some(IValues) {
        status := UnexpectedList;
        return false;
      }
      if |v.bytes| != PEERINFO_LEN {
        status := BadLengthPeer;
        return false;
      }
      if nPeers < MAX_PEERS {
        nPeers := nPeers + 1;
        if peers == None {
          peers := Some(v);
        }
      }
      return true;
    }

    /** One string, already consumed up to `pos`, in the given state. */
    method ReadStr(st: State, h: XDHist, v: Str, ghost pos: nat)
      returns (st': State, h': XDHist, ok: bool)
      requires st != Start
      modifies this
      ensures match OnStr(st, pos, old(Regs(h)), v)
              case Go(m) => ok && m == Machine(st', pos, Regs(h'))
              case Stop(o) => !ok && o == Fail(status)
    {
      h', ok := h, true;
      match st {
        case OKey =>
          st' := OVal;
          h', ok := ReadOKey(h, v);
        case IKey =>
          st' := IVal;
          h' := ReadIKey(h, v);
        case OVal =>
          st' := OKey;
          h', ok := ReadOStr(h, v);
        case IVal =>
          st' := IKey;
          ok := ReadIStr(h, v);
        case IVList =>
          st' := IVList;
          ok := ReadItem(h, v);
      }
    }

    /** A number in value position; the branch for `port` is dead, no key selects it. */
    method ReadInt(st: State, h: XDHist, n: U32) returns (ok: bool)
      modifies this
      ensures Outcome(if st == OVal then Ok(old(Regs(h))) else OnIInt(old(Regs(h)), n as nat), h, ok)
    {
      if st != OVal && h.cur == Some(IPort) {
        if n > 0xFFFF {
          status := PortOverflow;
          return false;
        }
        apPort := n as nat;
      }
      return true;
    }

    /** What a stopped step has left in the object. */
    ghost predicate Stopped(o: Krpc.Outcome)
      reads this
    {
      o.Fail? && status == o.status
    }

    /** The branches for 'd', for 'l' and for an 'e' that does not end the message. */
    method ReadBracket(b: Byte, st: State) returns (st': State, ok: bool)
      requires b == CH_D || b == CH_L || (b == CH_E && st != OKey)
      modifies this`status
      ensures forall pos: nat, c: Ctx ::
        var m := Machine(st, pos, c);
        var s := if b == CH_D then StepDict(m) else if b == CH_L then StepList(m) else StepEnd(m);
        if ok then s == Go(Machine(st', pos + 1, c)) else s == Stop(Fail(status))
    {
      st', ok := st, true;
      if b == CH_D {
        match st {
          case Start => st' := OKey;
          case OVal => st' := IKey;
          case IKey => status, ok := DictIsKey, false;
          case OKey => status, ok := DictIsKey, false;
          case IVList => status, ok := DictsTooDeep, false;
          case IVal => status, ok := DictsTooDeep, false;
        }
      } else if b == CH_L {
        if st == IVal {
          st' := IVList;
        } else {
          status, ok := UnexpectedList, false;
        }
      } else {
        match st {
          case IKey => st' := OKey;
          case IVList => st' := IKey;
          case Start | OVal | IVal => status, ok := BadEom, false;
        }
      }
    }

    /** The next iteration has come to this: new registers, or a stop with its status. */
    ghost predicate Arrives(s: Next, st: State, h: XDHist, curPos: U32, ok: bool)
      reads this
    {
      match s
      case Go(m) => ok && m == Machine(st, curPos as nat, Regs(h))
      case Stop(o) => !ok && Stopped(o)
    }

    method ReadInteger(st: State, h: XDHist, curPos: U32, dataLen: U32) returns (st': State, curPos': U32, ok: bool)
      requires Valid() && curPos < dataLen && dataLen as nat <= MAXLEN
      modifies this
      ensures Arrives(StepInt(data[..dataLen as nat], Machine(st, curPos as nat, old(Regs(h)))), st', h, curPos', ok)
    {
      st', curPos', ok := st, curPos, false;
      if st == OVal || st == IVal {
        var port;
        status, port, curPos' := BdecodeAtoi(curPos + 1, dataLen);
        if status == NoError {
          ok := ReadInt(st, h, port);
          st' := if st == OVal then OKey else IKey;
        }
      } else {
        status := if st == Start then NakedValue else RogueInt;
      }
    }

    /** A string behind its length: where it stands, or the status of what is wrong. */
    method TakeText(curPos: U32, dataLen: U32) returns (v: Str, curPos': U32, ok: bool)
      requires Valid() && curPos < dataLen && dataLen as nat <= MAXLEN
      modifies this`status
      ensures match ScanText(data[..dataLen as nat], curPos as nat)
              case TextAt(s, next) => ok && v == s && curPos' as nat == next && status == NoError
              case NoText(s) => !ok && status == s
    {
      var slen;
      v, ok := Str(0, []), false;
      status, slen, curPos' := BdecodeAtoi(curPos, dataLen);
      if status == NoError {
        var start := curPos';
        if dataLen < start + slen {
          status := BadEom;
        } else {
          curPos' := curPos' + slen;
          v, ok := Str(start as nat, data[start as nat..curPos' as nat]), true;
          assert data[..dataLen as nat][start as nat..curPos' as nat] == data[start as nat..curPos' as nat];
        }
      }
    }

    method ReadText(st: State, h: XDHist, curPos: U32, dataLen: U32)
      returns (st': State, h': XDHist, curPos': U32, ok: bool)
      requires Valid() && curPos < dataLen && dataLen as nat <= MAXLEN
      modifies this
      ensures Arrives(StepStr(data[..dataLen as nat], Machine(st, curPos as nat, old(Regs(h)))), st', h', curPos', ok)
    {
      st', h', curPos', ok := st, h, curPos, false;
      if st == Start {
        status := NakedValue;
      } else {
        var v;
        v, curPos', ok := TakeText(curPos, dataLen);
        if ok {
          st', h', ok := ReadStr(st, h, v, curPos' as nat);
        }
      }
    }

    /** A number or a string, from its first byte. */
    method ReadScalar(b: Byte, st: State, h: XDHist, curPos: U32, dataLen: U32)
      returns (st': State, h': XDHist, curPos': U32, ok: bool)
      requires Valid() && curPos < dataLen && dataLen as nat <= MAXLEN
      requires b == data[curPos as nat] && (b == CH_I || IsDigit(b))
      modifies this
      ensures Arrives(Step(data[..dataLen as nat], Machine(st, curPos as nat, old(Regs(h)))), st', h', curPos', ok)
    {
      h' := h;
      if b == CH_I {
        st', curPos', ok := ReadInteger(st, h, curPos, dataLen);
      } else {
        st', h', curPos', ok := ReadText(st, h, curPos, dataLen);
      }
    }

    /** The decoding loop. It returns true where the source trips an assertion. */
    method Xdecode(dataLen: U32) returns (aborted: bool)
      requires Valid() && dataLen as nat <= MAXLEN
      modifies this
      ensures Yields(DecodeFrom(data[..dataLen as nat], old(View())), aborted)
    {
      ghost var d := data[..dataLen as nat];
      ghost var first := Machine(Start, 0, InitialCtx(View()));
      var curPos: U32 := 0;
      var st := Start;
      var h := XDHist(None, {}, ANY);
      while curPos < dataLen
        invariant curPos <= dataLen
        invariant Run(d, Machine(st, curPos as nat, Regs(h))) == Run(d, first)
        decreases dataLen - curPos
      {
        var b := data[curPos as nat];
        var ok;
        if b == CH_E && st == OKey {
          aborted := Classify(h, dataLen);
          return;
        } else if b == CH_D || b == CH_L || b == CH_E {
          st, ok := ReadBracket(b, st);
          curPos := curPos + 1;
        } else if b == CH_I || IsDigit(b) {
          st, h, curPos, ok := ReadScalar(b, st, h, curPos, dataLen);
        } else {
          status := Status.BadChar;
          ok := false;
        }
        if !ok {
          return false;
        }
      }
      return true;
    }

    /** The classifier at the end of a message (KRPC::validate). */
    method Classify(h: XDHist, dataLen: U32) returns (aborted: bool)
      requires Valid() && dataLen as nat <= MAXLEN
      modifies this`status, this`meth
      ensures Judged(Validate(data[..dataLen as nat], old(Regs(h))), aborted)
      ensures View() == old(View())
    {
      aborted := false;
      if INid !in h.seen {
        status := NoNid;
        return;
      }
      if OT !in h.seen {
        status := NoTok;
        return;
      }
      if h.kind * Q_ANY != {} && h.kind * R_ANY != {} {
        return true;
      }
      if h.kind * Q_ANY != {} {
        aborted := ClassifyQuery(h, dataLen);
      } else if h.kind * R_ANY != {} {
        ClassifyReply(h);
      } else {
        status := IncongruousMessage;
      }
    }

    /** The status and method a verdict stands for. */
    ghost predicate Judged(v: Verdict, aborted: bool)
      reads this
    {
      match v
      case Accept(m) => !aborted && status == NoError && meth == {m}
      case Reject(s) => !aborted && status == s
      case Abort => aborted
    }

    method ClassifyQuery(h: XDHist, dataLen: U32) returns (aborted: bool)
      requires Valid() && dataLen as nat <= MAXLEN
      modifies this`status, this`meth
      ensures Judged(ValidateQuery(data[..dataLen as nat], old(Regs(h))), aborted)
    {
      aborted := false;
      if h.kind == {QAp} || h.kind == {QGp} {
        if IIh !in h.seen {
          status := ApGpNoIh;
          return;
        } else if h.kind == {QAp} && IPort !in h.seen && IImplPort !in h.seen {
          status := ApNoPort;
          return;
        } else if h.kind == {QAp} {
          if token == None {
            return true;      // the null token pointer is read
          }
          // By Bounds.TokenByteInside the byte behind the token pointer is always in the message.
          if |token.value.bytes| == 1 || token.value.start >= dataLen as nat || data[token.value.start] != OUR_TOKEN {
            status := TokenUnrecognized;
            return;
          }
        }
        meth := h.kind;
      } else if h.kind == {QFn} {
        if ITarget !in h.seen {
          status := FnNoTarget;
          return;
        }
        meth := {QFn};
      } else if h.kind == {QPg} {
        if h.seen * IKEY_ANY_BODY != {} {
          status := PingBody;
          return;
        }
        meth := {QPg};
      } else {
        status := UnknownQuery;
        return;
      }
      status := NoError;
    }

    method ClassifyReply(h: XDHist)
      modifies this`status, this`meth
      ensures Judged(ValidateReply(old(Regs(h))), false)
    {
      var t := if tok == None then [] else tok.value.bytes;
      if IToken in h.seen && (IValues in h.seen || INodes in h.seen) {
        meth := {RGp};
        if |t| != 3 || t[2] != OUR_TOK_GP {
          status := BadTokGp;
          return;
        }
        if nNodes + nPeers == 0 {
          status := EmptyGpResponse;
          return;
        }
      } else if IValues in h.seen {
        status := ValsWithoutToken;
        return;
      } else if INodes in h.seen {
        if |t| != 1 || t[0] != OUR_TOK_FN {
          status := BadTokFn;
          return;
        }
        meth := {RFn};
      } else {
        if h.seen * IKEY_ANY_NON_TOKEN_BODY != {} {
          status := PingBody;
          return;
        }
        if |t| != 1 || t[0] != OUR_TOK_PG {
          status := BadTokPg;
          return;
        }
        meth := {RPg};
      }
      status := NoError;
    }
  }
}
