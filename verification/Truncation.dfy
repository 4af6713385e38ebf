// Messages that do not parse. Each is a beginning that does, and behind it either the end of
// the data or something that must not stand there. The decoding loop has an error for the
// second, but none for the first: it runs off the end into a failing assertion.

module Truncation {
  import opened Dht
  import opened Numeral
  import opened Krpc
  import opened Grammar

  // ----- unfinished phrases -----

  /** Where the pairs of an inner dictionary stop: before a key, before the value of a key,
      or inside a list behind some of its items. */
  datatype ICut = BeforeKey | BeforeVal(key: Str) | InList(key: Str, items: seq<Str>)

  /** The complete pairs of an inner dictionary, and where it stops behind them. */
  datatype IStub = IStub(pairs: seq<IPair>, cut: ICut)

  /** Where a message stops: before an outer key, before a value, or in a dictionary. */
  datatype OCut = BeforeOKey | BeforeOVal(key: Str) | InDict(key: Str, stub: IStub)

  /** The complete outer pairs of an unfinished message, and where it stops behind them. */
  datatype Stub = Nothing | Open(pairs: seq<OPair>, cut: OCut)

  /** Why a phrase stops: the data ends, or what stands there is refused with a status. */
  datatype Stop = Ends | Breaks(status: Status)

  /** What could be read of a phrase, and why no more. */
  datatype Halt<T> = Halt(done: T, stop: Stop)

  // ----- what may stand where -----

  datatype Place = AtMessage | AtOKey | AtOVal | AtIKey | AtIVal | AtItem

  /** The status of a byte that begins nothing that may stand at a place. */
  function Misplaced(p: Place, b: Byte): Status {
    if b == CH_D then if p == AtOKey || p == AtIKey then DictIsKey else DictsTooDeep
    else if b == CH_L then UnexpectedList
    else if b == CH_I then if p == AtMessage then NakedValue else RogueInt
    else if b == CH_E then BadEom
    else if IsDigit(b) then NakedValue
    else Status.BadChar
  }

  /** The status of a number that cannot be read, or of a text longer than the data. */
  function BadNumber(d: Bytes, pos: nat): Status
    requires pos <= |d|
  {
    match Atoi(d, pos, 0)
    case NotNumber(NegativeInt) => Status.NegativeInt
    case NotNumber(BadChar) => Status.BadChar
    case NotNumber(TooLong) => MsgTooLong
    case Number(_, _) => BadEom
  }

  /** Why nothing can be read at a place. */
  function StopAt(p: Place, d: Bytes, pos: nat): Stop
    requires pos <= |d|
  {
    if pos == |d| then Ends
    else if IsDigit(d[pos]) && p != AtMessage then Breaks(BadNumber(d, pos))
    else if d[pos] == CH_I && (p == AtOVal || p == AtIVal) then Breaks(BadNumber(d, pos + 1))
    else Breaks(Misplaced(p, d[pos]))
  }

  // ----- the parser -----

  /** The strings of a list that does not end well. */
  function HaltItems(d: Bytes, pos: nat): Halt<seq<Str>>
    requires pos <= |d|
    decreases |d| - pos
  {
    var s := ParseStr(d, pos);
    if s.NoParse? then Halt([], StopAt(AtItem, d, pos))
    else
      var rest := HaltItems(d, s.next);
      Halt([s.value] + rest.done, rest.stop)
  }

  /** How the value of an inner key stops. */
  function HaltIVal(d: Bytes, k: Str, pos: nat): Halt<ICut>
    requires pos <= |d|
  {
    if pos < |d| && d[pos] == CH_L then
      var items := HaltItems(d, pos + 1);
      Halt(InList(k, items.done), items.stop)
    else Halt(BeforeVal(k), StopAt(AtIVal, d, pos))
  }

  function HaltIPairs(d: Bytes, pos: nat): Halt<IStub>
    requires pos <= |d|
    decreases |d| - pos
  {
    var k := ParseStr(d, pos);
    if k.NoParse? then Halt(IStub([], BeforeKey), StopAt(AtIKey, d, pos))
    else
      var v := ParseIVal(d, k.next);
      if v.Parsed? then
        var rest := HaltIPairs(d, v.next);
        Halt(IStub([IPair(k.value, v.value)] + rest.done.pairs, rest.done.cut), rest.stop)
      else
        var h := HaltIVal(d, k.value, k.next);
        Halt(IStub([], h.done), h.stop)
  }

  /** How the value of an outer key stops. */
  function HaltOVal(d: Bytes, k: Str, pos: nat): Halt<OCut>
    requires pos <= |d|
  {
    if pos < |d| && d[pos] == CH_D then
      var inner := HaltIPairs(d, pos + 1);
      Halt(InDict(k, inner.done), inner.stop)
    else Halt(BeforeOVal(k), StopAt(AtOVal, d, pos))
  }

  function HaltOPairs(d: Bytes, pos: nat): (r: Halt<Stub>)
    requires pos <= |d|
    ensures r.done.Open?
    decreases |d| - pos
  {
    var k := ParseStr(d, pos);
    if k.NoParse? then Halt(Open([], BeforeOKey), StopAt(AtOKey, d, pos))
    else
      var v := ParseOVal(d, k.next);
      if v.Parsed? then
        var rest := HaltOPairs(d, v.next);
        Halt(Open([OPair(k.value, v.value)] + rest.done.pairs, rest.done.cut), rest.stop)
      else
        var h := HaltOVal(d, k.value, k.next);
        Halt(Open([], h.done), h.stop)
  }

  /** What can be read of a message that does not parse. */
  function HaltMsg(d: Bytes): Halt<Stub> {
    if d == [] || d[0] != CH_D then Halt(Nothing, StopAt(AtMessage, d, 0)) else HaltOPairs(d, 1)
  }

  // ----- the events of an unfinished message -----

  function FoldICut(c: Ctx, cut: ICut): Res {
    match cut
    case BeforeKey => Ok(c)
    case BeforeVal(k) => Ok(OnIKey(c, k))
    case InList(k, items) => FoldItems(OnIKey(c, k), items)
  }

  function FoldIStub(c: Ctx, stub: IStub): Res {
    match FoldIPairs(c, stub.pairs)
    case Bad(s) => Bad(s)
    case Ok(c') => FoldICut(c', stub.cut)
  }

  function FoldOCut(c: Ctx, cut: OCut): Res {
    match cut
    case BeforeOKey => Ok(c)
    case BeforeOVal(k) => OnOKey(c, k)
    case InDict(k, stub) =>
      match OnOKey(c, k)
      case Bad(s) => Bad(s)
      case Ok(c') => FoldIStub(c', stub)
  }

  function FoldStub(c: Ctx, stub: Stub): Res {
    match stub
    case Nothing => Ok(c)
    case Open(pairs, cut) =>
      match FoldOPairs(c, pairs)
      case Bad(s) => Bad(s)
      case Ok(c') => FoldOCut(c', cut)
  }

  /** How a run over such a message ends: with the first event that fails, or as it stops. */
  function Ending(r: Res, stop: Stop): Krpc.Outcome {
    match r
    case Bad(s) => Fail(s)
    case Ok(_) => match stop case Ends => RanOff case Breaks(s) => Fail(s)
  }

  // ----- how the loop stops, one grammar level at a time -----

  function StateAt(p: Place): State {
    match p
    case AtMessage => Start
    case AtOKey => OKey
    case AtOVal => OVal
    case AtIKey => IKey
    case AtIVal => IVal
    case AtItem => IVList
  }

  /** Bytes that open or close something at a place. */
  predicate Brackets(p: Place, b: Byte) {
    match p
    case AtMessage => b == CH_D
    case AtOVal => b == CH_D
    case AtIVal => b == CH_L
    case _ => b == CH_E
  }

  lemma BadText(d: Bytes, m: Machine)
    requires m.st != Start && m.pos < |d| && IsDigit(d[m.pos]) && ParseStr(d, m.pos).NoParse?
    ensures Run(d, m) == Fail(BadNumber(d, m.pos))
  {
    RunUnfold(d, m);
    assert Step(d, m) == StepStr(d, m);
  }

  lemma BadInt(d: Bytes, m: Machine)
    requires (m.st == OVal || m.st == IVal) && m.pos < |d| && d[m.pos] == CH_I && ParseInt(d, m.pos).NoParse?
    ensures Run(d, m) == Fail(BadNumber(d, m.pos + 1))
  {
    RunUnfold(d, m);
  }

  lemma BadByte(d: Bytes, p: Place, m: Machine)
    requires m.st == StateAt(p) && m.pos < |d| && !Brackets(p, d[m.pos])
    requires !IsDigit(d[m.pos]) || p == AtMessage
    requires d[m.pos] == CH_I ==> p != AtOVal && p != AtIVal
    ensures Run(d, m) == Fail(Misplaced(p, d[m.pos]))
  {
    RunUnfold(d, m);
  }

  /** Nothing can be read at a place. */
  lemma StopsAt(d: Bytes, p: Place, pos: nat, c: Ctx)
    requires pos <= |d| && (pos < |d| ==> !Brackets(p, d[pos]))
    requires p != AtMessage ==> ParseStr(d, pos).NoParse?
    requires pos < |d| && d[pos] == CH_I && (p == AtOVal || p == AtIVal) ==> ParseInt(d, pos).NoParse?
    ensures Run(d, Machine(StateAt(p), pos, c)) == Ending(Ok(c), StopAt(p, d, pos))
  {
    var m := Machine(StateAt(p), pos, c);
    if pos < |d| {
      if IsDigit(d[pos]) && p != AtMessage {
        BadText(d, m);
      } else if d[pos] == CH_I && (p == AtOVal || p == AtIVal) {
        BadInt(d, m);
      } else {
        BadByte(d, p, m);
      }
    }
  }

  /** A string stands at a place. */
  lemma TextAtPlace(d: Bytes, p: Place, pos: nat, c: Ctx)
    requires p != AtMessage && pos <= |d| && ParseStr(d, pos).Parsed?
    ensures var s := ParseStr(d, pos); var o := OnStr(StateAt(p), s.next, c, s.value);
      Run(d, Machine(StateAt(p), pos, c)) == if o.Go? then Run(d, o.m) else o.o
  {
    RunStr(d, Machine(StateAt(p), pos, c));
  }

  lemma {:induction false} ItemsHalt(d: Bytes, pos: nat, c: Ctx)
    requires pos <= |d| && ParseItems(d, pos).NoParse?
    ensures var h := HaltItems(d, pos);
      Run(d, Machine(IVList, pos, c)) == Ending(FoldItems(c, h.done), h.stop)
    decreases |d| - pos
  {
    var s := ParseStr(d, pos);
    if s.NoParse? {
      StopsAt(d, AtItem, pos, c);
    } else {
      TextAtPlace(d, AtItem, pos, c);
      var rest := HaltItems(d, s.next);
      assert ([s.value] + rest.done)[1..] == rest.done;
      if OnItem(c, s.value).Ok? {
        ItemsHalt(d, s.next, OnItem(c, s.value).ctx);
      }
    }
  }

  lemma ListHalts(d: Bytes, pos: nat, c: Ctx)
    requires pos < |d| && d[pos] == CH_L && ParseIVal(d, pos).NoParse?
    ensures var h := HaltItems(d, pos + 1);
      Run(d, Machine(IVal, pos, c)) == Ending(FoldItems(c, h.done), h.stop)
  {
    RunUnfold(d, Machine(IVal, pos, c));
    ItemsHalt(d, pos + 1, c);
  }

  lemma IValHalts(d: Bytes, k: Str, pos: nat, c: Ctx)
    requires pos <= |d| && ParseIVal(d, pos).NoParse?
    ensures var h := HaltIVal(d, k, pos);
      Run(d, Machine(IVal, pos, OnIKey(c, k))) == Ending(FoldICut(c, h.done), h.stop)
  {
    if pos < |d| && d[pos] == CH_L {
      ListHalts(d, pos, OnIKey(c, k));
    } else {
      StopsAt(d, AtIVal, pos, OnIKey(c, k));
    }
  }

  lemma IStubCons(c: Ctx, p: IPair, stub: IStub)
    ensures var r := FoldIPair(c, p);
      FoldIStub(c, IStub([p] + stub.pairs, stub.cut)) == if r.Ok? then FoldIStub(r.ctx, stub) else r
  {
    assert ([p] + stub.pairs)[1..] == stub.pairs;
  }

  lemma {:induction false} IPairsHalt(d: Bytes, pos: nat, c: Ctx)
    requires pos <= |d| && ParseIPairs(d, pos).NoParse?
    ensures var h := HaltIPairs(d, pos);
      Run(d, Machine(IKey, pos, c)) == Ending(FoldIStub(c, h.done), h.stop)
    decreases |d| - pos
  {
    var k := ParseStr(d, pos);
    if k.NoParse? {
      StopsAt(d, AtIKey, pos, c);
    } else {
      TextAtPlace(d, AtIKey, pos, c);
      var c' := OnIKey(c, k.value);
      var v := ParseIVal(d, k.next);
      if v.Parsed? {
        RunIVal(d, k.next, c');
        IStubCons(c, IPair(k.value, v.value), HaltIPairs(d, v.next).done);
        if FoldIVal(c', v.value).Ok? {
          IPairsHalt(d, v.next, FoldIVal(c', v.value).ctx);
        }
      } else {
        IValHalts(d, k.value, k.next, c);
      }
    }
  }

  lemma DictHalts(d: Bytes, pos: nat, c: Ctx)
    requires pos < |d| && d[pos] == CH_D && ParseOVal(d, pos).NoParse?
    ensures var h := HaltIPairs(d, pos + 1);
      Run(d, Machine(OVal, pos, c)) == Ending(FoldIStub(c, h.done), h.stop)
  {
    DictEntered(d, pos, c);
    IPairsHalt(d, pos + 1, c);
  }

  lemma OValHalts(d: Bytes, k: Str, pos: nat, c: Ctx)
    requires pos <= |d| && ParseOVal(d, pos).NoParse? && OnOKey(c, k).Ok?
    ensures var h := HaltOVal(d, k, pos);
      Run(d, Machine(OVal, pos, OnOKey(c, k).ctx)) == Ending(FoldOCut(c, h.done), h.stop)
  {
    if pos < |d| && d[pos] == CH_D {
      DictHalts(d, pos, OnOKey(c, k).ctx);
    } else {
      StopsAt(d, AtOVal, pos, OnOKey(c, k).ctx);
    }
  }

  lemma OStubCons(c: Ctx, p: OPair, pairs: seq<OPair>, cut: OCut)
    ensures var r := FoldOPair(c, p);
      FoldStub(c, Open([p] + pairs, cut)) == if r.Ok? then FoldStub(r.ctx, Open(pairs, cut)) else r
  {
    assert ([p] + pairs)[1..] == pairs;
  }

  lemma {:induction false} OPairsHalt(d: Bytes, pos: nat, c: Ctx)
    requires pos <= |d| && ParseOPairs(d, pos).NoParse?
    ensures var h := HaltOPairs(d, pos);
      Run(d, Machine(OKey, pos, c)) == Ending(FoldStub(c, h.done), h.stop)
    decreases |d| - pos, 1
  {
    var k := ParseStr(d, pos);
    if k.NoParse? {
      StopsAt(d, AtOKey, pos, c);
    } else {
      TextAtPlace(d, AtOKey, pos, c);
      if ParseOVal(d, k.next).Parsed? {
        OPairsHaltBehind(d, pos, c);
      } else if OnOKey(c, k.value).Ok? {
        OValHalts(d, k.value, k.next, c);
      }
    }
  }

  /** The case of one more complete pair. */
  lemma {:induction false} OPairsHaltBehind(d: Bytes, pos: nat, c: Ctx)
    requires pos <= |d| && ParseOPairs(d, pos).NoParse?
    requires ParseStr(d, pos).Parsed? && ParseOVal(d, ParseStr(d, pos).next).Parsed?
    ensures var k := ParseStr(d, pos); var h := HaltOPairs(d, pos); var o := OnStr(OKey, k.next, c, k.value);
      (if o.Go? then Run(d, o.m) else o.o) == Ending(FoldStub(c, h.done), h.stop)
    decreases |d| - pos, 0
  {
    var k := ParseStr(d, pos);
    var v := ParseOVal(d, k.next);
    var rest := HaltOPairs(d, v.next);
    OStubCons(c, OPair(k.value, v.value), rest.done.pairs, rest.done.cut);
    var r1 := OnOKey(c, k.value);
    if r1.Ok? {
      RunOVal(d, k.next, r1.ctx);
      if FoldOVal(r1.ctx, v.value).Ok? {
        OPairsHalt(d, v.next, FoldOVal(r1.ctx, v.value).ctx);
      }
    }
  }

  // ----- whole messages -----

  /** A message that does not parse ends with the first of its events that fails, or as it
      stops: by running off the end of the data, or with the status of what stands there. */
  lemma HaltExact(d: Bytes, f: Fields)
    requires ParseMsg(d).NoParse?
    ensures Run(d, Machine(Start, 0, InitialCtx(f))) == Ending(FoldStub(InitialCtx(f), HaltMsg(d).done), HaltMsg(d).stop)
  {
    if d == [] || d[0] != CH_D {
      StopsAt(d, AtMessage, 0, InitialCtx(f));
    } else {
      RunUnfold(d, Machine(Start, 0, InitialCtx(f)));
      OPairsHalt(d, 1, InitialCtx(f));
    }
  }

  /** The data ends where something more was due. */
  predicate Unfinished(d: Bytes) { ParseMsg(d).NoParse? && HaltMsg(d).stop == Ends }

  /** The decoding loop runs off the end exactly on the unfinished messages none of whose
      events fails; every other message that does not parse is refused. */
  lemma RanOffExact(d: Bytes, f: Fields)
    ensures Run(d, Machine(Start, 0, InitialCtx(f))) == RanOff
       <==> Unfinished(d) && FoldStub(InitialCtx(f), HaltMsg(d).done).Ok?
  {
    if ParseMsg(d).Parsed? {
      ParsedRun(d, f);
    } else {
      HaltExact(d, f);
    }
  }
}
