// The language the flat machine accepts, as a recursive-descent parser over a
// three-level grammar (a dictionary, dictionaries inside it, lists of strings
// inside those), and the proof that the flat machine refines that parser
// followed by a fold of the event semantics over the parse tree.

module Grammar {
  import opened Dht
  import opened Numeral
  import opened Krpc

  // ----- parse trees -----

  datatype IVal = IStr(s: Str) | IInt(n: nat) | IList(items: seq<Str>)
  datatype IPair = IPair(key: Str, val: IVal)
  datatype OVal = OStr(s: Str) | OInt(n: nat) | ODict(pairs: seq<IPair>)
  datatype OPair = OPair(key: Str, val: OVal)

  /** A parsed phrase and the position behind it. */
  datatype Parsed<+T> = NoParse | Parsed(value: T, next: nat) {
    predicate IsFailure() { NoParse? }
    function PropagateFailure<U>(): Parsed<U>
      requires NoParse?
    {
      NoParse
    }
    function Extract(): (T, nat)
      requires Parsed?
    {
      (value, next)
    }
  }

  // ----- the recursive-descent parser -----

  function ParseInt(d: Bytes, pos: nat): (r: Parsed<nat>)
    requires pos < |d|
    ensures r.Parsed? ==> pos < r.next <= |d|
  {
    match Atoi(d, pos + 1, 0)
    case Number(n, next) => Parsed(n, next)
    case NotNumber(_) => NoParse
  }

  function ParseStr(d: Bytes, pos: nat): (r: Parsed<Str>)
    requires pos <= |d|
    ensures r.Parsed? ==>
      && pos < r.value.start
      && r.next == r.value.start + |r.value.bytes| <= |d|
      && r.value.bytes == d[r.value.start..r.next]
  {
    if pos == |d| || !IsDigit(d[pos]) then NoParse
    else
      match Atoi(d, pos, 0)
      case NotNumber(_) => NoParse
      case Number(n, next) =>
        if |d| < next + n then NoParse else Parsed(Str(next, d[next..next + n]), next + n)
  }

  /** The strings of a list, and its closing 'e'. */
  function ParseItems(d: Bytes, pos: nat): (r: Parsed<seq<Str>>)
    requires pos <= |d|
    ensures r.Parsed? ==> pos < r.next <= |d|
    decreases |d| - pos
  {
    if pos == |d| then NoParse
    else if d[pos] == CH_E then Parsed([], pos + 1)
    else
      var (s, p) :- ParseStr(d, pos);
      var (rest, q) :- ParseItems(d, p);
      Parsed([s] + rest, q)
  }

  function ParseIVal(d: Bytes, pos: nat): (r: Parsed<IVal>)
    requires pos <= |d|
    ensures r.Parsed? ==> pos < r.next <= |d|
  {
    if pos == |d| then NoParse
    else if d[pos] == CH_I then
      var (n, p) :- ParseInt(d, pos);
      Parsed(IInt(n), p)
    else if d[pos] == CH_L then
      var (items, p) :- ParseItems(d, pos + 1);
      Parsed(IList(items), p)
    else
      var (s, p) :- ParseStr(d, pos);
      Parsed(IStr(s), p)
  }

  /** The pairs of an inner dictionary, and its closing 'e'. */
  function ParseIPairs(d: Bytes, pos: nat): (r: Parsed<seq<IPair>>)
    requires pos <= |d|
    ensures r.Parsed? ==> pos < r.next <= |d|
    decreases |d| - pos
  {
    if pos == |d| then NoParse
    else if d[pos] == CH_E then Parsed([], pos + 1)
    else
      var (k, p) :- ParseStr(d, pos);
      var (v, q) :- ParseIVal(d, p);
      var (rest, r) :- ParseIPairs(d, q);
      Parsed([IPair(k, v)] + rest, r)
  }

  function ParseOVal(d: Bytes, pos: nat): (r: Parsed<OVal>)
    requires pos <= |d|
    ensures r.Parsed? ==> pos < r.next <= |d|
  {
    if pos == |d| then NoParse
    else if d[pos] == CH_I then
      var (n, p) :- ParseInt(d, pos);
      Parsed(OInt(n), p)
    else if d[pos] == CH_D then
      var (pairs, p) :- ParseIPairs(d, pos + 1);
      Parsed(ODict(pairs), p)
    else
      var (s, p) :- ParseStr(d, pos);
      Parsed(OStr(s), p)
  }

  /** The pairs of the message, up to (not including) its closing 'e'. */
  function ParseOPairs(d: Bytes, pos: nat): (r: Parsed<seq<OPair>>)
    requires pos <= |d|
    ensures r.Parsed? ==> pos <= r.next < |d|
    decreases |d| - pos
  {
    if pos == |d| then NoParse
    else if d[pos] == CH_E then Parsed([], pos)
    else
      var (k, p) :- ParseStr(d, pos);
      var (v, q) :- ParseOVal(d, p);
      var (rest, r) :- ParseOPairs(d, q);
      Parsed([OPair(k, v)] + rest, r)
  }

  function ParseMsg(d: Bytes): Parsed<seq<OPair>> {
    if d == [] || d[0] != CH_D then NoParse else ParseOPairs(d, 1)
  }

  // ----- the event semantics folded over a tree -----

  function FoldItems(c: Ctx, items: seq<Str>): Res
    decreases |items|
  {
    if items == [] then Ok(c)
    else
      match OnItem(c, items[0])
      case Bad(s) => Bad(s)
      case Ok(c') => FoldItems(c', items[1..])
  }

  function FoldIVal(c: Ctx, v: IVal): Res {
    match v
    case IStr(s) => OnIStr(c, s)
    case IInt(n) => OnIInt(c, n)
    case IList(items) => FoldItems(c, items)
  }

  function FoldIPair(c: Ctx, p: IPair): Res {
    FoldIVal(OnIKey(c, p.key), p.val)
  }

  function FoldIPairs(c: Ctx, pairs: seq<IPair>): Res
    decreases |pairs|
  {
    if pairs == [] then Ok(c)
    else
      match FoldIPair(c, pairs[0])
      case Bad(s) => Bad(s)
      case Ok(c') => FoldIPairs(c', pairs[1..])
  }

  function FoldOVal(c: Ctx, v: OVal): Res {
    match v
    case OStr(s) => OnOStr(c, s)
    case OInt(_) => Ok(c)
    case ODict(pairs) => FoldIPairs(c, pairs)
  }

  function FoldOPair(c: Ctx, p: OPair): Res {
    match OnOKey(c, p.key)
    case Bad(s) => Bad(s)
    case Ok(c') => FoldOVal(c', p.val)
  }

  function FoldOPairs(c: Ctx, pairs: seq<OPair>): Res
    decreases |pairs|
  {
    if pairs == [] then Ok(c)
    else
      match FoldOPair(c, pairs[0])
      case Bad(s) => Bad(s)
      case Ok(c') => FoldOPairs(c', pairs[1..])
  }

  // ----- refinement, one grammar level at a time -----

  /** From a machine at the start of a phrase, the rest of the run is the rest of the
      run behind that phrase, or fails with the error of its fold; with no phrase there
      it does not end well at all. */
  ghost predicate Through(d: Bytes, m: Machine, parsed: bool, st: State, next: nat, r: Res)
    requires m.pos <= |d|
    requires parsed ==> next <= |d|
  {
    if !parsed then !Run(d, m).Exit?
    else if r.Ok? then Run(d, m) == Run(d, Machine(st, next, r.ctx))
    else Run(d, m) == Fail(r.status)
  }

  lemma RunUnfold(d: Bytes, m: Machine)
    requires m.pos < |d|
    ensures var s := Step(d, m); Run(d, m) == if s.Go? then Run(d, s.m) else s.o
  {
  }

  lemma StepStrParses(d: Bytes, m: Machine)
    requires m.st != Start
    requires m.pos < |d| && IsDigit(d[m.pos])
    ensures var p := ParseStr(d, m.pos); var s := StepStr(d, m);
      if p.NoParse? then s.Stop? else s == OnStr(m.st, p.next, m.ctx, p.value)
  {
    var p := ParseStr(d, m.pos);
    if p.Parsed? {
      TextIs(d, m, p.value, p.next);
    }
  }

  lemma RunStr(d: Bytes, m: Machine)
    requires m.st != Start
    requires m.pos < |d| && d[m.pos] != CH_D && d[m.pos] != CH_E && d[m.pos] != CH_I && d[m.pos] != CH_L
    ensures var p := ParseStr(d, m.pos);
      if p.NoParse? then !Run(d, m).Exit?
      else
        var o := OnStr(m.st, p.next, m.ctx, p.value);
        Run(d, m) == if o.Go? then Run(d, o.m) else o.o
  {
    RunUnfold(d, m);
    if IsDigit(d[m.pos]) {
      assert Step(d, m) == StepStr(d, m);
      StepStrParses(d, m);
    }
  }

  /** A key is expected, but something that is not a string stands there. */
  lemma RunNoStr(d: Bytes, m: Machine)
    requires m.st == OKey || m.st == IKey || m.st == IVList
    requires m.pos < |d| && (d[m.pos] == CH_D || d[m.pos] == CH_I || d[m.pos] == CH_L)
    ensures ParseStr(d, m.pos).NoParse? && !Run(d, m).Exit?
  {
  }

  lemma {:induction false} RunItems(d: Bytes, pos: nat, c: Ctx)
    requires pos <= |d|
    ensures var p := ParseItems(d, pos);
      Through(d, Machine(IVList, pos, c), p.Parsed?, IKey, if p.Parsed? then p.next else 0,
              if p.Parsed? then FoldItems(c, p.value) else Ok(c))
    decreases |d| - pos
  {
    var m := Machine(IVList, pos, c);
    if pos == |d| || d[pos] == CH_E {
    } else if d[pos] == CH_D || d[pos] == CH_I || d[pos] == CH_L {
      RunNoStr(d, m);
    } else {
      RunStr(d, m);
      var s := ParseStr(d, pos);
      if s.Parsed? {
        var r := OnItem(c, s.value);
        var rest := ParseItems(d, s.next);
        if r.Ok? {
          RunItems(d, s.next, r.ctx);
        }
        if rest.Parsed? {
          assert ([s.value] + rest.value)[1..] == rest.value;
        }
      }
    }
  }

  lemma RunIVal(d: Bytes, pos: nat, c: Ctx)
    requires pos <= |d|
    ensures var p := ParseIVal(d, pos);
      Through(d, Machine(IVal, pos, c), p.Parsed?, IKey, if p.Parsed? then p.next else 0,
              if p.Parsed? then FoldIVal(c, p.value) else Ok(c))
  {
    var m := Machine(IVal, pos, c);
    if pos == |d| || d[pos] == CH_E || d[pos] == CH_D {
    } else if d[pos] == CH_I {
      RunUnfold(d, m);
    } else if d[pos] == CH_L {
      RunItems(d, pos + 1, c);
    } else {
      RunStr(d, m);
    }
  }

  lemma {:induction false} RunIPairs(d: Bytes, pos: nat, c: Ctx)
    requires pos <= |d|
    ensures var p := ParseIPairs(d, pos);
      Through(d, Machine(IKey, pos, c), p.Parsed?, OKey, if p.Parsed? then p.next else 0,
              if p.Parsed? then FoldIPairs(c, p.value) else Ok(c))
    decreases |d| - pos
  {
    var m := Machine(IKey, pos, c);
    if pos == |d| || d[pos] == CH_E {
    } else if d[pos] == CH_D || d[pos] == CH_I || d[pos] == CH_L {
      RunNoStr(d, m);
    } else {
      RunStr(d, m);
      var k := ParseStr(d, pos);
      if k.Parsed? {
        var c1 := OnIKey(c, k.value);
        RunIVal(d, k.next, c1);
        var v := ParseIVal(d, k.next);
        if v.Parsed? {
          var r := FoldIVal(c1, v.value);
          var rest := ParseIPairs(d, v.next);
          if r.Ok? {
            RunIPairs(d, v.next, r.ctx);
          }
          if rest.Parsed? {
            assert ([IPair(k.value, v.value)] + rest.value)[1..] == rest.value;
          }
        }
      }
    }
  }

  lemma RunODict(d: Bytes, pos: nat, c: Ctx)
    requires pos < |d| && d[pos] == CH_D
    ensures var p := ParseOVal(d, pos);
      Through(d, Machine(OVal, pos, c), p.Parsed?, OKey, if p.Parsed? then p.next else 0,
              if p.Parsed? then FoldOVal(c, p.value) else Ok(c))
  {
    DictEntered(d, pos, c);
    RunIPairs(d, pos + 1, c);
  }

  /** A dictionary is parsed and run from behind its 'd'. */
  lemma DictEntered(d: Bytes, pos: nat, c: Ctx)
    requires pos < |d| && d[pos] == CH_D
    ensures var p := ParseIPairs(d, pos + 1);
      ParseOVal(d, pos) == if p.Parsed? then Parsed(ODict(p.value), p.next) else NoParse
    ensures Run(d, Machine(OVal, pos, c)) == Run(d, Machine(IKey, pos + 1, c))
  {
    RunUnfold(d, Machine(OVal, pos, c));
  }

  lemma RunOVal(d: Bytes, pos: nat, c: Ctx)
    requires pos <= |d|
    ensures var p := ParseOVal(d, pos);
      Through(d, Machine(OVal, pos, c), p.Parsed?, OKey, if p.Parsed? then p.next else 0,
              if p.Parsed? then FoldOVal(c, p.value) else Ok(c))
  {
    var m := Machine(OVal, pos, c);
    if pos == |d| || d[pos] == CH_E || d[pos] == CH_L {
    } else if d[pos] == CH_I {
      RunUnfold(d, m);
    } else if d[pos] == CH_D {
      RunODict(d, pos, c);
    } else {
      RunStr(d, m);
    }
  }

  lemma {:induction false} RunOPairs(d: Bytes, pos: nat, c: Ctx)
    requires pos <= |d|
    ensures var p := ParseOPairs(d, pos);
      var r := if p.Parsed? then FoldOPairs(c, p.value) else Ok(c);
      var o := Run(d, Machine(OKey, pos, c));
      if !p.Parsed? then !o.Exit? else o == if r.Ok? then Exit(p.next, r.ctx) else Fail(r.status)
    decreases |d| - pos
  {
    var m := Machine(OKey, pos, c);
    if pos == |d| || d[pos] == CH_E {
    } else if d[pos] == CH_D || d[pos] == CH_I || d[pos] == CH_L {
      RunNoStr(d, m);
    } else {
      RunStr(d, m);
      var k := ParseStr(d, pos);
      if k.Parsed? {
        var r1 := OnOKey(c, k.value);
        if r1.Ok? {
          RunOVal(d, k.next, r1.ctx);
          var v := ParseOVal(d, k.next);
          if v.Parsed? {
            var r := FoldOVal(r1.ctx, v.value);
            if r.Ok? {
              RunOPairs(d, v.next, r.ctx);
            }
          }
        }
        var v := ParseOVal(d, k.next);
        if v.Parsed? {
          var rest := ParseOPairs(d, v.next);
          if rest.Parsed? {
            assert ([OPair(k.value, v.value)] + rest.value)[1..] == rest.value;
          }
        }
      }
    }
  }

  /** On a message that parses, the whole outcome of the run is that of the fold. */
  lemma ParsedRun(d: Bytes, f: Fields)
    requires ParseMsg(d).Parsed?
    ensures var r := FoldOPairs(InitialCtx(f), ParseMsg(d).value);
      Run(d, Machine(Start, 0, InitialCtx(f))) == if r.Ok? then Exit(ParseMsg(d).next, r.ctx) else Fail(r.status)
  {
    RunOPairs(d, 1, InitialCtx(f));
    assert Run(d, Machine(Start, 0, InitialCtx(f))) == Run(d, Machine(OKey, 1, InitialCtx(f)));
  }

  /** The flat machine leaves through its one clean exit, at `pos` with registers `c`,
      exactly when the parser reads a whole message ending there and folding the
      events over its tree yields `c`. */
  lemma FlatRefinesGrammar(d: Bytes, f: Fields, pos: nat, c: Ctx)
    ensures Run(d, Machine(Start, 0, InitialCtx(f))) == Exit(pos, c)
       <==> exists msg :: ParseMsg(d) == Parsed(msg, pos) && FoldOPairs(InitialCtx(f), msg) == Ok(c)
  {
    var m := Machine(Start, 0, InitialCtx(f));
    if d != [] && d[0] == CH_D {
      RunOPairs(d, 1, InitialCtx(f));
      assert Run(d, m) == Run(d, Machine(OKey, 1, InitialCtx(f)));
    }
  }
}
