// The classification of a message agrees with all the evidence in it. Two bit
// masks summarise the evidence while decoding: the keys seen only ever grow, the
// possible methods only ever shrink, and the second is determined by the first
// together with what the message said about its own type.

module Evidence {
  import opened Dht
  import opened Numeral
  import opened Krpc

  /** The methods compatible with one key having been seen. */
  function KeyMask(k: Key): set<Method> {
    match k
    case IValues => {RGp}
    case INodes => {RFn, RGp}
    case IToken => ANY - {QFn}
    case IIh => {QGp, QAp}
    case ITarget => {QFn}
    case IImplPort => {QAp}
    case IApName => {QAp}
    case OA => Q_ANY
    case OQ => Q_ANY
    case OR => R_ANY
    case _ => ANY
  }

  /** The methods compatible with a query name or a message type that was read. */
  function SaidMask(key: Key, v: Bytes): set<Method> {
    if key == OQ then
      if v == VAL_PG then {QPg} else if v == VAL_GP then {QGp} else if v == VAL_FN then {QFn} else {}
    else if key == OY then
      if v == [0x72] then R_ANY else if v == [0x71] then Q_ANY else {}
    else ANY
  }

  /** A statement the message makes about itself: the value of `q` or of `y`. */
  datatype Saying = Saying(key: Key, val: Bytes)

  /** What one iteration of the machine reads off as such a statement. */
  function StepSays(d: Bytes, m: Machine): seq<Saying>
    requires m.pos < |d|
  {
    if m.st == OVal && IsDigit(d[m.pos]) && (m.ctx.cur == Some(OQ) || m.ctx.cur == Some(OY)) then
      match Atoi(d, m.pos, 0)
      case NotNumber(_) => []
      case Number(n, p) => if |d| < p + n then [] else [Saying(m.ctx.cur.value, d[p..p + n])]
    else []
  }

  /** What the first k iterations read off. */
  function Says(d: Bytes, m: Machine, k: nat): seq<Saying>
    requires m.pos <= |d|
    decreases k
  {
    if k == 0 || m.pos == |d| then []
    else
      match Step(d, m)
      case Go(next) => StepSays(d, m) + Says(d, next, k - 1)
      case Stop(_) => []
  }

  /** A method is compatible with all the keys seen and all the statements made. */
  ghost predicate Compatible(x: Method, seen: set<Key>, said: seq<Saying>) {
    && (forall k <- seen :: x in KeyMask(k))
    && (forall i :: 0 <= i < |said| ==> x in SaidMask(said[i].key, said[i].val))
  }

  /** The method mask is exactly the set of compatible methods. */
  ghost predicate Agrees(c: Ctx, said: seq<Saying>) {
    forall x :: x in c.kind <==> Compatible(x, c.seen, said)
  }

  lemma AllMethods(x: Method)
    ensures x in ANY
  {
    match x
    case _ =>
  }

  lemma CompatibleWithKey(x: Method, seen: set<Key>, k: Key, said: seq<Saying>)
    ensures Compatible(x, seen + {k}, said) <==> Compatible(x, seen, said) && x in KeyMask(k)
  {
    assert forall j <- seen :: j in seen + {k};
    assert k in seen + {k};
  }

  lemma MatchAgrees(c: Ctx, said: seq<Saying>, key: Key, c': Ctx)
    requires Agrees(c, said) && c'.seen == c.seen + {key} && c'.kind == c.kind * KeyMask(key)
    ensures Agrees(c', said)
  {
    forall x ensures x in c'.kind <==> Compatible(x, c'.seen, said) {
      CompatibleWithKey(x, c.seen, key, said);
    }
  }

  lemma InnerKeyAgrees(c: Ctx, said: seq<Saying>, k: Str)
    requires Agrees(c, said)
    ensures Agrees(OnIKey(c, k), said)
  {
    var c' := OnIKey(c, k);
    forall x | x in c.kind ensures x in ANY { AllMethods(x); }
    if c'.seen != c.seen || c'.kind != c.kind {
      MatchAgrees(c, said, if k.bytes == KEY_PORT then IPort else c'.cur.value, c');
    }
  }

  lemma OuterKeyAgrees(c: Ctx, said: seq<Saying>, k: Str)
    requires Agrees(c, said) && OnOKey(c, k).Ok?
    ensures Agrees(OnOKey(c, k).ctx, said)
  {
    var c' := OnOKey(c, k).ctx;
    forall x | x in c.kind ensures x in ANY { AllMethods(x); }
    if c'.seen != c.seen || c'.kind != c.kind {
      MatchAgrees(c, said, c'.cur.value, c');
    }
  }

  lemma SayingAgrees(c: Ctx, said: seq<Saying>, v: Str)
    requires Agrees(c, said) && OnOStr(c, v).Ok?
    ensures Agrees(OnOStr(c, v).ctx,
                   if c.cur == Some(OQ) || c.cur == Some(OY) then said + [Saying(c.cur.value, v.bytes)] else said)
  {
    var c' := OnOStr(c, v).ctx;
    if c.cur == Some(OQ) || c.cur == Some(OY) {
      var s := Saying(c.cur.value, v.bytes);
      assert c'.kind == c.kind * SaidMask(s.key, s.val);
      forall x ensures x in c'.kind <==> Compatible(x, c'.seen, said + [s]) {
        assert x in c.kind <==> Compatible(x, c.seen, said);
        CompatibleSnoc(x, c.seen, said, s);
      }
    }
  }

  lemma CompatibleSnoc(x: Method, seen: set<Key>, said: seq<Saying>, s: Saying)
    ensures Compatible(x, seen, said + [s]) <==> Compatible(x, seen, said) && x in SaidMask(s.key, s.val)
  {
    var all := said + [s];
    assert all[|said|] == s;
    assert forall i :: 0 <= i < |said| ==> all[i] == said[i];
  }

  /** Values other than outer strings change neither mask. */
  lemma InnerValuesKeepMasks(c: Ctx, v: Str, n: nat)
    ensures OnIStr(c, v).Ok? ==> OnIStr(c, v).ctx.seen == c.seen && OnIStr(c, v).ctx.kind == c.kind
    ensures OnIInt(c, n).Ok? ==> OnIInt(c, n).ctx.seen == c.seen && OnIInt(c, n).ctx.kind == c.kind
    ensures OnItem(c, v).Ok? ==> OnItem(c, v).ctx.seen == c.seen && OnItem(c, v).ctx.kind == c.kind
  {
  }

  lemma StrAgrees(st: State, pos: nat, c: Ctx, v: Str, said: seq<Saying>)
    requires st != Start && Agrees(c, said)
    ensures var r := OnStr(st, pos, c, v);
      r.Go? ==>
        Agrees(r.m.ctx, if st == OVal && (c.cur == Some(OQ) || c.cur == Some(OY))
                        then said + [Saying(c.cur.value, v.bytes)] else said)
  {
    InnerValuesKeepMasks(c, v, 0);
    match st {
      case OKey => if OnOKey(c, v).Ok? { OuterKeyAgrees(c, said, v); }
      case IKey => InnerKeyAgrees(c, said, v);
      case OVal => if OnOStr(c, v).Ok? { SayingAgrees(c, said, v); }
      case IVal =>
      case IVList =>
    }
  }

  lemma TextSays(d: Bytes, m: Machine, v: Str, next: nat)
    requires m.pos < |d| && IsDigit(d[m.pos]) && v.start <= next <= |d| && |v.bytes| == next - v.start
    requires Atoi(d, m.pos, 0) == Number(|v.bytes|, v.start) && v.bytes == d[v.start..next]
    ensures StepSays(d, m) ==
      if m.st == OVal && (m.ctx.cur == Some(OQ) || m.ctx.cur == Some(OY)) then [Saying(m.ctx.cur.value, v.bytes)] else []
  {
  }

  lemma TextAgrees(d: Bytes, m: Machine, said: seq<Saying>)
    requires m.pos < |d| && IsDigit(d[m.pos]) && Agrees(m.ctx, said) && StepStr(d, m).Go?
    ensures Agrees(StepStr(d, m).m.ctx, said + StepSays(d, m))
  {
    var v, next := TextRead(d, m);
    TextSays(d, m, v, next);
    StrAgrees(m.st, next, m.ctx, v, said);
    assert said + [] == said;
  }

  lemma IntAgrees(d: Bytes, m: Machine, said: seq<Saying>)
    requires m.pos < |d| && Agrees(m.ctx, said) && StepInt(d, m).Go?
    ensures Agrees(StepInt(d, m).m.ctx, said)
  {
    if m.st == IVal {
      InnerValuesKeepMasks(m.ctx, Str(0, []), Atoi(d, m.pos + 1, 0).value);
    }
  }

  /** One iteration keeps the masks in agreement with the evidence. */
  lemma StepAgrees(d: Bytes, m: Machine, said: seq<Saying>)
    requires m.pos < |d| && Agrees(m.ctx, said) && Step(d, m).Go?
    ensures Agrees(Step(d, m).m.ctx, said + StepSays(d, m))
  {
    var b := d[m.pos];
    if IsDigit(b) {
      TextAgrees(d, m, said);
    } else {
      assert StepSays(d, m) == [] && said + [] == said;
      if b == CH_I {
        IntAgrees(d, m, said);
      }
    }
  }

  lemma SayInOrder(a: seq<Saying>, b: seq<Saying>, c: seq<Saying>)
    ensures a + b + c == a + (b + c)
  {
  }

  /** At every point a run reaches, the method mask is exactly what the evidence so far
      allows. */
  lemma {:induction false} ReachedAgrees(d: Bytes, m: Machine, k: nat, said: seq<Saying>)
    requires m.pos <= |d| && Agrees(m.ctx, said) && Reached(d, m, k).Some?
    ensures Agrees(Reached(d, m, k).value.ctx, said + Says(d, m, k))
    decreases k
  {
    if k == 0 {
      assert said + [] == said;
    } else {
      var next := Step(d, m).m;
      StepAgrees(d, m, said);
      ReachedAgrees(d, next, k - 1, said + StepSays(d, m));
      SayInOrder(said, StepSays(d, m), Says(d, next, k - 1));
    }
  }

  /** Keys seen only grow, possible methods only shrink. */
  lemma StrMonotone(st: State, pos: nat, c: Ctx, v: Str)
    requires st != Start
    ensures var r := OnStr(st, pos, c, v);
      r.Go? ==> c.seen <= r.m.ctx.seen && r.m.ctx.kind <= c.kind
  {
    InnerValuesKeepMasks(c, v, 0);
  }

  lemma TextMonotone(d: Bytes, m: Machine)
    requires m.pos < |d| && StepStr(d, m).Go?
    ensures var r := StepStr(d, m); m.ctx.seen <= r.m.ctx.seen && r.m.ctx.kind <= m.ctx.kind
  {
    var v, next := TextRead(d, m);
    StrMonotone(m.st, next, m.ctx, v);
  }

  lemma StepMonotone(d: Bytes, m: Machine)
    requires m.pos < |d| && Step(d, m).Go?
    ensures var r := Step(d, m); m.ctx.seen <= r.m.ctx.seen && r.m.ctx.kind <= m.ctx.kind
  {
    if IsDigit(d[m.pos]) {
      TextMonotone(d, m);
    } else if d[m.pos] == CH_I && m.st == IVal {
      InnerValuesKeepMasks(m.ctx, Str(0, []), Atoi(d, m.pos + 1, 0).value);
    }
  }

  /** From any point of a run to any later one, keys seen only grow and possible methods
      only shrink, however the run ends. */
  lemma {:induction false} ReachedMonotone(d: Bytes, m: Machine, k: nat)
    requires m.pos <= |d| && Reached(d, m, k).Some?
    ensures var c := Reached(d, m, k).value.ctx; m.ctx.seen <= c.seen && c.kind <= m.ctx.kind
    decreases k
  {
    if k > 0 {
      StepMonotone(d, m);
      ReachedMonotone(d, Step(d, m).m, k - 1);
    }
  }
}
