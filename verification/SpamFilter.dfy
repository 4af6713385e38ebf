// The rate limiter (CTMap, cht/spamfilter.cpp): a sparse table of token counts in
// which an absent key stands for a full bucket.

module SpamFilter {
  import opened Dht

  /** A bucket's capacity, the price of one withdrawal and the gain of one epoch. */
  datatype Rates = Rates(capacity: nat, price: nat, gain: nat)

  /** The compile-time checks on the template parameters. */
  predicate ValidRates(r: Rates) {
    0 < r.price <= r.capacity && 0 < r.gain && r.gain + r.capacity <= 255
  }

  const RX_RATES := Rates(12, 1, 4)
  const PING_RATES := Rates(15, 15, 1)
  const Q_GP_RATES := Rates(15, 15, 1)

  // ----- the dense view -----

  function Tokens<K>(m: map<K, U8>, r: Rates, key: K): nat {
    if key in m then m[key] as nat else r.capacity
  }

  /** No bucket is stored full. */
  ghost predicate Sparse<K>(m: map<K, U8>, r: Rates) {
    forall k <- m :: (m[k] as nat) < r.capacity
  }

  function Min(a: nat, b: nat): nat { if a < b then a else b }

  class CTMap<K(==)> {
    const rates: Rates
    var table: map<K, U8>

    ghost predicate Valid()
      reads this
    {
      ValidRates(rates) && Sparse(table, rates)
    }

    /** How many tokens a key has left. */
    ghost function Left(key: K): nat
      reads this
    {
      Tokens(table, rates, key)
    }

    constructor (r: Rates)
      requires ValidRates(r)
      ensures Valid() && rates == r
      ensures forall k :: Left(k) == r.capacity
    {
      rates := r;
      table := map[];
    }

    /** Takes the price from one bucket, if it holds that much. */
    method Withdraw(key: K) returns (ok: bool)
      requires Valid()
      modifies this
      ensures Valid()
      ensures ok <==> old(Left(key)) >= rates.price
      ensures table == WithdrawFrom(old(table), rates, key)
    {
      if key !in table {
        table := table[key := (rates.capacity - rates.price) as U8];
        return true;
      }
      if (table[key] as nat) < rates.price {
        return false;
      }
      table := table[key := table[key] - rates.price as U8];
      return true;
    }

    /** Adds the gain to every stored bucket and drops those that become full; the sum
        is formed in 8 bits, which the checks on the parameters keep from wrapping. */
    method Replenish()
      requires Valid()
      modifies this
      ensures Valid()
      ensures table == ReplenishAll(old(table), rates)
    {
      ghost var before := table;
      var todo := table.Keys;
      while todo != {}
        invariant todo <= table.Keys <= before.Keys
        invariant forall k <- todo :: table[k] == before[k]
        invariant forall k <- before.Keys - todo ::
          if (before[k] as nat) + rates.gain >= rates.capacity then k !in table
          else k in table && table[k] as nat == (before[k] as nat) + rates.gain
        decreases |todo|
      {
        var k :| k in todo;
        if table[k] + rates.gain as U8 >= rates.capacity as U8 {
          table := table - {k};
        } else {
          table := table[k := table[k] + rates.gain as U8];
        }
        todo := todo - {k};
      }
      assert table.Keys == ReplenishAll(before, rates).Keys;
    }
  }

  function WithdrawFrom<K>(m: map<K, U8>, r: Rates, key: K): map<K, U8>
    requires ValidRates(r) && (key in m ==> (m[key] as nat) < r.capacity)
  {
    if Tokens(m, r, key) < r.price then m
    else m[key := (Tokens(m, r, key) - r.price) as U8]
  }

  function ReplenishAll<K>(m: map<K, U8>, r: Rates): map<K, U8>
    requires ValidRates(r)
  {
    map k | k in m && (m[k] as nat) + r.gain < r.capacity :: ((m[k] as nat) + r.gain) as U8
  }

  /** Withdrawing is capped subtraction on one key. */
  lemma WithdrawIsDense<K>(m: map<K, U8>, r: Rates, key: K, k: K)
    requires ValidRates(r) && Sparse(m, r)
    ensures Sparse(WithdrawFrom(m, r, key), r)
    ensures Tokens(WithdrawFrom(m, r, key), r, k)
      == Tokens(m, r, k) - if k == key && Tokens(m, r, key) >= r.price then r.price else 0
  {
  }

  /** Replenishing is capped addition on every key at once. */
  lemma ReplenishIsDense<K>(m: map<K, U8>, r: Rates, k: K)
    requires ValidRates(r) && Sparse(m, r)
    ensures Sparse(ReplenishAll(m, r), r)
    ensures Tokens(ReplenishAll(m, r), r, k) == Min(Tokens(m, r, k) + r.gain, r.capacity)
  {
  }

  // ----- runs -----

  datatype Op<K> = Withdraw(key: K) | Epoch

  function StepOp<K>(m: map<K, U8>, r: Rates, op: Op<K>): map<K, U8>
    requires ValidRates(r)
    requires op.Withdraw? && op.key in m ==> (m[op.key] as nat) < r.capacity
  {
    match op
    case Withdraw(k) => WithdrawFrom(m, r, k)
    case Epoch => ReplenishAll(m, r)
  }

  lemma StepKeepsSparse<K>(m: map<K, U8>, r: Rates, op: Op<K>)
    requires ValidRates(r) && Sparse(m, r)
    ensures Sparse(StepOp(m, r, op), r)
  {
    if op.Withdraw? { WithdrawIsDense(m, r, op.key, op.key); }
  }

  ghost function RunOps<K>(m: map<K, U8>, r: Rates, ops: seq<Op<K>>): (m': map<K, U8>)
    requires ValidRates(r) && Sparse(m, r)
    ensures Sparse(m', r)
    decreases |ops|
  {
    StepKeepsSparse(m, r, if ops == [] then Epoch else ops[0]);
    if ops == [] then m else RunOps(StepOp(m, r, ops[0]), r, ops[1..])
  }

  /** The tokens a run takes from one key. */
  ghost function Taken<K>(m: map<K, U8>, r: Rates, ops: seq<Op<K>>, k: K): nat
    requires ValidRates(r) && Sparse(m, r)
    decreases |ops|
  {
    StepKeepsSparse(m, r, if ops == [] then Epoch else ops[0]);
    if ops == [] then 0
    else
      (if ops[0] == Withdraw(k) && Tokens(m, r, k) >= r.price then r.price else 0)
      + Taken(StepOp(m, r, ops[0]), r, ops[1..], k)
  }

  ghost function Epochs<K>(ops: seq<Op<K>>): nat {
    if ops == [] then 0 else (if ops[0].Epoch? then 1 else 0) + Epochs(ops[1..])
  }

  ghost function Gained<K>(ops: seq<Op<K>>, gain: nat): nat {
    if ops == [] then 0 else (if ops[0].Epoch? then gain else 0) + Gained(ops[1..], gain)
  }

  lemma {:induction false} GainedIsProduct<K>(ops: seq<Op<K>>, gain: nat)
    ensures Gained(ops, gain) == gain * Epochs(ops)
  {
    if ops != [] {
      GainedIsProduct(ops[1..], gain);
      assert gain * (1 + Epochs(ops[1..])) == gain + gain * Epochs(ops[1..]);
    }
  }

  lemma {:induction false} TakenIsCoveredByGains<K>(m: map<K, U8>, r: Rates, ops: seq<Op<K>>, k: K)
    requires ValidRates(r) && Sparse(m, r)
    ensures Taken(m, r, ops, k) + Tokens(RunOps(m, r, ops), r, k) <= Tokens(m, r, k) + Gained(ops, r.gain)
    decreases |ops|
  {
    if ops != [] {
      StepKeepsSparse(m, r, ops[0]);
      TakenIsCoveredByGains(StepOp(m, r, ops[0]), r, ops[1..], k);
      TokensStep(m, r, ops[0], k);
    }
  }

  /** One operation's effect on one key's tokens. */
  lemma TokensStep<K>(m: map<K, U8>, r: Rates, op: Op<K>, k: K)
    requires ValidRates(r) && Sparse(m, r)
    ensures var paid := if op == Withdraw(k) && Tokens(m, r, k) >= r.price then r.price else 0;
      Tokens(StepOp(m, r, op), r, k) + paid <= Tokens(m, r, k) + if op.Epoch? then r.gain else 0
  {
    match op {
      case Withdraw(key) => WithdrawIsDense(m, r, key, k);
      case Epoch => ReplenishIsDense(m, r, k);
    }
  }

  /** Over any window of a run, what one key loses is covered by what it had and gained. */
  lemma TakenIsCovered<K>(m: map<K, U8>, r: Rates, ops: seq<Op<K>>, k: K)
    requires ValidRates(r) && Sparse(m, r)
    ensures Taken(m, r, ops, k) + Tokens(RunOps(m, r, ops), r, k) <= Tokens(m, r, k) + r.gain * Epochs(ops)
    ensures Taken(m, r, ops, k) <= r.capacity + r.gain * Epochs(ops)
  {
    TakenIsCoveredByGains(m, r, ops, k);
    GainedIsProduct(ops, r.gain);
  }

  /** Operation i of a run is a withdrawal from this key, and it succeeds. */
  ghost predicate Succeeds<K>(m: map<K, U8>, r: Rates, ops: seq<Op<K>>, i: nat, k: K)
    requires ValidRates(r) && Sparse(m, r)
  {
    i < |ops| && ops[i] == Withdraw(k) && Tokens(RunOps(m, r, ops[..i]), r, k) >= r.price
  }

  lemma {:induction false} RunConcat<K>(m: map<K, U8>, r: Rates, a: seq<Op<K>>, b: seq<Op<K>>)
    requires ValidRates(r) && Sparse(m, r)
    ensures RunOps(m, r, a + b) == RunOps(RunOps(m, r, a), r, b)
    decreases |a|
  {
    if a == [] {
      assert a + b == b;
    } else {
      StepKeepsSparse(m, r, a[0]);
      assert (a + b)[1..] == a[1..] + b;
      RunConcat(StepOp(m, r, a[0]), r, a[1..], b);
    }
  }

  lemma AfterWithdrawal<K>(m: map<K, U8>, r: Rates, ops: seq<Op<K>>, i: nat, k: K)
    requires ValidRates(r) && Sparse(m, r) && Succeeds(m, r, ops, i, k)
    ensures Tokens(RunOps(m, r, ops[..i + 1]), r, k) == Tokens(RunOps(m, r, ops[..i]), r, k) - r.price
  {
    var v := RunOps(m, r, ops[..i]);
    assert ops[..i + 1] == ops[..i] + [Withdraw(k)];
    RunConcat(m, r, ops[..i], [Withdraw(k)]);
    WithdrawIsDense(v, r, k, k);
    assert RunOps(v, r, [Withdraw(k)]) == WithdrawFrom(v, r, k);
  }

  /** When a withdrawal takes a whole bucket, any later one from the same key succeeds
      only after at least capacity / gain epochs in between. */
  lemma FullPriceIsSpaced<K>(m: map<K, U8>, r: Rates, ops: seq<Op<K>>, i: nat, j: nat, k: K)
    requires ValidRates(r) && Sparse(m, r) && r.price == r.capacity
    requires i < j && Succeeds(m, r, ops, i, k) && Succeeds(m, r, ops, j, k)
    ensures r.gain * Epochs(ops[i + 1..j]) >= r.capacity
  {
    var v := RunOps(m, r, ops[..i + 1]);
    AfterWithdrawal(m, r, ops, i, k);
    assert ops[..j] == ops[..i + 1] + ops[i + 1..j];
    RunConcat(m, r, ops[..i + 1], ops[i + 1..j]);
    TokensCapped(RunOps(m, r, ops[..i]), r, k);
    TakenIsCovered(v, r, ops[i + 1..j], k);
  }

  lemma TokensCapped<K>(m: map<K, U8>, r: Rates, k: K)
    requires Sparse(m, r)
    ensures Tokens(m, r, k) <= r.capacity
  {
  }

  /** Over any run, two pings to one address are at least fifteen epochs apart. */
  lemma PingsAreSpaced<K>(m: map<K, U8>, ops: seq<Op<K>>, i: nat, j: nat, k: K)
    requires Sparse(m, PING_RATES) && i < j
    requires Succeeds(m, PING_RATES, ops, i, k) && Succeeds(m, PING_RATES, ops, j, k)
    ensures Epochs(ops[i + 1..j]) >= 15
  {
    FullPriceIsSpaced(m, PING_RATES, ops, i, j, k);
  }
}
