// Notions for reasoning about histories and lists: the entries of a log in the order written,
// chains of causes that lead from a beginning to an entry, and the elements picked by index.

module Causes {
  /** The entries of a log, event by event. */
  function Flat<T>(log: seq<seq<T>>): seq<T>
    decreases |log|
  {
    if log == [] then [] else Flat(log[..|log| - 1]) + log[|log| - 1]
  }

  /** Entry i was written by one event; the entries before that event come first. */
  lemma {:induction false} FlatOrigin<T>(log: seq<seq<T>>, i: nat) returns (at: nat, j: nat)
    requires i < |Flat(log)|
    ensures at < |log| && j < |log[at]| && Flat(log)[i] == log[at][j] && i == |Flat(log[..at])| + j
    decreases |log|
  {
    var n := |log| - 1;
    if i < |Flat(log[..n])| {
      at, j := FlatOrigin(log[..n], i);
      assert log[..n][..at] == log[..at];
    } else {
      at, j := n, i - |Flat(log[..n])|;
    }
  }

  lemma {:induction false} FlatPrefix<T>(log: seq<seq<T>>, at: nat)
    requires at <= |log|
    ensures Flat(log[..at]) <= Flat(log)
    decreases |log|
  {
    var n := |log| - 1;
    if at <= n {
      FlatPrefix(log[..n], at);
      assert log[..n][..at] == log[..at];
    } else {
      assert log[..at] == log;
    }
  }

  /** Every entry of an event is in the log. */
  lemma FlatMember<T>(log: seq<seq<T>>, at: nat, x: T) returns (i: nat)
    requires at < |log| && x in log[at]
    ensures i < |Flat(log)| && Flat(log)[i] == x
  {
    FlatPrefix(log, at + 1);
    assert log[..at + 1][..at] == log[..at];
    var j: nat :| j < |log[at]| && log[at][j] == x;
    i := |Flat(log[..at])| + j;
  }

  /** A chain from a beginning to i, forward along the links. */
  ghost predicate IsChain(begins: nat -> bool, link: (nat, nat) -> bool, c: seq<nat>, i: nat) {
    && |c| > 0 && c[|c| - 1] == i && begins(c[0])
    && forall j :: 1 <= j < |c| ==> c[j - 1] < c[j] && link(c[j - 1], c[j])
  }

  ghost predicate Caused(begins: nat -> bool, link: (nat, nat) -> bool, i: nat) {
    begins(i) || exists k: nat :: k < i && link(k, i)
  }

  lemma ChainExtends(begins: nat -> bool, link: (nat, nat) -> bool, c: seq<nat>, k: nat, i: nat)
    requires IsChain(begins, link, c, k) && k < i && link(k, i)
    ensures IsChain(begins, link, c + [i], i)
  {
    var c' := c + [i];
    assert c'[0] == c[0];
    forall j | 1 <= j < |c'| ensures c'[j - 1] < c'[j] && link(c'[j - 1], c'[j]) {
      if j < |c| {
        assert c'[j] == c[j] && c'[j - 1] == c[j - 1];
      }
    }
  }

  /** Where everything either is a beginning or has an earlier cause, chains lead everywhere. */
  lemma {:induction false} ChainExists(begins: nat -> bool, link: (nat, nat) -> bool, i: nat)
    requires forall x: nat :: x <= i ==> Caused(begins, link, x)
    ensures exists c :: IsChain(begins, link, c, i)
    decreases i
  {
    if begins(i) {
      assert IsChain(begins, link, [i], i);
    } else {
      assert Caused(begins, link, i);
      var k: nat :| k < i && link(k, i);
      ChainExists(begins, link, k);
      var c :| IsChain(begins, link, c, k);
      ChainExtends(begins, link, c, k, i);
    }
  }

  /** The elements from the i-th on whose index is kept. */
  ghost function Pick<T>(xs: seq<T>, keep: nat -> bool, i: nat): seq<T>
    requires i <= |xs|
    decreases |xs| - i
  {
    if i == |xs| then [] else (if keep(i) then [xs[i]] else []) + Pick(xs, keep, i + 1)
  }

  ghost predicate Kept<T>(xs: seq<T>, keep: nat -> bool, k: nat, x: T) {
    k < |xs| && keep(k) && xs[k] == x
  }

  lemma {:induction false} PickedIsKept<T>(xs: seq<T>, keep: nat -> bool, i: nat, x: T) returns (k: nat)
    requires i <= |xs| && x in Pick(xs, keep, i)
    ensures i <= k && Kept(xs, keep, k, x)
    decreases |xs| - i
  {
    if keep(i) && xs[i] == x {
      k := i;
    } else {
      k := PickedIsKept(xs, keep, i + 1, x);
    }
  }

  lemma {:induction false} KeptIsPicked<T>(xs: seq<T>, keep: nat -> bool, i: nat, k: nat, x: T)
    requires i <= k && Kept(xs, keep, k, x)
    ensures x in Pick(xs, keep, i)
    decreases k - i
  {
    if i < k {
      KeptIsPicked(xs, keep, i + 1, k, x);
    }
  }

  /** Picking behind the first element. */
  lemma {:induction false} PickBehind<T>(xs: seq<T>, keep: nat -> bool, keep': nat -> bool, i: nat)
    requires xs != [] && i < |xs| && forall k: nat :: k < |xs| - 1 ==> (keep'(k) <==> keep(k + 1))
    ensures Pick(xs[1..], keep', i) == Pick(xs, keep, i + 1)
    decreases |xs| - i
  {
    if i < |xs| - 1 {
      PickBehind(xs, keep, keep', i + 1);
    }
  }
}
