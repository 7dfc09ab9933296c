/** Indices that go round: the arithmetic behind round-robin selection. */
module Rotation {

  /** The index `k` steps on from `start` in a ring of `n`. */
  function Ring(start: nat, k: nat, n: nat): (i: nat)
    requires start < n && k < n
    ensures i < n
  {
    if start + k < n then start + k else start + k - n
  }

  lemma {:induction false} MulBounds(d: int, n: nat)
    ensures d >= 1 ==> d * n >= n
    ensures d <= -1 ==> d * n <= -(n as int)
  {
  }

  lemma {:induction false} RemainderUnique(x: nat, n: nat, q: nat, r: nat)
    requires r < n && x == q * n + r
    ensures x % n == r
  {
    var d := x / n - q;
    assert d * n == r - x % n by {
      assert x == (x / n) * n + x % n;
      assert d * n == (x / n) * n - q * n;
    }
    MulBounds(d, n);
  }

  lemma {:induction false} RemainderStep(x: nat, n: nat)
    requires n > 0
    ensures (x + 1) % n == if x % n + 1 == n then 0 else x % n + 1
  {
    var q := x / n;
    assert x == q * n + x % n;
    if x % n + 1 == n {
      assert x + 1 == (q + 1) * n + 0 by {
        assert (q + 1) * n == q * n + n;
      }
      RemainderUnique(x + 1, n, q + 1, 0);
    } else {
      RemainderUnique(x + 1, n, q, x % n + 1);
    }
  }

  /** A counter taken modulo `n` walks round the ring. */
  lemma {:induction false} CounterWalks(c: nat, k: nat, n: nat)
    requires k < n
    ensures (c + k) % n == Ring(c % n, k, n)
  {
    if k > 0 {
      CounterWalks(c, k - 1, n);
      RemainderStep(c + k - 1, n);
    }
  }

  /** Where in a round an index comes up. */
  function Offset(start: nat, i: nat, n: nat): (k: nat)
    requires start < n && i < n
    ensures k < n && Ring(start, k, n) == i
    ensures forall j: nat :: j < n && Ring(start, j, n) == i ==> j == k
  {
    if i >= start then i - start else n - start + i
  }

  /** The index chosen by the counter value `c + j`. */
  function Selected(c: nat, j: nat, n: nat): nat
    requires n > 0
  {
    (c + j) % n
  }

  /** Any `n` consecutive counter values select each of `n` indices exactly once. */
  lemma {:induction false} EachSelectedOnce(c: nat, n: nat, i: nat) returns (k: nat)
    requires i < n
    ensures k < n && Selected(c, k, n) == i
    ensures forall j: nat :: j < n && Selected(c, j, n) == i ==> j == k
  {
    k := Offset(c % n, i, n);
    CounterWalks(c, k, n);
    forall j: nat | j < n && Selected(c, j, n) == i ensures j == k {
      CounterWalks(c, j, n);
    }
  }

  /** The indices chosen by `n` consecutive counter values from `c` on. */
  function Round(c: nat, n: nat): seq<nat>
    requires n > 0
  {
    seq(n, j requires 0 <= j < n => Selected(c, j, n))
  }

  /** A round is a permutation of the indices. */
  lemma {:induction false} RoundIsFair(c: nat, n: nat)
    requires n > 0
    ensures |Round(c, n)| == n && forall i :: 0 <= i < n ==> i in Round(c, n)
    ensures forall j, k :: 0 <= j < k < n ==> Round(c, n)[j] != Round(c, n)[k]
  {
    forall i | 0 <= i < n ensures i in Round(c, n) {
      var k := EachSelectedOnce(c, n, i);
      assert Round(c, n)[k] == i;
    }
    forall j, k | 0 <= j < k < n ensures Round(c, n)[j] != Round(c, n)[k] {
      var only := EachSelectedOnce(c, n, Selected(c, j, n));
    }
  }
}
