/** The round-robin step shared by both key pools: `index := (index + 1) % len(keys)`. */
module Rotation {

  import opened Arith

  /** The index after one rotation over a pool of `n` keys. */
  function Next(i: nat, n: nat): (j: nat)
    requires n > 0
    ensures j < n
  {
    (i + 1) % n
  }

  /** The index after `k` rotations starting from `i`. */
  function Advance(i: nat, n: nat, k: nat): (j: nat)
    requires n > 0
    ensures k > 0 ==> j < n
    decreases k
  {
    if k == 0 then i else Next(Advance(i, n, k - 1), n)
  }

  /** Rotating once and then `k` times is rotating `k + 1` times. */
  lemma {:induction false} AdvanceShift(i: nat, n: nat, k: nat)
    requires n > 0
    ensures Advance(Next(i, n), n, k) == Advance(i, n, k + 1)
    decreases k
  {
    if k > 0 {
      AdvanceShift(i, n, k - 1);
    }
  }

  /** Every rotation adds one modulo the pool size, whatever the starting index. */
  lemma {:induction false} AdvanceMod(i: nat, n: nat, k: nat)
    requires n > 0 && k > 0
    ensures Advance(i, n, k) == (i + k) % n
    decreases k
  {
    if k > 1 {
      AdvanceMod(i, n, k - 1);
      ModSucc(i + k - 1, n);
    }
  }

  /** `((x % n) + 1) % n == (x + 1) % n`. */
  lemma ModSucc(x: nat, n: nat)
    requires n > 0
    ensures (x % n + 1) % n == (x + 1) % n
  {
    var q, r := x / n, x % n;
    if r + 1 < n {
      ModUnique(r + 1, n, 0, r + 1);
      ModUnique(x + 1, n, q, r + 1);
    } else {
      ModUnique(r + 1, n, 1, 0);
      ModUnique(x + 1, n, q + 1, 0);
    }
  }

  /** Starting from an index in range, rotating once per key comes back to the start. */
  lemma FullCycle(i: nat, n: nat)
    requires 0 < n && i < n
    ensures Advance(i, n, n) == i
  {
    AdvanceMod(i, n, n);
    ModUnique(i + n, n, 1, i);
  }

  /** Starting from any index, a full cycle lands on that index reduced modulo the pool size. */
  lemma FullCycleFromAny(i: nat, n: nat)
    requires 0 < n
    ensures Advance(i, n, n) == i % n
  {
    AdvanceMod(i, n, n);
    ModUnique(i + n, n, i / n + 1, i % n);
  }

  /** `(i + k) % n` for `i, k` in range, without the modulus. */
  lemma WrapOnce(i: nat, n: nat, k: nat)
    requires i < n && k < n
    ensures (i + k) % n == if i + k < n then i + k else i + k - n
  {
    if i + k < n {
      ModUnique(i + k, n, 0, i + k);
    } else {
      ModUnique(i + k, n, 1, i + k - n);
    }
  }

  /** The first `n` positions of a rotation from an index in range are pairwise distinct: each key is visited once. */
  lemma VisitsEachOnce(i: nat, n: nat, k1: nat, k2: nat)
    requires 0 < n && i < n
    requires k1 < k2 < n
    ensures Advance(i, n, k1) != Advance(i, n, k2)
  {
    AdvanceMod(i, n, k2);
    WrapOnce(i, n, k2);
    if k1 > 0 {
      AdvanceMod(i, n, k1);
      WrapOnce(i, n, k1);
    }
  }
}
