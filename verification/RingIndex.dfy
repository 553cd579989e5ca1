/**
 Indices of a ring of `n` ranks. The walks are written without a remainder, so that reasoning about them is linear;
 the lemmas at the end tie them to the source's remainder expressions.
 */
module RingIndex {

  function Next(r: nat, n: nat): nat {
    if r + 1 < n then r + 1 else 0
  }

  function Prev(r: nat, n: nat): nat {
    if r > 0 then r - 1 else if n > 0 then n - 1 else 0
  }

  /** The rank `k` hops before `r`, for at most one full round. */
  function Back(r: nat, k: nat, n: nat): nat
    requires r < n && k <= n
  {
    if k <= r then r - k else r + n - k
  }

  /** The rank `k` hops after `r`, for at most one full round. */
  function Ahead(r: nat, k: nat, n: nat): nat
    requires r < n && k <= n
  {
    if r + k < n then r + k else r + k - n
  }

  lemma {:induction false} MultipleSign(d: int, n: nat)
    ensures d >= 1 ==> d * n >= n
    ensures d <= 0 ==> d * n <= 0
    ensures d <= -1 ==> d * n + n <= 0
  {
  }

  lemma {:induction false} Quotient(x: int, n: nat, q: int)
    requires 0 <= x - q * n < n
    ensures x / n == q && x % n == x - q * n
  {
    var d := x / n - q;
    assert d * n == (x / n) * n - q * n;
    MultipleSign(d, n);
  }

  /** The source's `(rank + 1) % size`. */
  lemma {:induction false} NextIsRemainder(r: nat, n: nat)
    requires r < n
    ensures (r + 1) % n == Next(r, n) == Ahead(r, 1, n)
  {
    Quotient(r + 1, n, if r + 1 == n then 1 else 0);
  }

  /** The source's `(rank + size - 1) % size`. */
  lemma {:induction false} PrevIsRemainder(r: nat, n: nat)
    requires r < n
    ensures (r + n - 1) % n == Prev(r, n) == Back(r, 1, n)
  {
    Quotient(r + n - 1, n, if r == 0 then 0 else 1);
  }

  /** The source's distance of a rank from the root, `(size + rank - root) % size`. */
  lemma {:induction false} DistanceIsRemainder(r: nat, root: nat, n: nat)
    requires r < n && root < n
    ensures (n + r - root) % n == Back(r, root, n)
  {
    Quotient(n + r - root, n, if r < root then 0 else 1);
  }

  /** One further step of the source's `(pos + size - 1) % size` walk. */
  lemma {:induction false} WalkStep(r: nat, k: nat, n: nat)
    requires r < n && k < n
    ensures (Back(r, k, n) + n - 1) % n == Back(r, k + 1, n)
  {
    PrevIsRemainder(Back(r, k, n), n);
  }
}
