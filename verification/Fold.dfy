/** What a ring reduction computes: the operator folded round the ring, each rank once. */
module Fold {
  import opened RingIndex

  /**
   The partial result of chunk `c` after `j` hops: the contribution of rank `c + 1`, then of `c + 2`, up to `c + 1 + j`,
   each new rank's contribution on the left.
   */
  ghost function Chain<V>(op: (V, V) -> V, v: seq<V>, c: nat, j: nat): V
    requires c < |v| && j < |v|
  {
    if j == 0 then v[Ahead(c, 1, |v|)] else op(v[Ahead(c, 1 + j, |v|)], Chain(op, v, c, j - 1))
  }

  /** `v[c] op (v[c-1] op (... op v[c+1]))`. */
  ghost function Folded<V>(op: (V, V) -> V, v: seq<V>, c: nat): V
    requires c < |v|
  {
    Chain(op, v, c, |v| - 1)
  }

  /** ---- The order does not matter to an associative and commutative operator ---- */

  ghost predicate Associative<V(!new)>(op: (V, V) -> V) {
    forall a, b, c :: op(op(a, b), c) == op(a, op(b, c))
  }

  ghost predicate Commutative<V(!new)>(op: (V, V) -> V) {
    forall a, b :: op(a, b) == op(b, a)
  }

  /** The reduction in rank order, which is how MPI 3.1 section 5.9.1 defines it. */
  ghost function InOrder<V>(op: (V, V) -> V, v: seq<V>): V
    requires |v| > 0
  {
    if |v| == 1 then v[0] else op(v[0], InOrder(op, v[1..]))
  }

  lemma {:induction false} InOrderConcat<V(!new)>(op: (V, V) -> V, a: seq<V>, b: seq<V>)
    requires Associative(op) && |a| > 0 && |b| > 0
    ensures InOrder(op, a + b) == op(InOrder(op, a), InOrder(op, b))
  {
    assert (a + b)[1..] == a[1..] + b;
    if |a| > 1 {
      InOrderConcat(op, a[1..], b);
    }
  }

  /** The contributions in the order in which the chain of chunk `c` takes them up. */
  ghost function Walk<V>(v: seq<V>, c: nat, j: nat): (w: seq<V>)
    requires c < |v| && j < |v|
    ensures |w| == j + 1
  {
    seq(j + 1, i requires 0 <= i <= j => v[Ahead(c, 1 + i, |v|)])
  }

  lemma {:induction false} ChainIsInOrder<V(!new)>(op: (V, V) -> V, v: seq<V>, c: nat, j: nat)
    requires Associative(op) && Commutative(op) && c < |v| && j < |v|
    ensures Chain(op, v, c, j) == InOrder(op, Walk(v, c, j))
  {
    if j > 0 {
      ChainIsInOrder(op, v, c, j - 1);
      assert Walk(v, c, j) == Walk(v, c, j - 1) + [v[Ahead(c, 1 + j, |v|)]];
      InOrderConcat(op, Walk(v, c, j - 1), [v[Ahead(c, 1 + j, |v|)]]);
    }
  }

  lemma {:induction false} WalkIsRotation<V>(v: seq<V>, c: nat)
    requires c < |v|
    ensures Walk(v, c, |v| - 1) == v[c + 1..] + v[..c + 1]
  {
  }

  lemma {:induction false} Commute<V(!new)>(op: (V, V) -> V, a: V, b: V)
    requires Commutative(op)
    ensures op(a, b) == op(b, a)
  {
  }

  lemma {:induction false} InOrderRotate<V(!new)>(op: (V, V) -> V, a: seq<V>, b: seq<V>)
    requires Associative(op) && Commutative(op) && |a| > 0 && |b| > 0
    ensures InOrder(op, a + b) == InOrder(op, b + a)
  {
    InOrderConcat(op, a, b);
    InOrderConcat(op, b, a);
    Commute(op, InOrder(op, a), InOrder(op, b));
  }

  lemma {:induction false} FoldIsRotatedSum<V(!new)>(op: (V, V) -> V, v: seq<V>, c: nat)
    requires Associative(op) && Commutative(op) && c < |v|
    ensures Folded(op, v, c) == InOrder(op, v[c + 1..] + v[..c + 1])
  {
    ChainIsInOrder(op, v, c, |v| - 1);
    WalkIsRotation(v, c);
  }

  lemma {:induction false} RotatedSum<V(!new)>(op: (V, V) -> V, v: seq<V>, k: nat)
    requires Associative(op) && Commutative(op) && 0 < k <= |v|
    ensures InOrder(op, v[k..] + v[..k]) == InOrder(op, v)
  {
    if k < |v| {
      InOrderRotate(op, v[..k], v[k..]);
      assert v[..k] + v[k..] == v;
    } else {
      assert v[k..] + v[..k] == v;
    }
  }

  /** Whichever rank the ring fold ends at, it is the sum over all ranks in rank order. */
  lemma {:induction false} FoldIsSum<V(!new)>(op: (V, V) -> V, v: seq<V>, c: nat)
    requires Associative(op) && Commutative(op) && c < |v|
    ensures Folded(op, v, c) == InOrder(op, v)
  {
    FoldIsRotatedSum(op, v, c);
    RotatedSum(op, v, c + 1);
  }
}
