/** Gather, all-gather and reduce by a whole ring of engines: the moves each rank's firmware chooses, run on its memory. */
module RingCollectives {
  import opened RingIndex
  import opened Segments
  import opened SpareBuffers
  import opened TransferEngine
  import opened Buffers
  import opened Composition
  import opened RingOfEngines
  import N = Network
  import F = Fold
  import G = Gather
  import A = Allgather
  import R = Reduce

  /** Block `c` of the destination of rank `r` is `data`, byte for byte. */
  ghost predicate HoldsBlock(t: Team<Block>, r: nat, s: Before, c: nat, data: seq<Byte>)
    requires r < |t.ks|
  {
    var at := t.ks[r].place(Dst(c));
    |data| == t.len && at + t.len <= |s.mem| && s.mem[at..at + t.len] == data
  }

  lemma {:induction false} CellIsBlock(t: Team<Block>, out: (nat, nat) -> seq<Byte>, r: nat, s: Before, c: nat)
    requires Proper(t) && r < |t.es| && Solved(t, out, r, s) && Dst(c) in N.MemAt(t.g, out, r, |t.g.progs[r]|)
    ensures HoldsBlock(t, r, s, c, N.MemAt(t.g, out, r, |t.g.progs[r]|)[Dst(c)])
  {
    assert Cells(s.mem, t.ks[r].place, t.cells[r], t.len)[Dst(c)] == N.MemAt(t.g, out, r, |t.g.progs[r]|)[Dst(c)];
    assert Dst(c) in t.cells[r];
  }

  /** The k-th message of rank `r` is the block of rank `r - k`. */
  ghost function Blocks(y: (nat, nat) -> seq<Byte>, n: nat): (nat, nat) -> seq<Byte> {
    (r: nat, k: nat) => if r < n && k <= n then y(Back(r, k, n), 0) else []
  }

  method GatherPrograms(size: nat, root: nat) returns (progs: seq<seq<N.Instr<Block>>>)
    requires size >= 2 && root < size
    ensures |progs| == size && forall r :: 0 <= r < size ==> progs[r] == G.Program(r, root, size)
  {
    progs := [];
    var r := 0;
    while r < size
      invariant r <= size && |progs| == r && forall q :: 0 <= q < r ==> progs[q] == G.Program(q, root, size)
    {
      var moves := G.GatherRing(r, size, root);
      progs := progs + [moves];
      r := r + 1;
    }
  }

  ghost predicate Gathered(t: Team<Block>, y: (nat, nat) -> seq<Byte>, r: nat, s: Before)
    requires r < |t.ks|
  {
    forall c: nat :: c < |t.es| ==> HoldsBlock(t, r, s, c, y(c, 0))
  }

  /** `gather_ring` on `size` ranks: the root ends with the block of every rank `c` at block `c` of its destination. */
  method GatherOnRing(es: seq<Engine>, ks: seq<Rank<Block>>, size: nat, root: nat, ghost t: Team<Block>, ghost y: (nat, nat) -> seq<Byte>, attempts: nat)
    returns (code: Code, ghost ends: seq<Before>)
    requires Proper(t) && t.es == es && t.ks == ks && |es| == size && root < size && G.Runs(t.g, t.g.progs, y, size, root) && Underway(t, [])
    modifies es, set e | e in es :: e.pool
    ensures code == Success || code == ReceiveTimeout
    ensures code == Success ==> |ends| == size && Underway(t, ends) && (AllCarry(t, ends) ==> Gathered(t, y, root, ends[root]))
    ensures code == Success && WiresBring(t, Blocks(y, size)) ==> AllCarry(t, ends)
    ensures old(AllProvided(t, 0, attempts)) ==> code == Success
  {
    var progs := GatherPrograms(size, root);
    assert progs == t.g.progs;
    ghost var out, time := Blocks(y, size), (r: nat, i: nat) => G.Clock(r, root, size, i);
    G.GatherSolves(t.g, t.g.progs, y, size, root, out);
    G.GatherCausal(t.g, t.g.progs, y, size, root, time);
    code, ends := RunRing(es, progs, ks, t, out, time, attempts);
    if code == Success && AllCarry(t, ends) {
      forall c: nat | c < size ensures HoldsBlock(t, root, ends[root], c, y(c, 0)) {
        assert Solved(t, out, root, ends[root]);
        G.EveryBlock(t.g, t.g.progs, y, size, root, out, c);
        CellIsBlock(t, out, root, ends[root], c);
      }
    }
  }

  method AllgatherPrograms(size: nat) returns (progs: seq<seq<N.Instr<Block>>>)
    requires size >= 2
    ensures |progs| == size && forall r :: 0 <= r < size ==> progs[r] == A.Program(r, size)
  {
    progs := [];
    var r := 0;
    while r < size
      invariant r <= size && |progs| == r && forall q :: 0 <= q < r ==> progs[q] == A.Program(q, size)
    {
      var moves := A.AllgatherRing(r, size);
      progs := progs + [moves];
      r := r + 1;
    }
  }

  /** `allgather_ring` on `size` ranks: every rank ends with every block in its place. */
  method AllgatherOnRing(es: seq<Engine>, ks: seq<Rank<Block>>, size: nat, ghost t: Team<Block>, ghost y: (nat, nat) -> seq<Byte>, attempts: nat)
    returns (code: Code, ghost ends: seq<Before>)
    requires Proper(t) && t.es == es && t.ks == ks && |es| == size && A.Runs(t.g, t.g.progs, y, size) && Underway(t, [])
    modifies es, set e | e in es :: e.pool
    ensures code == Success || code == ReceiveTimeout
    ensures code == Success ==>
      |ends| == size && Underway(t, ends) && (AllCarry(t, ends) ==> forall r: nat :: r < size ==> Gathered(t, y, r, ends[r]))
    ensures code == Success && WiresBring(t, Blocks(y, size)) ==> AllCarry(t, ends)
    ensures old(AllProvided(t, 0, attempts)) ==> code == Success
  {
    var progs := AllgatherPrograms(size);
    assert progs == t.g.progs;
    ghost var out, time := Blocks(y, size), (r: nat, i: nat) => i;
    A.AllgatherSolves(t.g, t.g.progs, y, size, out);
    A.AllgatherCausal(t.g, t.g.progs, y, size, time);
    code, ends := RunRing(es, progs, ks, t, out, time, attempts);
    if code == Success && AllCarry(t, ends) {
      forall r: nat | r < size ensures Gathered(t, y, r, ends[r]) {
        assert Solved(t, out, r, ends[r]);
        forall c: nat | c < size ensures HoldsBlock(t, r, ends[r], c, y(c, 0)) {
          A.EveryBlock(t.g, t.g.progs, y, size, out, r, c);
          CellIsBlock(t, out, r, ends[r], c);
        }
      }
    }
  }

  method ReducePrograms(size: nat, root: nat) returns (progs: seq<seq<N.Instr<Block>>>)
    requires size >= 2 && root < size
    ensures |progs| == size && forall r :: 0 <= r < size ==> progs[r] == [R.MoveOf(r, root, size)]
  {
    progs := [];
    var r := 0;
    while r < size
      invariant r <= size && |progs| == r && forall q :: 0 <= q < r ==> progs[q] == [R.MoveOf(q, root, size)]
    {
      var moves := R.ReduceRingStreaming(r, size, root);
      progs := progs + [moves];
      r := r + 1;
    }
  }

  /** The partial results of a reduction. */
  ghost function Partials(op: (seq<Byte>, seq<Byte>) -> seq<Byte>, y: (nat, nat) -> seq<Byte>, n: nat, root: nat): (nat, nat) -> seq<Byte>
    requires root < n
  {
    (r: nat, k: nat) => if r < n then F.Chain(op, R.Contributions(y, n), root, R.Hops(r, root, n) - 1) else []
  }

  /** `reduce_ring_streaming` on `size` ranks: the root ends with `y[root] op (y[root-1] op (... op y[root+1]))`. */
  method ReduceOnRing(es: seq<Engine>, ks: seq<Rank<Block>>, size: nat, root: nat, ghost t: Team<Block>, ghost y: (nat, nat) -> seq<Byte>, attempts: nat)
    returns (code: Code, ghost ends: seq<Before>)
    requires Proper(t) && t.es == es && t.ks == ks && |es| == size && root < size && R.Runs(t.g, t.g.progs, y, size, root) && Underway(t, [])
    modifies es, set e | e in es :: e.pool
    ensures code == Success || code == ReceiveTimeout
    ensures code == Success ==>
      && |ends| == size && Underway(t, ends)
      && (AllCarry(t, ends) ==> HoldsBlock(t, root, ends[root], 0, F.Folded(t.g.op, R.Contributions(y, size), root)))
    ensures code == Success && WiresBring(t, Partials(t.g.op, y, size, root)) ==> AllCarry(t, ends)
    ensures old(AllProvided(t, 0, attempts)) ==> code == Success
  {
    var progs := ReducePrograms(size, root);
    assert progs == t.g.progs;
    ghost var out, time := Partials(t.g.op, y, size, root), (r: nat, i: nat) => R.Clock(r, root, size);
    R.ReduceSolves(t.g, t.g.progs, y, size, root, out);
    R.ReduceCausal(t.g, t.g.progs, y, size, root, time);
    code, ends := RunRing(es, progs, ks, t, out, time, attempts);
    if code == Success && AllCarry(t, ends) {
      assert Solved(t, out, root, ends[root]);
      R.RootResult(t.g, t.g.progs, y, size, root, out);
      CellIsBlock(t, out, root, ends[root], 0);
    }
  }
}
