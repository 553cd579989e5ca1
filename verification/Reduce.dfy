/** Reduce (`reduce_ring_streaming`): a partial result starts at the root's successor and gains a rank at every hop. */
module Reduce {
  import opened RingIndex
  import opened Network
  import opened Wrappers
  import opened Lanes
  import opened LaneRuns
  import opened Buffers
  import opened Fold

  /** Which of the three roles a rank plays, tested in the source's order. */
  function MoveOf(r: nat, root: nat, n: nat): Instr<Block>
    requires r < n && root < n
  {
    if Prev(r, n) == root then Send(Src(0))
    else if r != root then ReduceSend(Src(0))
    else ReduceStore(Src(0), Dst(0))
  }

  method ReduceRingStreaming(rank: nat, size: nat, root: nat) returns (moves: seq<Instr<Block>>)
    requires size >= 2 && rank < size && root < size
    ensures moves == [MoveOf(rank, root, size)]
  {
    var prev := (rank + size - 1) % size;
    PrevIsRemainder(rank, size);
    if prev == root {
      moves := [Send(Src(0))];
    } else if rank != root {
      moves := [ReduceSend(Src(0))];
    } else {
      moves := [ReduceStore(Src(0), Dst(0))];
    }
  }

  function Sizes(root: nat, n: nat): seq<nat> {
    seq(n, r => if r == root then 1 else 0)
  }

  ghost function Contributions<V>(y: (nat, nat) -> V, n: nat): seq<V> {
    seq(n, r requires 0 <= r => y(r, 0))
  }

  /** How many hops rank `r` is past the root; the root itself comes last. */
  function Hops(r: nat, root: nat, n: nat): (d: nat)
    requires r < n && root < n
    ensures 1 <= d <= n
  {
    if r == root then n else Back(r, root, n)
  }

  ghost predicate Runs<V>(g: Ring<Block, V>, progs: seq<seq<Instr<Block>>>, y: (nat, nat) -> V, n: nat, root: nat) {
    && root < n
    && Job(g, progs, y, n, 1, Sizes(root, n))
    && forall r :: 0 <= r < n ==> progs[r] == [MoveOf(r, root, n)]
  }

  /** The one message of a rank other than the root is the fold so far. */
  ghost predicate Carries<V>(op: (V, V) -> V, y: (nat, nat) -> V, n: nat, root: nat, out: (nat, nat) -> V)
    requires root < n
  {
    forall r: nat :: r < n && r != root ==> out(r, 0) == Chain(op, Contributions(y, n), root, Hops(r, root, n) - 1)
  }

  lemma {:induction false} Counts(m: Instr<Block>)
    ensures Sent([m], 0) == Received([m], 0) == 0
    ensures Sent([m], 1) == if Sends(m) then 1 else 0
    ensures Received([m], 1) == if Receives(m) then 1 else 0
  {
  }

  lemma {:induction false} Takes<V>(g: Ring<Block, V>, progs: seq<seq<Instr<Block>>>, y: (nat, nat) -> V, n: nat, root: nat, out: (nat, nat) -> V, r: nat)
    requires Runs(g, progs, y, n, root) && Carries(g.op, y, n, root, out) && r < n && Receives(MoveOf(r, root, n))
    ensures Hops(r, root, n) >= 2
    ensures Incoming(g, out, r, 0) == Some(Chain(g.op, Contributions(y, n), root, Hops(r, root, n) - 2))
  {
    Counts(MoveOf(r, root, n));
    assert Hops(Prev(r, n), root, n) == Hops(r, root, n) - 1;
  }

  lemma {:induction false} OwnContribution<V>(op: (V, V) -> V, y: (nat, nat) -> V, n: nat, root: nat, r: nat)
    requires root < n && r < n
    ensures var v, d := Contributions(y, n), Hops(r, root, n);
      Chain(op, v, root, d - 1) == if d == 1 then y(r, 0) else op(y(r, 0), Chain(op, v, root, d - 2))
  {
    assert Ahead(root, Hops(r, root, n), n) == r;
  }

  lemma {:induction false} ReduceSolves<V>(g: Ring<Block, V>, progs: seq<seq<Instr<Block>>>, y: (nat, nat) -> V, n: nat, root: nat, out: (nat, nat) -> V)
    requires Runs(g, progs, y, n, root) && Carries(g.op, y, n, root, out)
    ensures Solves(g, out)
  {
    forall r, i | 0 <= r < n && 0 <= i < |g.progs[r]| && Sends(g.progs[r][i])
      ensures Outgoing(g.op, g.progs[r][i], MemAt(g, out, r, i), Incoming(g, out, r, i)) == out(r, Sent(g.progs[r], i))
    {
      Counts(MoveOf(r, root, n));
      SourceKept(g, progs, y, n, 1, Sizes(root, n), out, r, 0, 0);
      OwnContribution(g.op, y, n, root, r);
      if Receives(g.progs[r][i]) {
        Takes(g, progs, y, n, root, out, r);
      }
    }
  }

  function Clock(r: nat, root: nat, n: nat): nat {
    if r < n && root < n then Hops(r, root, n) else 0
  }

  lemma {:induction false} ReduceCausal<V>(g: Ring<Block, V>, progs: seq<seq<Instr<Block>>>, y: (nat, nat) -> V, n: nat, root: nat, time: (nat, nat) -> nat)
    requires Runs(g, progs, y, n, root)
    requires forall r: nat, i: nat :: time(r, i) == Clock(r, root, n)
    ensures Causal(g, time) && Balanced(g)
  {
    forall r, i, j | 0 <= r < n && 0 <= i < |g.progs[r]| && 0 <= j <= |g.progs[Prev(r, n)]|
      ensures Precedes(g, time, r, i, j)
    {
      Counts(MoveOf(r, root, n));
      Counts(MoveOf(Prev(r, n), root, n));
    }
    forall r | 0 <= r < n ensures Sent(g.progs[r], |g.progs[r]|) == Received(g.progs[Next(r, n)], |g.progs[Next(r, n)]|) {
      Counts(MoveOf(r, root, n));
      Counts(MoveOf(Next(r, n), root, n));
    }
  }

  lemma {:induction false} RootResult<V>(g: Ring<Block, V>, progs: seq<seq<Instr<Block>>>, y: (nat, nat) -> V, n: nat, root: nat, out: (nat, nat) -> V)
    requires Runs(g, progs, y, n, root) && Carries(g.op, y, n, root, out)
    ensures Dst(0) in MemAt(g, out, root, 1) && MemAt(g, out, root, 1)[Dst(0)] == Folded(g.op, Contributions(y, n), root)
  {
    Takes(g, progs, y, n, root, out, root);
    SourceKept(g, progs, y, n, 1, Sizes(root, n), out, root, 0, 0);
    AfterReduceStore(g, out, root, 0, Src(0), Dst(0));
    OwnContribution(g.op, y, n, root, root);
  }

  ghost predicate Calls<V>(g: Ring<(Block, nat), V>, progs: seq<seq<Instr<Block>>>, S: nat, x: (nat, nat, nat) -> V, n: nat, root: nat) {
    && root < n
    && SegmentedJob(g, progs, S, x, n, 1, Sizes(root, n))
    && forall r :: 0 <= r < n ==> progs[r] == [MoveOf(r, root, n)]
  }

  ghost function AllMessages<V>(op: (V, V) -> V, x: (nat, nat, nat) -> V, n: nat, root: nat): (nat, nat, nat) -> V {
    (s: nat, r: nat, k: nat) =>
      if r < n && root < n then Chain(op, Contributions(LaneOut(x, s), n), root, Hops(r, root, n) - 1) else x(s, r, k)
  }

  lemma {:induction false} LaneSolved<V>(g: Ring<(Block, nat), V>, progs: seq<seq<Instr<Block>>>, S: nat, x: (nat, nat, nat) -> V,
                                         n: nat, root: nat, s: nat)
    requires Calls(g, progs, S, x, n, root) && s < S
    ensures WellFormed(g) && Runs(Lane(g, progs, s), progs, LaneOut(x, s), n, root)
    ensures Carries(g.op, LaneOut(x, s), n, root, LaneOut(AllMessages(g.op, x, n, root), s))
    ensures Solves(Lane(g, progs, s), LaneOut(AllMessages(g.op, x, n, root), s))
  {
    LaneJob(g, progs, S, x, n, 1, Sizes(root, n), s);
    ReduceSolves(Lane(g, progs, s), progs, LaneOut(x, s), n, root, LaneOut(AllMessages(g.op, x, n, root), s));
  }

  /**
   Under every schedule of the segment moves: a run that cannot go on has made every move, left no message on a link,
   and every segment of the root's result is `x[root] op (x[root-1] op (... op x[root+1]))`, each rank used once. For an
   associative and commutative operator that is the sum in rank order.
   */
  lemma {:induction false} ReduceCorrect<V(!new)>(g: Ring<(Block, nat), V>, progs: seq<seq<Instr<Block>>>, S: nat, x: (nat, nat, nat) -> V,
                                                  n: nat, root: nat, sched: seq<nat>, t: State<(Block, nat), V>, r: nat, s: nat)
    requires Calls(g, progs, S, x, n, root) && WellFormed(g) && Reaches(g, Initial(g), sched, t)
    requires r < n && s < S
    ensures |sched| <= Sum(Lengths(g)) && (Stuck(g, t) <==> |sched| == Sum(Lengths(g)))
    ensures Stuck(g, t) ==> t.link[r] == [] && (Dst(0), s) in t.mem[root]
    ensures Stuck(g, t) ==> t.mem[root][(Dst(0), s)] == Folded(g.op, Contributions(LaneOut(x, s), n), root)
    ensures Stuck(g, t) && Associative(g.op) && Commutative(g.op) ==>
      t.mem[root][(Dst(0), s)] == InOrder(g.op, Contributions(LaneOut(x, s), n))
  {
    var outs := AllMessages(g.op, x, n, root);
    forall s | 0 <= s < S ensures WellFormed(Lane(g, progs, s)) && Solves(Lane(g, progs, s), LaneOut(outs, s)) {
      LaneSolved(g, progs, S, x, n, root, s);
    }
    LaneSolved(g, progs, S, x, n, root, 0);
    var time := (r: nat, i: nat) => Clock(r, root, n);
    ReduceCausal(Lane(g, progs, 0), progs, LaneOut(x, 0), n, root, time);
    EverySegmentedRun(g, progs, S, outs, time, sched, t);
    if Stuck(g, t) {
      LaneSolved(g, progs, S, x, n, root, s);
      RootResult(Lane(g, progs, s), progs, LaneOut(x, s), n, root, LaneOut(outs, s));
      assert Slice(t.mem[root], s) == MemAt(Lane(g, progs, s), LaneOut(outs, s), root, |progs[root]|);
      if Associative(g.op) && Commutative(g.op) {
        FoldIsSum(g.op, Contributions(LaneOut(x, s), n), root);
      }
    }
  }
}
