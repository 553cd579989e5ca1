/** Gather (`gather_ring`): every rank sends its block and relays those of the ranks behind it; the root stores them. */
module Gather {
  import opened RingIndex
  import opened Network
  import opened Wrappers
  import opened Lanes
  import opened LaneRuns
  import opened Buffers

  /** How many hops rank `r` is past the root. */
  function Distance(r: nat, root: nat, n: nat): (d: nat)
    requires r < n && root < n
  {
    Back(r, root, n)
  }

  function Length(r: nat, root: nat, n: nat): nat
    requires r < n && root < n
  {
    if r == root then n else Distance(r, root, n)
  }

  function MoveAt(r: nat, root: nat, n: nat, i: nat): Instr<Block>
    requires r < n && root < n && i < n
  {
    if r != root then if i == 0 then Send(Src(0)) else Relay
    else if i + 1 < n then Recv(Dst(Back(root, 1 + i, n)))
    else Copy(Src(0), Dst(root))
  }

  function Program(r: nat, root: nat, n: nat): seq<Instr<Block>>
    requires r < n && root < n
  {
    seq(Length(r, root, n), i requires 0 <= i < Length(r, root, n) => MoveAt(r, root, n, i))
  }

  /** The moves `gather_ring` makes, in the order in which its loops make them. */
  method GatherRing(rank: nat, size: nat, root: nat) returns (moves: seq<Instr<Block>>)
    requires size >= 2 && rank < size && root < size
    ensures moves == Program(rank, root, size)
  {
    if root == rank {
      var i, pos := 0, (rank + size - 1) % size;
      PrevIsRemainder(rank, size);
      moves := [];
      while i < size
        invariant 0 <= i <= size
        invariant i < size ==> pos == Back(rank, 1 + i, size)
        invariant moves == Program(rank, root, size)[..i]
      {
        if pos == rank {
          moves := moves + [Copy(Src(0), Dst(pos))];
        } else {
          moves := moves + [Recv(Dst(pos))];
        }
        if i + 1 < size {
          WalkStep(rank, i + 1, size);
        }
        i, pos := i + 1, (pos + size - 1) % size;
      }
    } else {
      DistanceIsRemainder(rank, root, size);
      var shifts := (size + rank - root) % size - 1;
      moves := [Send(Src(0))];
      var i := 0;
      while i < shifts
        invariant 0 <= i <= shifts
        invariant moves == Program(rank, root, size)[..i + 1]
      {
        moves := moves + [Relay];
        i := i + 1;
      }
    }
  }

  /** Only the root needs a destination buffer. */
  function Sizes(root: nat, n: nat): seq<nat> {
    seq(n, r => if r == root then n else 0)
  }

  ghost predicate Runs<V>(g: Ring<Block, V>, progs: seq<seq<Instr<Block>>>, y: (nat, nat) -> V, n: nat, root: nat) {
    && root < n
    && Job(g, progs, y, n, 1, Sizes(root, n))
    && forall r :: 0 <= r < n ==> progs[r] == Program(r, root, n)
  }

  /** The k-th message of rank `r` is the block of rank `r - k`. */
  ghost predicate Carries<V>(y: (nat, nat) -> V, n: nat, out: (nat, nat) -> V) {
    forall r: nat, k: nat :: r < n && k + 1 < n ==> out(r, k) == y(Back(r, k, n), 0)
  }

  function SentBy(r: nat, root: nat, i: nat): nat {
    if r == root then 0 else i
  }

  function TakenBy(r: nat, root: nat, n: nat, i: nat): nat {
    if i == 0 then 0 else if r != root || i >= n then i - 1 else i
  }

  lemma {:induction false} Counts(r: nat, root: nat, n: nat, i: nat)
    requires n >= 2 && r < n && root < n && i <= Length(r, root, n)
    ensures Sent(Program(r, root, n), i) == SentBy(r, root, i)
    ensures Received(Program(r, root, n), i) == TakenBy(r, root, n, i)
  {
    if i > 0 {
      Counts(r, root, n, i - 1);
      assert Program(r, root, n)[i - 1] == MoveAt(r, root, n, i - 1);
    }
  }

  /** A rank `d` hops past the root sends exactly `d` messages, and the root none. */
  lemma {:induction false} SendsItsDistance(r: nat, root: nat, n: nat)
    requires n >= 2 && r < n && root < n
    ensures Sent(Program(r, root, n), |Program(r, root, n)|) == Distance(r, root, n)
    ensures Received(Program(r, root, n), |Program(r, root, n)|) == Distance(Prev(r, n), root, n)
  {
    Counts(r, root, n, Length(r, root, n));
  }

  /** The block rank `r` takes at move `i` is that of the rank `i` (for the root `i + 1`) hops back. */
  lemma {:induction false} Takes<V>(g: Ring<Block, V>, progs: seq<seq<Instr<Block>>>, y: (nat, nat) -> V, n: nat, root: nat, out: (nat, nat) -> V,
                                    r: nat, i: nat, o: nat)
    requires Runs(g, progs, y, n, root) && Carries(y, n, out) && r < n && i < |progs[r]|
    requires Receives(progs[r][i]) && o == Back(r, if r == root then i + 1 else i, n)
    ensures Incoming(g, out, r, i) == Some(y(o, 0))
  {
    assert progs[r][i] == MoveAt(r, root, n, i);
    Counts(r, root, n, i);
    var k := if r == root then i else i - 1;
    assert out(Prev(r, n), k) == y(Back(Prev(r, n), k, n), 0);
  }

  lemma {:induction false} GatherSolves<V>(g: Ring<Block, V>, progs: seq<seq<Instr<Block>>>, y: (nat, nat) -> V, n: nat, root: nat, out: (nat, nat) -> V)
    requires Runs(g, progs, y, n, root) && Carries(y, n, out)
    ensures Solves(g, out)
  {
    forall r, i | 0 <= r < n && 0 <= i < |g.progs[r]| && Sends(g.progs[r][i])
      ensures Outgoing(g.op, g.progs[r][i], MemAt(g, out, r, i), Incoming(g, out, r, i)) == out(r, Sent(g.progs[r], i))
    {
      assert progs[r][i] == MoveAt(r, root, n, i);
      Counts(r, root, n, i);
      assert out(r, i) == y(Back(r, i, n), 0);
      if i == 0 {
        SourceKept(g, progs, y, n, 1, Sizes(root, n), out, r, 0, 0);
      } else {
        Takes(g, progs, y, n, root, out, r, i, Back(r, i, n));
      }
    }
  }

  function Clock(r: nat, root: nat, n: nat, i: nat): nat {
    if r < n && root < n then (if r == root then n else Distance(r, root, n)) + i else 0
  }

  lemma {:induction false} SentBefore(r: nat, root: nat, n: nat, i: nat, j: nat)
    requires n >= 2 && r < n && root < n && i < Length(r, root, n) && j <= Length(Prev(r, n), root, n)
    ensures Receives(MoveAt(r, root, n, i)) && SentBy(Prev(r, n), root, j) <= TakenBy(r, root, n, i) ==>
      j < Length(Prev(r, n), root, n) && Clock(Prev(r, n), root, n, j) < Clock(r, root, n, i)
  {
  }

  lemma {:induction false} GatherCausal<V>(g: Ring<Block, V>, progs: seq<seq<Instr<Block>>>, y: (nat, nat) -> V, n: nat, root: nat, time: (nat, nat) -> nat)
    requires Runs(g, progs, y, n, root)
    requires forall r: nat, i: nat :: time(r, i) == Clock(r, root, n, i)
    ensures Causal(g, time) && Balanced(g)
  {
    forall r, i, j | 0 <= r < n && 0 <= i < |g.progs[r]| && 0 <= j <= |g.progs[Prev(r, n)]|
      ensures Precedes(g, time, r, i, j)
    {
      assert progs[r][i] == MoveAt(r, root, n, i);
      Counts(r, root, n, i);
      Counts(Prev(r, n), root, n, j);
      SentBefore(r, root, n, i, j);
    }
    forall r | 0 <= r < n ensures Sent(g.progs[r], |g.progs[r]|) == Received(g.progs[Next(r, n)], |g.progs[Next(r, n)]|) {
      SendsItsDistance(r, root, n);
      SendsItsDistance(Next(r, n), root, n);
    }
  }

  /** The root's backward walk meets every rank once, and each block stays where it was put. */
  lemma {:induction false} EveryBlock<V>(g: Ring<Block, V>, progs: seq<seq<Instr<Block>>>, y: (nat, nat) -> V, n: nat, root: nat, out: (nat, nat) -> V, c: nat)
    requires Runs(g, progs, y, n, root) && Carries(y, n, out) && c < n
    ensures Dst(c) in MemAt(g, out, root, |progs[root]|) && MemAt(g, out, root, |progs[root]|)[Dst(c)] == y(c, 0)
  {
    var i := if c == root then n - 1 else Back(root, c, n) - 1;
    assert progs[root][i] == MoveAt(root, root, n, i);
    if c == root {
      SourceKept(g, progs, y, n, 1, Sizes(root, n), out, root, i, 0);
      AfterCopy(g, out, root, i, Src(0), Dst(root));
    } else {
      assert Back(root, 1 + i, n) == c;
      Takes(g, progs, y, n, root, out, root, i, c);
      AfterRecv(g, out, root, i, Dst(c));
    }
    forall j | i < j < |progs[root]| ensures !Writes(progs[root][j], Dst(c)) {
      LaterMovesWriteElsewhere(root, n, c, i, j);
    }
    Kept(g, out, root, Dst(c), i + 1, |progs[root]|);
  }

  lemma {:induction false} LaterMovesWriteElsewhere(root: nat, n: nat, c: nat, i: nat, j: nat)
    requires root < n && c < n && n >= 2 && i == (if c == root then n - 1 else Back(root, c, n) - 1) && i < j < n
    ensures Program(root, root, n)[j] == MoveAt(root, root, n, j) && !Writes(MoveAt(root, root, n, j), Dst(c))
  {
  }

  ghost predicate Calls<V>(g: Ring<(Block, nat), V>, progs: seq<seq<Instr<Block>>>, S: nat, x: (nat, nat, nat) -> V, n: nat, root: nat) {
    && root < n
    && SegmentedJob(g, progs, S, x, n, 1, Sizes(root, n))
    && forall r :: 0 <= r < n ==> progs[r] == Program(r, root, n)
  }

  ghost function AllMessages<V>(x: (nat, nat, nat) -> V, n: nat): (nat, nat, nat) -> V {
    (s: nat, r: nat, k: nat) => if r < n && k <= n then x(s, Back(r, k, n), 0) else x(s, r, k)
  }

  lemma {:induction false} LaneSolved<V>(g: Ring<(Block, nat), V>, progs: seq<seq<Instr<Block>>>, S: nat, x: (nat, nat, nat) -> V,
                                         n: nat, root: nat, s: nat)
    requires Calls(g, progs, S, x, n, root) && s < S
    ensures WellFormed(g) && Runs(Lane(g, progs, s), progs, LaneOut(x, s), n, root)
    ensures Carries(LaneOut(x, s), n, LaneOut(AllMessages(x, n), s))
    ensures Solves(Lane(g, progs, s), LaneOut(AllMessages(x, n), s))
  {
    LaneJob(g, progs, S, x, n, 1, Sizes(root, n), s);
    GatherSolves(Lane(g, progs, s), progs, LaneOut(x, s), n, root, LaneOut(AllMessages(x, n), s));
  }

  lemma {:induction false} LanesSolved<V>(g: Ring<(Block, nat), V>, progs: seq<seq<Instr<Block>>>, S: nat, x: (nat, nat, nat) -> V, n: nat, root: nat)
    requires Calls(g, progs, S, x, n, root) && WellFormed(g)
    ensures forall s :: 0 <= s < S ==> WellFormed(Lane(g, progs, s)) && Solves(Lane(g, progs, s), LaneOut(AllMessages(x, n), s))
  {
    forall s | 0 <= s < S
      ensures WellFormed(Lane(g, progs, s)) && Solves(Lane(g, progs, s), LaneOut(AllMessages(x, n), s))
    {
      LaneSolved(g, progs, S, x, n, root, s);
    }
  }

  lemma {:induction false} GatherInvariant<V>(g: Ring<(Block, nat), V>, progs: seq<seq<Instr<Block>>>, S: nat, x: (nat, nat, nat) -> V,
                                              n: nat, root: nat, sched: seq<nat>, t: State<(Block, nat), V>)
    requires Calls(g, progs, S, x, n, root) && WellFormed(g) && Reaches(g, Initial(g), sched, t)
    ensures Inv(g, SegmentOut(AllMessages(x, n), S), t)
    ensures |sched| <= Sum(Lengths(g)) && (Stuck(g, t) <==> |sched| == Sum(Lengths(g)))
    ensures Stuck(g, t) ==> forall r :: 0 <= r < n ==> t.link[r] == []
    ensures Stuck(g, t) ==> forall r, s :: 0 <= r < n && 0 <= s < S ==>
      WellFormed(Lane(g, progs, s)) && Slice(t.mem[r], s) == MemAt(Lane(g, progs, s), LaneOut(AllMessages(x, n), s), r, |progs[r]|)
  {
    LanesSolved(g, progs, S, x, n, root);
    LaneSolved(g, progs, S, x, n, root, 0);
    var time := (r: nat, i: nat) => Clock(r, root, n, i);
    GatherCausal(Lane(g, progs, 0), progs, LaneOut(x, 0), n, root, time);
    EverySegmentedRun(g, progs, S, AllMessages(x, n), time, sched, t);
  }

  /**
   Under every schedule of the segment moves: a run that cannot go on has made every move, left no message on a link,
   and the root holds the block of every rank `c` at block `c` of its destination.
   */
  lemma {:induction false} GatherCorrect<V>(g: Ring<(Block, nat), V>, progs: seq<seq<Instr<Block>>>, S: nat, x: (nat, nat, nat) -> V,
                                            n: nat, root: nat, sched: seq<nat>, t: State<(Block, nat), V>, r: nat, c: nat, s: nat)
    requires Calls(g, progs, S, x, n, root) && WellFormed(g) && Reaches(g, Initial(g), sched, t)
    requires r < n && c < n && s < S
    ensures |sched| <= Sum(Lengths(g)) && (Stuck(g, t) <==> |sched| == Sum(Lengths(g)))
    ensures Stuck(g, t) ==> t.link[r] == [] && (Dst(c), s) in t.mem[root] && t.mem[root][(Dst(c), s)] == x(s, c, 0)
  {
    GatherInvariant(g, progs, S, x, n, root, sched, t);
    if Stuck(g, t) {
      LaneSolved(g, progs, S, x, n, root, s);
      var l, out := Lane(g, progs, s), LaneOut(AllMessages(x, n), s);
      EveryBlock(l, progs, LaneOut(x, s), n, root, out, c);
      assert Slice(t.mem[root], s) == MemAt(l, out, root, |progs[root]|);
    }
  }

  /** The ranks between the root and rank `r` have done all they have to do, and the others nothing. */
  function OthersAhead(r: nat, root: nat, n: nat): seq<nat>
    requires r < n && root < n
  {
    seq(n, q requires 0 <= q < n =>
      if Distance(q, root, n) <= Distance(Prev(r, n), root, n) then Distance(q, root, n) else 0)
  }

  lemma {:induction false} OthersAheadIsConsistent<V>(g: Ring<Block, V>, progs: seq<seq<Instr<Block>>>, y: (nat, nat) -> V, n: nat, root: nat, r: nat)
    requires Runs(g, progs, y, n, root) && r < n
    ensures Consistent(g, OthersAhead(r, root, n)) && OthersAhead(r, root, n)[r] == 0
    ensures Sent(progs[Prev(r, n)], OthersAhead(r, root, n)[Prev(r, n)]) == Distance(Prev(r, n), root, n)
  {
    var cut := OthersAhead(r, root, n);
    forall q | 0 <= q < n ensures cut[q] <= |g.progs[q]| && (q == root ==> cut[q] == 0) && Sent(progs[q], cut[q]) == cut[q] {
      Counts(q, root, n, cut[q]);
    }
    forall q | 0 <= q < n ensures FedUpTo(g, cut, q) {
      Counts(q, root, n, cut[q]);
      assert q != root ==> Distance(q, root, n) == Distance(Prev(q, n), root, n) + 1;
    }
  }

  /** While rank `r` has not begun, all blocks its predecessor is ever to send it can be sent to it. */
  lemma {:induction false} AllQueueUp<V>(g: Ring<(Block, nat), V>, progs: seq<seq<Instr<Block>>>, S: nat, x: (nat, nat, nat) -> V,
                                         n: nat, root: nat, r: nat)
    returns (sched: seq<nat>, t: State<(Block, nat), V>)
    requires Calls(g, progs, S, x, n, root) && WellFormed(g) && r < n
    ensures Reaches(g, Initial(g), sched, t) && Shape(g, t) && t.pc[r] == 0
    ensures |t.link[Prev(r, n)]| == Sent(g.progs[Prev(r, n)], t.pc[Prev(r, n)]) == Times(Distance(Prev(r, n), root, n), S)
  {
    LanesSolved(g, progs, S, x, n, root);
    LaneSolved(g, progs, S, x, n, root, 0);
    var time, cut := (r: nat, i: nat) => Clock(r, root, n, i), OthersAhead(r, root, n);
    GatherCausal(Lane(g, progs, 0), progs, LaneOut(x, 0), n, root, time);
    OthersAheadIsConsistent(Lane(g, progs, 0), progs, LaneOut(x, 0), n, root, r);
    sched, t := SegmentedCut(g, progs, S, AllMessages(x, n), time, cut);
    assert CutAt(g, progs, S, cut, t, r) && CutAt(g, progs, S, cut, t, Prev(r, n));
    NothingTaken(g, SegmentOut(AllMessages(x, n), S), t, r);
  }

  lemma {:induction false} AtMostItsDistance<V>(g: Ring<(Block, nat), V>, progs: seq<seq<Instr<Block>>>, S: nat, x: (nat, nat, nat) -> V,
                                                n: nat, root: nat, sched: seq<nat>, t: State<(Block, nat), V>, p: nat)
    requires Calls(g, progs, S, x, n, root) && WellFormed(g) && Reaches(g, Initial(g), sched, t) && p < n
    ensures Shape(g, t) && |t.link[p]| <= Sent(g.progs[p], t.pc[p]) <= Times(Distance(p, root, n), S)
  {
    var out := SegmentOut(AllMessages(x, n), S);
    assert Inv(g, out, t) by {
      GatherInvariant(g, progs, S, x, n, root, sched, t);
    }
    SendsItsDistance(p, root, n);
    SentBound(g, progs, S, out, t, p);
  }

  /**
   The driver only starts a gather when the spare buffers hold `S` segments from each of the `n` ranks. Then, at every
   moment, the segments rank `r` was ever sent leave room for one more whole block.
   */
  lemma {:induction false} SpareBuffersSuffice<V>(g: Ring<(Block, nat), V>, progs: seq<seq<Instr<Block>>>, S: nat, x: (nat, nat, nat) -> V,
                                                  n: nat, root: nat, sched: seq<nat>, t: State<(Block, nat), V>, nbufs: nat, r: nat)
    requires Calls(g, progs, S, x, n, root) && WellFormed(g) && Reaches(g, Initial(g), sched, t)
    requires Times(n, S) <= nbufs && r < n
    ensures Shape(g, t)
    ensures |t.link[Prev(r, n)]| <= Sent(g.progs[Prev(r, n)], t.pc[Prev(r, n)]) <= nbufs - S
  {
    var p := Prev(r, n);
    AtMostItsDistance(g, progs, S, x, n, root, sched, t, p);
    TimesGrows(Distance(p, root, n), n, S);
  }
}
