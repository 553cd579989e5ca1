/** All-gather (`allgather_ring`): every block travels once round the ring, and each rank stores it on its way. */
module Allgather {
  import opened RingIndex
  import opened Network
  import opened Wrappers
  import opened Lanes
  import opened LaneRuns
  import opened Buffers

  function Length(n: nat): nat
    requires n >= 2
  {
    2 * n - 1
  }

  function MoveAt(r: nat, n: nat, i: nat): Instr<Block>
    requires n >= 2 && r < n && i < Length(n)
  {
    if i == 0 then Send(Src(0))
    else if i == 1 then Copy(Src(0), Dst(r))
    else
      var u := i / 2;
      if i == 2 * u then Recv(Dst(Back(r, u, n))) else Send(Dst(Back(r, u, n)))
  }

  function Program(r: nat, n: nat): seq<Instr<Block>>
    requires n >= 2 && r < n
  {
    seq(Length(n), i requires 0 <= i < Length(n) => MoveAt(r, n, i))
  }

  /** The moves `allgather_ring` makes, in the order in which its loop makes them. */
  method AllgatherRing(rank: nat, size: nat) returns (moves: seq<Instr<Block>>)
    requires size >= 2 && rank < size
    ensures moves == Program(rank, size)
  {
    moves := [Send(Src(0))];
    var i, pos := 0, rank;
    while i < size
      invariant 0 <= i <= size
      invariant pos == Back(rank, i, size)
      invariant i == 0 ==> moves == [Send(Src(0))]
      invariant 0 < i < size ==> moves == Program(rank, size)[..2 * i]
      invariant i == size ==> moves == Program(rank, size)
    {
      if pos == rank {
        moves := moves + [Copy(Src(0), Dst(pos))];
      } else {
        moves := moves + [Recv(Dst(pos))];
        if i + 1 < size {
          moves := moves + [Send(Dst(pos))];
        }
      }
      WalkStep(rank, i, size);
      i, pos := i + 1, (pos + size - 1) % size;
    }
  }

  ghost predicate Runs<V>(g: Ring<Block, V>, progs: seq<seq<Instr<Block>>>, y: (nat, nat) -> V, n: nat) {
    && Job(g, progs, y, n, 1, seq(n, _ => n))
    && forall r :: 0 <= r < n ==> progs[r] == Program(r, n)
  }

  /** The k-th message of rank `r` is the block of rank `r - k`. */
  ghost predicate Carries<V>(y: (nat, nat) -> V, n: nat, out: (nat, nat) -> V) {
    forall r: nat, k: nat :: r < n && k + 1 < n ==> out(r, k) == y(Back(r, k, n), 0)
  }

  function SentBy(i: nat): nat {
    if i == 1 then 1 else i / 2
  }

  function TakenBy(i: nat): nat {
    if i == 0 then 0 else (i - 1) / 2
  }

  lemma {:induction false} Counts(r: nat, n: nat, i: nat)
    requires n >= 2 && r < n && i <= Length(n)
    ensures Sent(Program(r, n), i) == SentBy(i) && Received(Program(r, n), i) == TakenBy(i)
  {
    if i > 0 {
      Counts(r, n, i - 1);
      assert Program(r, n)[i - 1] == MoveAt(r, n, i - 1);
    }
  }

  lemma {:induction false} Takes<V>(g: Ring<Block, V>, progs: seq<seq<Instr<Block>>>, y: (nat, nat) -> V, n: nat, out: (nat, nat) -> V,
                                    r: nat, u: nat, i: nat)
    requires Runs(g, progs, y, n) && Carries(y, n, out) && r < n && 0 < u < n && i == 2 * u
    ensures i < |g.progs[r]| && g.progs[r][i] == Recv(Dst(Back(r, u, n)))
    ensures Incoming(g, out, r, i) == Some(y(Back(r, u, n), 0))
  {
    assert progs[r][i] == MoveAt(r, n, i);
    Counts(r, n, i);
    assert out(Prev(r, n), u - 1) == y(Back(Prev(r, n), u - 1, n), 0);
  }

  /** Once block `r - u` has arrived it is in its place, `u` hops from its origin. */
  lemma {:induction false} Placed<V>(g: Ring<Block, V>, progs: seq<seq<Instr<Block>>>, y: (nat, nat) -> V, n: nat, out: (nat, nat) -> V,
                                     r: nat, u: nat, i: nat)
    requires Runs(g, progs, y, n) && Carries(y, n, out) && r < n && u < n && i == if u == 0 then 1 else 2 * u
    ensures i < |g.progs[r]| && Dst(Back(r, u, n)) in MemAt(g, out, r, i + 1)
    ensures MemAt(g, out, r, i + 1)[Dst(Back(r, u, n))] == y(Back(r, u, n), 0)
  {
    if u == 0 {
      assert progs[r][1] == MoveAt(r, n, 1) && progs[r][0] == MoveAt(r, n, 0);
      SourceKept(g, progs, y, n, 1, seq(n, _ => n), out, r, 1, 0);
      AfterCopy(g, out, r, 1, Src(0), Dst(r));
    } else {
      Takes(g, progs, y, n, out, r, u, i);
      AfterRecv(g, out, r, i, Dst(Back(r, u, n)));
    }
  }

  lemma {:induction false} SendNumber(r: nat, n: nat, i: nat) returns (u: nat)
    requires n >= 2 && r < n && 0 < i < Length(n) && Sends(MoveAt(r, n, i))
    ensures 0 < u && u + 1 < n && i == 2 * u + 1 && SentBy(i) == u && MoveAt(r, n, i) == Send(Dst(Back(r, u, n)))
  {
    u := i / 2;
  }

  lemma {:induction false} AllgatherSolves<V>(g: Ring<Block, V>, progs: seq<seq<Instr<Block>>>, y: (nat, nat) -> V, n: nat, out: (nat, nat) -> V)
    requires Runs(g, progs, y, n) && Carries(y, n, out)
    ensures Solves(g, out)
  {
    forall r, i | 0 <= r < n && 0 <= i < |g.progs[r]| && Sends(g.progs[r][i])
      ensures Outgoing(g.op, g.progs[r][i], MemAt(g, out, r, i), Incoming(g, out, r, i)) == out(r, Sent(g.progs[r], i))
    {
      assert progs[r][i] == MoveAt(r, n, i);
      Counts(r, n, i);
      if i == 0 {
        SourceKept(g, progs, y, n, 1, seq(n, _ => n), out, r, 0, 0);
        assert out(r, 0) == y(Back(r, 0, n), 0);
      } else {
        var u := SendNumber(r, n, i);
        Placed(g, progs, y, n, out, r, u, i - 1);
        assert out(r, u) == y(Back(r, u, n), 0);
      }
    }
  }

  lemma {:induction false} SentBefore(r: nat, n: nat, i: nat, j: nat)
    requires n >= 2 && r < n && i < Length(n) && j <= Length(n) && Receives(MoveAt(r, n, i)) && SentBy(j) <= TakenBy(i)
    ensures j < i
  {
  }

  lemma {:induction false} AllgatherCausal<V>(g: Ring<Block, V>, progs: seq<seq<Instr<Block>>>, y: (nat, nat) -> V, n: nat, time: (nat, nat) -> nat)
    requires Runs(g, progs, y, n)
    requires forall r: nat, i: nat :: time(r, i) == i
    ensures Causal(g, time) && Balanced(g)
  {
    forall r, i, j | 0 <= r < n && 0 <= i < |g.progs[r]| && 0 <= j <= |g.progs[Prev(r, n)]|
      ensures Precedes(g, time, r, i, j)
    {
      var p := Prev(r, n);
      assert progs[r][i] == MoveAt(r, n, i);
      Counts(r, n, i);
      Counts(p, n, j);
      if Receives(progs[r][i]) && Sent(progs[p], j) <= Received(progs[r], i) {
        SentBefore(r, n, i, j);
      }
    }
    forall r | 0 <= r < n ensures Sent(g.progs[r], |g.progs[r]|) == Received(g.progs[Next(r, n)], |g.progs[Next(r, n)]|) {
      Counts(r, n, Length(n));
      Counts(Next(r, n), n, Length(n));
    }
  }

  lemma {:induction false} LaterMovesWriteElsewhere(r: nat, n: nat, u: nat, i: nat)
    requires n >= 2 && r < n && u < n && (if u == 0 then 1 else 2 * u) < i < Length(n)
    ensures !Writes(MoveAt(r, n, i), Dst(Back(r, u, n)))
  {
  }

  lemma {:induction false} EveryBlock<V>(g: Ring<Block, V>, progs: seq<seq<Instr<Block>>>, y: (nat, nat) -> V, n: nat, out: (nat, nat) -> V, r: nat, c: nat)
    requires Runs(g, progs, y, n) && Carries(y, n, out) && r < n && c < n
    ensures Dst(c) in MemAt(g, out, r, |progs[r]|) && MemAt(g, out, r, |progs[r]|)[Dst(c)] == y(c, 0)
  {
    var u := Back(r, c, n);
    var i := if u == 0 then 1 else 2 * u;
    assert Back(r, u, n) == c;
    Placed(g, progs, y, n, out, r, u, i);
    forall j | i < j < |progs[r]| ensures !Writes(progs[r][j], Dst(c)) {
      LaterMovesWriteElsewhere(r, n, u, j);
    }
    Kept(g, out, r, Dst(c), i + 1, |progs[r]|);
  }

  ghost predicate Calls<V>(g: Ring<(Block, nat), V>, progs: seq<seq<Instr<Block>>>, S: nat, x: (nat, nat, nat) -> V, n: nat) {
    && SegmentedJob(g, progs, S, x, n, 1, seq(n, _ => n))
    && forall r :: 0 <= r < n ==> progs[r] == Program(r, n)
  }

  ghost function AllMessages<V>(x: (nat, nat, nat) -> V, n: nat): (nat, nat, nat) -> V {
    (s: nat, r: nat, k: nat) => if r < n && k <= n then x(s, Back(r, k, n), 0) else x(s, r, k)
  }

  lemma {:induction false} LaneSolved<V>(g: Ring<(Block, nat), V>, progs: seq<seq<Instr<Block>>>, S: nat, x: (nat, nat, nat) -> V, n: nat, s: nat)
    requires Calls(g, progs, S, x, n) && s < S
    ensures WellFormed(g) && Runs(Lane(g, progs, s), progs, LaneOut(x, s), n)
    ensures Carries(LaneOut(x, s), n, LaneOut(AllMessages(x, n), s))
    ensures Solves(Lane(g, progs, s), LaneOut(AllMessages(x, n), s))
  {
    LaneJob(g, progs, S, x, n, 1, seq(n, _ => n), s);
    AllgatherSolves(Lane(g, progs, s), progs, LaneOut(x, s), n, LaneOut(AllMessages(x, n), s));
  }

  lemma {:induction false} LanesSolved<V>(g: Ring<(Block, nat), V>, progs: seq<seq<Instr<Block>>>, S: nat, x: (nat, nat, nat) -> V, n: nat)
    requires Calls(g, progs, S, x, n) && WellFormed(g)
    ensures forall s :: 0 <= s < S ==> WellFormed(Lane(g, progs, s)) && Solves(Lane(g, progs, s), LaneOut(AllMessages(x, n), s))
  {
    forall s | 0 <= s < S
      ensures WellFormed(Lane(g, progs, s)) && Solves(Lane(g, progs, s), LaneOut(AllMessages(x, n), s))
    {
      LaneSolved(g, progs, S, x, n, s);
    }
  }

  /**
   Under every schedule of the segment moves: a run that cannot go on has made every move, left no message on a link,
   and every rank holds the block of every rank `c` at block `c` of its destination.
   */
  lemma {:induction false} AllgatherCorrect<V>(g: Ring<(Block, nat), V>, progs: seq<seq<Instr<Block>>>, S: nat, x: (nat, nat, nat) -> V,
                                               n: nat, sched: seq<nat>, t: State<(Block, nat), V>, r: nat, c: nat, s: nat)
    requires Calls(g, progs, S, x, n) && WellFormed(g) && Reaches(g, Initial(g), sched, t)
    requires r < n && c < n && s < S
    ensures |sched| <= Sum(Lengths(g)) && (Stuck(g, t) <==> |sched| == Sum(Lengths(g)))
    ensures Stuck(g, t) ==> t.link[r] == [] && (Dst(c), s) in t.mem[r] && t.mem[r][(Dst(c), s)] == x(s, c, 0)
  {
    AllgatherInvariant(g, progs, S, x, n, sched, t);
    if Stuck(g, t) {
      LaneSolved(g, progs, S, x, n, s);
      var l, out := Lane(g, progs, s), LaneOut(AllMessages(x, n), s);
      EveryBlock(l, progs, LaneOut(x, s), n, out, r, c);
      assert Slice(t.mem[r], s) == MemAt(l, out, r, |progs[r]|);
    }
  }

  lemma {:induction false} AllgatherInvariant<V>(g: Ring<(Block, nat), V>, progs: seq<seq<Instr<Block>>>, S: nat, x: (nat, nat, nat) -> V,
                                                 n: nat, sched: seq<nat>, t: State<(Block, nat), V>)
    requires Calls(g, progs, S, x, n) && WellFormed(g) && Reaches(g, Initial(g), sched, t)
    ensures Inv(g, SegmentOut(AllMessages(x, n), S), t)
    ensures |sched| <= Sum(Lengths(g)) && (Stuck(g, t) <==> |sched| == Sum(Lengths(g)))
    ensures Stuck(g, t) ==> forall r :: 0 <= r < n ==> t.link[r] == []
    ensures Stuck(g, t) ==> forall r, s :: 0 <= r < n && 0 <= s < S ==>
      WellFormed(Lane(g, progs, s)) && Slice(t.mem[r], s) == MemAt(Lane(g, progs, s), LaneOut(AllMessages(x, n), s), r, |progs[r]|)
  {
    LanesSolved(g, progs, S, x, n);
    LaneSolved(g, progs, S, x, n, 0);
    var time := (r: nat, i: nat) => i;
    AllgatherCausal(Lane(g, progs, 0), progs, LaneOut(x, 0), n, time);
    EverySegmentedRun(g, progs, S, AllMessages(x, n), time, sched, t);
  }

  /** Every rank but `r` has done what it can without rank `r`: `k` hops past it, a rank has sent `k` blocks. */
  function OthersAhead(r: nat, n: nat): seq<nat>
    requires r < n
  {
    seq(n, q requires 0 <= q < n => 2 * Back(q, r, n))
  }

  lemma {:induction false} OthersAheadIsConsistent<V>(g: Ring<Block, V>, progs: seq<seq<Instr<Block>>>, y: (nat, nat) -> V, n: nat, r: nat)
    requires Runs(g, progs, y, n) && r < n
    ensures Consistent(g, OthersAhead(r, n)) && Sent(progs[Prev(r, n)], OthersAhead(r, n)[Prev(r, n)]) == n - 1
  {
    var cut := OthersAhead(r, n);
    forall q | 0 <= q < n ensures cut[q] <= |g.progs[q]| && Sent(progs[q], cut[q]) == Back(q, r, n) {
      Counts(q, n, cut[q]);
    }
    forall q | 0 <= q < n ensures FedUpTo(g, cut, q) {
      Counts(q, n, cut[q]);
      assert q != r ==> Back(q, r, n) == Back(Prev(q, n), r, n) + 1;
    }
  }

  /** Such a state is reached. */
  lemma {:induction false} OthersGoAhead<V>(g: Ring<(Block, nat), V>, progs: seq<seq<Instr<Block>>>, S: nat, x: (nat, nat, nat) -> V, n: nat, r: nat)
    returns (sched: seq<nat>, t: State<(Block, nat), V>, cut: seq<nat>)
    requires Calls(g, progs, S, x, n) && WellFormed(g) && r < n
    ensures Reaches(g, Initial(g), sched, t) && Inv(g, SegmentOut(AllMessages(x, n), S), t)
    ensures |cut| == |progs| == |g.progs| == n && cut[r] == 0 && CutAt(g, progs, S, cut, t, r)
    ensures var p := Prev(r, n); p < n && cut[p] <= |progs[p]| && CutAt(g, progs, S, cut, t, p) && Sent(progs[p], cut[p]) == n - 1
  {
    LanesSolved(g, progs, S, x, n);
    LaneSolved(g, progs, S, x, n, 0);
    var time := (r: nat, i: nat) => i;
    cut := OthersAhead(r, n);
    AllgatherCausal(Lane(g, progs, 0), progs, LaneOut(x, 0), n, time);
    OthersAheadIsConsistent(Lane(g, progs, 0), progs, LaneOut(x, 0), n, r);
    sched, t := SegmentedCut(g, progs, S, AllMessages(x, n), time, cut);
  }

  /** While rank `r` has not begun, all blocks but its own can be sent to it. */
  lemma {:induction false} AllQueueUp<V>(g: Ring<(Block, nat), V>, progs: seq<seq<Instr<Block>>>, S: nat, x: (nat, nat, nat) -> V, n: nat, r: nat)
    returns (sched: seq<nat>, t: State<(Block, nat), V>)
    requires Calls(g, progs, S, x, n) && WellFormed(g) && r < n
    ensures Reaches(g, Initial(g), sched, t) && Shape(g, t) && t.pc[r] == 0
    ensures |t.link[Prev(r, n)]| == Sent(g.progs[Prev(r, n)], t.pc[Prev(r, n)]) == Times(n - 1, S)
  {
    var cut;
    sched, t, cut := OthersGoAhead(g, progs, S, x, n, r);
    NothingTaken(g, SegmentOut(AllMessages(x, n), S), t, r);
  }

  lemma {:induction false} SendsAllOthers(p: nat, n: nat)
    requires n >= 2 && p < n
    ensures Sent(Program(p, n), |Program(p, n)|) == n - 1
  {
    Counts(p, n, Length(n));
  }

  lemma {:induction false} AtMostAllOthers<V>(g: Ring<(Block, nat), V>, progs: seq<seq<Instr<Block>>>, S: nat, x: (nat, nat, nat) -> V,
                                              n: nat, sched: seq<nat>, t: State<(Block, nat), V>, p: nat)
    requires Calls(g, progs, S, x, n) && WellFormed(g) && Reaches(g, Initial(g), sched, t) && p < n
    ensures Shape(g, t) && |t.link[p]| <= Sent(g.progs[p], t.pc[p]) <= Times(n - 1, S)
  {
    var out := SegmentOut(AllMessages(x, n), S);
    assert Inv(g, out, t) by {
      AllgatherInvariant(g, progs, S, x, n, sched, t);
    }
    SendsAllOthers(p, n);
    SentBound(g, progs, S, out, t, p);
  }

  /**
   The driver only starts an all-gather when the spare buffers hold `S` segments from each of the `n` ranks. Then, at
   every moment, the segments rank `r` was ever sent leave room for one more whole block.
   */
  lemma {:induction false} SpareBuffersSuffice<V>(g: Ring<(Block, nat), V>, progs: seq<seq<Instr<Block>>>, S: nat, x: (nat, nat, nat) -> V,
                                                  n: nat, sched: seq<nat>, t: State<(Block, nat), V>, nbufs: nat, r: nat)
    requires Calls(g, progs, S, x, n) && WellFormed(g) && Reaches(g, Initial(g), sched, t)
    requires Times(n, S) <= nbufs && r < n
    ensures Shape(g, t)
    ensures |t.link[Prev(r, n)]| <= Sent(g.progs[Prev(r, n)], t.pc[Prev(r, n)]) <= nbufs - S
  {
    AtMostAllOthers(g, progs, S, x, n, sched, t, Prev(r, n));
  }
}
