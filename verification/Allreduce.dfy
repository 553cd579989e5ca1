/**
 Reduce-scatter and all-reduce (`scatter_reduce`, `all_reduce_share`). Every rank first passes partial sums round the
 ring until rank `r` holds the finished chunk `r`, then passes finished chunks round until every rank holds them all.
 */
module Allreduce {
  import opened RingIndex
  import opened Network
  import opened Wrappers
  import opened Lanes
  import opened LaneRuns
  import opened Buffers
  import opened Fold

  function Length(n: nat): nat
    requires n >= 2
  {
    3 * n - 2
  }

  function MoveAt(r: nat, n: nat, i: nat): Instr<Block>
    requires n >= 2 && r < n && i < Length(n)
  {
    if i == 0 then Send(Src(Back(r, 1, n)))
    else if i + 1 < n then ReduceSend(Src(Back(r, 1 + i, n)))
    else if i + 1 == n then ReduceStore(Src(r), Dst(r))
    else
      var t := (i - n) / 2;
      if i == n + 2 * t then Send(Dst(Back(r, t, n))) else Recv(Dst(Back(r, t + 1, n)))
  }

  function Program(r: nat, n: nat): seq<Instr<Block>>
    requires n >= 2 && r < n
  {
    seq(Length(n), i requires 0 <= i < Length(n) => MoveAt(r, n, i))
  }

  /** The moves `scatter_reduce` makes, in the order in which its loop makes them. */
  method ScatterReduce(rank: nat, size: nat) returns (moves: seq<Instr<Block>>)
    requires size >= 2 && rank < size
    ensures moves == Program(rank, size)[..size]
  {
    var prev := (rank + size - 1) % size;
    var sendChunk := prev;
    var recvChunk := (prev + size - 1) % size;
    PrevIsRemainder(rank, size);
    WalkStep(rank, 1, size);
    moves := [Send(Src(sendChunk))];
    var i := 0;
    while i < size - 2
      invariant 0 <= i <= size - 2
      invariant recvChunk == Back(rank, i + 2, size)
      invariant moves == Program(rank, size)[..i + 1]
    {
      moves := moves + [ReduceSend(Src(recvChunk))];
      WalkStep(rank, i + 2, size);
      i, recvChunk := i + 1, (recvChunk + size - 1) % size;
    }
    if size > 1 {
      moves := moves + [ReduceStore(Src(recvChunk), Dst(recvChunk))];
    }
  }

  method AllReduceShare(rank: nat, size: nat) returns (moves: seq<Instr<Block>>)
    requires size >= 2 && rank < size
    ensures moves == Program(rank, size)
  {
    var recvChunk := rank;
    moves := ScatterReduce(rank, size);
    var i := 0;
    while i < size - 1
      invariant 0 <= i <= size - 1
      invariant recvChunk == Back(rank, i, size)
      invariant moves == Program(rank, size)[..size + 2 * i]
    {
      var sendChunk := recvChunk;
      WalkStep(rank, i, size);
      recvChunk := (recvChunk + size - 1) % size;
      moves := moves + [Send(Dst(sendChunk)), Recv(Dst(recvChunk))];
      i := i + 1;
    }
  }

  /** ---- What travels: `y(r, c)` is the contribution of rank `r` to chunk `c`. ---- */

  ghost function Column<V>(y: (nat, nat) -> V, c: nat, n: nat): seq<V> {
    seq(n, r requires 0 <= r => y(r, c))
  }

  /** Chunk `c` of the reduction. */
  ghost function Result<V>(op: (V, V) -> V, y: (nat, nat) -> V, c: nat, n: nat): V
    requires c < n
  {
    Folded(op, Column(y, c, n), c)
  }

  /** The k-th message of rank `r`: first partial chunk `r-1-k`, `k` hops old; then finished chunk `r-(k-n+1)`. */
  ghost function Message<V>(op: (V, V) -> V, y: (nat, nat) -> V, n: nat, r: nat, k: nat): V
    requires r < n && k + 2 < 2 * n
  {
    if k + 1 < n then Chain(op, Column(y, Back(r, 1 + k, n), n), Back(r, 1 + k, n), k)
    else Result(op, y, Back(r, k + 1 - n, n), n)
  }

  ghost predicate Follows(prog: seq<Instr<Block>>, r: nat, n: nat, m: nat)
    requires n >= 2 && r < n && m <= Length(n)
  {
    |prog| == m && forall i :: 0 <= i < m ==> prog[i] == MoveAt(r, n, i)
  }

  /** ---- The whole-message network, up to move `m` of each program (`m == n` is reduce-scatter). ---- */

  ghost predicate Runs<V>(g: Ring<Block, V>, progs: seq<seq<Instr<Block>>>, y: (nat, nat) -> V, n: nat, m: nat) {
    && Job(g, progs, y, n, n, seq(n, _ => n))
    && n <= m <= Length(n)
    && forall r :: 0 <= r < n ==> Follows(progs[r], r, n, m)
  }

  ghost predicate Carries<V>(g: Ring<Block, V>, y: (nat, nat) -> V, n: nat, out: (nat, nat) -> V)
    requires n >= 2
  {
    forall r: nat, k: nat :: r < n && k + 2 < 2 * n ==> out(r, k) == Message(g.op, y, n, r, k)
  }

  function SentBy(n: nat, i: nat): nat
    requires n > 0
  {
    if i < n then if i + 1 < n then i else n - 1 else n - 1 + (i - n + 1) / 2
  }

  function TakenBy(n: nat, i: nat): nat
    requires n > 0
  {
    if i == 0 then 0 else if i < n then i - 1 else n - 1 + (i - n) / 2
  }

  lemma {:induction false} Counts(prog: seq<Instr<Block>>, r: nat, n: nat, m: nat, i: nat)
    requires n >= 2 && r < n && m <= Length(n) && Follows(prog, r, n, m) && i <= m
    ensures Sent(prog, i) == SentBy(n, i) && Received(prog, i) == TakenBy(n, i)
  {
    if i > 0 {
      Counts(prog, r, n, m, i - 1);
      assert prog[i - 1] == MoveAt(r, n, i - 1);
    }
  }

  lemma {:induction false} PreviousMessage<V>(op: (V, V) -> V, y: (nat, nat) -> V, n: nat, r: nat, i: nat)
    requires r < n && 0 < i < n
    ensures var c := Back(r, 1 + i, n); Message(op, y, n, Prev(r, n), i - 1) == Chain(op, Column(y, c, n), c, i - 1)
  {
    assert Back(Prev(r, n), i, n) == Back(r, 1 + i, n);
  }

  /** What rank `r` takes at move `i` is a message of its predecessor about the chunk it is working on. */
  lemma {:induction false} TakesPartial<V>(g: Ring<Block, V>, progs: seq<seq<Instr<Block>>>, y: (nat, nat) -> V, n: nat, m: nat, out: (nat, nat) -> V, r: nat, i: nat)
    requires Runs(g, progs, y, n, m) && Carries(g, y, n, out) && r < n && 0 < i < n
    ensures i < |g.progs[r]| && Receives(g.progs[r][i])
    ensures var c := Back(r, 1 + i, n); Incoming(g, out, r, i) == Some(Chain(g.op, Column(y, c, n), c, i - 1))
  {
    assert Follows(progs[r], r, n, m);
    Counts(g.progs[r], r, n, m, i);
    PreviousMessage(g.op, y, n, r, i);
    assert out(Prev(r, n), i - 1) == Message(g.op, y, n, Prev(r, n), i - 1);
  }

  lemma {:induction false} ShareMoves(r: nat, n: nat, t: nat, i: nat)
    requires n >= 2 && r < n && t + 1 < n
    ensures i == n + 2 * t ==> MoveAt(r, n, i) == Send(Dst(Back(r, t, n))) && SentBy(n, i) == n - 1 + t
    ensures i == n + 2 * t + 1 ==> MoveAt(r, n, i) == Recv(Dst(Back(r, t + 1, n))) && TakenBy(n, i) == n - 1 + t
  {
  }

  lemma {:induction false} PreviousChunk<V>(op: (V, V) -> V, y: (nat, nat) -> V, n: nat, r: nat, t: nat)
    requires r < n && t + 1 < n
    ensures Message(op, y, n, Prev(r, n), n - 1 + t) == Result(op, y, Back(r, t + 1, n), n)
  {
    assert Back(Prev(r, n), t, n) == Back(r, t + 1, n);
  }

  lemma {:induction false} TakesFinished<V>(g: Ring<Block, V>, progs: seq<seq<Instr<Block>>>, y: (nat, nat) -> V, n: nat, m: nat, out: (nat, nat) -> V, r: nat, t: nat, i: nat)
    requires Runs(g, progs, y, n, m) && Carries(g, y, n, out) && r < n && i == n + 2 * t + 1 < m
    ensures t + 1 < n && g.progs[r][i] == Recv(Dst(Back(r, t + 1, n)))
    ensures Incoming(g, out, r, i) == Some(Result(g.op, y, Back(r, t + 1, n), n))
  {
    assert Follows(progs[r], r, n, m);
    ShareMoves(r, n, t, i);
    Counts(g.progs[r], r, n, m, i);
    PreviousChunk(g.op, y, n, r, t);
    assert out(Prev(r, n), n - 1 + t) == Message(g.op, y, n, Prev(r, n), n - 1 + t);
  }

  lemma {:induction false} OwnSource<V>(g: Ring<Block, V>, progs: seq<seq<Instr<Block>>>, y: (nat, nat) -> V, n: nat, m: nat,
                                        out: (nat, nat) -> V, r: nat, i: nat, c: nat)
    requires Runs(g, progs, y, n, m) && r < n && i <= m && c < n
    ensures Src(c) in MemAt(g, out, r, i) && MemAt(g, out, r, i)[Src(c)] == y(r, c)
  {
    assert Follows(progs[r], r, n, m);
    SourceKept(g, progs, y, n, n, seq(n, _ => n), out, r, i, c);
  }

  /** Rank `r` is the one to add its contribution to a partial result that reaches it. */
  lemma {:induction false} OwnContribution<V>(op: (V, V) -> V, y: (nat, nat) -> V, n: nat, r: nat, i: nat)
    requires r < n && i < n
    ensures var c := Back(r, 1 + i, n);
      Chain(op, Column(y, c, n), c, i) == if i == 0 then y(r, c) else op(y(r, c), Chain(op, Column(y, c, n), c, i - 1))
  {
    var c := Back(r, 1 + i, n);
    assert Ahead(c, 1 + i, n) == r;
    assert Column(y, c, n)[r] == y(r, c);
  }

  lemma {:induction false} SendsPartial<V>(g: Ring<Block, V>, progs: seq<seq<Instr<Block>>>, y: (nat, nat) -> V, n: nat, m: nat, out: (nat, nat) -> V, r: nat, i: nat)
    requires Runs(g, progs, y, n, m) && Carries(g, y, n, out) && r < n && i + 1 < n
    ensures i < |g.progs[r]| && Sends(g.progs[r][i])
    ensures Outgoing(g.op, g.progs[r][i], MemAt(g, out, r, i), Incoming(g, out, r, i)) == Message(g.op, y, n, r, i)
  {
    assert Follows(progs[r], r, n, m);
    OwnSource(g, progs, y, n, m, out, r, i, Back(r, 1 + i, n));
    OwnContribution(g.op, y, n, r, i);
    if i > 0 {
      TakesPartial(g, progs, y, n, m, out, r, i);
    }
  }

  lemma {:induction false} FinishedHere<V>(op: (V, V) -> V, y: (nat, nat) -> V, n: nat, r: nat)
    requires n >= 2 && r < n
    ensures Back(r, n, n) == r
    ensures Result(op, y, r, n) == op(y(r, r), Chain(op, Column(y, r, n), r, n - 2))
  {
    OwnContribution(op, y, n, r, n - 1);
  }

  lemma {:induction false} OwnChunk<V>(g: Ring<Block, V>, progs: seq<seq<Instr<Block>>>, y: (nat, nat) -> V, n: nat, m: nat, out: (nat, nat) -> V, r: nat)
    requires Runs(g, progs, y, n, m) && Carries(g, y, n, out) && r < n
    ensures Dst(r) in MemAt(g, out, r, n) && MemAt(g, out, r, n)[Dst(r)] == Result(g.op, y, r, n)
  {
    var i, c := n - 1, Column(y, r, n);
    assert g.progs[r][i] == ReduceStore(Src(r), Dst(r)) by {
      assert Follows(progs[r], r, n, m);
    }
    assert Incoming(g, out, r, i) == Some(Chain(g.op, c, r, n - 2)) by {
      assert Back(r, n, n) == r;
      TakesPartial(g, progs, y, n, m, out, r, i);
    }
    OwnSource(g, progs, y, n, m, out, r, i, r);
    AfterReduceStore(g, out, r, i, Src(r), Dst(r));
    FinishedHere(g.op, y, n, r);
  }

  /** The chunk just finished or just received is the one sent next. */
  lemma {:induction false} FreshChunk<V>(g: Ring<Block, V>, progs: seq<seq<Instr<Block>>>, y: (nat, nat) -> V, n: nat, m: nat, out: (nat, nat) -> V, r: nat, t: nat, i: nat)
    requires Runs(g, progs, y, n, m) && Carries(g, y, n, out) && r < n && t < n && i == n + 2 * t <= m
    ensures var c := Back(r, t, n); Dst(c) in MemAt(g, out, r, i) && MemAt(g, out, r, i)[Dst(c)] == Result(g.op, y, c, n)
  {
    if t == 0 {
      OwnChunk(g, progs, y, n, m, out, r);
    } else {
      TakesFinished(g, progs, y, n, m, out, r, t - 1, i - 1);
      AfterRecv(g, out, r, i - 1, Dst(Back(r, t, n)));
    }
  }

  lemma {:induction false} SendsFinished<V>(g: Ring<Block, V>, progs: seq<seq<Instr<Block>>>, y: (nat, nat) -> V, n: nat, m: nat, out: (nat, nat) -> V, r: nat, t: nat, i: nat)
    requires Runs(g, progs, y, n, m) && Carries(g, y, n, out) && r < n && i == n + 2 * t < m
    ensures t + 1 < n && Sends(g.progs[r][i])
    ensures Outgoing(g.op, g.progs[r][i], MemAt(g, out, r, i), Incoming(g, out, r, i)) == Message(g.op, y, n, r, n - 1 + t)
  {
    assert Follows(progs[r], r, n, m);
    ShareMoves(r, n, t, i);
    FreshChunk(g, progs, y, n, m, out, r, t, i);
  }

  lemma {:induction false} SendNumber(r: nat, n: nat, i: nat) returns (t: nat)
    requires n >= 2 && r < n && i < Length(n) && i + 1 >= n && Sends(MoveAt(r, n, i))
    ensures i == n + 2 * t && SentBy(n, i) == n - 1 + t && n - 1 + t + 2 < 2 * n
  {
    t := (i - n) / 2;
  }

  lemma {:induction false} EachSend<V>(g: Ring<Block, V>, progs: seq<seq<Instr<Block>>>, y: (nat, nat) -> V, n: nat, m: nat, out: (nat, nat) -> V, r: nat, i: nat)
    requires Runs(g, progs, y, n, m) && Carries(g, y, n, out) && r < n && i < |g.progs[r]| && Sends(g.progs[r][i])
    ensures Outgoing(g.op, g.progs[r][i], MemAt(g, out, r, i), Incoming(g, out, r, i)) == out(r, Sent(g.progs[r], i))
  {
    assert Sends(MoveAt(r, n, i)) && Sent(progs[r], i) == SentBy(n, i) by {
      assert Follows(progs[r], r, n, m);
      Counts(progs[r], r, n, m, i);
    }
    if i + 1 < n {
      SendsPartial(g, progs, y, n, m, out, r, i);
      assert out(r, i) == Message(g.op, y, n, r, i);
    } else {
      var t := SendNumber(r, n, i);
      SendsFinished(g, progs, y, n, m, out, r, t, i);
      assert out(r, n - 1 + t) == Message(g.op, y, n, r, n - 1 + t);
    }
  }

  lemma {:induction false} AllreduceSolves<V>(g: Ring<Block, V>, progs: seq<seq<Instr<Block>>>, y: (nat, nat) -> V, n: nat, m: nat, out: (nat, nat) -> V)
    requires Runs(g, progs, y, n, m) && Carries(g, y, n, out)
    ensures Solves(g, out)
  {
    forall r, i | 0 <= r < n && 0 <= i < |g.progs[r]| && Sends(g.progs[r][i])
      ensures Outgoing(g.op, g.progs[r][i], MemAt(g, out, r, i), Incoming(g, out, r, i)) == out(r, Sent(g.progs[r], i))
    {
      EachSend(g, progs, y, n, m, out, r, i);
    }
  }

  lemma {:induction false} SentBefore(r: nat, n: nat, i: nat, j: nat)
    requires n >= 2 && r < n && i < Length(n) && j <= Length(n) && Receives(MoveAt(r, n, i)) && SentBy(n, j) <= TakenBy(n, i)
    ensures j < i
  {
  }

  /** Moves of equal number are causally ordered: a message is sent by an earlier move than the one that takes it. */
  lemma {:induction false} AllreduceCausal<V>(g: Ring<Block, V>, progs: seq<seq<Instr<Block>>>, y: (nat, nat) -> V, n: nat, m: nat, time: (nat, nat) -> nat)
    requires Runs(g, progs, y, n, m) && (m == n || m == Length(n))
    requires forall r: nat, i: nat :: time(r, i) == i
    ensures Causal(g, time) && Balanced(g)
  {
    forall r, i, j | 0 <= r < n && 0 <= i < |g.progs[r]| && 0 <= j <= |g.progs[Prev(r, n)]|
      ensures Precedes(g, time, r, i, j)
    {
      var p := Prev(r, n);
      assert Follows(progs[r], r, n, m) && Follows(progs[p], p, n, m);
      Counts(progs[r], r, n, m, i);
      Counts(progs[p], p, n, m, j);
      if Receives(g.progs[r][i]) && Sent(g.progs[p], j) <= Received(g.progs[r], i) {
        SentBefore(r, n, i, j);
      }
    }
    forall r | 0 <= r < n ensures Sent(g.progs[r], m) == Received(g.progs[Next(r, n)], m) {
      assert Follows(progs[r], r, n, m) && Follows(progs[Next(r, n)], Next(r, n), n, m);
      Counts(progs[r], r, n, m, m);
      Counts(progs[Next(r, n)], Next(r, n), n, m, m);
    }
  }

  lemma {:induction false} LaterMovesWriteElsewhere(r: nat, n: nat, u: nat, i: nat)
    requires n >= 2 && r < n && u < n && n + 2 * u <= i < Length(n)
    ensures !Writes(MoveAt(r, n, i), Dst(Back(r, u, n)))
  {
  }

  /** Once chunk `r - u` is in place, no later move overwrites it. */
  lemma {:induction false} ChunkStays<V>(g: Ring<Block, V>, progs: seq<seq<Instr<Block>>>, y: (nat, nat) -> V, n: nat, m: nat, out: (nat, nat) -> V, r: nat, u: nat)
    requires Runs(g, progs, y, n, m) && Carries(g, y, n, out) && r < n && u < n && n + 2 * u <= m
    ensures var c := Back(r, u, n); Dst(c) in MemAt(g, out, r, m) && MemAt(g, out, r, m)[Dst(c)] == Result(g.op, y, c, n)
  {
    var c, k := Back(r, u, n), n + 2 * u;
    FreshChunk(g, progs, y, n, m, out, r, u, k);
    assert Follows(progs[r], r, n, m);
    forall i | k <= i < m ensures !Writes(g.progs[r][i], Dst(c)) {
      LaterMovesWriteElsewhere(r, n, u, i);
    }
    Kept(g, out, r, Dst(c), k, m);
  }

  /** ---- Segment by segment, under every schedule. `x(s, r, c)` is segment `s` of chunk `c` at rank `r`. ---- */

  ghost predicate Calls<V>(g: Ring<(Block, nat), V>, progs: seq<seq<Instr<Block>>>, S: nat, x: (nat, nat, nat) -> V, n: nat, m: nat) {
    && SegmentedJob(g, progs, S, x, n, n, seq(n, _ => n))
    && n <= m <= Length(n)
    && forall r :: 0 <= r < n ==> Follows(progs[r], r, n, m)
  }

  ghost function AllMessages<V>(op: (V, V) -> V, x: (nat, nat, nat) -> V, n: nat): (nat, nat, nat) -> V {
    (s: nat, r: nat, k: nat) => if r < n && k + 2 < 2 * n then Message(op, LaneOut(x, s), n, r, k) else x(s, r, k)
  }

  lemma {:induction false} LaneSolved<V>(g: Ring<(Block, nat), V>, progs: seq<seq<Instr<Block>>>, S: nat, x: (nat, nat, nat) -> V,
                                         n: nat, m: nat, s: nat)
    requires Calls(g, progs, S, x, n, m) && s < S
    ensures WellFormed(g) && Runs(Lane(g, progs, s), progs, LaneOut(x, s), n, m)
    ensures Carries(Lane(g, progs, s), LaneOut(x, s), n, LaneOut(AllMessages(g.op, x, n), s))
    ensures Solves(Lane(g, progs, s), LaneOut(AllMessages(g.op, x, n), s))
  {
    LaneJob(g, progs, S, x, n, n, seq(n, _ => n), s);
    AllreduceSolves(Lane(g, progs, s), progs, LaneOut(x, s), n, m, LaneOut(AllMessages(g.op, x, n), s));
  }

  /** Reduce-scatter or all-reduce, whatever order the ranks' segment moves come in. */
  lemma {:induction false} EveryAllreduceRun<V>(g: Ring<(Block, nat), V>, progs: seq<seq<Instr<Block>>>, S: nat, x: (nat, nat, nat) -> V,
                                                n: nat, m: nat, sched: seq<nat>, t: State<(Block, nat), V>)
    requires Calls(g, progs, S, x, n, m) && (m == n || m == Length(n))
    requires WellFormed(g) && Reaches(g, Initial(g), sched, t)
    ensures Inv(g, SegmentOut(AllMessages(g.op, x, n), S), t)
    ensures |sched| <= Sum(Lengths(g)) && (Stuck(g, t) <==> |sched| == Sum(Lengths(g)))
    ensures Stuck(g, t) ==> forall r :: 0 <= r < n ==> t.link[r] == []
    ensures Stuck(g, t) ==> forall r, s :: 0 <= r < n && 0 <= s < S ==>
      WellFormed(Lane(g, progs, s)) &&
      Slice(t.mem[r], s) == MemAt(Lane(g, progs, s), LaneOut(AllMessages(g.op, x, n), s), r, m)
  {
    forall s | 0 <= s < S
      ensures WellFormed(Lane(g, progs, s)) && Solves(Lane(g, progs, s), LaneOut(AllMessages(g.op, x, n), s))
    {
      LaneSolved(g, progs, S, x, n, m, s);
    }
    LaneSolved(g, progs, S, x, n, m, 0);
    var time := (r: nat, i: nat) => i;
    AllreduceCausal(Lane(g, progs, 0), progs, LaneOut(x, 0), n, m, time);
    EverySegmentedRun(g, progs, S, AllMessages(g.op, x, n), time, sched, t);
  }

  /** Each link carries exactly `2(n - 1)` chunk messages. */
  lemma {:induction false} TwiceRound(prog: seq<Instr<Block>>, r: nat, n: nat)
    requires n >= 2 && r < n && Follows(prog, r, n, Length(n))
    ensures Sent(prog, |prog|) == Received(prog, |prog|) == 2 * (n - 1)
  {
    Counts(prog, r, n, Length(n), Length(n));
  }

  /**
   All-reduce: a run that cannot go on has made every move, and every rank then holds, in every segment of every chunk
   `c`, the same value `x[c] op (x[c-1] op (... op x[c+1]))`, though the operator need not be associative. When it is
   associative and commutative, that value is the sum in rank order.
   */
  lemma {:induction false} AllreduceCorrect<V(!new)>(g: Ring<(Block, nat), V>, progs: seq<seq<Instr<Block>>>, S: nat, x: (nat, nat, nat) -> V,
                                                     n: nat, sched: seq<nat>, t: State<(Block, nat), V>, r: nat, c: nat, s: nat)
    requires n >= 2 && Calls(g, progs, S, x, n, Length(n)) && WellFormed(g)
    requires Reaches(g, Initial(g), sched, t) && Stuck(g, t)
    requires r < n && c < n && s < S
    ensures |sched| == Sum(Lengths(g)) && t.link[r] == []
    ensures (Dst(c), s) in t.mem[r] && t.mem[r][(Dst(c), s)] == Result(g.op, LaneOut(x, s), c, n)
    ensures Associative(g.op) && Commutative(g.op) ==>
      t.mem[r][(Dst(c), s)] == InOrder(g.op, Column(LaneOut(x, s), c, n))
  {
    EveryAllreduceRun(g, progs, S, x, n, Length(n), sched, t);
    LaneSolved(g, progs, S, x, n, Length(n), s);
    var l, out := Lane(g, progs, s), LaneOut(AllMessages(g.op, x, n), s);
    ChunkStays(l, progs, LaneOut(x, s), n, Length(n), out, r, Back(r, c, n));
    assert Back(r, Back(r, c, n), n) == c;
    assert Slice(t.mem[r], s) == MemAt(l, out, r, Length(n));
    if Associative(g.op) && Commutative(g.op) {
      FoldIsSum(g.op, Column(LaneOut(x, s), c, n), c);
    }
  }

  /** Reduce-scatter: rank `r` ends with the finished chunk `r`, in its own place in the destination. */
  lemma {:induction false} ReduceScatterCorrect<V>(g: Ring<(Block, nat), V>, progs: seq<seq<Instr<Block>>>, S: nat, x: (nat, nat, nat) -> V,
                                                   n: nat, sched: seq<nat>, t: State<(Block, nat), V>, r: nat, s: nat)
    requires n >= 2 && Calls(g, progs, S, x, n, n) && WellFormed(g)
    requires Reaches(g, Initial(g), sched, t) && Stuck(g, t)
    requires r < n && s < S
    ensures |sched| == Sum(Lengths(g)) && t.link[r] == []
    ensures (Dst(r), s) in t.mem[r] && t.mem[r][(Dst(r), s)] == Result(g.op, LaneOut(x, s), r, n)
  {
    EveryAllreduceRun(g, progs, S, x, n, n, sched, t);
    LaneSolved(g, progs, S, x, n, n, s);
    var l, out := Lane(g, progs, s), LaneOut(AllMessages(g.op, x, n), s);
    OwnChunk(l, progs, LaneOut(x, s), n, n, out, r);
    assert Slice(t.mem[r], s) == MemAt(l, out, r, n);
  }
}
