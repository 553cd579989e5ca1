/**
 A ring of ranks, each with its own engine, memory and spare buffers, running one collective together. Every rank's
 firmware runs by itself on whatever packets reach it; the only thing said about the network is that a rank's packets are
 those its predecessor put out.
 */
module RingOfEngines {
  import opened Segments
  import opened Elementwise
  import opened SpareBuffers
  import opened TransferEngine
  import opened OffchipCalls
  import opened Composition
  import N = Network
  import R = RingIndex
  import L = Lanes

  /** Messages of equal length occupy packets in equal blocks. */
  lemma {:induction false} PacketsAt(ms: seq<seq<Byte>>, len: nat, T: nat, j: nat)
    requires T > 0 && AllLong(ms, len) && j < |ms|
    ensures var n := |Cut(len, T)|;
      && |Packets(ms, T)| == L.Times(|ms|, n) && L.Times(j, n) + n <= |Packets(ms, T)|
      && Packets(ms, T)[L.Times(j, n)..L.Times(j, n) + n] == Slices(ms[j], T)
    decreases |ms|
  {
    var m, n := |ms| - 1, |Cut(len, T)|;
    assert |Slices(ms[m], T)| == n by {
      SlicesRoundTrip(ms[m], T);
      assert |Slices(ms[m], T)| == |Lengths(Slices(ms[m], T))|;
    }
    if m > 0 {
      PacketsAt(ms[..m], len, T, if j < m then j else 0);
    }
    if j < m {
      FrontSlice(Packets(ms[..m], T), Slices(ms[m], T), L.Times(j, n), n);
    }
  }

  lemma {:induction false} FrontSlice<A>(a: seq<A>, b: seq<A>, at: nat, n: nat)
    requires at + n <= |a|
    ensures (a + b)[at..at + n] == a[at..at + n]
  {
  }

  /** If they are the packets of some messages, the receiver makes these messages out of them. */
  lemma {:induction false} HeardIsSent(wire: (nat, nat) -> Packet, q: nat, len: nat, T: nat, first: nat, ms: seq<seq<Byte>>, j: nat)
    requires T > 0 && AllLong(ms, len) && j < |ms| && Brings(wire, q, first, Packets(ms, T))
    ensures Heard(wire, q, len, T, first, j) == ms[j]
  {
    PacketsAt(ms, len, T, j);
    SlicesRoundTrip(ms[j], T);
    var n := |Cut(len, T)|;
    BroughtBlock(wire, q, first, Packets(ms, T), L.Times(j, n), n);
  }

  /** The ranks of a ring, the network they are to carry out, and the state each starts from. */
  datatype Team<!C> = Team(es: seq<Engine>, ks: seq<Rank<C>>, cells: seq<set<C>>, g: N.Ring<C, seq<Byte>>, starts: seq<Before>, T: nat, len: nat)

  /** What each rank's packets from its predecessor amount to. */
  ghost function RingFeed<C>(t: Team<C>): (nat, nat) -> seq<Byte>
    requires t.T > 0 && |t.es| == |t.starts|
  {
    (q: nat, j: nat) =>
      if q < |t.es| && q < |t.starts[R.Next(q, |t.es|)].taken| then
        Heard(t.es[R.Next(q, |t.es|)].pool.wire, q, t.len, t.T, t.starts[R.Next(q, |t.es|)].taken[q], j)
      else []
  }

  ghost function CallAt<C>(t: Team<C>, r: nat): Call<C>
    requires t.T > 0 && r < |t.es| == |t.starts| == |t.ks| == |t.cells|
  {
    Call(t.ks[r], t.cells[r], t.g, RingFeed(t), r, t.starts[r])
  }

  /** Rank `r` knows its neighbours, its cells hold what the network starts from, and its engine is set up like the others. */
  ghost predicate Member<C>(t: Team<C>, r: nat)
    requires r < |t.es| == |t.starts| == |t.ks| == |t.cells| == |t.g.init|
  {
    var e, k, s, n := t.es[r], t.ks[r], t.starts[r], |t.es|;
    && e.T == t.T && t.g.op == MessageOp(e.arith, t.T)
    && k.prev == R.Prev(r, n) && k.next == R.Next(r, n) && k.len == t.len
    && |s.taken| == |s.outbound| == n
    && Placed(k.place, t.cells[r], k.len, |s.mem|) && Cells(s.mem, k.place, t.cells[r], k.len) == t.g.init[r]
  }

  ghost predicate Separate(es: seq<Engine>) {
    forall q, r :: 0 <= q < r < |es| ==> es[q] != es[r] && es[q].pool != es[r].pool
  }

  ghost predicate Proper<C>(t: Team<C>) {
    && t.T > 0 && |t.es| == |t.starts| == |t.ks| == |t.cells| == |t.g.progs|
    && N.WellFormed(t.g) && Separate(t.es)
    && forall r :: 0 <= r < |t.es| ==> Member(t, r)
  }

  ghost predicate AtStart<C>(t: Team<C>, r: nat)
    requires r < |t.es| == |t.starts|
    reads t.es[r], t.es[r].pool
  {
    t.es[r].Ready() && Now(t.es[r]) == t.starts[r]
  }

  /** Rank `r` has finished. */
  ghost predicate Finished<C>(t: Team<C>, r: nat, s: Before)
    requires t.T > 0 && r < |t.es| == |t.starts| == |t.ks| == |t.cells| == |t.g.progs|
  {
    Reached(t.T, CallAt(t, r), |t.g.progs[r]|, s)
  }

  ghost predicate AtEnd<C>(t: Team<C>, r: nat, s: Before)
    requires t.T > 0 && r < |t.es| == |t.starts| == |t.ks| == |t.cells| == |t.g.progs|
    reads t.es[r], t.es[r].pool
  {
    t.es[r].Ready() && Now(t.es[r]) == s && Finished(t, r, s)
  }

  lemma {:induction false} Place<C>(t: Team<C>, r: nat)
    requires Proper(t) && r < |t.es|
    ensures Placement(t.es[r], CallAt(t, r)) && R.Prev(r, |t.es|) < |t.es|
  {
    var q := R.Prev(r, |t.es|);
    assert Member(t, r) && R.Next(q, |t.es|) == r;
    forall j: nat ensures RingFeed(t)(q, j) == Heard(t.es[r].pool.wire, q, t.len, t.T, t.starts[r].taken[q], j) {
    }
  }

  /** Rank `r` receives nothing, or the packets of all messages it receives have landed, and it tries at least once. */
  ghost predicate Provided<C>(t: Team<C>, r: nat, attempts: nat)
    requires t.T > 0 && r < |t.es| == |t.ks| == |t.g.progs|
    reads t.es[r].pool
  {
    var n := N.Received(t.g.progs[r], |t.g.progs[r]|);
    n == 0 || (attempts > 0 && AllHere(t.es[r], t.ks[r].prev, Receipts(n, Cut(t.len, t.T)), t.ks[r].tag))
  }

  ghost predicate AllProvided<C>(t: Team<C>, from: nat, attempts: nat)
    requires t.T > 0 && |t.es| == |t.ks| == |t.g.progs|
    reads set e | e in t.es :: e.pool
  {
    forall r: nat :: from <= r < |t.es| ==> Provided(t, r, attempts)
  }

  lemma {:induction false} NoneReceived<C>(prog: seq<N.Instr<C>>, i: nat)
    requires i <= |prog| && N.Received(prog, i) == 0
    ensures forall j :: 0 <= j < i ==> !N.Receives(prog[j])
  {
    if i > 0 {
      NoneReceived(prog, i - 1);
    }
  }

  /** Rank `r` plays its part, and no other rank is touched. */
  method RunRank<C>(e: Engine, prog: seq<N.Instr<C>>, k: Rank<C>, ghost t: Team<C>, ghost r: nat, attempts: nat) returns (code: Code)
    requires Proper(t) && r < |t.es| && e == t.es[r] && prog == t.g.progs[r] && k == t.ks[r] && AtStart(t, r)
    modifies e, e.pool
    ensures code == Success || code == ReceiveTimeout
    ensures code == Success ==> AtEnd(t, r, Now(e))
    ensures old(Provided(t, r, attempts)) ==> code == Success
  {
    Place(t, r);
    assert Member(t, r);
    if N.Received(prog, |prog|) == 0 {
      NoneReceived(prog, |prog|);
    }
    code := RunProgram(e, prog, k, CallAt(t, r), attempts);
  }

  /** What rank `q` has put out is what reaches its successor. */
  ghost predicate LinkCarries<C>(t: Team<C>, q: nat, s: Before)
    requires q < |t.es| == |t.starts|
  {
    var d := R.Next(q, |t.es|);
    q < |t.starts[d].taken| && |t.starts[q].out| <= |s.out| &&
    Brings(t.es[d].pool.wire, q, t.starts[d].taken[q], s.out[|t.starts[q].out|..])
  }

  lemma {:induction false} FedByPredecessor<C>(t: Team<C>, q: nat, s: Before)
    requires Proper(t) && q < |t.es| && Finished(t, q, s) && LinkCarries(t, q, s)
    ensures N.FedWith(t.g, RingFeed(t), q)
  {
    var sent := N.Emitted(t.g, RingFeed(t), q, |t.g.progs[q]|);
    var d := R.Next(q, |t.es|);
    assert Member(t, q);
    assert s.out[|t.starts[q].out|..] == Packets(sent, t.T);
    forall k: nat | k < |sent| ensures RingFeed(t)(q, k) == sent[k] {
      HeardIsSent(t.es[d].pool.wire, q, t.len, t.T, t.starts[d].taken[q], sent, k);
    }
  }

  /**
   When all ranks have finished and the links have carried what was put out on them, every rank's memory is what any
   solution of the ring says.
   */
  lemma {:induction false} Outcome<C>(t: Team<C>, ends: seq<Before>, out: (nat, nat) -> seq<Byte>, time: (nat, nat) -> nat, r: nat)
    requires Proper(t) && |ends| == |t.es| && r < |t.es|
    requires forall q :: 0 <= q < |t.es| ==> Finished(t, q, ends[q]) && LinkCarries(t, q, ends[q])
    requires N.Solves(t.g, out) && N.Causal(t.g, time) && N.Balanced(t.g)
    ensures Placed(t.ks[r].place, t.cells[r], t.len, |ends[r].mem|)
    ensures Cells(ends[r].mem, t.ks[r].place, t.cells[r], t.len) == N.MemAt(t.g, out, r, |t.g.progs[r]|)
  {
    forall q: nat | q < |t.es| ensures N.FedWith(t.g, RingFeed(t), q) {
      FedByPredecessor(t, q, ends[q]);
    }
    N.ClosedSolves(t.g, RingFeed(t));
    N.OneOutcome(t.g, RingFeed(t), out, time, r);
    assert Member(t, r) && Finished(t, r, ends[r]);
  }

  /** The memory of rank `r` is what the solution says. */
  ghost predicate Solved<C>(t: Team<C>, out: (nat, nat) -> seq<Byte>, r: nat, s: Before)
    requires N.WellFormed(t.g) && r < |t.es| == |t.ks| == |t.cells| == |t.g.progs|
  {
    && Placed(t.ks[r].place, t.cells[r], t.len, |s.mem|)
    && Cells(s.mem, t.ks[r].place, t.cells[r], t.len) == N.MemAt(t.g, out, r, |t.g.progs[r]|)
  }

  ghost predicate AllFinished<C>(t: Team<C>, ends: seq<Before>)
    requires t.T > 0 && |ends| <= |t.es| == |t.starts| == |t.ks| == |t.cells| == |t.g.progs|
  {
    forall q: nat :: q < |ends| ==> Finished(t, q, ends[q])
  }

  ghost predicate AllCarry<C>(t: Team<C>, ends: seq<Before>)
    requires |ends| == |t.es| == |t.starts|
  {
    forall q: nat :: q < |t.es| ==> LinkCarries(t, q, ends[q])
  }

  ghost predicate AllSolved<C>(t: Team<C>, out: (nat, nat) -> seq<Byte>, ends: seq<Before>)
    requires N.WellFormed(t.g) && |ends| == |t.es| == |t.ks| == |t.cells| == |t.g.progs|
  {
    forall r: nat :: r < |t.es| ==> Solved(t, out, r, ends[r])
  }

  /** ---- Links that carry a solution ---- */

  /** What reaches the successor of rank `q` are the packets of the messages that a solution says rank `q` sends. */
  ghost predicate WireBrings<C>(t: Team<C>, out: (nat, nat) -> seq<Byte>, q: nat)
    requires t.T > 0 && q < |t.es| == |t.starts| == |t.g.progs|
  {
    var d, ms := R.Next(q, |t.es|), N.Messages(out, q, 0, N.Sent(t.g.progs[q], |t.g.progs[q]|));
    q < |t.starts[d].taken| && AllLong(ms, t.len) && Brings(t.es[d].pool.wire, q, t.starts[d].taken[q], Packets(ms, t.T))
  }

  ghost predicate WiresBring<C>(t: Team<C>, out: (nat, nat) -> seq<Byte>)
    requires t.T > 0 && |t.es| == |t.starts| == |t.g.progs|
  {
    forall q: nat :: q < |t.es| ==> WireBrings(t, out, q)
  }

  lemma {:induction false} FedSolution<C>(t: Team<C>, out: (nat, nat) -> seq<Byte>, q: nat, k: nat)
    requires Proper(t) && q < |t.es| && WireBrings(t, out, q) && k < N.Sent(t.g.progs[q], |t.g.progs[q]|)
    ensures RingFeed(t)(q, k) == out(q, k)
  {
    var d, ms := R.Next(q, |t.es|), N.Messages(out, q, 0, N.Sent(t.g.progs[q], |t.g.progs[q]|));
    HeardIsSent(t.es[d].pool.wire, q, t.len, t.T, t.starts[d].taken[q], ms, k);
    assert Member(t, d);
  }

  /** Then what each rank puts out is what its link carries. */
  lemma {:induction false} SolutionCarries<C>(t: Team<C>, ends: seq<Before>, out: (nat, nat) -> seq<Byte>, time: (nat, nat) -> nat, q: nat)
    requires Proper(t) && N.Solves(t.g, out) && N.Causal(t.g, time) && WiresBring(t, out)
    requires |ends| == |t.es| && q < |t.es| && Finished(t, q, ends[q])
    ensures LinkCarries(t, q, ends[q])
  {
    var p, n := R.Prev(q, |t.es|), |t.g.progs[q]|;
    N.EnoughIsSent(t.g, time, q, n);
    forall k: nat | k < N.Received(t.g.progs[q], n) ensures RingFeed(t)(p, k) == out(p, k) {
      assert WireBrings(t, out, p);
      FedSolution(t, out, p, k);
    }
    N.EmitsSolution(t.g, RingFeed(t), out, q, n);
    assert WireBrings(t, out, q) && Member(t, q);
    var sent := N.Emitted(t.g, RingFeed(t), q, n);
    assert ends[q].out[|t.starts[q].out|..] == Packets(sent, t.T);
  }

  lemma {:induction false} EveryOutcome<C>(t: Team<C>, ends: seq<Before>, out: (nat, nat) -> seq<Byte>, time: (nat, nat) -> nat)
    requires Proper(t) && |ends| == |t.es| && AllFinished(t, ends)
    requires N.Solves(t.g, out) && N.Causal(t.g, time) && N.Balanced(t.g)
    ensures AllCarry(t, ends) ==> AllSolved(t, out, ends)
    ensures WiresBring(t, out) ==> AllCarry(t, ends)
  {
    if WiresBring(t, out) {
      forall q: nat | q < |t.es| ensures LinkCarries(t, q, ends[q]) {
        SolutionCarries(t, ends, out, time, q);
      }
    }
    if AllCarry(t, ends) {
      forall r: nat | r < |t.es| ensures Solved(t, out, r, ends[r]) {
        Outcome(t, ends, out, time, r);
      }
    }
  }

  /** A rank whose engine and spare buffers are left alone stands where it stood. */
  ghost predicate Stands<C>(t: Team<C>, ends: seq<Before>, q: nat)
    requires t.T > 0 && q < |t.es| == |t.starts| == |t.ks| == |t.cells| == |t.g.progs|
    reads t.es[q], t.es[q].pool
  {
    if q < |ends| then AtEnd(t, q, ends[q]) else AtStart(t, q)
  }

  /** The ranks before `|ends|` have finished, and the others have not begun. */
  ghost predicate Underway<C>(t: Team<C>, ends: seq<Before>)
    requires t.T > 0 && |ends| <= |t.es| == |t.starts| == |t.ks| == |t.cells| == |t.g.progs|
    reads t.es, set e | e in t.es :: e.pool
  {
    forall q: nat :: q < |t.es| ==> Stands(t, ends, q)
  }

  method RunNext<C>(e: Engine, prog: seq<N.Instr<C>>, k: Rank<C>, ghost t: Team<C>, ghost ends: seq<Before>, attempts: nat)
    returns (code: Code, ghost end: Before)
    requires Proper(t) && |ends| < |t.es| && e == t.es[|ends|] && prog == t.g.progs[|ends|] && k == t.ks[|ends|] && Underway(t, ends)
    modifies e, e.pool
    ensures code == Success || code == ReceiveTimeout
    ensures code == Success ==> Underway(t, ends + [end])
    ensures old(AllProvided(t, |ends|, attempts)) ==> code == Success && AllProvided(t, |ends| + 1, attempts)
  {
    ghost var r := |ends|;
    assert AllProvided(t, r, attempts) ==> Provided(t, r, attempts);
    assert Stands(t, ends, r);
    code := RunRank(e, prog, k, t, r, attempts);
    end := Now(e);
    if code == Success {
      forall q: nat | q < |t.es| ensures Stands(t, ends + [end], q) {
        if q != r {
          assert t.es[q] != e && t.es[q].pool != e.pool;
          assert old(Stands(t, ends, q));
        }
      }
    }
    forall q: nat | r < q < |t.es| && old(AllProvided(t, r, attempts)) ensures Provided(t, q, attempts) {
      assert t.es[q].pool != e.pool;
      assert old(Provided(t, q, attempts));
    }
  }

  /**
   All ranks run their programs. If none gives up, and the links have carried what was put out on them, then every rank
   ends with the memory that the ring's solution gives it: segments, headers, tags, spare buffers and interrupts leave no
   trace. Links on which the messages of the solution arrive are such links, and none gives up whose packets have landed.
   */
  method RunRing<C>(es: seq<Engine>, progs: seq<seq<N.Instr<C>>>, ks: seq<Rank<C>>, ghost t: Team<C>,
                    ghost out: (nat, nat) -> seq<Byte>, ghost time: (nat, nat) -> nat, attempts: nat)
    returns (code: Code, ghost ends: seq<Before>)
    requires Proper(t) && t.es == es && t.ks == ks && t.g.progs == progs && Underway(t, [])
    requires N.Solves(t.g, out) && N.Causal(t.g, time) && N.Balanced(t.g)
    modifies es, set e | e in es :: e.pool
    ensures code == Success || code == ReceiveTimeout
    ensures code == Success ==> |ends| == |es| && Underway(t, ends) && (AllCarry(t, ends) ==> AllSolved(t, out, ends))
    ensures code == Success && WiresBring(t, out) ==> AllCarry(t, ends)
    ensures old(AllProvided(t, 0, attempts)) ==> code == Success
  {
    code, ends := Success, [];
    var r := 0;
    while r < |es| && code == Success
      invariant r <= |es| && (code == Success || code == ReceiveTimeout)
      invariant code == Success ==> |ends| == r && Underway(t, ends)
      invariant old(AllProvided(t, 0, attempts)) ==> code == Success && AllProvided(t, r, attempts)
      decreases |es| - r
    {
      ghost var end;
      code, end := RunNext(es[r], progs[r], ks[r], t, ends, attempts);
      ends := ends + [end];
      r := r + 1;
    }
    if code == Success {
      AllEnded(t, ends);
      EveryOutcome(t, ends, out, time);
    }
  }

  lemma {:induction false} AllEnded<C>(t: Team<C>, ends: seq<Before>)
    requires t.T > 0 && |ends| == |t.es| == |t.starts| == |t.ks| == |t.cells| == |t.g.progs| && Underway(t, ends)
    ensures AllFinished(t, ends)
  {
    forall q: nat | q < |ends| ensures Finished(t, q, ends[q]) {
      assert Stands(t, ends, q);
    }
  }
}
