/**
 A ring of ranks, each running a straight-line program of buffer moves, linked by one FIFO from every rank to its
 successor. Ranks step in any order; a move that needs a message waits for one. The module proves, for every program
 vector and every schedule, that the network computes what a single timeline per rank says, that it cannot get stuck
 before all programs end, and that messages are neither lost nor left over.
 */
module Network {
  import opened RingIndex
  import opened Wrappers

  /** The six moves the ring collectives are built from, over buffer cells of type `C`. */
  datatype Instr<C> =
    | Send(from: C)
    | Recv(to: C)
    | Relay
    | ReduceSend(local: C)
    | ReduceStore(local: C, to: C)
    | Copy(from: C, to: C)

  predicate Sends<C>(i: Instr<C>) { i.Send? || i.Relay? || i.ReduceSend? }

  predicate Receives<C>(i: Instr<C>) { i.Recv? || i.Relay? || i.ReduceSend? || i.ReduceStore? }

  ghost predicate Fits<C, V>(i: Instr<C>, m: map<C, V>) {
    match i
    case Send(from) => from in m
    case Recv(to) => to in m
    case Relay => true
    case ReduceSend(local) => local in m
    case ReduceStore(local, to) => local in m && to in m
    case Copy(from, to) => from in m && to in m
  }

  /** The operator's left operand is the local buffer, its right one the received message. */
  ghost function Outgoing<C, V>(op: (V, V) -> V, i: Instr<C>, m: map<C, V>, x: Option<V>): V
    requires Sends(i) && Fits(i, m) && (Receives(i) ==> x.Some?)
  {
    match i
    case Send(from) => m[from]
    case Relay => x.value
    case ReduceSend(local) => op(m[local], x.value)
  }

  ghost function After<C, V>(op: (V, V) -> V, i: Instr<C>, m: map<C, V>, x: Option<V>): (m': map<C, V>)
    requires Fits(i, m) && (Receives(i) ==> x.Some?)
    ensures m'.Keys == m.Keys
  {
    match i
    case Send(_) => m
    case Recv(to) => m[to := x.value]
    case Relay => m
    case ReduceSend(_) => m
    case ReduceStore(local, to) => m[to := op(m[local], x.value)]
    case Copy(from, to) => m[to := m[from]]
  }

  datatype Ring<!C, !V> = Ring(op: (V, V) -> V, progs: seq<seq<Instr<C>>>, init: seq<map<C, V>>)

  datatype State<!C, V> = State(pc: seq<nat>, mem: seq<map<C, V>>, link: seq<seq<V>>)

  /** What the firmware asks of its caller: two ranks or more, and buffers large enough for the moves. */
  ghost predicate WellFormed<C, V>(g: Ring<C, V>) {
    && |g.progs| >= 2
    && |g.init| == |g.progs|
    && forall r, i :: 0 <= r < |g.progs| && 0 <= i < |g.progs[r]| ==> Fits(g.progs[r][i], g.init[r])
  }

  function Sent<C>(prog: seq<Instr<C>>, i: nat): nat
    requires i <= |prog|
  {
    if i == 0 then 0 else Sent(prog, i - 1) + if Sends(prog[i - 1]) then 1 else 0
  }

  function Received<C>(prog: seq<Instr<C>>, i: nat): nat
    requires i <= |prog|
  {
    if i == 0 then 0 else Received(prog, i - 1) + if Receives(prog[i - 1]) then 1 else 0
  }

  lemma {:induction false} SentGrows<C>(prog: seq<Instr<C>>, i: nat, j: nat)
    requires i <= j <= |prog|
    ensures Sent(prog, i) <= Sent(prog, j)
  {
    if i < j {
      SentGrows(prog, i, j - 1);
    }
  }

  /** ---- The timeline: `out(r, k)` is the k-th message of rank r. ---- */

  ghost function Incoming<C, V>(g: Ring<C, V>, out: (nat, nat) -> V, r: nat, i: nat): (x: Option<V>)
    requires WellFormed(g) && r < |g.progs| && i < |g.progs[r]|
    ensures Receives(g.progs[r][i]) ==> x.Some?
  {
    if Receives(g.progs[r][i]) then Some(out(Prev(r, |g.progs|), Received(g.progs[r], i))) else None
  }

  /** The memory of rank `r` after its first `i` moves. */
  ghost function MemAt<C, V>(g: Ring<C, V>, out: (nat, nat) -> V, r: nat, i: nat): (m: map<C, V>)
    requires WellFormed(g) && r < |g.progs| && i <= |g.progs[r]|
    ensures m.Keys == g.init[r].Keys
  {
    if i == 0 then g.init[r]
    else After(g.op, g.progs[r][i - 1], MemAt(g, out, r, i - 1), Incoming(g, out, r, i - 1))
  }

  /** `out` is consistent: each rank, fed its predecessor's messages, sends exactly its own. */
  ghost predicate Solves<C, V>(g: Ring<C, V>, out: (nat, nat) -> V)
    requires WellFormed(g)
  {
    forall r, i :: 0 <= r < |g.progs| && 0 <= i < |g.progs[r]| && Sends(g.progs[r][i]) ==>
      Outgoing(g.op, g.progs[r][i], MemAt(g, out, r, i), Incoming(g, out, r, i)) == out(r, Sent(g.progs[r], i))
  }

  /** ---- Steps and runs ---- */

  ghost function Initial<C, V>(g: Ring<C, V>): State<C, V> {
    State(seq(|g.progs|, _ => 0), g.init, seq(|g.progs|, _ => []))
  }

  ghost predicate Shape<C, V>(g: Ring<C, V>, s: State<C, V>)
    requires WellFormed(g)
  {
    && |s.pc| == |s.mem| == |s.link| == |g.progs|
    && (forall r :: 0 <= r < |g.progs| ==> s.pc[r] <= |g.progs[r]|)
    && (forall r :: 0 <= r < |g.progs| ==> s.mem[r].Keys == g.init[r].Keys)
  }

  ghost predicate Enabled<C, V>(g: Ring<C, V>, s: State<C, V>, r: nat)
    requires WellFormed(g) && Shape(g, s)
  {
    && r < |g.progs|
    && s.pc[r] < |g.progs[r]|
    && (Receives(g.progs[r][s.pc[r]]) ==> s.link[Prev(r, |g.progs|)] != [])
  }

  ghost function Fire<C, V>(g: Ring<C, V>, s: State<C, V>, r: nat): (t: State<C, V>)
    requires WellFormed(g) && Shape(g, s) && Enabled(g, s, r)
    ensures Shape(g, t)
  {
    var i := g.progs[r][s.pc[r]];
    var p := Prev(r, |g.progs|);
    var x := if Receives(i) then Some(s.link[p][0]) else None;
    var popped := if Receives(i) then s.link[p := s.link[p][1..]] else s.link;
    var link := if Sends(i) then popped[r := popped[r] + [Outgoing(g.op, i, s.mem[r], x)]] else popped;
    State(s.pc[r := s.pc[r] + 1], s.mem[r := After(g.op, i, s.mem[r], x)], link)
  }

  /** `sched` names the rank that moves at each step; `t` is where it leads from `s`. */
  ghost predicate Reaches<C, V>(g: Ring<C, V>, s: State<C, V>, sched: seq<nat>, t: State<C, V>)
    requires WellFormed(g) && Shape(g, s)
    decreases |sched|
  {
    if sched == [] then s == t
    else Enabled(g, s, sched[0]) && Reaches(g, Fire(g, s, sched[0]), sched[1..], t)
  }

  ghost predicate Stuck<C, V>(g: Ring<C, V>, s: State<C, V>)
    requires WellFormed(g)
  {
    Shape(g, s) && forall r :: 0 <= r < |g.progs| ==> !Enabled(g, s, r)
  }

  /** ---- The invariant of every run ---- */

  ghost function Messages<V>(out: (nat, nat) -> V, r: nat, from: nat, to: nat): seq<V>
    requires from <= to
  {
    seq(to - from, j requires 0 <= j => out(r, from + j))
  }

  /** Rank `r` is on its timeline, and its link holds exactly the messages sent and not yet taken, in order. */
  ghost predicate OnTrack<C, V>(g: Ring<C, V>, out: (nat, nat) -> V, s: State<C, V>, r: nat)
    requires WellFormed(g) && Shape(g, s) && r < |g.progs|
  {
    var d := Next(r, |g.progs|);
    var taken, sent := Received(g.progs[d], s.pc[d]), Sent(g.progs[r], s.pc[r]);
    && s.mem[r] == MemAt(g, out, r, s.pc[r])
    && taken <= sent
    && s.link[r] == Messages(out, r, taken, sent)
  }

  ghost predicate Inv<C, V>(g: Ring<C, V>, out: (nat, nat) -> V, s: State<C, V>)
    requires WellFormed(g)
  {
    Shape(g, s) && forall r :: 0 <= r < |g.progs| ==> OnTrack(g, out, s, r)
  }

  /** What the mover takes from its predecessor's link is what its timeline says. */
  lemma {:induction false} HeadOnTrack<C, V>(g: Ring<C, V>, out: (nat, nat) -> V, s: State<C, V>, r: nat)
    requires WellFormed(g) && Inv(g, out, s) && Enabled(g, s, r)
    ensures Receives(g.progs[r][s.pc[r]]) ==>
      Incoming(g, out, r, s.pc[r]) == Some(s.link[Prev(r, |g.progs|)][0])
  {
    assert OnTrack(g, out, s, Prev(r, |g.progs|));
  }

  lemma {:induction false} MessagesSnoc<V>(out: (nat, nat) -> V, r: nat, from: nat, to: nat)
    requires from <= to
    ensures Messages(out, r, from, to + 1) == Messages(out, r, from, to) + [out(r, to)]
  {
  }

  lemma {:induction false} MessagesTail<V>(out: (nat, nat) -> V, r: nat, from: nat, to: nat)
    requires from <= to
    ensures from < to ==> Messages(out, r, from, to)[1..] == Messages(out, r, from + 1, to)
  {
  }

  /** Only the mover's memory and the two links beside it change. */
  lemma {:induction false} StepMover<C, V>(g: Ring<C, V>, out: (nat, nat) -> V, s: State<C, V>, r: nat)
    requires WellFormed(g) && Solves(g, out) && Inv(g, out, s) && Enabled(g, s, r)
    ensures OnTrack(g, out, Fire(g, s, r), r)
  {
    var n := |g.progs|;
    var d := Next(r, n);
    var i := g.progs[r][s.pc[r]];
    var t := Fire(g, s, r);
    HeadOnTrack(g, out, s, r);
    assert OnTrack(g, out, s, r);
    var a, b := Received(g.progs[d], s.pc[d]), Sent(g.progs[r], s.pc[r]);
    MessagesSnoc(out, r, a, b);
    var x := Incoming(g, out, r, s.pc[r]);
    assert t.mem[r] == After(g.op, i, s.mem[r], x);
    if Sends(i) {
      assert t.link[r] == s.link[r] + [Outgoing(g.op, i, s.mem[r], x)];
    } else {
      assert t.link[r] == s.link[r];
    }
  }

  lemma {:induction false} StepPredecessor<C, V>(g: Ring<C, V>, out: (nat, nat) -> V, s: State<C, V>, r: nat)
    requires WellFormed(g) && Solves(g, out) && Inv(g, out, s) && Enabled(g, s, r)
    ensures OnTrack(g, out, Fire(g, s, r), Prev(r, |g.progs|))
  {
    var p, taken := Prev(r, |g.progs|), Received(g.progs[r], s.pc[r]);
    assert Next(p, |g.progs|) == r;
    assert OnTrack(g, out, s, p);
    FirePredecessor(g, s, r);
    MessagesTail(out, p, taken, Sent(g.progs[p], s.pc[p]));
    assert Received(g.progs[r], s.pc[r] + 1) == taken + if Receives(g.progs[r][s.pc[r]]) then 1 else 0;
  }

  lemma {:induction false} FirePredecessor<C, V>(g: Ring<C, V>, s: State<C, V>, r: nat)
    requires WellFormed(g) && Shape(g, s) && Enabled(g, s, r)
    ensures var p, t := Prev(r, |g.progs|), Fire(g, s, r);
      && p < |g.progs| && p != r && t.mem[p] == s.mem[p] && t.pc[p] == s.pc[p] && t.pc[r] == s.pc[r] + 1
      && t.link[p] == if Receives(g.progs[r][s.pc[r]]) then s.link[p][1..] else s.link[p]
  {
  }

  lemma {:induction false} StepKeepsInv<C, V>(g: Ring<C, V>, out: (nat, nat) -> V, s: State<C, V>, r: nat)
    requires WellFormed(g) && Solves(g, out) && Inv(g, out, s) && Enabled(g, s, r)
    ensures Inv(g, out, Fire(g, s, r))
  {
    var n := |g.progs|;
    var t := Fire(g, s, r);
    StepMover(g, out, s, r);
    StepPredecessor(g, out, s, r);
    forall q | 0 <= q < n ensures OnTrack(g, out, t, q) {
      if q != r && q != Prev(r, n) {
        assert OnTrack(g, out, s, q);
      }
    }
  }

  lemma {:induction false} InitialInv<C, V>(g: Ring<C, V>, out: (nat, nat) -> V)
    requires WellFormed(g)
    ensures Inv(g, out, Initial(g))
  {
  }

  function Sum(xs: seq<nat>): nat {
    if xs == [] then 0 else xs[0] + Sum(xs[1..])
  }

  lemma {:induction false} SumUpdate(xs: seq<nat>, k: nat, v: nat)
    requires k < |xs|
    ensures Sum(xs[k := v]) + xs[k] == Sum(xs) + v
  {
    if k == 0 {
      assert xs[0 := v][1..] == xs[1..];
    } else {
      assert xs[k := v][1..] == xs[1..][k - 1 := v];
      SumUpdate(xs[1..], k - 1, v);
    }
  }

  lemma {:induction false} SumBound(xs: seq<nat>, ys: seq<nat>)
    requires |xs| == |ys| && forall k :: 0 <= k < |xs| ==> xs[k] <= ys[k]
    ensures Sum(xs) <= Sum(ys)
    ensures Sum(xs) == Sum(ys) ==> xs == ys
  {
    if xs != [] {
      SumBound(xs[1..], ys[1..]);
      if Sum(xs) == Sum(ys) {
        assert xs[0] == ys[0] && xs[1..] == ys[1..];
        assert xs == [xs[0]] + xs[1..] && ys == [ys[0]] + ys[1..];
      }
    }
  }

  lemma {:induction false} SumZero(n: nat)
    ensures Sum(seq(n, _ => 0)) == 0
  {
    if n > 0 {
      assert seq(n, _ => 0)[1..] == seq(n - 1, _ => 0);
      SumZero(n - 1);
    }
  }

  ghost function Lengths<C, V>(g: Ring<C, V>): seq<nat> {
    seq(|g.progs|, r requires 0 <= r < |g.progs| => |g.progs[r]|)
  }

  /** Every step moves exactly one rank one move further. */
  lemma {:induction false} RunKeepsInv<C, V>(g: Ring<C, V>, out: (nat, nat) -> V, s: State<C, V>, sched: seq<nat>, t: State<C, V>)
    requires WellFormed(g) && Solves(g, out) && Inv(g, out, s) && Reaches(g, s, sched, t)
    ensures Inv(g, out, t)
    ensures Sum(t.pc) == Sum(s.pc) + |sched|
    decreases |sched|
  {
    if sched != [] {
      var u := Fire(g, s, sched[0]);
      StepKeepsInv(g, out, s, sched[0]);
      SumUpdate(s.pc, sched[0], s.pc[sched[0]] + 1);
      RunKeepsInv(g, out, u, sched[1..], t);
    }
  }

  /** ---- Progress ---- */

  ghost predicate Precedes<C, V>(g: Ring<C, V>, time: (nat, nat) -> nat, r: nat, i: nat, j: nat)
    requires r < |g.progs| && i < |g.progs[r]| && j <= |g.progs[Prev(r, |g.progs|)]|
  {
    var p := Prev(r, |g.progs|);
    Receives(g.progs[r][i]) && Sent(g.progs[p], j) <= Received(g.progs[r], i) ==>
      j < |g.progs[p]| && time(p, j) < time(r, i)
  }

  /**
   `time` orders the moves of all ranks so that a move comes after whatever its predecessor must still do before the
   message it takes has been sent.
   */
  ghost predicate Causal<C, V>(g: Ring<C, V>, time: (nat, nat) -> nat)
    requires WellFormed(g)
  {
    forall r, i, j :: 0 <= r < |g.progs| && 0 <= i < |g.progs[r]| && 0 <= j <= |g.progs[Prev(r, |g.progs|)]| ==>
      Precedes(g, time, r, i, j)
  }

  /** Each rank takes as many messages as its predecessor sends. */
  ghost predicate Balanced<C, V>(g: Ring<C, V>)
    requires WellFormed(g)
  {
    forall r :: 0 <= r < |g.progs| ==>
      Sent(g.progs[r], |g.progs[r]|) == Received(g.progs[Next(r, |g.progs|)], |g.progs[Next(r, |g.progs|)]|)
  }

  ghost predicate Unfinished<C, V>(g: Ring<C, V>, s: State<C, V>, r: nat)
    requires WellFormed(g) && Shape(g, s)
  {
    r < |g.progs| && s.pc[r] < |g.progs[r]|
  }

  /** From an unfinished rank, follow the chain of ranks it waits for: time drops, so it ends at an enabled one. */
  lemma {:induction false} SomeoneMoves<C, V>(g: Ring<C, V>, out: (nat, nat) -> V, time: (nat, nat) -> nat, s: State<C, V>, r: nat) returns (e: nat)
    requires WellFormed(g) && Causal(g, time) && Inv(g, out, s) && Unfinished(g, s, r)
    ensures Enabled(g, s, e)
    decreases time(r, s.pc[r])
  {
    if Enabled(g, s, r) {
      e := r;
    } else {
      var p := Prev(r, |g.progs|);
      assert OnTrack(g, out, s, p);
      assert Precedes(g, time, r, s.pc[r], s.pc[p]);
      e := SomeoneMoves(g, out, time, s, p);
    }
  }

  /**
   Every run of every such network: it stays on the timelines; it has at most as many steps as there are moves; it can
   always go on until all moves are made; and then every memory is the end of its timeline and every link is empty.
   */
  lemma {:induction false} EveryRun<C, V>(g: Ring<C, V>, out: (nat, nat) -> V, time: (nat, nat) -> nat, sched: seq<nat>, t: State<C, V>)
    requires WellFormed(g) && Solves(g, out) && Causal(g, time) && Balanced(g)
    requires Reaches(g, Initial(g), sched, t)
    ensures Inv(g, out, t)
    ensures |sched| <= Sum(Lengths(g))
    ensures Stuck(g, t) <==> |sched| == Sum(Lengths(g))
    ensures Stuck(g, t) ==> forall r :: 0 <= r < |g.progs| ==>
      t.pc[r] == |g.progs[r]| && t.mem[r] == MemAt(g, out, r, |g.progs[r]|) && t.link[r] == []
  {
    InitialInv(g, out);
    RunKeepsInv(g, out, Initial(g), sched, t);
    SumZero(|g.progs|);
    assert Initial(g).pc == seq(|g.progs|, _ => 0);
    SumBound(t.pc, Lengths(g));
    if Stuck(g, t) {
      forall r | 0 <= r < |g.progs| ensures t.pc[r] == |g.progs[r]| {
        if t.pc[r] < |g.progs[r]| {
          var e := SomeoneMoves(g, out, time, t, r);
          assert false;
        }
      }
      assert t.pc == Lengths(g);
      forall r | 0 <= r < |g.progs| ensures t.mem[r] == MemAt(g, out, r, |g.progs[r]|) && t.link[r] == [] {
        assert OnTrack(g, out, t, r);
      }
    }
    if |sched| == Sum(Lengths(g)) {
      assert t.pc == Lengths(g);
    }
  }

  /** ---- Every network has one outcome ---- */

  /** The messages rank `r` sends in its first `i` moves when its predecessor's messages are those of `feed`. */
  ghost function Emitted<C, V>(g: Ring<C, V>, feed: (nat, nat) -> V, r: nat, i: nat): (e: seq<V>)
    requires WellFormed(g) && r < |g.progs| && i <= |g.progs[r]|
    ensures |e| == Sent(g.progs[r], i)
  {
    if i == 0 then []
    else if Sends(g.progs[r][i - 1]) then
      Emitted(g, feed, r, i - 1) + [Outgoing(g.op, g.progs[r][i - 1], MemAt(g, feed, r, i - 1), Incoming(g, feed, r, i - 1))]
    else Emitted(g, feed, r, i - 1)
  }

  lemma {:induction false} EmittedGrows<C, V>(g: Ring<C, V>, feed: (nat, nat) -> V, r: nat, i: nat, j: nat)
    requires WellFormed(g) && r < |g.progs| && i <= j <= |g.progs[r]|
    ensures Emitted(g, feed, r, i) <= Emitted(g, feed, r, j)
  {
    if i < j {
      EmittedGrows(g, feed, r, i, j - 1);
    }
  }

  ghost predicate FedWith<C, V>(g: Ring<C, V>, feed: (nat, nat) -> V, r: nat)
    requires WellFormed(g) && r < |g.progs|
  {
    forall k: nat :: k < Sent(g.progs[r], |g.progs[r]|) ==> feed(r, k) == Emitted(g, feed, r, |g.progs[r]|)[k]
  }

  /** If every rank takes in what its predecessor sends when it takes in `feed`, then `feed` is a solution of the ring. */
  lemma {:induction false} ClosedSolves<C, V>(g: Ring<C, V>, feed: (nat, nat) -> V)
    requires WellFormed(g) && forall r: nat :: r < |g.progs| ==> FedWith(g, feed, r)
    ensures Solves(g, feed)
  {
    forall r, i | 0 <= r < |g.progs| && 0 <= i < |g.progs[r]| && Sends(g.progs[r][i])
      ensures Outgoing(g.op, g.progs[r][i], MemAt(g, feed, r, i), Incoming(g, feed, r, i)) == feed(r, Sent(g.progs[r], i))
    {
      assert FedWith(g, feed, r);
      EmittedGrows(g, feed, r, i + 1, |g.progs[r]|);
      assert Emitted(g, feed, r, i + 1)[Sent(g.progs[r], i)] == Emitted(g, feed, r, |g.progs[r]|)[Sent(g.progs[r], i)];
    }
  }

  /** ---- Every consistent cut is reached ---- */

  /** How far each rank has come: none has taken a message that its predecessor has not sent. */
  ghost predicate Consistent<C, V>(g: Ring<C, V>, cut: seq<nat>)
    requires WellFormed(g)
  {
    && |cut| == |g.progs| && (forall r :: 0 <= r < |cut| ==> cut[r] <= |g.progs[r]|)
    && forall r :: 0 <= r < |cut| ==> FedUpTo(g, cut, r)
  }

  ghost predicate FedUpTo<C, V>(g: Ring<C, V>, cut: seq<nat>, r: nat)
    requires WellFormed(g) && r < |cut| == |g.progs| && forall q :: 0 <= q < |cut| ==> cut[q] <= |g.progs[q]|
  {
    Received(g.progs[r], cut[r]) <= Sent(g.progs[Prev(r, |g.progs|)], cut[Prev(r, |g.progs|)])
  }

  lemma {:induction false} ReceivedGrows<C>(prog: seq<Instr<C>>, i: nat, j: nat)
    requires i <= j <= |prog|
    ensures Received(prog, i) <= Received(prog, j)
  {
    if i < j {
      ReceivedGrows(prog, i, j - 1);
    }
  }

  /** A rank that has not come to the cut, or one it waits for, can move, and has not come to the cut either. */
  lemma {:induction false} SomeoneBehindMoves<C, V>(g: Ring<C, V>, out: (nat, nat) -> V, time: (nat, nat) -> nat, s: State<C, V>, cut: seq<nat>, r: nat)
    returns (e: nat)
    requires WellFormed(g) && Causal(g, time) && Inv(g, out, s) && Consistent(g, cut) && r < |g.progs| && s.pc[r] < cut[r]
    ensures Enabled(g, s, e) && s.pc[e] < cut[e]
    decreases time(r, s.pc[r])
  {
    if Enabled(g, s, r) {
      e := r;
    } else {
      var p := Prev(r, |g.progs|);
      assert OnTrack(g, out, s, p) && FedUpTo(g, cut, r);
      ReceivedGrows(g.progs[r], s.pc[r] + 1, cut[r]);
      if s.pc[p] >= cut[p] {
        SentGrows(g.progs[p], cut[p], s.pc[p]);
      }
      assert Precedes(g, time, r, s.pc[r], s.pc[p]);
      e := SomeoneBehindMoves(g, out, time, s, cut, p);
    }
  }

  /** From any state that has not gone past it, a run leads to the cut. */
  lemma {:induction false} CutIsReached<C, V>(g: Ring<C, V>, out: (nat, nat) -> V, time: (nat, nat) -> nat, s: State<C, V>, cut: seq<nat>)
    returns (sched: seq<nat>, t: State<C, V>)
    requires WellFormed(g) && Solves(g, out) && Causal(g, time) && Inv(g, out, s) && Consistent(g, cut)
    requires forall r :: 0 <= r < |cut| ==> s.pc[r] <= cut[r]
    ensures Reaches(g, s, sched, t) && t.pc == cut
    decreases Sum(cut) - Sum(s.pc)
  {
    SumBound(s.pc, cut);
    if s.pc == cut {
      sched, t := [], s;
    } else {
      var r :| 0 <= r < |cut| && s.pc[r] != cut[r];
      var e := SomeoneBehindMoves(g, out, time, s, cut, r);
      var u := Fire(g, s, e);
      StepKeepsInv(g, out, s, e);
      SumUpdate(s.pc, e, s.pc[e] + 1);
      SumBound(u.pc, cut);
      var rest;
      rest, t := CutIsReached(g, out, time, u, cut);
      sched := [e] + rest;
      assert sched[1..] == rest;
    }
  }

  /** Whatever was sent to a rank that has not begun is still on its link. */
  lemma {:induction false} NothingTaken<C, V>(g: Ring<C, V>, out: (nat, nat) -> V, s: State<C, V>, r: nat)
    requires WellFormed(g) && Inv(g, out, s) && r < |g.progs| && s.pc[r] == 0
    ensures var p := Prev(r, |g.progs|); |s.link[p]| == Sent(g.progs[p], s.pc[p])
  {
    assert Next(Prev(r, |g.progs|), |g.progs|) == r;
    assert OnTrack(g, out, s, Prev(r, |g.progs|));
  }

  lemma {:induction false} EnoughIsSent<C, V>(g: Ring<C, V>, time: (nat, nat) -> nat, r: nat, i: nat)
    requires WellFormed(g) && Causal(g, time) && r < |g.progs| && i <= |g.progs[r]|
    ensures var p := Prev(r, |g.progs|); Received(g.progs[r], i) <= Sent(g.progs[p], |g.progs[p]|)
  {
    if i > 0 {
      EnoughIsSent(g, time, r, i - 1);
      assert Precedes(g, time, r, i - 1, |g.progs[Prev(r, |g.progs|)]|);
    }
  }

  /** Any run can be carried to its end. */
  lemma {:induction false} Finishes<C, V>(g: Ring<C, V>, out: (nat, nat) -> V, time: (nat, nat) -> nat, s: State<C, V>)
    returns (sched: seq<nat>, t: State<C, V>)
    requires WellFormed(g) && Solves(g, out) && Causal(g, time) && Inv(g, out, s)
    ensures Reaches(g, s, sched, t) && Stuck(g, t)
  {
    var end := Lengths(g);
    forall r | 0 <= r < |end| ensures FedUpTo(g, end, r) {
      EnoughIsSent(g, time, r, |g.progs[r]|);
    }
    sched, t := CutIsReached(g, out, time, s, end);
    RunKeepsInv(g, out, s, sched, t);
  }

  /** Two solutions of a ring end in the same memories: both describe the same run. */
  lemma {:induction false} OneOutcome<C, V>(g: Ring<C, V>, out: (nat, nat) -> V, other: (nat, nat) -> V, time: (nat, nat) -> nat, r: nat)
    requires WellFormed(g) && Solves(g, out) && Solves(g, other) && Causal(g, time) && Balanced(g) && r < |g.progs|
    ensures MemAt(g, out, r, |g.progs[r]|) == MemAt(g, other, r, |g.progs[r]|)
  {
    InitialInv(g, out);
    var sched, t := Finishes(g, out, time, Initial(g));
    EveryRun(g, out, time, sched, t);
    EveryRun(g, other, time, sched, t);
  }

  /** A rank fed with the messages of a solution is on the solution's timeline. */
  lemma {:induction false} FedAlike<C, V>(g: Ring<C, V>, feed: (nat, nat) -> V, out: (nat, nat) -> V, r: nat, i: nat)
    requires WellFormed(g) && r < |g.progs| && i <= |g.progs[r]|
    requires forall k: nat :: k < Received(g.progs[r], i) ==> feed(Prev(r, |g.progs|), k) == out(Prev(r, |g.progs|), k)
    ensures MemAt(g, feed, r, i) == MemAt(g, out, r, i)
  {
    if i > 0 {
      FedAlike(g, feed, out, r, i - 1);
    }
  }

  /** And it sends the messages of the solution. */
  lemma {:induction false} EmitsSolution<C, V>(g: Ring<C, V>, feed: (nat, nat) -> V, out: (nat, nat) -> V, r: nat, i: nat)
    requires WellFormed(g) && Solves(g, out) && r < |g.progs| && i <= |g.progs[r]|
    requires forall k: nat :: k < Received(g.progs[r], i) ==> feed(Prev(r, |g.progs|), k) == out(Prev(r, |g.progs|), k)
    ensures Emitted(g, feed, r, i) == Messages(out, r, 0, Sent(g.progs[r], i))
  {
    if i > 0 {
      EmitsSolution(g, feed, out, r, i - 1);
      FedAlike(g, feed, out, r, i - 1);
      MessagesSnoc(out, r, 0, Sent(g.progs[r], i - 1));
    }
  }

  /** ---- Reading a timeline ---- */

  predicate Writes<C(==)>(i: Instr<C>, c: C) {
    match i
    case Recv(to) => to == c
    case ReduceStore(_, to) => to == c
    case Copy(_, to) => to == c
    case _ => false
  }

  /** A cell no move of `[a, b)` writes keeps its value over that stretch. */
  lemma {:induction false} Kept<C, V>(g: Ring<C, V>, out: (nat, nat) -> V, r: nat, c: C, a: nat, b: nat)
    requires WellFormed(g) && r < |g.progs| && a <= b <= |g.progs[r]| && c in g.init[r]
    requires forall i :: a <= i < b ==> !Writes(g.progs[r][i], c)
    ensures MemAt(g, out, r, b)[c] == MemAt(g, out, r, a)[c]
  {
    if a < b {
      Kept(g, out, r, c, a, b - 1);
    }
  }

  lemma {:induction false} AfterRecv<C, V>(g: Ring<C, V>, out: (nat, nat) -> V, r: nat, i: nat, c: C)
    requires WellFormed(g) && r < |g.progs| && i < |g.progs[r]| && g.progs[r][i] == Recv(c)
    ensures c in MemAt(g, out, r, i + 1)
    ensures Some(MemAt(g, out, r, i + 1)[c]) == Incoming(g, out, r, i)
  {
  }

  lemma {:induction false} AfterReduceStore<C, V>(g: Ring<C, V>, out: (nat, nat) -> V, r: nat, i: nat, a: C, c: C)
    requires WellFormed(g) && r < |g.progs| && i < |g.progs[r]| && g.progs[r][i] == ReduceStore(a, c)
    ensures a in MemAt(g, out, r, i) && c in MemAt(g, out, r, i + 1)
    ensures MemAt(g, out, r, i + 1)[c] == g.op(MemAt(g, out, r, i)[a], Incoming(g, out, r, i).value)
  {
  }

  lemma {:induction false} AfterCopy<C, V>(g: Ring<C, V>, out: (nat, nat) -> V, r: nat, i: nat, a: C, c: C)
    requires WellFormed(g) && r < |g.progs| && i < |g.progs[r]| && g.progs[r][i] == Copy(a, c)
    ensures a in MemAt(g, out, r, i) && c in MemAt(g, out, r, i + 1)
    ensures MemAt(g, out, r, i + 1)[c] == MemAt(g, out, r, i)[a]
  {
  }
}
