/**
 Calls whose source and destination buffers coincide. The firmware works on addresses and does not notice; the module says
 when the result is the same as with separate buffers: a source cell must not be read once the destination cell that lies
 on it has been written, and a destination cell must be written before it is read.
 */
module InPlace {
  import opened RingIndex
  import opened Network

  function Renamed<C>(i: Instr<C>, f: C -> C): Instr<C> {
    match i
    case Send(from) => Send(f(from))
    case Recv(to) => Recv(f(to))
    case Relay => Relay
    case ReduceSend(local) => ReduceSend(f(local))
    case ReduceStore(local, to) => ReduceStore(f(local), f(to))
    case Copy(from, to) => Copy(f(from), f(to))
  }

  function RenamedProgram<C>(prog: seq<Instr<C>>, f: C -> C): (p: seq<Instr<C>>)
    ensures |p| == |prog|
  {
    seq(|prog|, i requires 0 <= i < |prog| => Renamed(prog[i], f))
  }

  predicate Reads<C(==)>(i: Instr<C>, c: C) {
    match i
    case Send(from) => from == c
    case ReduceSend(local) => local == c
    case ReduceStore(local, _) => local == c
    case Copy(from, _) => from == c
    case _ => false
  }

  ghost predicate WrittenBefore<C(!new)>(prog: seq<Instr<C>>, i: nat, c: C)
    requires i <= |prog|
  {
    exists j :: 0 <= j < i && Writes(prog[j], c)
  }

  /** After `i` moves the cell on which `c` lies holds what `c` would hold by itself. */
  ghost predicate Current<C(!new)>(prog: seq<Instr<C>>, f: C -> C, i: nat, c: C)
    requires i <= |prog|
  {
    if f(c) == c then WrittenBefore(prog, i, c) else !WrittenBefore(prog, i, f(c))
  }

  ghost predicate CarefulMove<C(!new)>(prog: seq<Instr<C>>, f: C -> C, i: nat)
    requires i < |prog|
  {
    && (forall c :: Writes(prog[i], c) ==> f(c) == c)
    && (forall c :: Reads(prog[i], c) ==> Current(prog, f, i, c))
  }

  ghost predicate Careful<C(!new)>(prog: seq<Instr<C>>, f: C -> C) {
    forall i :: 0 <= i < |prog| ==> CarefulMove(prog, f, i)
  }

  /** Rank `r` of `h` has the memory of rank `r` of `g`, except that cell `c` lies on cell `f(c)`. */
  ghost predicate Overlaid<C(!new), V>(g: Ring<C, V>, h: Ring<C, V>, f: C -> C, r: nat)
    requires r < |g.progs| == |h.progs| == |g.init| == |h.init|
  {
    && h.progs[r] == RenamedProgram(g.progs[r], f) && Careful(g.progs[r], f)
    && forall c :: c in g.init[r] ==> f(c) in h.init[r] && f(f(c)) == f(c) && (f(c) != c ==> h.init[r][f(c)] == g.init[r][c])
  }

  ghost predicate Overlay<C(!new), V>(g: Ring<C, V>, h: Ring<C, V>, f: C -> C) {
    && WellFormed(g) && h.op == g.op && |h.progs| == |h.init| == |g.progs|
    && forall r :: 0 <= r < |g.progs| ==> Overlaid(g, h, f, r)
  }

  lemma {:induction false} OverlayIsWellFormed<C(!new), V>(g: Ring<C, V>, h: Ring<C, V>, f: C -> C)
    requires Overlay(g, h, f)
    ensures WellFormed(h)
  {
    forall r, i | 0 <= r < |h.progs| && 0 <= i < |h.progs[r]| ensures Fits(h.progs[r][i], h.init[r]) {
      assert Overlaid(g, h, f, r);
      assert Fits(g.progs[r][i], g.init[r]);
    }
  }

  lemma {:induction false} SameCounts<C>(prog: seq<Instr<C>>, f: C -> C, i: nat)
    requires i <= |prog|
    ensures Sent(RenamedProgram(prog, f), i) == Sent(prog, i) && Received(RenamedProgram(prog, f), i) == Received(prog, i)
  {
    if i > 0 {
      SameCounts(prog, f, i - 1);
    }
  }

  lemma {:induction false} CurrentBefore<C(!new)>(prog: seq<Instr<C>>, f: C -> C, i: nat, c: C)
    requires i < |prog| && Current(prog, f, i + 1, c) && (f(c) == c ==> !Writes(prog[i], c))
    ensures Current(prog, f, i, c)
    ensures f(c) != c ==> !Writes(prog[i], f(c))
  {
  }

  lemma {:induction false} SameTaken<C(!new), V>(g: Ring<C, V>, h: Ring<C, V>, f: C -> C, feed: (nat, nat) -> V, r: nat, i: nat)
    requires Overlay(g, h, f) && WellFormed(h) && r < |g.progs| && i < |g.progs[r]|
    ensures i < |h.progs[r]| && Fits(g.progs[r][i], g.init[r]) && h.progs[r][i] == Renamed(g.progs[r][i], f)
    ensures Incoming(h, feed, r, i) == Incoming(g, feed, r, i)
  {
    assert Overlaid(g, h, f, r);
    SameCounts(g.progs[r], f, i);
  }

  /** A move that writes `c` writes the same value in both memories, if it reads the same. */
  lemma {:induction false} Rewritten<C(!new), V>(g: Ring<C, V>, h: Ring<C, V>, f: C -> C, feed: (nat, nat) -> V, r: nat, i: nat, c: C)
    requires Overlay(g, h, f) && WellFormed(h) && r < |g.progs| && i < |g.progs[r]| == |h.progs[r]|
    requires Writes(g.progs[r][i], c) && f(c) == c && f(c) in h.init[r] && c in g.init[r]
    requires forall d :: Reads(g.progs[r][i], d) && d in g.init[r] ==>
      f(d) in h.init[r] && MemAt(h, feed, r, i)[f(d)] == MemAt(g, feed, r, i)[d]
    ensures MemAt(h, feed, r, i + 1)[c] == MemAt(g, feed, r, i + 1)[c]
  {
    SameTaken(g, h, f, feed, r, i);
    match g.progs[r][i]
    case Recv(_) =>
    case ReduceStore(local, _) => assert Reads(g.progs[r][i], local);
    case Copy(from, _) => assert Reads(g.progs[r][i], from);
  }

  lemma {:induction false} Untouched<C(!new), V>(g: Ring<C, V>, h: Ring<C, V>, f: C -> C, feed: (nat, nat) -> V, r: nat, i: nat, c: C)
    requires Overlay(g, h, f) && WellFormed(h) && r < |g.progs| && i < |g.progs[r]| == |h.progs[r]|
    requires c in g.init[r] && f(c) in h.init[r] && !Writes(g.progs[r][i], f(c)) && CarefulMove(g.progs[r], f, i)
    ensures MemAt(h, feed, r, i + 1)[f(c)] == MemAt(h, feed, r, i)[f(c)]
    ensures MemAt(g, feed, r, i + 1)[c] == MemAt(g, feed, r, i)[c]
  {
    SameTaken(g, h, f, feed, r, i);
    assert !Writes(g.progs[r][i], c);
  }

  /** The current cells hold the same values in both memories. */
  ghost predicate SameMemory<C(!new), V>(g: Ring<C, V>, h: Ring<C, V>, f: C -> C, feed: (nat, nat) -> V, r: nat, i: nat)
    requires WellFormed(g) && WellFormed(h) && r < |g.progs| == |h.progs| && i <= |g.progs[r]| == |h.progs[r]|
  {
    forall c :: c in g.init[r] && Current(g.progs[r], f, i, c) ==> f(c) in h.init[r] && MemAt(h, feed, r, i)[f(c)] == MemAt(g, feed, r, i)[c]
  }

  lemma {:induction false} SameAfter<C(!new), V>(g: Ring<C, V>, h: Ring<C, V>, f: C -> C, feed: (nat, nat) -> V, r: nat, i: nat, c: C)
    requires Overlay(g, h, f) && WellFormed(h) && r < |g.progs| && i < |g.progs[r]| == |h.progs[r]|
    requires SameMemory(g, h, f, feed, r, i) && c in g.init[r] && Current(g.progs[r], f, i + 1, c)
    ensures f(c) in h.init[r] && MemAt(h, feed, r, i + 1)[f(c)] == MemAt(g, feed, r, i + 1)[c]
  {
    assert Overlaid(g, h, f, r);
    assert CarefulMove(g.progs[r], f, i);
    if f(c) == c && Writes(g.progs[r][i], c) {
      Rewritten(g, h, f, feed, r, i, c);
    } else {
      CurrentBefore(g.progs[r], f, i, c);
      Untouched(g, h, f, feed, r, i, c);
    }
  }

  lemma {:induction false} SameAt<C(!new), V>(g: Ring<C, V>, h: Ring<C, V>, f: C -> C, feed: (nat, nat) -> V, r: nat, i: nat)
    requires Overlay(g, h, f) && WellFormed(h) && r < |g.progs| && i <= |g.progs[r]| == |h.progs[r]|
    ensures SameMemory(g, h, f, feed, r, i)
  {
    if i == 0 {
      assert Overlaid(g, h, f, r);
    } else {
      SameAt(g, h, f, feed, r, i - 1);
      forall c | c in g.init[r] && Current(g.progs[r], f, i, c)
        ensures f(c) in h.init[r] && MemAt(h, feed, r, i)[f(c)] == MemAt(g, feed, r, i)[c]
      {
        SameAfter(g, h, f, feed, r, i - 1, c);
      }
    }
  }

  /** A cell keeps its value while the one on which it lies is current. */
  lemma {:induction false} SameCell<C(!new), V>(g: Ring<C, V>, h: Ring<C, V>, f: C -> C, feed: (nat, nat) -> V, r: nat, i: nat, c: C)
    requires Overlay(g, h, f) && WellFormed(h) && r < |g.progs| && i <= |g.progs[r]| == |h.progs[r]|
    requires c in g.init[r] && Current(g.progs[r], f, i, c)
    ensures f(c) in h.init[r] && MemAt(h, feed, r, i)[f(c)] == MemAt(g, feed, r, i)[c]
  {
    SameAt(g, h, f, feed, r, i);
  }

  /** The overlaid ring has the same solutions. */
  lemma {:induction false} OverlaySolves<C(!new), V>(g: Ring<C, V>, h: Ring<C, V>, f: C -> C, out: (nat, nat) -> V)
    requires Overlay(g, h, f) && WellFormed(h) && Solves(g, out)
    ensures Solves(h, out)
  {
    forall r, i | 0 <= r < |h.progs| && 0 <= i < |h.progs[r]| && Sends(h.progs[r][i])
      ensures Outgoing(h.op, h.progs[r][i], MemAt(h, out, r, i), Incoming(h, out, r, i)) == out(r, Sent(h.progs[r], i))
    {
      assert Overlaid(g, h, f, r);
      var m := g.progs[r][i];
      SameTaken(g, h, f, out, r, i);
      SameCounts(g.progs[r], f, i);
      assert CarefulMove(g.progs[r], f, i);
      match m
      case Send(from) => SameCell(g, h, f, out, r, i, from);
      case Relay =>
      case ReduceSend(local) => SameCell(g, h, f, out, r, i, local);
    }
  }

  lemma {:induction false} OverlayCausal<C(!new), V>(g: Ring<C, V>, h: Ring<C, V>, f: C -> C, time: (nat, nat) -> nat)
    requires Overlay(g, h, f) && WellFormed(h) && Causal(g, time) && Balanced(g)
    ensures Causal(h, time) && Balanced(h)
  {
    forall r, i, j | 0 <= r < |h.progs| && 0 <= i < |h.progs[r]| && 0 <= j <= |h.progs[Prev(r, |h.progs|)]|
      ensures Precedes(h, time, r, i, j)
    {
      var p := Prev(r, |h.progs|);
      assert Overlaid(g, h, f, r) && Overlaid(g, h, f, p);
      SameCounts(g.progs[r], f, i);
      SameCounts(g.progs[p], f, j);
      assert Precedes(g, time, r, i, j);
    }
    forall r | 0 <= r < |h.progs|
      ensures Sent(h.progs[r], |h.progs[r]|) == Received(h.progs[Next(r, |h.progs|)], |h.progs[Next(r, |h.progs|)]|)
    {
      var d := Next(r, |h.progs|);
      assert Overlaid(g, h, f, r) && Overlaid(g, h, f, d);
      SameCounts(g.progs[r], f, |g.progs[r]|);
      SameCounts(g.progs[d], f, |g.progs[d]|);
    }
  }
}
