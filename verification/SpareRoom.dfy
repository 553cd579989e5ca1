/**
 The driver starts a gather or an all-gather of `n` ranks only if the spare buffers hold a whole block from each of them
 (`ceil(count / segment) * n <= nbufs`). The module says what this is good for: at every moment of the call, room for a
 whole block is left in buffers that are idle or waiting for a packet, so no packet ever finds all buffers taken. And it
 says exactly how many buffers that takes, since all segments a rank is ever to be sent can arrive before it takes one.
 */
module SpareRoom {
  import opened RingIndex
  import opened Segments
  import opened SpareBuffers
  import opened PoolSteps
  import opened Buffers
  import opened Unfolding
  import N = Network
  import L = Lanes
  import G = Gather
  import A = Allgather

  function Shut(bufs: seq<RxBuffer>): set<nat> {
    set i: nat | 0 <= i < |bufs| && bufs[i].status == Reserved
  }

  /** A reserved buffer holds a packet of the call. */
  lemma {:induction false} ReservedHolds(v: View, start: seq<nat>, i: nat)
    requires Sound(v) && Began(v, start) && i < |v.bufs| && v.bufs[i].status == Reserved
    ensures i in v.origin && v.origin[i] in Since(v.arrived, start)
  {
    assert Stored(v, i);
    assert Known(v, i);
    if i in v.reading {
      var k :| 0 <= k < |v.reading| && v.reading[k] == i;
      assert InTurn(v, k);
    }
  }

  lemma {:induction false} Injects(a: set<nat>, b: set<(nat, nat)>, f: map<int, (nat, nat)>)
    requires forall i :: i in a ==> i in f && f[i] in b
    requires forall i, j :: i in a && j in a && i != j ==> f[i] != f[j]
    ensures |a| <= |b|
  {
    if a != {} {
      var i :| i in a;
      Injects(a - {i}, b - {f[i]}, f);
    }
  }

  /** Every packet of the call shuts at most one buffer. */
  lemma {:induction false} OpenBuffers(v: View, start: seq<nat>)
    requires Sound(v) && Began(v, start)
    ensures |v.bufs| <= |Open(v.bufs)| + |Since(v.arrived, start)|
  {
    forall i | i in Shut(v.bufs) ensures i in v.origin && v.origin[i] in Since(v.arrived, start) {
      ReservedHolds(v, start, i);
    }
    forall i, j | i in Shut(v.bufs) && j in Shut(v.bufs) && i != j ensures v.origin[i] != v.origin[j] {
      assert Apart(v.origin, i, j);
    }
    Injects(Shut(v.bufs), Since(v.arrived, start), v.origin);
    forall i: nat | i < |v.bufs| ensures i in Open(v.bufs) || i in Shut(v.bufs) {
      assert Stored(v, i);
    }
    SubsetSize(Range(|v.bufs|), Open(v.bufs) + Shut(v.bufs));
    assert |Open(v.bufs) + Shut(v.bufs)| <= |Open(v.bufs)| + |Shut(v.bufs)|;
  }

  /** During a ring collective packets come only from the predecessor, and only those it has sent. */
  ghost predicate FromPredecessor(v: View, start: seq<nat>, p: nat, sent: nat) {
    p < |start| && forall o :: o in Since(v.arrived, start) ==> o.0 == p && o.1 < start[p] + sent
  }

  lemma {:induction false} AtMostSent(v: View, start: seq<nat>, p: nat, sent: nat)
    requires FromPredecessor(v, start, p, sent)
    ensures |Since(v.arrived, start)| <= sent
  {
    var s := Since(v.arrived, start);
    var all := Numbered(p, start[p], sent);
    assert s <= all;
    PairsSize(s, all);
  }

  function Numbered(p: nat, first: nat, n: nat): (s: set<(nat, nat)>)
    ensures |s| == n
    ensures forall o :: o in s <==> o.0 == p && first <= o.1 < first + n
  {
    if n == 0 then {} else
      assert Numbered(p, first, n - 1) !! {(p, first + n - 1)};
      Numbered(p, first, n - 1) + {(p, first + n - 1)}
  }

  lemma {:induction false} PairsSize(a: set<(nat, nat)>, b: set<(nat, nat)>)
    requires a <= b
    ensures |a| <= |b|
  {
    assert b == a + (b - a);
  }

  /** ---- How many buffers a call takes ---- */

  /** A moment of a call: the network has run to `t`, and the pool, `w` when the call began, to `v`. */
  ghost predicate Moment<C, V>(g: N.Ring<C, V>, w: View, p: nat, sched: seq<nat>, t: N.State<C, V>, steps: seq<Step>, v: View)
    requires N.WellFormed(g) && p < |g.progs|
  {
    && N.Reaches(g, N.Initial(g), sched, t) && N.Shape(g, t) && Path(w, steps, v)
    && FromPredecessor(v, w.taken, p, N.Sent(g.progs[p], t.pc[p]))
  }

  /** So many buffers are open at any moment. */
  lemma {:induction false} OpenAt<C, V>(g: N.Ring<C, V>, w: View, p: nat, sched: seq<nat>, t: N.State<C, V>, steps: seq<Step>, v: View)
    requires N.WellFormed(g) && p < |g.progs| && Sound(w) && w.reading == [] && Moment(g, w, p, sched, t, steps, v)
    ensures |w.bufs| <= |Open(v.bufs)| + N.Sent(g.progs[p], t.pc[p])
  {
    PathKeeps(w, steps, v, w.taken);
    OpenBuffers(v, w.taken);
    AtMostSent(v, w.taken, p, N.Sent(g.progs[p], t.pc[p]));
  }

  /** At every moment of the call a buffer is open. */
  ghost predicate AlwaysRoom<C(!new), V(!new)>(g: N.Ring<C, V>, w: View, p: nat)
    requires N.WellFormed(g) && p < |g.progs|
  {
    forall sched: seq<nat>, t: N.State<C, V>, steps: seq<Step>, v: View :: Moment(g, w, p, sched, t, steps, v) ==> Open(v.bufs) != {}
  }

  /** If more packets can be sent before one is taken than there are buffers, all buffers can be taken at once. */
  lemma {:induction false} RunsOut<C, V>(g: N.Ring<C, V>, w: View, p: nat, sched: seq<nat>, t: N.State<C, V>)
    returns (steps: seq<Step>, v: View)
    requires N.WellFormed(g) && p < |g.progs| && N.Reaches(g, N.Initial(g), sched, t) && N.Shape(g, t)
    requires Fresh(w) && p < |w.taken| && |w.bufs| <= WORD && |w.bufs| <= N.Sent(g.progs[p], t.pc[p])
    ensures Moment(g, w, p, sched, t, steps, v) && Open(v.bufs) == {}
  {
    forall n: nat | n >= w.taken[p] ensures (p, n) !in w.arrived {
      assert (p, n) !in Since(w.arrived, w.taken);
    }
    SubsetSize(Open(w.bufs), Range(|w.bufs|));
    steps, v := FillUp(w, p, w.taken[p]);
    forall o | o in Since(v.arrived, w.taken) ensures o.0 == p && o.1 < w.taken[p] + N.Sent(g.progs[p], t.pc[p]) {
      assert o !in Since(w.arrived, w.taken);
    }
  }

  /** A buffer is always open if and only if there are more buffers than packets that can be sent before one is taken. */
  lemma {:induction false} RoomIff<C(!new), V(!new)>(g: N.Ring<C, V>, w: View, p: nat, most: nat, sched: seq<nat>, t: N.State<C, V>)
    requires N.WellFormed(g) && p < |g.progs| && Fresh(w) && p < |w.taken| && |w.bufs| <= WORD
    requires N.Reaches(g, N.Initial(g), sched, t) && N.Shape(g, t) && N.Sent(g.progs[p], t.pc[p]) == most
    requires forall s, u :: N.Reaches(g, N.Initial(g), s, u) && N.Shape(g, u) ==> N.Sent(g.progs[p], u.pc[p]) <= most
    ensures AlwaysRoom(g, w, p) <==> most < |w.bufs|
  {
    if most < |w.bufs| {
      forall s, u, steps, v | Moment(g, w, p, s, u, steps, v) ensures Open(v.bufs) != {} {
        OpenAt(g, w, p, s, u, steps, v);
      }
    } else {
      var steps, v := RunsOut(g, w, p, sched, t);
    }
  }

  /** All-gather: with `S` segments to a block, a rank needs more than `(n - 1) * S` buffers, and no more. */
  lemma {:induction false} AllgatherRoomIff<V(!new)>(g: N.Ring<(Block, nat), V>, progs: seq<seq<N.Instr<Block>>>, S: nat, x: (nat, nat, nat) -> V,
                                               n: nat, w: View, r: nat)
    requires A.Calls(g, progs, S, x, n) && N.WellFormed(g) && r < n && Fresh(w) && |w.taken| == n && |w.bufs| <= WORD
    ensures AlwaysRoom(g, w, Prev(r, n)) <==> L.Times(n - 1, S) < |w.bufs|
  {
    var p := Prev(r, n);
    var sched, t := A.AllQueueUp(g, progs, S, x, n, r);
    forall s, u | N.Reaches(g, N.Initial(g), s, u) && N.Shape(g, u) ensures N.Sent(g.progs[p], u.pc[p]) <= L.Times(n - 1, S) {
      A.AtMostAllOthers(g, progs, S, x, n, s, u, p);
    }
    RoomIff(g, w, p, L.Times(n - 1, S), sched, t);
  }

  /** Gather: likewise, a rank needs more buffers than there are segments in the blocks its predecessor sends it. */
  lemma {:induction false} GatherRoomIff<V(!new)>(g: N.Ring<(Block, nat), V>, progs: seq<seq<N.Instr<Block>>>, S: nat, x: (nat, nat, nat) -> V,
                                            n: nat, root: nat, w: View, r: nat)
    requires G.Calls(g, progs, S, x, n, root) && N.WellFormed(g) && r < n && Fresh(w) && |w.taken| == n && |w.bufs| <= WORD
    ensures AlwaysRoom(g, w, Prev(r, n)) <==> L.Times(G.Distance(Prev(r, n), root, n), S) < |w.bufs|
  {
    var p := Prev(r, n);
    var sched, t := G.AllQueueUp(g, progs, S, x, n, root, r);
    forall s, u | N.Reaches(g, N.Initial(g), s, u) && N.Shape(g, u) ensures N.Sent(g.progs[p], u.pc[p]) <= L.Times(G.Distance(p, root, n), S) {
      G.AtMostItsDistance(g, progs, S, x, n, root, s, u, p);
    }
    RoomIff(g, w, p, L.Times(G.Distance(p, root, n), S), sched, t);
  }

  /** ---- The driver's check ---- */

  /** A block of `count` bytes is `ceil(count / segment)` segments. */
  lemma {:induction false} SegmentsOfBlock(count: nat, segment: nat)
    requires segment > 0
    ensures |Cut(count, segment)| == (count + segment - 1) / segment
  {
    if count > 0 {
      var n := Min(count, segment);
      SegmentsOfBlock(count - n, segment);
      if count > segment {
        OneLess(count + segment - 1, segment);
      } else {
        Quotient(count + segment - 1, segment, 1);
        assert count - n == 0;
      }
    } else {
      Quotient(segment - 1, segment, 0);
    }
  }

  predicate DriverAllows(count: nat, segment: nat, n: nat, nbufs: nat)
    requires segment > 0
  {
    (count + segment - 1) / segment * n <= nbufs
  }

  /** The driver starts a call of `n` ranks on blocks of `count` bytes. */
  ghost predicate Admitted(count: nat, segment: nat, n: nat, nbufs: nat) {
    count > 0 && segment > 0 && forall u: nat {:trigger Unfold(u)} :: u == 1 && Unfold(u) ==> DriverAllows(count, segment, n, nbufs)
  }

  lemma {:induction false} RoomForBlocks(count: nat, segment: nat, n: nat, nbufs: nat)
    requires Admitted(count, segment, n, nbufs)
    ensures L.Times(n, |Cut(count, segment)|) <= nbufs
  {
    assert Unfold(1);
    SegmentsOfBlock(count, segment);
    L.TimesIsProduct(n, |Cut(count, segment)|);
  }

  /** All-gather: at every moment of every run, on every rank, a whole block's worth of buffers is open. */
  lemma {:induction false} AllgatherHasRoom<V>(g: N.Ring<(Block, nat), V>, progs: seq<seq<N.Instr<Block>>>, x: (nat, nat, nat) -> V, n: nat,
                                               count: nat, segment: nat, w: View, r: nat,
                                               sched: seq<nat>, t: N.State<(Block, nat), V>, steps: seq<Step>, v: View)
    requires Admitted(count, segment, n, |w.bufs|) && Sound(w) && w.reading == []
    requires A.Calls(g, progs, |Cut(count, segment)|, x, n) && N.WellFormed(g) && r < n && |g.progs| == n
    requires Moment(g, w, Prev(r, n), sched, t, steps, v)
    ensures |Open(v.bufs)| >= |Cut(count, segment)| > 0
  {
    RoomForBlocks(count, segment, n, |w.bufs|);
    A.SpareBuffersSuffice(g, progs, |Cut(count, segment)|, x, n, sched, t, |w.bufs|, r);
    OpenAt(g, w, Prev(r, n), sched, t, steps, v);
  }

  /** Gather: likewise. */
  lemma {:induction false} GatherHasRoom<V>(g: N.Ring<(Block, nat), V>, progs: seq<seq<N.Instr<Block>>>, x: (nat, nat, nat) -> V, n: nat, root: nat,
                                            count: nat, segment: nat, w: View, r: nat,
                                            sched: seq<nat>, t: N.State<(Block, nat), V>, steps: seq<Step>, v: View)
    requires Admitted(count, segment, n, |w.bufs|) && Sound(w) && w.reading == []
    requires G.Calls(g, progs, |Cut(count, segment)|, x, n, root) && N.WellFormed(g) && r < n && |g.progs| == n
    requires Moment(g, w, Prev(r, n), sched, t, steps, v)
    ensures |Open(v.bufs)| >= |Cut(count, segment)| > 0
  {
    RoomForBlocks(count, segment, n, |w.bufs|);
    G.SpareBuffersSuffice(g, progs, |Cut(count, segment)|, x, n, root, sched, t, |w.bufs|, r);
    OpenAt(g, w, Prev(r, n), sched, t, steps, v);
  }

  /** What an all-gather of `n` ranks on blocks of `bytes` bytes needs, by `AllgatherRoomIff`. */
  predicate Needs(bytes: nat, segment: nat, n: nat, nbufs: nat)
    requires segment > 0 && n > 0
  {
    L.Times(n - 1, |Cut(bytes, segment)|) < nbufs
  }

  ghost predicate Suffices(width: nat, count: nat, segment: nat, n: nat, nbufs: nat)
    requires segment > 0 && n > 0
  {
    DriverAllows(count, segment, n, nbufs) ==> Needs(count * width, segment, n, nbufs)
  }

  lemma {:induction false} ByteSuffices(width: nat, count: nat, segment: nat, n: nat, nbufs: nat)
    requires width <= 1 && count > 0 && segment > 0 && n >= 2
    ensures Suffices(width, count, segment, n, nbufs)
  {
    var S := |Cut(count, segment)|;
    SegmentsOfBlock(count, segment);
    L.TimesIsProduct(n, S);
    if width == 0 {
      L.TimesIsProduct(n - 1, 0);
    }
  }

  lemma {:induction false} WideFails(width: nat)
    requires width >= 2
    ensures DriverAllows(8, 8, 2, 2) && !Needs(8 * width, 8, 2, 2)
  {
    SegmentsOfBlock(8 * width, 8);
    assert L.Times(1, width) == width;
  }

  /**
   The driver counts elements where the firmware moves bytes. What it admits has room, for every block size, segment size,
   number of ranks and number of buffers, exactly when elements are no wider than a byte.
   */
  lemma {:induction false} ElementsAreNotBytes(width: nat)
    ensures width <= 1 <==>
      forall count: nat, segment: nat, n: nat, nbufs: nat :: count > 0 && segment > 0 && n >= 2 ==> Suffices(width, count, segment, n, nbufs)
  {
    if width <= 1 {
      forall count: nat, segment: nat, n: nat, nbufs: nat | count > 0 && segment > 0 && n >= 2 ensures Suffices(width, count, segment, n, nbufs) {
        ByteSuffices(width, count, segment, n, nbufs);
      }
    } else {
      WideFails(width);
      assert !Suffices(width, 8, 8, 2, 2);
    }
  }

  /** Two ranks, blocks of 8 elements of 4 bytes, segments of 8 bytes, 2 buffers: admitted, though one block is 4 segments. */
  lemma {:induction false} DriverCheckFails()
    ensures DriverAllows(8, 8, 2, 2) && !DriverAllows(8 * 4, 8, 2, 2) && |Cut(8 * 4, 8)| == 4 && !Needs(8 * 4, 8, 2, 2)
  {
    WideFails(4);
    SegmentsOfBlock(32, 8);
  }
}
