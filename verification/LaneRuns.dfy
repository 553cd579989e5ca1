/**
 The network expanded into segment moves computes in each lane what the network of whole messages computes there, under
 every schedule of the segments.
 */
module LaneRuns {
  import opened RingIndex
  import opened Network
  import opened Wrappers
  import opened Lanes

  lemma {:induction false} IncomingLane<C, V>(g: Ring<(C, nat), V>, progs: seq<seq<Instr<C>>>, S: nat, outs: (nat, nat, nat) -> V,
                           r: nat, i: nat, s: nat)
    requires Segmented(g, progs, S) && WellFormed(g) && r < |progs| && i < |progs[r]| && s < S
    ensures WellFormed(Lane(g, progs, s)) && At(i, s, S) < |g.progs[r]|
    ensures Incoming(g, SegmentOut(outs, S), r, At(i, s, S)) == Incoming(Lane(g, progs, s), LaneOut(outs, s), r, i)
  {
    LaneWellFormed(g, progs, S, s);
    assert Expands(g.progs[r], progs[r], S);
    ReceivedExpand(progs[r], g.progs[r], S, i, s);
    SegmentOutAt(outs, S, Prev(r, |progs|), Received(progs[r], i), s);
  }

  lemma {:induction false} AfterLane<C, V>(op: (V, V) -> V, i: Instr<C>, m: map<(C, nat), V>, x: Option<V>, s: nat, lane: nat)
    requires Fits(OnSegment(i, s), m) && (Receives(i) ==> x.Some?)
    ensures Fits(i, Slice(m, s))
    ensures Slice(After(op, OnSegment(i, s), m, x), lane)
         == if lane == s then After(op, i, Slice(m, s), x) else Slice(m, lane)
  {
    FitsLane(i, m, s);
    var l := Slice(After(op, OnSegment(i, s), m, x), lane);
    if lane == s {
      assert l == After(op, i, Slice(m, s), x);
    } else {
      assert l == Slice(m, lane);
    }
  }

  ghost predicate Agrees<C, V>(g: Ring<(C, nat), V>, progs: seq<seq<Instr<C>>>, S: nat, outs: (nat, nat, nat) -> V,
                               r: nat, p: nat, lane: nat, d: nat)
    requires WellFormed(g) && S > 0 && r < |g.progs| == |progs| && p <= |g.progs[r]|
    requires WellFormed(Lane(g, progs, lane)) && d <= |progs[r]|
  {
    Slice(MemAt(g, SegmentOut(outs, S), r, p), lane) == MemAt(Lane(g, progs, lane), LaneOut(outs, lane), r, d)
  }

  /** Segment `s` of move `i` takes lane `s` from `i` to `i + 1` and leaves the other lanes alone. */
  lemma {:induction false} MemoryStep<C, V>(g: Ring<(C, nat), V>, progs: seq<seq<Instr<C>>>, S: nat, outs: (nat, nat, nat) -> V,
                         r: nat, i: nat, s: nat, lane: nat, d: nat)
    requires Segmented(g, progs, S) && WellFormed(g) && r < |progs| && i < |progs[r]| && s < S && lane < S
    requires WellFormed(Lane(g, progs, lane)) && d <= |progs[r]| && (lane == s ==> d == i)
    requires At(i, s, S) < |g.progs[r]| && Agrees(g, progs, S, outs, r, At(i, s, S), lane, d)
    ensures Agrees(g, progs, S, outs, r, At(i, s, S) + 1, lane, if lane == s then d + 1 else d)
  {
    assert Expands(g.progs[r], progs[r], S);
    IncomingLane(g, progs, S, outs, r, i, s);
    var p := At(i, s, S);
    assert g.progs[r][p] == OnSegment(progs[r][i], s);
    AfterLane(g.op, progs[r][i], MemAt(g, SegmentOut(outs, S), r, p), Incoming(g, SegmentOut(outs, S), r, p), s, lane);
  }

  lemma {:induction false} AgreesInitially<C, V>(g: Ring<(C, nat), V>, progs: seq<seq<Instr<C>>>, S: nat, outs: (nat, nat, nat) -> V, r: nat, lane: nat)
    requires Segmented(g, progs, S) && WellFormed(g) && WellFormed(Lane(g, progs, lane)) && r < |progs|
    ensures Agrees(g, progs, S, outs, r, 0, lane, 0)
  {
  }

  /** Induction over segment moves: `ok(p, d)` speaks of flat position `p` and of the `d` moves the lane has made. */
  lemma {:induction false} BySegments(n: nat, S: nat, lane: nat, ok: (nat, nat) -> bool, i: nat, s: nat)
    requires i < n && s <= S && lane < S
    requires ok(0, 0)
    requires forall i, s {:trigger At(i, s, S)} :: 0 <= i < n && 0 <= s < S && ok(At(i, s, S), if lane < s then i + 1 else i) ==>
      ok(At(i, s, S) + 1, if lane <= s then i + 1 else i)
    ensures ok(At(i, s, S), if lane < s then i + 1 else i)
    decreases i, s
  {
    if s > 0 {
      BySegments(n, S, lane, ok, i, s - 1);
      assert At(i, s - 1, S) + 1 == At(i, s, S);
    } else if i > 0 {
      BySegments(n, S, lane, ok, i - 1, S);
    }
  }

  ghost predicate InLane<C, V>(g: Ring<(C, nat), V>, progs: seq<seq<Instr<C>>>, S: nat, outs: (nat, nat, nat) -> V, r: nat, lane: nat, p: nat, d: nat)
    requires WellFormed(g) && S > 0 && r < |g.progs| == |progs| && WellFormed(Lane(g, progs, lane))
  {
    p <= |g.progs[r]| && d <= |progs[r]| && Agrees(g, progs, S, outs, r, p, lane, d)
  }

  lemma {:induction false} InLaneOn<C, V>(g: Ring<(C, nat), V>, progs: seq<seq<Instr<C>>>, S: nat, outs: (nat, nat, nat) -> V,
                                          r: nat, i: nat, s: nat, lane: nat)
    requires Segmented(g, progs, S) && WellFormed(g) && r < |progs| && i < |progs[r]| && s < S && lane < S && WellFormed(Lane(g, progs, lane))
    requires InLane(g, progs, S, outs, r, lane, At(i, s, S), if lane < s then i + 1 else i)
    ensures InLane(g, progs, S, outs, r, lane, At(i, s, S) + 1, if lane <= s then i + 1 else i)
  {
    assert Expands(g.progs[r], progs[r], S);
    MemoryStep(g, progs, S, outs, r, i, s, lane, if lane < s then i + 1 else i);
  }

  /** Segment by segment, the memory of a rank is that of its lanes, each as far as its segments have come. */
  lemma {:induction false} MemoryByLane<C, V>(g: Ring<(C, nat), V>, progs: seq<seq<Instr<C>>>, S: nat, outs: (nat, nat, nat) -> V,
                           r: nat, i: nat, s: nat, lane: nat)
    requires Segmented(g, progs, S) && WellFormed(g) && r < |progs| && i < |progs[r]| && s <= S && lane < S
    ensures WellFormed(Lane(g, progs, lane))
    ensures InLane(g, progs, S, outs, r, lane, At(i, s, S), if lane < s then i + 1 else i)
  {
    LaneWellFormed(g, progs, S, lane);
    AgreesInitially(g, progs, S, outs, r, lane);
    var ok := (p: nat, d: nat) => InLane(g, progs, S, outs, r, lane, p, d);
    forall i, s | 0 <= i < |progs[r]| && 0 <= s < S && ok(At(i, s, S), if lane < s then i + 1 else i)
      ensures ok(At(i, s, S) + 1, if lane <= s then i + 1 else i)
    {
      InLaneOn(g, progs, S, outs, r, i, s, lane);
    }
    BySegments(|progs[r]|, S, lane, ok, i, s);
  }

  lemma {:induction false} MemoryAtEnd<C, V>(g: Ring<(C, nat), V>, progs: seq<seq<Instr<C>>>, S: nat, outs: (nat, nat, nat) -> V, r: nat, lane: nat)
    requires Segmented(g, progs, S) && WellFormed(g) && r < |progs| && lane < S
    ensures WellFormed(Lane(g, progs, lane))
    ensures Agrees(g, progs, S, outs, r, |g.progs[r]|, lane, |progs[r]|)
  {
    assert Expands(g.progs[r], progs[r], S);
    LaneWellFormed(g, progs, S, lane);
    if progs[r] != [] {
      MemoryByLane(g, progs, S, outs, r, |progs[r]| - 1, S, lane);
    } else {
      AgreesInitially(g, progs, S, outs, r, lane);
    }
  }

  lemma {:induction false} OutgoingLane<C, V>(op: (V, V) -> V, i: Instr<C>, m: map<(C, nat), V>, x: Option<V>, s: nat)
    requires Sends(i) && Fits(OnSegment(i, s), m) && (Receives(i) ==> x.Some?)
    ensures Fits(i, Slice(m, s)) && Outgoing(op, OnSegment(i, s), m, x) == Outgoing(op, i, Slice(m, s), x)
  {
    FitsLane(i, m, s);
  }

  lemma {:induction false} LaneSends<C, V>(g: Ring<(C, nat), V>, progs: seq<seq<Instr<C>>>, S: nat, outs: (nat, nat, nat) -> V,
                        r: nat, i: nat, s: nat)
    requires Segmented(g, progs, S) && WellFormed(g) && r < |progs| && i < |progs[r]| && s < S && Sends(progs[r][i])
    requires WellFormed(Lane(g, progs, s)) && Solves(Lane(g, progs, s), LaneOut(outs, s))
    ensures At(i, s, S) < |g.progs[r]| && Sends(g.progs[r][At(i, s, S)])
    ensures Outgoing(g.op, g.progs[r][At(i, s, S)], MemAt(g, SegmentOut(outs, S), r, At(i, s, S)), Incoming(g, SegmentOut(outs, S), r, At(i, s, S)))
         == SegmentOut(outs, S)(r, Sent(g.progs[r], At(i, s, S)))
  {
    var p := At(i, s, S);
    assert Expands(g.progs[r], progs[r], S);
    assert g.progs[r][p] == OnSegment(progs[r][i], s);
    MemoryByLane(g, progs, S, outs, r, i, s, s);
    IncomingLane(g, progs, S, outs, r, i, s);
    SentExpand(progs[r], g.progs[r], S, i, s);
    SegmentOutAt(outs, S, r, Sent(progs[r], i), s);
    OutgoingLane(g.op, progs[r][i], MemAt(g, SegmentOut(outs, S), r, p), Incoming(g, SegmentOut(outs, S), r, p), s);
    assert Sends(Lane(g, progs, s).progs[r][i]);
  }

  /** If every lane is solved by its own messages, the segmented network is solved by all of them interleaved. */
  lemma {:induction false} LanesSolve<C, V>(g: Ring<(C, nat), V>, progs: seq<seq<Instr<C>>>, S: nat, outs: (nat, nat, nat) -> V)
    requires Segmented(g, progs, S) && WellFormed(g)
    requires forall s :: 0 <= s < S ==> WellFormed(Lane(g, progs, s)) && Solves(Lane(g, progs, s), LaneOut(outs, s))
    ensures Solves(g, SegmentOut(outs, S))
  {
    var out := SegmentOut(outs, S);
    forall r, p | 0 <= r < |g.progs| && 0 <= p < |g.progs[r]| && Sends(g.progs[r][p])
      ensures Outgoing(g.op, g.progs[r][p], MemAt(g, out, r, p), Incoming(g, out, r, p)) == out(r, Sent(g.progs[r], p))
    {
      assert Expands(g.progs[r], progs[r], S);
      var i, s := Locate(p, |progs[r]|, S);
      LaneSends(g, progs, S, outs, r, i, s);
    }
  }

  function SegmentTime(time: (nat, nat) -> nat, S: nat): (nat, nat) -> nat
    requires S > 0
  {
    (r: nat, p: nat) => At(time(r, p / S), p % S, S)
  }

  lemma {:induction false} SegmentTimeAt(time: (nat, nat) -> nat, S: nat, r: nat, i: nat, s: nat)
    requires s < S
    ensures SegmentTime(time, S)(r, At(i, s, S)) == At(time(r, i), s, S)
  {
    JoinIndex(i, s, S);
  }

  lemma {:induction false} PrecedesExpand<C, V>(g: Ring<(C, nat), V>, progs: seq<seq<Instr<C>>>, S: nat, time: (nat, nat) -> nat,
                             r: nat, i: nat, s: nat, j: nat, t: nat)
    requires Segmented(g, progs, S) && WellFormed(g)
    requires WellFormed(Lane(g, progs, 0)) && Causal(Lane(g, progs, 0), time)
    requires r < |progs| && i < |progs[r]| && s < S && j < |progs[Prev(r, |progs|)]| && t < S
    ensures At(i, s, S) < |g.progs[r]| && At(j, t, S) < |g.progs[Prev(r, |progs|)]|
    ensures Precedes(g, SegmentTime(time, S), r, At(i, s, S), At(j, t, S))
  {
    var d := Prev(r, |progs|);
    assert Expands(g.progs[r], progs[r], S) && Expands(g.progs[d], progs[d], S);
    ReceivedExpand(progs[r], g.progs[r], S, i, s);
    SentExpand(progs[d], g.progs[d], S, j, t);
    SegmentTimeAt(time, S, r, i, s);
    SegmentTimeAt(time, S, d, j, t);
    var sent, taken := Sent(progs[d], j), Received(progs[r], i);
    if taken < sent {
      TimesGrows(taken, sent, S);
    }
    assert Precedes(Lane(g, progs, 0), time, r, i, j);
    if time(d, j) < time(r, i) {
      TimesGrows(time(d, j), time(r, i), S);
    }
  }

  lemma {:induction false} PrecedesAtEnd<C, V>(g: Ring<(C, nat), V>, progs: seq<seq<Instr<C>>>, S: nat, time: (nat, nat) -> nat, r: nat, i: nat, s: nat)
    requires Segmented(g, progs, S) && WellFormed(g)
    requires WellFormed(Lane(g, progs, 0)) && Causal(Lane(g, progs, 0), time)
    requires r < |progs| && i < |progs[r]| && s < S
    ensures At(i, s, S) < |g.progs[r]|
    ensures Precedes(g, SegmentTime(time, S), r, At(i, s, S), |g.progs[Prev(r, |progs|)]|)
  {
    var d := Prev(r, |progs|);
    assert Expands(g.progs[r], progs[r], S) && Expands(g.progs[d], progs[d], S);
    ReceivedExpand(progs[r], g.progs[r], S, i, s);
    TotalExpand(progs[d], g.progs[d], S);
    var sent, taken := Sent(progs[d], |progs[d]|), Received(progs[r], i);
    assert Precedes(Lane(g, progs, 0), time, r, i, |progs[d]|);
    if taken < sent {
      TimesGrows(taken, sent, S);
    }
  }

  lemma {:induction false} LanesCausal<C, V>(g: Ring<(C, nat), V>, progs: seq<seq<Instr<C>>>, S: nat, time: (nat, nat) -> nat)
    requires Segmented(g, progs, S) && WellFormed(g)
    requires WellFormed(Lane(g, progs, 0)) && Causal(Lane(g, progs, 0), time)
    ensures Causal(g, SegmentTime(time, S))
  {
    forall r, p, q | 0 <= r < |g.progs| && 0 <= p < |g.progs[r]| && 0 <= q <= |g.progs[Prev(r, |g.progs|)]|
      ensures Precedes(g, SegmentTime(time, S), r, p, q)
    {
      var d := Prev(r, |progs|);
      assert Expands(g.progs[r], progs[r], S) && Expands(g.progs[d], progs[d], S);
      var i, s := Locate(p, |progs[r]|, S);
      if q < |g.progs[d]| {
        var j, t := Locate(q, |progs[d]|, S);
        PrecedesExpand(g, progs, S, time, r, i, s, j, t);
      } else {
        PrecedesAtEnd(g, progs, S, time, r, i, s);
      }
    }
  }

  /** A link never carries more segments in all than its sender's messages have. */
  lemma {:induction false} SentBound<C, V>(g: Ring<(C, nat), V>, progs: seq<seq<Instr<C>>>, S: nat, out: (nat, nat) -> V,
                                           t: State<(C, nat), V>, r: nat)
    requires Segmented(g, progs, S) && WellFormed(g) && Inv(g, out, t) && r < |progs|
    ensures |t.link[r]| <= Sent(g.progs[r], t.pc[r]) <= Times(Sent(progs[r], |progs[r]|), S)
  {
    assert OnTrack(g, out, t, r);
    assert Expands(g.progs[r], progs[r], S);
    SentGrows(g.progs[r], t.pc[r], |g.progs[r]|);
    TotalExpand(progs[r], g.progs[r], S);
  }

  lemma {:induction false} LanesBalanced<C, V>(g: Ring<(C, nat), V>, progs: seq<seq<Instr<C>>>, S: nat)
    requires Segmented(g, progs, S) && WellFormed(g)
    requires WellFormed(Lane(g, progs, 0)) && Balanced(Lane(g, progs, 0))
    ensures Balanced(g)
  {
    var l := Lane(g, progs, 0);
    forall r | 0 <= r < |g.progs|
      ensures Sent(g.progs[r], |g.progs[r]|) == Received(g.progs[Next(r, |g.progs|)], |g.progs[Next(r, |g.progs|)]|)
    {
      var d := Next(r, |g.progs|);
      assert Expands(g.progs[r], progs[r], S) && Expands(g.progs[d], progs[d], S);
      assert Sent(l.progs[r], |l.progs[r]|) == Received(l.progs[d], |l.progs[d]|);
      TotalExpand(progs[r], g.progs[r], S);
      TotalExpand(progs[d], g.progs[d], S);
    }
  }

  /**
   Every run of the segmented network can go on until all segments are moved, never takes more steps than there are
   segment moves, and ends with empty links and, lane by lane, the memory of the whole-message network.
   */
  lemma {:induction false} EverySegmentedRun<C, V>(g: Ring<(C, nat), V>, progs: seq<seq<Instr<C>>>, S: nat,
                                outs: (nat, nat, nat) -> V, time: (nat, nat) -> nat,
                                sched: seq<nat>, t: State<(C, nat), V>)
    requires Segmented(g, progs, S) && WellFormed(g)
    requires forall s :: 0 <= s < S ==> WellFormed(Lane(g, progs, s)) && Solves(Lane(g, progs, s), LaneOut(outs, s))
    requires Causal(Lane(g, progs, 0), time) && Balanced(Lane(g, progs, 0))
    requires Reaches(g, Initial(g), sched, t)
    ensures Inv(g, SegmentOut(outs, S), t)
    ensures |sched| <= Sum(Lengths(g))
    ensures Stuck(g, t) <==> |sched| == Sum(Lengths(g))
    ensures Stuck(g, t) ==> forall r :: 0 <= r < |progs| ==> t.link[r] == []
    ensures Stuck(g, t) ==> forall r, s :: 0 <= r < |progs| && 0 <= s < S ==>
      Slice(t.mem[r], s) == MemAt(Lane(g, progs, s), LaneOut(outs, s), r, |progs[r]|)
  {
    LanesSolve(g, progs, S, outs);
    LanesCausal(g, progs, S, time);
    LanesBalanced(g, progs, S);
    EveryRun(g, SegmentOut(outs, S), SegmentTime(time, S), sched, t);
    if Stuck(g, t) {
      forall r, s | 0 <= r < |progs| && 0 <= s < S
        ensures Slice(t.mem[r], s) == MemAt(Lane(g, progs, s), LaneOut(outs, s), r, |progs[r]|)
      {
        MemoryAtEnd(g, progs, S, outs, r, s);
      }
    }
  }

  /** ---- Cuts between moves ---- */

  lemma {:induction false} CountsAtCut<C>(prog: seq<Instr<C>>, e: seq<Instr<(C, nat)>>, S: nat, i: nat)
    requires Expands(e, prog, S) && i <= |prog|
    ensures Times(i, S) <= |e|
    ensures Sent(e, Times(i, S)) == Times(Sent(prog, i), S) && Received(e, Times(i, S)) == Times(Received(prog, i), S)
  {
    if i < |prog| {
      assert S > 0 ==> At(i, 0, S) == Times(i, S);
      SentExpand(prog, e, S, i, 0);
      ReceivedExpand(prog, e, S, i, 0);
    } else {
      TotalExpand(prog, e, S);
    }
  }

  /** What the rank has sent and received in its first `cut[r]` moves, in segments. */
  ghost predicate CutCounts<C, V>(g: Ring<(C, nat), V>, progs: seq<seq<Instr<C>>>, S: nat, cut: seq<nat>, r: nat)
    requires r < |cut| == |progs| == |g.progs| && cut[r] <= |progs[r]|
  {
    var at := Times(cut[r], S);
    at <= |g.progs[r]| && Sent(g.progs[r], at) == Times(Sent(progs[r], cut[r]), S) && Received(g.progs[r], at) == Times(Received(progs[r], cut[r]), S)
  }

  ghost predicate CutAt<C, V>(g: Ring<(C, nat), V>, progs: seq<seq<Instr<C>>>, S: nat, cut: seq<nat>, t: State<(C, nat), V>, r: nat)
    requires r < |cut| == |progs| == |g.progs| && cut[r] <= |progs[r]|
  {
    |t.pc| == |g.progs| && t.pc[r] == Times(cut[r], S) && CutCounts(g, progs, S, cut, r)
  }

  lemma {:induction false} CutFed<C, V>(g: Ring<(C, nat), V>, progs: seq<seq<Instr<C>>>, S: nat, cut: seq<nat>, fine: seq<nat>, r: nat)
    requires Segmented(g, progs, S) && WellFormed(g) && WellFormed(Lane(g, progs, 0)) && Consistent(Lane(g, progs, 0), cut)
    requires |fine| == |progs| && (forall q :: 0 <= q < |fine| ==> fine[q] == Times(cut[q], S) <= |g.progs[q]|) && r < |progs|
    ensures FedUpTo(g, fine, r)
  {
    var p := Prev(r, |progs|);
    assert Expands(g.progs[r], progs[r], S) && Expands(g.progs[p], progs[p], S);
    CountsAtCut(progs[r], g.progs[r], S, cut[r]);
    CountsAtCut(progs[p], g.progs[p], S, cut[p]);
    assert FedUpTo(Lane(g, progs, 0), cut, r);
    var taken, sent := Received(progs[r], cut[r]), Sent(progs[p], cut[p]);
    if taken < sent {
      TimesGrows(taken, sent, S);
    }
  }

  /** A consistent cut through the moves of whole messages is reached in the segmented network too. */
  lemma {:induction false} SegmentedCut<C, V>(g: Ring<(C, nat), V>, progs: seq<seq<Instr<C>>>, S: nat, outs: (nat, nat, nat) -> V,
                                              time: (nat, nat) -> nat, cut: seq<nat>)
    returns (sched: seq<nat>, t: State<(C, nat), V>)
    requires Segmented(g, progs, S) && WellFormed(g)
    requires forall s :: 0 <= s < S ==> WellFormed(Lane(g, progs, s)) && Solves(Lane(g, progs, s), LaneOut(outs, s))
    requires Causal(Lane(g, progs, 0), time) && Consistent(Lane(g, progs, 0), cut)
    ensures Reaches(g, Initial(g), sched, t) && Inv(g, SegmentOut(outs, S), t)
    ensures forall r :: 0 <= r < |progs| ==> CutAt(g, progs, S, cut, t, r)
  {
    var fine := seq(|progs|, r requires 0 <= r < |progs| => Times(cut[r], S));
    forall r | 0 <= r < |progs| ensures fine[r] <= |g.progs[r]| && CutCounts(g, progs, S, cut, r) {
      assert Expands(g.progs[r], progs[r], S);
      CountsAtCut(progs[r], g.progs[r], S, cut[r]);
    }
    forall r | 0 <= r < |progs| ensures FedUpTo(g, fine, r) {
      CutFed(g, progs, S, cut, fine, r);
    }
    LanesSolve(g, progs, S, outs);
    LanesCausal(g, progs, S, time);
    InitialInv(g, SegmentOut(outs, S));
    sched, t := CutIsReached(g, SegmentOut(outs, S), SegmentTime(time, S), Initial(g), fine);
    RunKeepsInv(g, SegmentOut(outs, S), Initial(g), sched, t);
    forall r | 0 <= r < |progs| ensures CutAt(g, progs, S, cut, t, r) {
      assert CutCounts(g, progs, S, cut, r) && t.pc[r] == fine[r];
    }
  }
}
