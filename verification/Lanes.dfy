/**
 Long messages travel as segments, and every move of a collective works through its segments in order, so a rank can
 forward segment 0 before segment 1 has reached it. Segment `s` of all messages forms lane `s`. The module expands a
 program of whole-message moves into one of segment moves, and says what network a lane of the expanded one is.
 */
module Lanes {
  import opened RingIndex
  import opened Network

  function OnSegment<C>(i: Instr<C>, s: nat): Instr<(C, nat)> {
    match i
    case Send(from) => Send((from, s))
    case Recv(to) => Recv((to, s))
    case Relay => Relay
    case ReduceSend(local) => ReduceSend((local, s))
    case ReduceStore(local, to) => ReduceStore((local, s), (to, s))
    case Copy(from, to) => Copy((from, s), (to, s))
  }

  /** `n` messages of `S` segments. Defined without a product so that the index arithmetic stays linear. */
  function Times(n: nat, S: nat): nat {
    if n == 0 then 0 else Times(n - 1, S) + S
  }

  /** The flat position of segment `s` of message or move `i`. */
  function At(i: nat, s: nat, S: nat): nat {
    Times(i, S) + s
  }

  lemma {:induction false} TimesGrows(a: nat, b: nat, S: nat)
    requires a < b
    ensures Times(a, S) + S <= Times(b, S)
  {
    if a + 1 < b {
      TimesGrows(a, b - 1, S);
    }
  }

  lemma {:induction false} TimesIsProduct(n: nat, S: nat)
    ensures Times(n, S) == n * S
  {
    if n > 0 {
      TimesIsProduct(n - 1, S);
    }
  }

  lemma {:induction false} JoinIndex(i: nat, s: nat, S: nat)
    requires s < S
    ensures At(i, s, S) / S == i && At(i, s, S) % S == s
  {
    TimesIsProduct(i, S);
    Quotient(At(i, s, S), S, i);
  }

  lemma {:induction false} Locate(p: nat, n: nat, S: nat) returns (i: nat, s: nat)
    requires p < Times(n, S)
    ensures i < n && s < S && p == At(i, s, S)
  {
    if Times(n - 1, S) <= p {
      i, s := n - 1, p - Times(n - 1, S);
    } else {
      i, s := Locate(p, n - 1, S);
    }
  }

  ghost predicate Expands<C>(e: seq<Instr<(C, nat)>>, prog: seq<Instr<C>>, S: nat) {
    && |e| == Times(|prog|, S)
    && forall i, s {:trigger At(i, s, S)} :: 0 <= i < |prog| && 0 <= s < S ==>
      At(i, s, S) < |e| && e[At(i, s, S)] == OnSegment(prog[i], s)
  }

  /** After `s` segments of move `i`, the expanded program has sent `S` segments per earlier message, and `s` more. */
  lemma {:induction false} SentExpand<C>(prog: seq<Instr<C>>, e: seq<Instr<(C, nat)>>, S: nat, i: nat, s: nat)
    requires Expands(e, prog, S) && i < |prog| && s <= S
    ensures At(i, s, S) <= |e|
    ensures Sent(e, At(i, s, S)) == Times(Sent(prog, i), S) + if Sends(prog[i]) then s else 0
    decreases i, s
  {
    TimesGrows(i, |prog|, S);
    if s > 0 {
      SentExpand(prog, e, S, i, s - 1);
      assert At(i, s - 1, S) == At(i, s, S) - 1;
    } else if i > 0 {
      SentExpand(prog, e, S, i - 1, S);
    }
  }

  lemma {:induction false} ReceivedExpand<C>(prog: seq<Instr<C>>, e: seq<Instr<(C, nat)>>, S: nat, i: nat, s: nat)
    requires Expands(e, prog, S) && i < |prog| && s <= S
    ensures At(i, s, S) <= |e|
    ensures Received(e, At(i, s, S)) == Times(Received(prog, i), S) + if Receives(prog[i]) then s else 0
    decreases i, s
  {
    TimesGrows(i, |prog|, S);
    if s > 0 {
      ReceivedExpand(prog, e, S, i, s - 1);
      assert At(i, s - 1, S) == At(i, s, S) - 1;
    } else if i > 0 {
      ReceivedExpand(prog, e, S, i - 1, S);
    }
  }

  lemma {:induction false} TotalExpand<C>(prog: seq<Instr<C>>, e: seq<Instr<(C, nat)>>, S: nat)
    requires Expands(e, prog, S)
    ensures Sent(e, |e|) == Times(Sent(prog, |prog|), S)
    ensures Received(e, |e|) == Times(Received(prog, |prog|), S)
  {
    var n := |prog|;
    if n > 0 {
      SentExpand(prog, e, S, n - 1, S);
      ReceivedExpand(prog, e, S, n - 1, S);
    }
  }

  /** Network `g` runs the whole-message programs `progs` segment by segment, `S` segments to a message. */
  ghost predicate Segmented<C, V>(g: Ring<(C, nat), V>, progs: seq<seq<Instr<C>>>, S: nat) {
    && S > 0
    && |g.progs| == |progs|
    && forall r :: 0 <= r < |progs| ==> Expands(g.progs[r], progs[r], S)
  }

  ghost function Slice<C, V>(m: map<(C, nat), V>, s: nat): (l: map<C, V>)
    ensures forall c :: c in l ==> (c, s) in m && l[c] == m[(c, s)]
    ensures forall k :: k in m && k.1 == s ==> k.0 in l
  {
    map k | k in m && k.1 == s :: k.0 := m[k]
  }

  /** The whole-message network that lane `s` of `g` amounts to. */
  ghost function Lane<C, V>(g: Ring<(C, nat), V>, progs: seq<seq<Instr<C>>>, s: nat): Ring<C, V> {
    Ring(g.op, progs, seq(|g.init|, r requires 0 <= r < |g.init| => Slice(g.init[r], s)))
  }

  lemma {:induction false} FitsLane<C, V>(i: Instr<C>, m: map<(C, nat), V>, s: nat)
    ensures Fits(OnSegment(i, s), m) <==> Fits(i, Slice(m, s))
  {
  }

  lemma {:induction false} LaneWellFormed<C, V>(g: Ring<(C, nat), V>, progs: seq<seq<Instr<C>>>, S: nat, s: nat)
    requires Segmented(g, progs, S) && WellFormed(g) && s < S
    ensures WellFormed(Lane(g, progs, s))
  {
    forall r, i | 0 <= r < |progs| && 0 <= i < |progs[r]| ensures Fits(progs[r][i], Slice(g.init[r], s)) {
      assert Expands(g.progs[r], progs[r], S);
      assert Fits(g.progs[r][At(i, s, S)], g.init[r]);
      FitsLane(progs[r][i], g.init[r], s);
    }
  }

  /** `outs(s, r, k)` is segment `s` of the k-th message of rank `r`. */
  function LaneOut<V>(outs: (nat, nat, nat) -> V, s: nat): (nat, nat) -> V {
    (r: nat, k: nat) => outs(s, r, k)
  }

  function SegmentOut<V>(outs: (nat, nat, nat) -> V, S: nat): (nat, nat) -> V
    requires S > 0
  {
    (r: nat, j: nat) => outs(j % S, r, j / S)
  }

  lemma {:induction false} SegmentOutAt<V>(outs: (nat, nat, nat) -> V, S: nat, r: nat, k: nat, s: nat)
    requires s < S
    ensures SegmentOut(outs, S)(r, At(k, s, S)) == LaneOut(outs, s)(r, k)
  {
    JoinIndex(k, s, S);
  }
}
