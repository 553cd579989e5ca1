/** The buffers a collective is called with, cut into blocks, and each block into segments. */
module Buffers {
  import opened Network
  import opened Lanes

  /** Block `block` of the source or of the destination buffer of a rank. */
  datatype Block = Src(block: nat) | Dst(block: nat)

  /** The buffers of rank `r` exist, and block `c` of its source buffer holds `y(r, c)`. */
  ghost predicate Loaded<V>(m: map<Block, V>, y: (nat, nat) -> V, r: nat, nsrc: nat, ndst: nat) {
    && (forall c :: 0 <= c < nsrc ==> Src(c) in m && m[Src(c)] == y(r, c))
    && (forall c :: 0 <= c < ndst ==> Dst(c) in m)
  }

  ghost predicate LoadedSegments<V>(m: map<(Block, nat), V>, x: (nat, nat, nat) -> V, S: nat, r: nat, nsrc: nat, ndst: nat) {
    && (forall c, s :: 0 <= c < nsrc && 0 <= s < S ==> (Src(c), s) in m && m[(Src(c), s)] == x(s, r, c))
    && (forall c, s :: 0 <= c < ndst && 0 <= s < S ==> (Dst(c), s) in m)
  }

  predicate Inside(b: Block, nsrc: nat, ndst: nat) {
    if b.Src? then b.block < nsrc else b.block < ndst
  }

  predicate Within(i: Instr<Block>, nsrc: nat, ndst: nat) {
    match i
    case Send(from) => Inside(from, nsrc, ndst)
    case Recv(to) => Inside(to, nsrc, ndst)
    case Relay => true
    case ReduceSend(local) => Inside(local, nsrc, ndst)
    case ReduceStore(local, to) => Inside(local, nsrc, ndst) && Inside(to, nsrc, ndst)
    case Copy(from, to) => Inside(from, nsrc, ndst) && Inside(to, nsrc, ndst)
  }

  /** One call of a collective on every rank, as a whole-message network: rank `r` has `ndst[r]` destination blocks. */
  ghost predicate Job<V>(l: Ring<Block, V>, progs: seq<seq<Instr<Block>>>, y: (nat, nat) -> V, n: nat, nsrc: nat, ndst: seq<nat>) {
    && 2 <= n == |progs| == |ndst|
    && WellFormed(l)
    && l.progs == progs
    && forall r :: 0 <= r < n ==> Loaded(l.init[r], y, r, nsrc, ndst[r])
  }

  /** The same call with every message cut into `S` segments; `x(s, r, c)` is segment `s` of block `c` at rank `r`. */
  ghost predicate SegmentedJob<V>(g: Ring<(Block, nat), V>, progs: seq<seq<Instr<Block>>>, S: nat, x: (nat, nat, nat) -> V,
                                  n: nat, nsrc: nat, ndst: seq<nat>) {
    && 2 <= n == |g.init| == |ndst|
    && |progs| == n
    && Segmented(g, progs, S)
    && (forall r :: 0 <= r < n ==> LoadedSegments(g.init[r], x, S, r, nsrc, ndst[r]))
    && (forall r, i :: 0 <= r < n && 0 <= i < |progs[r]| ==> Within(progs[r][i], nsrc, ndst[r]))
  }

  lemma {:induction false} JobIsWellFormed<V>(g: Ring<(Block, nat), V>, progs: seq<seq<Instr<Block>>>, S: nat, x: (nat, nat, nat) -> V,
                                              n: nat, nsrc: nat, ndst: seq<nat>)
    requires SegmentedJob(g, progs, S, x, n, nsrc, ndst)
    ensures WellFormed(g)
  {
    forall r, p | 0 <= r < n && 0 <= p < |g.progs[r]| ensures Fits(g.progs[r][p], g.init[r]) {
      assert Expands(g.progs[r], progs[r], S);
      var i, s := Locate(p, |progs[r]|, S);
      assert g.progs[r][p] == OnSegment(progs[r][i], s);
      assert Within(progs[r][i], nsrc, ndst[r]);
      assert LoadedSegments(g.init[r], x, S, r, nsrc, ndst[r]);
    }
  }

  lemma {:induction false} LaneJob<V>(g: Ring<(Block, nat), V>, progs: seq<seq<Instr<Block>>>, S: nat, x: (nat, nat, nat) -> V,
                                      n: nat, nsrc: nat, ndst: seq<nat>, s: nat)
    requires SegmentedJob(g, progs, S, x, n, nsrc, ndst) && s < S
    ensures WellFormed(g) && Job(Lane(g, progs, s), progs, LaneOut(x, s), n, nsrc, ndst)
  {
    JobIsWellFormed(g, progs, S, x, n, nsrc, ndst);
    LaneWellFormed(g, progs, S, s);
    var l := Lane(g, progs, s);
    forall r | 0 <= r < n ensures Loaded(l.init[r], LaneOut(x, s), r, nsrc, ndst[r]) {
      assert LoadedSegments(g.init[r], x, S, r, nsrc, ndst[r]);
      forall c | 0 <= c < nsrc ensures Src(c) in l.init[r] && l.init[r][Src(c)] == x(s, r, c) {
        assert (Src(c), s) in g.init[r];
      }
      forall c | 0 <= c < ndst[r] ensures Dst(c) in l.init[r] {
        assert (Dst(c), s) in g.init[r];
      }
    }
  }

  lemma {:induction false} SourceKept<V>(l: Ring<Block, V>, progs: seq<seq<Instr<Block>>>, y: (nat, nat) -> V,
                                         n: nat, nsrc: nat, ndst: seq<nat>, out: (nat, nat) -> V, r: nat, i: nat, c: nat)
    requires Job(l, progs, y, n, nsrc, ndst) && r < n && i <= |progs[r]| && c < nsrc
    requires forall j :: 0 <= j < i ==> !Writes(progs[r][j], Src(c))
    ensures Src(c) in MemAt(l, out, r, i) && MemAt(l, out, r, i)[Src(c)] == y(r, c)
  {
    assert Loaded(l.init[r], y, r, nsrc, ndst[r]);
    Kept(l, out, r, Src(c), 0, i);
  }
}
