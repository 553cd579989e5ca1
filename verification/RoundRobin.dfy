/**
 The round-robin broadcast and scatter: the root sends one segment to every other rank before it moves on to the next
 segment. The packetizer's answers come back in the order of the headers, and are read in ascending order of ranks.
 */
module RoundRobin {
  import opened Wrappers
  import opened Segments
  import opened Elementwise
  import opened Moves
  import opened SpareBuffers
  import opened TransferEngine
  import opened OffchipCalls
  import opened Lanes

  /** A packet as it leaves: its header and its payload. */
  datatype Outgoing = Outgoing(head: Head, payload: seq<Byte>)

  function Zip(heads: seq<Head>, out: seq<seq<Byte>>): (p: seq<Outgoing>)
    requires |heads| == |out|
    ensures |p| == |heads|
  {
    seq(|heads|, k requires 0 <= k < |heads| => Outgoing(heads[k], out[k]))
  }

  /** The packets for rank `d`, in order. */
  function To(p: seq<Outgoing>, d: nat): seq<Outgoing> {
    if p == [] then [] else
      var n := |p| - 1;
      To(p[..n], d) + if p[n].head.dst == d then [p[n]] else []
  }

  lemma {:induction false} ToSnoc(p: seq<Outgoing>, x: Outgoing, d: nat)
    ensures To(p + [x], d) == To(p, d) + if x.head.dst == d then [x] else []
  {
    assert (p + [x])[..|p|] == p;
  }

  /** The first `n` packets of a message of `data` to rank `d`. */
  function Message(d: nat, me: nat, data: seq<Byte>, T: nat, seqNum: nat, n: nat): (p: seq<Outgoing>)
    requires T > 0 && n <= |Slices(data, T)|
    ensures |p| == n
  {
    seq(n, k requires 0 <= k < n =>
      Outgoing(Head(d, |Slices(data, T)[k]|, TAG_ANY, me, (seqNum + 1 + k) % WORD), Slices(data, T)[k]))
  }

  /** The buffer rank `d` is to receive: the ranks' buffers lie `stride` bytes apart from `src` on. */
  function Share(mem: seq<Byte>, src: nat, stride: nat, d: nat, len: nat): (b: seq<Byte>)
    requires src + Times(d, stride) + len <= |mem|
    ensures |b| == len
  {
    mem[src + Times(d, stride)..src + Times(d, stride) + len]
  }

  lemma {:induction false} ShareFits(src: nat, stride: nat, d: nat, ranks: nat, len: nat, size: nat)
    requires d < ranks && src + Times(ranks - 1, stride) + len <= size
    ensures src + Times(d, stride) + len <= size
  {
    if d < ranks - 1 {
      TimesGrows(d, ranks - 1, stride);
    }
  }

  /** Segment `k` of a buffer starts where the first `k` segments end. */
  lemma {:induction false} SliceStep(data: seq<Byte>, T: nat, k: nat, off: nat)
    requires T > 0 && off < |data| && k <= |Slices(data, T)| && Slices(data, T)[k..] == Slices(data[off..], T)
    ensures var n := Min(|data| - off, T);
      && k < |Slices(data, T)| && Slices(data, T)[k] == data[off..off + n]
      && Slices(data, T)[k + 1..] == Slices(data[off + n..], T)
  {
    var n := Min(|data| - off, T);
    assert Slices(data, T)[k] == Slices(data, T)[k..][0];
    assert Slices(data, T)[k + 1..] == Slices(data, T)[k..][1..];
    assert data[off..][n..] == data[off + n..] && data[off..][..n] == data[off..off + n];
  }

  lemma {:induction false} MessageExtend(d: nat, me: nat, data: seq<Byte>, T: nat, seqNum: nat, k: nat)
    requires T > 0 && k < |Slices(data, T)|
    ensures Message(d, me, data, T, seqNum, k + 1)
         == Message(d, me, data, T, seqNum, k)
          + [Outgoing(Head(d, |Slices(data, T)[k]|, TAG_ANY, me, (seqNum + 1 + k) % WORD), Slices(data, T)[k])]
  {
  }

  /** Nothing is in flight; answers may be outstanding. */
  ghost predicate Still(e: Engine)
    reads e
  {
    && e.T > 0 && 0 < e.W && e.queues == [[], [], [], []] && e.flying == [] && e.landed == 0
    && e.acks <= |e.heads| == |e.store.out|
  }

  /** `dma_movement_single`: one transfer to the network, started and acknowledged. */
  method MovementSingle(e: Engine, len: nat, at: nat) returns (code: Code)
    requires e.T > 0 && e.queues == [[], [], [], []] && e.flying == [] && e.landed == 0 && at + len <= |e.store.mem|
    modifies e`queues, e`flying, e`dmaTag, e`store, e`landed, e`start, e`past, e`promised
    ensures code == Success && e.queues == [[], [], [], []] && e.flying == [] && e.landed == 0
    ensures e.store == old(e.store).(out := old(e.store.out) + [old(e.store.mem)[at..at + len]])
  {
    var path, m := Path(false, false), Move(len, 0, Memory(at), 0);
    e.start, e.past, e.promised := e.store, [], [];
    var tag := e.Start(m, path, e.dmaTag);
    e.promised := [m];
    assert e.past + e.promised[..0] == [];
    OneMove(e.start, e.arith, path, m);
    code := e.Settle(Job(path, len, 0, at, 0, None, None, TAG_ANY), Window(0, 0, 0, 0, 0, tag, Ring([], 0, 0)), len);
    assert [] + [m] == [m] && e.past + e.promised[..e.landed] == [m];
  }

  lemma {:induction false} OneMove(s: Store, a: Arith, path: Path, m: Move)
    requires Fits(m, path, |s.mem|)
    ensures AllFit([m], path, |s.mem|) && Run(s, a, path, [m]) == Effect(s, a, path, m)
  {
    RunSnoc(s, a, path, [], m);
    assert [] + [m] == [m];
  }

  /** One segment to one rank: its header, then `dma_movement_single`. */
  method SendSegment(e: Engine, d: nat, len: nat, at: nat) returns (code: Code)
    requires Still(e) && d < |e.outbound| && 0 < len <= e.T && at + len <= |e.store.mem|
    modifies e`heads, e`queues, e`flying, e`dmaTag, e`store, e`landed, e`start, e`past, e`promised
    ensures code == Success && Still(e)
    ensures e.heads == old(e.heads) + [Head(d, len, TAG_ANY, e.me, (e.outbound[d] + 1) % WORD)]
    ensures e.store == old(e.store).(out := old(e.store.out) + [old(e.store.mem)[at..at + len]])
  {
    assert Cut(len, e.T) == [len];
    e.StartMessage(d, len, TAG_ANY, 0);
    code := MovementSingle(e, len, at);
  }

  /** The headers of one round for the ranks below `i`. */
  function RoundHeads(i: nat, me: nat, len: nat, outbound: seq<nat>): seq<Head>
    requires i <= |outbound|
  {
    if i == 0 then [] else
      RoundHeads(i - 1, me, len, outbound)
      + if i - 1 == me then [] else [Head(i - 1, len, TAG_ANY, me, (outbound[i - 1] + 1) % WORD)]
  }

  /** The header of rank `i` comes right after those of the ranks below it. */
  lemma {:induction false} RoundOrder(i: nat, j: nat, me: nat, len: nat, outbound: seq<nat>)
    requires i < j <= |outbound| && i != me
    ensures var n := |RoundHeads(i, me, len, outbound)|;
      n < |RoundHeads(j, me, len, outbound)| && RoundHeads(j, me, len, outbound)[n].seqNum == (outbound[i] + 1) % WORD
  {
    if i + 1 < j {
      RoundOrder(i, j - 1, me, len, outbound);
    }
  }

  /** How many packets have gone to rank `d` when round `k` has reached rank `i`. */
  function Count(d: nat, me: nat, k: nat, i: nat): nat {
    if d == me then 0 else if d < i then k + 1 else k
  }

  /** A round-robin call at the root: its rank, its memory, the shares of all ranks, and the packet counters before it. */
  datatype Deal = Deal(me: nat, mem: seq<Byte>, src: nat, stride: nat, len: nat, T: nat, counters: seq<nat>)

  ghost predicate Proper(a: Deal) {
    a.T > 0 && a.me < |a.counters| && a.src + Times(|a.counters| - 1, a.stride) + a.len <= |a.mem|
  }

  /** The buffer rank `d` is to receive. */
  ghost function ShareOf(a: Deal, d: nat): (b: seq<Byte>)
    requires Proper(a) && d < |a.counters|
    ensures |b| == a.len
  {
    ShareFits(a.src, a.stride, d, |a.counters|, a.len, |a.mem|);
    Share(a.mem, a.src, a.stride, d, a.len)
  }

  ghost predicate DealtTo(p: seq<Outgoing>, a: Deal, k: nat, i: nat, d: nat)
    requires Proper(a) && d < |a.counters|
  {
    && Count(d, a.me, k, i) <= |Slices(ShareOf(a, d), a.T)|
    && To(p, d) == Message(d, a.me, ShareOf(a, d), a.T, a.counters[d], Count(d, a.me, k, i))
  }

  /** Every rank has been sent the first packets of its own message, and nothing else. */
  ghost predicate Dealt(p: seq<Outgoing>, a: Deal, k: nat, i: nat)
    requires Proper(a)
  {
    forall d: nat :: d < |a.counters| ==> DealtTo(p, a, k, i, d)
  }

  /** The packets the network got from a call that started when `before` had gone out. */
  ghost function Log(e: Engine, before: nat): seq<Outgoing>
    requires before <= |e.heads| == |e.store.out|
    reads e
  {
    Zip(e.heads[before..], e.store.out[before..])
  }

  lemma {:induction false} LogExtend(heads: seq<Head>, out: seq<seq<Byte>>, before: nat, h: Head, x: seq<Byte>)
    requires before <= |heads| == |out|
    ensures Zip((heads + [h])[before..], (out + [x])[before..]) == Zip(heads[before..], out[before..]) + [Outgoing(h, x)]
  {
  }

  /** One more packet dealt: segment `k` of its share goes to rank `i`. */
  lemma {:induction false} DealOne(p: seq<Outgoing>, a: Deal, k: nat, i: nat, x: Outgoing, q: seq<Outgoing>, next: nat)
    requires Proper(a) && i < |a.counters| && i != a.me && Dealt(p, a, k, i) && q == p + [x] && next == i + 1
    requires var data := ShareOf(a, i);
      && k < |Slices(data, a.T)|
      && x == Outgoing(Head(i, |Slices(data, a.T)[k]|, TAG_ANY, a.me, (a.counters[i] + 1 + k) % WORD), Slices(data, a.T)[k])
    ensures Dealt(q, a, k, next)
  {
    forall d: nat | d < |a.counters| ensures DealtTo(q, a, k, next, d) {
      assert DealtTo(p, a, k, i, d);
      ToSnoc(p, x, d);
      if d == i {
        MessageExtend(d, a.me, ShareOf(a, d), a.T, a.counters[d], k);
      }
    }
  }

  /** The root deals itself nothing, and the end of a round is the start of the next. */
  lemma {:induction false} DealNone(p: seq<Outgoing>, a: Deal, k: nat, i: nat, k1: nat, i1: nat)
    requires Proper(a) && Dealt(p, a, k, i)
    requires (i == a.me && i1 == i + 1 && k1 == k) || (i == |a.counters| && i1 == 0 && k1 == k + 1)
    ensures Dealt(p, a, k1, i1)
  {
    forall d: nat | d < |a.counters| ensures DealtTo(p, a, k1, i1, d) {
      assert DealtTo(p, a, k, i, d);
    }
  }

  /** Every counter of a rank other than the root has moved on by the packets acknowledged for it. */
  ghost predicate Advanced(outbound: seq<nat>, a: Deal, k: nat, i: nat) {
    && |outbound| == |a.counters|
    && forall d: nat :: d < |a.counters| ==> outbound[d] == (a.counters[d] + Count(d, a.me, k, i)) % WORD
  }

  /** The first `k` segments of rank `d`'s share end at `off`. */
  ghost predicate Stage(a: Deal, k: nat, off: nat, d: nat)
    requires Proper(a) && d < |a.counters|
  {
    off <= a.len && k <= |Slices(ShareOf(a, d), a.T)| && Slices(ShareOf(a, d), a.T)[k..] == Slices(ShareOf(a, d)[off..], a.T)
  }

  lemma {:induction false} SliceOfSlice<A>(s: seq<A>, from: nat, len: nat, off: nat, n: nat)
    requires from + len <= |s| && off + n <= len
    ensures s[from..from + len][off..off + n] == s[from + off..from + off + n]
  {
    var a, b := s[from..from + len][off..off + n], s[from + off..from + off + n];
    forall j | 0 <= j < n ensures a[j] == b[j] {
      assert a[j] == s[from..from + len][off + j] == s[from + (off + j)];
    }
  }

  /** Where rank `i`'s segment of the round lies, and what it holds. */
  lemma {:induction false} SegmentAt(a: Deal, i: nat, k: nat, off: nat, len: nat, at: nat)
    requires Proper(a) && i < |a.counters| && Stage(a, k, off, i) && off < a.len && len == Min(a.len - off, a.T)
    requires at == a.src + Times(i, a.stride) + off
    ensures 0 < len <= a.T && at + len <= |a.mem|
    ensures k < |Slices(ShareOf(a, i), a.T)| && Slices(ShareOf(a, i), a.T)[k] == a.mem[at..at + len]
  {
    ShareFits(a.src, a.stride, i, |a.counters|, a.len, |a.mem|);
    SliceStep(ShareOf(a, i), a.T, k, off);
    SliceOfSlice(a.mem, a.src + Times(i, a.stride), a.len, off, len);
  }

  /** Sending it deals one more packet. */
  lemma {:induction false} DealNext(p: seq<Outgoing>, a: Deal, i: nat, k: nat, out: nat, x: seq<Byte>, q: seq<Outgoing>)
    requires Proper(a) && i < |a.counters| && i != a.me && Dealt(p, a, k, i)
    requires k < |Slices(ShareOf(a, i), a.T)| && x == Slices(ShareOf(a, i), a.T)[k] && out == (a.counters[i] + k) % WORD
    requires q == p + [Outgoing(Head(i, |x|, TAG_ANY, a.me, (out + 1) % WORD), x)]
    ensures Dealt(q, a, k, i + 1)
  {
    NextMany(a.counters[i] + k, 1);
    assert a.counters[i] + k + 1 == a.counters[i] + 1 + k;
    DealOne(p, a, k, i, q[|p|], q, i + 1);
  }

  /** Sends rank `i` its segment of the round. */
  method SendNext(e: Engine, ghost a: Deal, i: nat, len: nat, at: nat, ghost off: nat, ghost k: nat, ghost before: nat) returns (code: Code)
    requires Still(e) && Proper(a) && e.me == a.me && e.T == a.T && |e.outbound| == |a.counters| && e.store.mem == a.mem
    requires i < |a.counters| && i != a.me && off < a.len && len == Min(a.len - off, a.T) && at == a.src + Times(i, a.stride) + off
    requires Stage(a, k, off, i) && before <= |e.heads| && Dealt(Log(e, before), a, k, i)
    requires e.outbound[i] == (a.counters[i] + k) % WORD
    modifies e`heads, e`queues, e`flying, e`dmaTag, e`store, e`landed, e`start, e`past, e`promised
    ensures code == Success && Still(e) && e.store.mem == a.mem
    ensures e.heads == old(e.heads) + [Head(i, len, TAG_ANY, e.me, (e.outbound[i] + 1) % WORD)]
    ensures Dealt(Log(e, before), a, k, i + 1)
  {
    ghost var p, heads, out := Log(e, before), e.heads, e.store.out;
    SegmentAt(a, i, k, off, len, at);
    ghost var x := a.mem[at..at + len];
    code := SendSegment(e, i, len, at);
    LogExtend(heads, out, before, Head(i, len, TAG_ANY, e.me, (e.outbound[i] + 1) % WORD), x);
    DealNext(p, a, i, k, e.outbound[i], x, Log(e, before));
  }

  /** The first part of a round sends the segment at `off` to every other rank. */
  method SendRound(e: Engine, ghost a: Deal, src: nat, stride: nat, len: nat, ghost off: nat, ghost k: nat, ghost before: nat)
    returns (code: Code)
    requires Still(e) && Proper(a) && e.me == a.me && e.T == a.T && |e.outbound| == |a.counters| && e.store.mem == a.mem
    requires src == a.src + off && stride == a.stride && off < a.len && len == Min(a.len - off, e.T)
    requires forall d: nat :: d < |a.counters| ==> Stage(a, k, off, d)
    requires before <= |e.heads| && Dealt(Log(e, before), a, k, 0) && Advanced(e.outbound, a, k, 0)
    modifies e`heads, e`queues, e`flying, e`dmaTag, e`store, e`landed, e`start, e`past, e`promised
    ensures code == Success && Still(e) && e.store.mem == a.mem
    ensures e.heads == old(e.heads) + RoundHeads(|a.counters|, e.me, len, e.outbound)
    ensures Dealt(Log(e, before), a, k, |a.counters|)
  {
    code := Success;
    var i, at := 0, src;
    assert e.heads == old(e.heads) + RoundHeads(0, e.me, len, e.outbound);
    while i < |e.outbound|
      invariant i <= |e.outbound| && at == src + Times(i, stride) && code == Success
      invariant Still(e) && e.store.mem == a.mem && before <= |e.heads|
      invariant e.heads == old(e.heads) + RoundHeads(i, e.me, len, e.outbound)
      invariant Dealt(Log(e, before), a, k, i)
    {
      if i != e.me {
        code := SendNext(e, a, i, len, at, off, k, before);
      } else {
        DealNone(Log(e, before), a, k, i, k, i + 1);
      }
      i, at := i + 1, at + stride;
    }
  }

  lemma {:induction false} HeaderDue(all: seq<Head>, heads: seq<Head>, i: nat, me: nat, len: nat, outbound: seq<nat>)
    requires i < |outbound| && i != me && all == heads + RoundHeads(|outbound|, me, len, outbound)
    ensures var at := |heads| + |RoundHeads(i, me, len, outbound)|;
      && at < |all| && all[at].seqNum == (outbound[i] + 1) % WORD
      && |RoundHeads(i + 1, me, len, outbound)| == |RoundHeads(i, me, len, outbound)| + 1
  {
    RoundOrder(i, |outbound|, me, len, outbound);
  }

  /** Rank `i` acknowledged, or passed over if it is the root. */
  lemma {:induction false} AdvanceOne(before: seq<nat>, after: seq<nat>, a: Deal, k: nat, i: nat)
    requires i < |a.counters| && Advanced(before, a, k, i)
    requires after == if i == a.me then before else before[i := (before[i] + 1) % WORD]
    ensures Advanced(after, a, k, i + 1)
  {
    NextMany(a.counters[i] + k, 1);
    assert a.counters[i] + k + 1 == a.counters[i] + (k + 1);
  }

  lemma {:induction false} AdvanceRound(outbound: seq<nat>, a: Deal, k: nat)
    requires Advanced(outbound, a, k, |a.counters|)
    ensures Advanced(outbound, a, k + 1, 0)
  {
  }

  /** The second part reads the answers in ascending order of ranks, and each is the one expected. */
  method AckRound(e: Engine, ghost a: Deal, ghost len: nat, ghost k: nat, ghost heads: seq<Head>) returns (code: Code)
    requires Still(e) && e.me == a.me && Advanced(e.outbound, a, k, 0)
    requires e.acks == |heads| && e.heads == heads + RoundHeads(|a.counters|, e.me, len, e.outbound)
    modifies e`outbound, e`acks
    ensures code == Success && Still(e) && e.acks == |e.heads| && Advanced(e.outbound, a, k + 1, 0)
  {
    ghost var outbound := e.outbound;
    code := Success;
    var i := 0;
    while i < |e.outbound| && code == Success
      invariant i <= |e.outbound| == |a.counters| && code == Success
      invariant e.acks == |heads| + |RoundHeads(i, e.me, len, outbound)|
      invariant forall d :: i <= d < |outbound| ==> e.outbound[d] == outbound[d]
      invariant Advanced(e.outbound, a, k, i) && Still(e)
    {
      ghost var counters := e.outbound;
      if i != e.me {
        HeaderDue(e.heads, heads, i, e.me, len, outbound);
        code := e.AckPacketizer(i);
      }
      AdvanceOne(counters, e.outbound, a, k, i);
      i := i + 1;
    }
    AdvanceRound(e.outbound, a, k);
  }

  lemma {:induction false} StageNext(a: Deal, k: nat, off: nat, next: nat, end: nat)
    requires Proper(a) && off < a.len && next == k + 1 && end == off + Min(a.len - off, a.T)
    requires forall d: nat :: d < |a.counters| ==> Stage(a, k, off, d)
    ensures forall d: nat :: d < |a.counters| ==> Stage(a, next, end, d)
  {
    forall d: nat | d < |a.counters| ensures Stage(a, next, end, d) {
      assert Stage(a, k, off, d);
      SliceStep(ShareOf(a, d), a.T, k, off);
    }
  }

  /** Rank `d` has been sent `data` as one message, in order, and all of it was acknowledged; the root sends itself nothing. */
  ghost predicate SentTo(p: seq<Outgoing>, outbound: seq<nat>, me: nat, data: seq<Byte>, T: nat, counters: seq<nat>, d: nat)
    requires T > 0
  {
    var n := |Cut(|data|, T)|;
    && d < |outbound| == |counters|
    && |Slices(data, T)| == n
    && To(p, d) == (if d == me then [] else Message(d, me, data, T, counters[d], n))
    && outbound[d] == (counters[d] + if d == me then 0 else n) % WORD
  }

  ghost predicate Delivered(e: Engine, a: Deal, before: nat)
    requires Proper(a) && before <= |e.heads| == |e.store.out|
    reads e
  {
    && |e.outbound| == |a.counters|
    && forall d: nat :: d < |a.counters| ==> SentTo(Log(e, before), e.outbound, a.me, ShareOf(a, d), a.T, a.counters, d)
  }

  lemma {:induction false} AllDelivered(e: Engine, a: Deal, before: nat, k: nat, off: nat)
    requires Proper(a) && before <= |e.heads| == |e.store.out| && Dealt(Log(e, before), a, k, 0) && Advanced(e.outbound, a, k, 0)
    requires off == a.len && forall d: nat :: d < |a.counters| ==> Stage(a, k, off, d)
    ensures Delivered(e, a, before)
  {
    forall d: nat | d < |a.counters| ensures SentTo(Log(e, before), e.outbound, a.me, ShareOf(a, d), a.T, a.counters, d) {
      assert DealtTo(Log(e, before), a, k, 0, d);
      assert Stage(a, k, off, d);
      assert ShareOf(a, d)[a.len..] == [];
      SlicesRoundTrip(ShareOf(a, d), a.T);
      assert |Lengths(Slices(ShareOf(a, d), a.T))| == |Cut(a.len, a.T)|;
    }
  }

  /** The loop of `broadcast_round_robin` (stride 0) and `scatter_rr` (stride `len`) at the root. */
  method SendRounds(e: Engine, len: nat, src: nat, stride: nat) returns (code: Code)
    requires e.Ready() && e.me < |e.outbound| && src + Times(|e.outbound| - 1, stride) + len <= |e.store.mem|
    modifies e
    ensures code == Success && e.Ready() && e.store.mem == old(e.store.mem)
    ensures |old(e.heads)| <= |e.heads|
      && Delivered(e, Deal(e.me, old(e.store.mem), src, stride, len, e.T, old(e.outbound)), |old(e.heads)|)
  {
    ghost var a, before, k, off := Deal(e.me, e.store.mem, src, stride, len, e.T, e.outbound), |e.heads|, 0, 0;
    code := Success;
    var left: nat, at, n := len, src, e.T;
    assert Dealt(Log(e, before), a, 0, 0) by {
      assert Log(e, before) == [];
      forall d: nat | d < |a.counters| ensures DealtTo([], a, 0, 0, d) {
      }
    }
    forall d: nat | d < |a.counters| ensures Stage(a, 0, 0, d) {
      assert ShareOf(a, d)[0..] == ShareOf(a, d);
    }
    while left > 0
      invariant code == Success && off + left == len && at == src + off
      invariant e.Ready() && e.store.mem == a.mem && before <= |e.heads|
      invariant left > 0 ==> n == e.T
      invariant Dealt(Log(e, before), a, k, 0) && Advanced(e.outbound, a, k, 0)
      invariant forall d: nat :: d < |a.counters| ==> Stage(a, k, off, d)
      decreases left
    {
      if left < e.T {
        n := left;
      }
      ghost var heads := e.heads;
      code := SendRound(e, a, at, stride, n, off, k, before);
      ghost var p := Log(e, before);
      code := AckRound(e, a, n, k, heads);
      DealNone(p, a, k, |a.counters|, k + 1, 0);
      StageNext(a, k, off, k + 1, off + n);
      k, off := k + 1, off + n;
      at, left := at + n, left - n;
    }
    AllDelivered(e, a, before, k, off);
  }

  /** Put end to end, the payloads of a message are its buffer. */
  lemma {:induction false} MessagePayloads(d: nat, me: nat, data: seq<Byte>, T: nat, seqNum: nat)
    requires T > 0
    ensures var p := Message(d, me, data, T, seqNum, |Slices(data, T)|);
      Flatten(seq(|p|, k requires 0 <= k < |p| => p[k].payload)) == data
  {
    var p := Message(d, me, data, T, seqNum, |Slices(data, T)|);
    assert seq(|p|, k requires 0 <= k < |p| => p[k].payload) == Slices(data, T);
    SlicesRoundTrip(data, T);
  }

  /** Every rank has been sent its part, `stride` bytes apart in the root's memory. */
  ghost predicate AllSent(p: seq<Outgoing>, outbound: seq<nat>, me: nat, mem: seq<Byte>, src: nat, stride: nat, len: nat, T: nat, counters: seq<nat>)
    requires T > 0
  {
    forall d: nat :: d < |counters| ==>
      src + Times(d, stride) + len <= |mem| && SentTo(p, outbound, me, Share(mem, src, stride, d, len), T, counters, d)
  }

  lemma {:induction false} AllAreSent(e: Engine, a: Deal, before: nat)
    requires Proper(a) && before <= |e.heads| == |e.store.out| && Delivered(e, a, before)
    ensures AllSent(Log(e, before), e.outbound, a.me, a.mem, a.src, a.stride, a.len, a.T, a.counters)
  {
    forall d: nat | d < |a.counters|
      ensures a.src + Times(d, a.stride) + a.len <= |a.mem|
      ensures SentTo(Log(e, before), e.outbound, a.me, Share(a.mem, a.src, a.stride, d, a.len), a.T, a.counters, d)
    {
      ShareFits(a.src, a.stride, d, |a.counters|, a.len, |a.mem|);
      assert SentTo(Log(e, before), e.outbound, a.me, ShareOf(a, d), a.T, a.counters, d);
    }
  }

  /** What both collectives do at the root. */
  method SendShares(e: Engine, len: nat, src: nat, stride: nat) returns (code: Code)
    requires e.Ready() && e.me < |e.outbound| && src + Times(|e.outbound| - 1, stride) + len <= |e.store.mem|
    modifies e
    ensures code == Success && e.Ready() && e.store.mem == old(e.store.mem) && |old(e.heads)| <= |e.heads|
    ensures AllSent(Log(e, |old(e.heads)|), e.outbound, e.me, old(e.store.mem), src, stride, len, e.T, old(e.outbound))
  {
    ghost var a, before := Deal(e.me, e.store.mem, src, stride, len, e.T, e.outbound), |e.heads|;
    code := SendRounds(e, len, src, stride);
    AllAreSent(e, a, before);
  }

  /** `broadcast_round_robin` at the root: every other rank is sent the whole buffer. */
  method Broadcast(e: Engine, len: nat, src: nat) returns (code: Code)
    requires e.Ready() && e.me < |e.outbound| && src + len <= |e.store.mem|
    modifies e
    ensures code == Success && e.Ready() && e.store.mem == old(e.store.mem) && |old(e.heads)| <= |e.heads|
    ensures SentToAll(Log(e, |old(e.heads)|), e.outbound, e.me, old(e.store.mem)[src..src + len], e.T, old(e.outbound))
  {
    ghost var mem, counters, before := e.store.mem, e.outbound, |e.heads|;
    NoStride(|e.outbound| - 1);
    code := SendShares(e, len, src, 0);
    SharesAreWhole(Log(e, before), e.outbound, e.me, mem, src, len, e.T, counters);
  }

  /** Every rank has been sent the same buffer. */
  ghost predicate SentToAll(p: seq<Outgoing>, outbound: seq<nat>, me: nat, data: seq<Byte>, T: nat, counters: seq<nat>)
    requires T > 0
  {
    forall d: nat :: d < |counters| ==> SentTo(p, outbound, me, data, T, counters, d)
  }

  lemma {:induction false} SharesAreWhole(p: seq<Outgoing>, outbound: seq<nat>, me: nat, mem: seq<Byte>, src: nat, len: nat, T: nat, counters: seq<nat>)
    requires T > 0 && src + len <= |mem| && AllSent(p, outbound, me, mem, src, 0, len, T, counters)
    ensures SentToAll(p, outbound, me, mem[src..src + len], T, counters)
  {
    var data := mem[src..src + len];
    forall d: nat | d < |counters| ensures SentTo(p, outbound, me, data, T, counters, d) {
      NoStride(d);
      assert Share(mem, src, 0, d, len) == data;
    }
  }

  lemma {:induction false} NoStride(d: nat)
    ensures Times(d, 0) == 0
  {
    if d > 0 {
      NoStride(d - 1);
    }
  }

  /** `scatter_rr` at the root: rank `d` is sent bytes `[d * len, (d + 1) * len)`, and the root keeps its own share. */
  method Scatter(e: Engine, len: nat, src: nat, dst: nat) returns (code: Code)
    requires e.Ready() && e.me < |e.outbound| && src + Times(|e.outbound|, len) <= |e.store.mem| && dst + len <= |e.store.mem|
    requires Clear(src + Times(e.me, len), dst, len)
    modifies e, e.pool
    ensures code == Success && e.Ready() && |old(e.heads)| <= |e.heads|
    ensures AllSent(Log(e, |old(e.heads)|), e.outbound, e.me, old(e.store.mem), src, len, len, e.T, old(e.outbound))
    ensures src + Times(e.me, len) + len <= |old(e.store.mem)|
    ensures e.store.mem == Overwrite(old(e.store.mem), dst, Share(old(e.store.mem), src, len, e.me, len))
  {
    ghost var mem, before, counters := e.store.mem, |e.heads|, e.outbound;
    TimesGrows(e.me, |e.outbound|, len);
    code := SendShares(e, len, src, len);
    ghost var log, outbound := Log(e, before), e.outbound;
    code := KeepOwn(e, len, src, dst);
    assert Log(e, before) == log && e.outbound == outbound;
  }

  /** The root's copy of its own share. */
  method KeepOwn(e: Engine, len: nat, src: nat, dst: nat) returns (code: Code)
    requires e.Ready() && src + Times(e.me, len) + len <= |e.store.mem| && dst + len <= |e.store.mem| && Clear(src + Times(e.me, len), dst, len)
    modifies e, e.pool
    ensures code == Success && e.Ready() && e.heads == old(e.heads) && e.outbound == old(e.outbound) && e.store.out == old(e.store.out)
    ensures e.store.mem == Overwrite(old(e.store.mem), dst, Share(old(e.store.mem), src, len, e.me, len))
  {
    TimesIsProduct(e.me, len);
    code := DmaLoopback(e, len, src + e.me * len, dst);
  }
}
