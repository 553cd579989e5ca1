/** The other side of the round-robin collectives: what a rank other than the root ends up with. */
module RoundRobinReceive {
  import opened Segments
  import opened Moves
  import opened SpareBuffers
  import opened TransferEngine
  import opened OffchipCalls
  import opened RoundRobin
  import opened Unfolding
  import opened Lanes

  /** `SentTo`, seen by those proofs only that ask for it. */
  ghost predicate Promised(log: seq<Outgoing>, outbound: seq<nat>, root: nat, data: seq<Byte>, T: nat, counters: seq<nat>, d: nat) {
    T > 0 && forall u: nat {:trigger Unfold(u)} :: u == 1 && Unfold(u) ==> SentTo(log, outbound, root, data, T, counters, d)
  }

  function PayloadsOf(p: seq<Outgoing>): seq<seq<Byte>> {
    seq(|p|, k requires 0 <= k < |p| => p[k].payload)
  }

  lemma {:induction false} MessageSlices(d: nat, root: nat, data: seq<Byte>, T: nat, counter: nat, n: nat)
    requires T > 0 && |Slices(data, T)| == n == |Cut(|data|, T)|
    ensures PayloadsOf(Message(d, root, data, T, counter, n)) == Slices(data, T)
  {
  }

  /** If the packets sent to a rank reach it, a receive of the whole message takes in the buffer that was sent. */
  lemma {:induction false} ShareArrives(wire: (nat, nat) -> Packet, root: nat, first: nat, data: seq<Byte>, T: nat,
                                        log: seq<Outgoing>, outbound: seq<nat>, counters: seq<nat>, d: nat)
    requires T > 0 && d != root && SentTo(log, outbound, root, data, T, counters, d) && Brings(wire, root, first, PayloadsOf(To(log, d)))
    ensures Flatten(Payloads(wire, root, first, |Cut(|data|, T)|)) == data
  {
    var n := |Cut(|data|, T)|;
    MessageSlices(d, root, data, T, counters[d], n);
    BroughtBlock(wire, root, first, PayloadsOf(To(log, d)), 0, n);
    assert Slices(data, T)[0..0 + n] == Slices(data, T);
    SlicesRoundTrip(data, T);
  }

  /** What a receive of a whole message amounts to, if the packets that reach rank `d` are those the root sent it. */
  lemma {:induction false} ShareTaken(b: Engine, root: nat, log: seq<Outgoing>, outbound: seq<nat>, data: seq<Byte>, counters: seq<nat>)
    requires b.me != root && Promised(log, outbound, root, data, b.T, counters, b.me) && b.me < |outbound| == |counters|
    requires root < |b.pool.taken| && counters[b.me] == b.pool.taken[root] % WORD
    requires Brings(b.pool.wire, root, b.pool.taken[root], PayloadsOf(To(log, b.me)))
    ensures Carried(b, root, |data|, b.pool.taken) == data
    ensures outbound[b.me] == (b.pool.taken[root] + |Cut(|data|, b.T)|) % WORD
  {
    assert Unfold(1);
    var first := b.pool.taken[root];
    ShareArrives(b.pool.wire, root, first, data, b.T, log, outbound, counters, b.me);
    NextMany(first, |Cut(|data|, b.T)|);
  }

  /** The receiving half of both collectives; `known` says that the packets to come carry `data`. */
  method ReceiveShare(b: Engine, root: nat, len: nat, dst: nat, attempts: nat, ghost known: bool, ghost data: seq<Byte>) returns (code: Code)
    requires b.Ready() && root < |b.pool.taken| && dst + len <= |b.store.mem| && |data| == len
    requires known ==> Carried(b, root, len, b.pool.taken) == data
    modifies b, b.pool
    ensures code == Success || code == ReceiveTimeout
    ensures code == Success ==> b.Ready() && b.pool.taken == old(b.pool.taken)[root := old(b.pool.taken)[root] + |Cut(len, b.T)|]
    ensures code == Success && known ==> b.store.mem == Overwrite(old(b.store.mem), dst, data)
    ensures attempts > 0 && old(AllHere(b, root, Cut(len, b.T), TAG_ANY)) ==> code == Success
  {
    assert Cut(len, b.T) + [] == Cut(len, b.T);
    code := ReceiveOffchip(b, root, len, dst, TAG_ANY, attempts);
  }

  /** The receiving half, seen with the root; `known` says that the packets to come carry `data`. */
  method ReceiveFrom(a: Engine, b: Engine, len: nat, dst: nat, attempts: nat, ghost known: bool, ghost data: seq<Byte>) returns (code: Code)
    requires a != b && a.pool != b.pool && a.T == b.T && a.Ready() && b.Ready()
    requires b.me < |a.outbound| && a.me < |b.pool.taken| && |data| == len && dst + len <= |b.store.mem|
    requires known ==> Carried(b, a.me, len, b.pool.taken) == data
    requires known ==> a.outbound[b.me] == (b.pool.taken[a.me] + |Cut(len, b.T)|) % WORD
    modifies b, b.pool
    ensures code == Success || code == ReceiveTimeout
    ensures code == Success && known ==>
      && a.Ready() && b.Ready() && InStep(a, b) && b.store.mem == Overwrite(old(b.store.mem), dst, data)
    ensures attempts > 0 && old(AllHere(b, a.me, Cut(len, b.T), TAG_ANY)) ==> code == Success
  {
    code := ReceiveShare(b, a.me, len, dst, attempts, known, data);
  }

  /** The root `a` broadcasts and rank `b` receives: `b` ends with the whole buffer, and the two stay in step. */
  method BroadcastTo(a: Engine, b: Engine, len: nat, src: nat, dst: nat, attempts: nat) returns (code: Code)
    requires a != b && a.pool != b.pool && a.T == b.T && a.Ready() && b.Ready() && InStep(a, b)
    requires a.me < |a.outbound| && b.me != a.me && src + len <= |a.store.mem| && dst + len <= |b.store.mem|
    modifies a, b, b.pool
    ensures code == Success || code == ReceiveTimeout
    ensures |old(a.heads)| <= |a.heads| == |a.store.out|
    ensures code == Success && Brings(b.pool.wire, a.me, old(b.pool.taken[a.me]), PayloadsOf(To(Log(a, |old(a.heads)|), b.me))) ==>
      && a.Ready() && b.Ready() && InStep(a, b)
      && b.store.mem == Overwrite(old(b.store.mem), dst, old(a.store.mem)[src..src + len])
    ensures attempts > 0 && old(AllHere(b, a.me, Cut(len, b.T), TAG_ANY)) ==> code == Success
  {
    ghost var data, counters, before := a.store.mem[src..src + len], a.outbound, |a.heads|;
    code := BroadcastShare(a, b.me, len, src);
    ghost var log := Log(a, before);
    ghost var known := Brings(b.pool.wire, a.me, b.pool.taken[a.me], PayloadsOf(To(log, b.me)));
    if known {
      ShareTaken(b, a.me, log, a.outbound, data, counters);
    }
    code := ReceiveFrom(a, b, len, dst, attempts, known, data);
  }

  /** The broadcast as rank `d` sees it. */
  method BroadcastShare(a: Engine, d: nat, len: nat, src: nat) returns (code: Code)
    requires a.Ready() && a.me < |a.outbound| && d < |a.outbound| && src + len <= |a.store.mem|
    modifies a
    ensures code == Success && a.Ready() && |old(a.heads)| <= |a.heads|
    ensures Promised(Log(a, |old(a.heads)|), a.outbound, a.me, old(a.store.mem)[src..src + len], a.T, old(a.outbound), d)
    ensures |a.outbound| == |old(a.outbound)|
  {
    ghost var mem, counters := a.store.mem, a.outbound;
    code := Broadcast(a, len, src);
    assert SentTo(Log(a, |old(a.heads)|), a.outbound, a.me, mem[src..src + len], a.T, counters, d);
  }

  /** The scatter as rank `d` sees it. */
  method ScatterShare(a: Engine, d: nat, len: nat, src: nat, keep: nat) returns (code: Code)
    requires a.Ready() && a.me < |a.outbound| && d < |a.outbound| && keep + len <= |a.store.mem|
    requires src + Times(|a.outbound|, len) <= |a.store.mem| && Clear(src + Times(a.me, len), keep, len)
    modifies a, a.pool
    ensures code == Success && a.Ready() && |old(a.heads)| <= |a.heads| && src + Times(d, len) + len <= |old(a.store.mem)|
    ensures Promised(Log(a, |old(a.heads)|), a.outbound, a.me, Share(old(a.store.mem), src, len, d, len), a.T, old(a.outbound), d)
    ensures |a.outbound| == |old(a.outbound)|
  {
    ghost var mem, counters := a.store.mem, a.outbound;
    code := Scatter(a, len, src, keep);
    assert SentTo(Log(a, |old(a.heads)|), a.outbound, a.me, Share(mem, src, len, d, len), a.T, counters, d);
  }

  /** The root `a` scatters and rank `b` receives: `b` ends with its own share. */
  method ScatterTo(a: Engine, b: Engine, len: nat, src: nat, keep: nat, dst: nat, attempts: nat) returns (code: Code)
    requires a != b && a.pool != b.pool && a.T == b.T && a.Ready() && b.Ready() && InStep(a, b)
    requires a.me < |a.outbound| && b.me != a.me && dst + len <= |b.store.mem| && keep + len <= |a.store.mem|
    requires src + Times(|a.outbound|, len) <= |a.store.mem| && Clear(src + Times(a.me, len), keep, len)
    modifies a, a.pool, b, b.pool
    ensures code == Success || code == ReceiveTimeout
    ensures |old(a.heads)| <= |a.heads| == |a.store.out| && src + Times(b.me, len) + len <= |old(a.store.mem)|
    ensures code == Success && Brings(b.pool.wire, a.me, old(b.pool.taken[a.me]), PayloadsOf(To(Log(a, |old(a.heads)|), b.me))) ==>
      && a.Ready() && b.Ready() && InStep(a, b)
      && b.store.mem == Overwrite(old(b.store.mem), dst, Share(old(a.store.mem), src, len, b.me, len))
    ensures attempts > 0 && old(AllHere(b, a.me, Cut(len, b.T), TAG_ANY)) ==> code == Success
  {
    ghost var mem, counters, before := a.store.mem, a.outbound, |a.heads|;
    code := ScatterShare(a, b.me, len, src, keep);
    ghost var log, data := Log(a, before), Share(mem, src, len, b.me, len);
    ghost var known := Brings(b.pool.wire, a.me, b.pool.taken[a.me], PayloadsOf(To(log, b.me)));
    if known {
      ShareTaken(b, a.me, log, a.outbound, data, counters);
    }
    code := ReceiveFrom(a, b, len, dst, attempts, known, data);
  }
}
