/** The firmware's data-moving calls, each an instance of the windowed transfer, and what a send followed by a receive does. */
module OffchipCalls {
  import opened Wrappers
  import opened Segments
  import opened Elementwise
  import opened Moves
  import opened SpareBuffers
  import opened TransferEngine
  import opened Unfolding

  /** The payloads of `n` packets of rank `src`, from number `first` on. */
  function Payloads(wire: (nat, nat) -> Packet, src: nat, first: nat, n: nat): (c: seq<seq<Byte>>)
    ensures |c| == n
  {
    seq(n, k requires 0 <= k < n => wire(src, first + k).data)
  }

  /** The packets of rank `src` carry, from packet `first` on, what is in `out`. */
  ghost predicate Brings(wire: (nat, nat) -> Packet, src: nat, first: nat, out: seq<seq<Byte>>) {
    forall p: nat :: p < |out| ==> wire(src, first + p).data == out[p]
  }

  lemma {:induction false} BroughtBlock(wire: (nat, nat) -> Packet, q: nat, first: nat, out: seq<seq<Byte>>, a: nat, n: nat)
    requires Brings(wire, q, first, out) && a + n <= |out|
    ensures Payloads(wire, q, first + a, n) == out[a..a + n]
  {
    var here, there := Payloads(wire, q, first + a, n), out[a..a + n];
    forall k: nat | k < n ensures here[k] == there[k] {
      assert wire(q, first + (a + k)).data == out[a + k];
    }
  }

  /** What a receive takes in is the payloads put end to end, and these are cut as the receiver expects. */
  lemma {:induction false} OperandIsPayloads(mem: seq<Byte>, c: Call, T: nat, wire: (nat, nat) -> Packet, src: nat)
    requires T > 0 && c.feed.FromWire? && Sized(c, T, WireOf(wire, Some(src)))
    ensures var p := Payloads(wire, src, c.feed.first, |Cut(c.len, T)|);
      Operand(mem, c, T, WireOf(wire, Some(src))) == Flatten(p) && Lengths(p) == Cut(c.len, T)
    decreases c.len
  {
    var p := Payloads(wire, src, c.feed.first, |Cut(c.len, T)|);
    if c.len > 0 {
      OperandIsPayloads(mem, Rest(c, T), T, wire, src);
      var q := Payloads(wire, src, c.feed.first + 1, |Cut(c.len, T)| - 1);
      assert p[1..] == q;
      assert Lengths(p) == [|p[0]|] + Lengths(p[1..]);
    }
  }

  /** The result of a job that reads operand 1 from memory. */
  lemma {:induction false} AnswerFromMemory(mem: seq<Byte>, a: Arith, c: Call, T: nat, wire: nat -> seq<Byte>)
    requires Moves.Sound(|mem|, c, T, wire) && c.feed.FromMemory?
    ensures var b := mem[c.feed.at..c.feed.at + c.len];
      |b| == c.len && Answer(mem, a, c, T, wire) == Stream(mem, a, c.path, c.op0, b, T)
  {
    assert |mem[c.feed.at..c.feed.at + c.len]| == c.len;
  }

  /** The result of a job that takes operand 1 from the network. */
  lemma {:induction false} AnswerFromWire(mem: seq<Byte>, a: Arith, c: Call, T: nat, wire: (nat, nat) -> Packet, src: nat)
    requires Moves.Sound(|mem|, c, T, WireOf(wire, Some(src))) && c.feed.FromWire?
    ensures var p := Payloads(wire, src, c.feed.first, |Cut(c.len, T)|);
      && |Flatten(p)| == c.len && Lengths(p) == Cut(c.len, T)
      && Answer(mem, a, c, T, WireOf(wire, Some(src))) == Stream(mem, a, c.path, c.op0, Flatten(p), T)
  {
    OperandIsPayloads(mem, c, T, wire, src);
  }

  /** What is asked of a caller, besides room: results do not straddle operands. */
  ghost predicate Careful(job: Job) {
    && (job.path.store && job.path.reduce ==> Clear(job.op0, job.tx, job.len))
    && (job.path.store && job.from.None? ==> Clear(job.op1, job.tx, job.len))
  }

  /** The result of a job has been written to memory, or sent. */
  ghost predicate Delivered(e: Engine, job: Job, r: seq<Byte>, before: Store, headsBefore: seq<Head>, outboundBefore: seq<nat>)
    requires e.T > 0 && (job.path.store ==> job.tx + |r| <= |before.mem|) && job.path.store == job.to.None?
    reads e
  {
    if job.path.store then e.store == before.(mem := Overwrite(before.mem, job.tx, r)) && e.heads == headsBefore && e.outbound == outboundBefore
    else e.store.mem == before.mem && Sent(e, job.to.value, job.tag, r, before.out, headsBefore, outboundBefore)
  }

  /** What a call to rank `d` adds to the network: the segments of `data`, each behind its header. */
  ghost predicate Sent(e: Engine, d: nat, tag: nat, data: seq<Byte>, outBefore: seq<seq<Byte>>, headsBefore: seq<Head>, outboundBefore: seq<nat>)
    requires e.T > 0
    reads e
  {
    var c := Cut(|data|, e.T);
    && d < |outboundBefore| && |outBefore| == |headsBefore|
    && e.store.out == outBefore + Slices(data, e.T)
    && e.heads == headsBefore + HeadsOf(d, c, tag, e.me, outboundBefore[d])
    && e.outbound == outboundBefore[d := (outboundBefore[d] + |c|) % WORD]
  }

  /** Every header announces its own payload's length, and the numbers are consecutive modulo 2^32. */
  lemma {:induction false} HeadersMatchPayloads(e: Engine, d: nat, tag: nat, data: seq<Byte>, outBefore: seq<seq<Byte>>, headsBefore: seq<Head>,
                             outboundBefore: seq<nat>, k: nat)
    requires e.T > 0 && Sent(e, d, tag, data, outBefore, headsBefore, outboundBefore) && k < |Cut(|data|, e.T)|
    ensures |e.heads| == |e.store.out| == |headsBefore| + |Cut(|data|, e.T)|
    ensures var h := e.heads[|headsBefore| + k];
      h == Head(d, |e.store.out[|headsBefore| + k]|, tag, e.me, (outboundBefore[d] + 1 + k) % WORD)
  {
    SlicesRoundTrip(data, e.T);
    assert |Lengths(Slices(data, e.T))| == |Cut(|data|, e.T)|;
    assert Lengths(Slices(data, e.T))[k] == Cut(|data|, e.T)[k];
  }

  /** What the next packets of rank `src` carry, for a receive of `len` bytes. */
  ghost function Carried(e: Engine, src: nat, len: nat, takenBefore: seq<nat>): seq<Byte>
    requires e.T > 0 && src < |takenBefore|
  {
    Flatten(Payloads(e.pool.wire, src, takenBefore[src], |Cut(len, e.T)|))
  }

  /** The next packets of `src` have been taken, all of them and no others, and they are cut as the receiver expects. */
  ghost predicate TookAll(e: Engine, src: nat, len: nat, takenBefore: seq<nat>)
    requires e.T > 0 && src < |takenBefore|
    reads e, e.pool
  {
    var n := |Cut(len, e.T)|;
    && |Carried(e, src, len, takenBefore)| == len
    && e.pool.taken == takenBefore[src := takenBefore[src] + n]
    && Lengths(Payloads(e.pool.wire, src, takenBefore[src], n)) == Cut(len, e.T)
  }

  /** The operator along two buffers, as the engine streams them. */
  ghost function Reduced(e: Engine, x: seq<Byte>, y: seq<Byte>): (r: seq<Byte>)
    requires e.T > 0 && |x| == |y|
    ensures |r| == |x|
  {
    Pieces(e.arith, x, y, e.T)
  }

  /** For buffers cut at operands it is the operator along the whole buffers. */
  lemma {:induction false} ReducedIsWhole(e: Engine, x: seq<Byte>, y: seq<Byte>)
    requires e.T > 0 && |x| == |y| && CutsAtOperands(|x|, e.T, e.arith.width)
    ensures Reduced(e, x, y) == Whole(e.arith, x, y)
  {
    PiecesAreWhole(e.arith, x, y, e.T);
  }

  lemma {:induction false} StreamReduces(mem: seq<Byte>, a: Arith, op0: nat, op1: nat, len: nat, T: nat)
    requires op0 + len <= |mem| && op1 + len <= |mem| && T > 0
    ensures forall path: Path :: path.reduce ==>
      Stream(mem, a, path, op0, mem[op1..op1 + len], T) == Pieces(a, mem[op0..op0 + len], mem[op1..op1 + len], T)
  {
  }

  lemma {:induction false} IsDelivered(e: Engine, job: Job, r: seq<Byte>, before: Store, headsBefore: seq<Head>, outboundBefore: seq<nat>)
    requires e.T > 0 && |r| == job.len && job.path.store == job.to.None? && (job.path.store ==> job.tx + |r| <= |before.mem|)
    requires e.SentAll(job, headsBefore, outboundBefore) && |before.out| == |headsBefore|
    requires if job.path.store then e.store == before.(mem := Overwrite(before.mem, job.tx, r))
             else e.store == before.(out := before.out + Slices(r, e.T))
    ensures Delivered(e, job, r, before, headsBefore, outboundBefore)
  {
  }

  lemma {:induction false} LoopbackIsCareful(e: Engine, job: Job)
    requires job.path == Path(true, true) && job.from.None? && job.to.None?
    requires Clear(job.op0, job.tx, job.len) && Clear(job.op1, job.tx, job.len)
    requires job.op0 + job.len <= |e.store.mem| && job.op1 + job.len <= |e.store.mem| && job.tx + job.len <= |e.store.mem|
    ensures e.Asks(job) && Careful(job)
  {
  }

  /** The next packets of `src`, of these lengths, have all landed. */
  ghost predicate AllHere(e: Engine, src: nat, lens: seq<nat>, tag: nat)
    reads e.pool
  {
    forall u: nat {:trigger Unfold(u)} :: u == 3 && Unfold(u) ==> AllLanded(e.pool.Now(), src, lens, tag)
  }

  lemma {:induction false} EagerIs(e: Engine, job: Job, toMove: nat, attempts: nat, x: Expected)
    requires e.T > 0 && (job.from.Some? ==> attempts > 0 && job.from.value == x.src && job.tag == x.tag)
    ensures e.Eager(job, toMove, attempts, x) <==> AllHere(e, x.src, (if job.from.Some? then Cut(toMove, e.T) else []) + x.more, x.tag)
    ensures [] + x.more == x.more
  {
    assert Unfold(3);
  }

  method MemoryTransfer(e: Engine, job: Job, ghost x: Expected) returns (code: Code)
    requires e.Ready() && e.Asks(job) && job.from.None? && Careful(job)
    modifies e, e.pool
    ensures code == Success && e.Ready() && e.pool.taken == old(e.pool.taken)
    ensures var mem := old(e.store.mem);
      Delivered(e, job, Stream(mem, e.arith, job.path, job.op0, mem[job.op1..job.op1 + job.len], e.T), old(e.store), old(e.heads), old(e.outbound))
    ensures old(e.Eager(job, job.len, 0, x)) ==> e.Eager(job, 0, 0, x)
  {
    ghost var before, headsBefore, outboundBefore := e.store, e.heads, e.outbound;
    ghost var r := Stream(before.mem, e.arith, job.path, job.op0, before.mem[job.op1..job.op1 + job.len], e.T);
    code := e.WholeTransfer(job, 0, x);
    AnswerFromMemory(before.mem, e.arith, CallOf(job, 0), e.T, WireOf(e.pool.wire, None));
    IsDelivered(e, job, r, before, headsBefore, outboundBefore);
  }

  /** A job on operands in memory; packets that have landed stay where they are. */
  method MemoryJob(e: Engine, job: Job, ghost x: Expected) returns (code: Code)
    requires e.Ready() && e.Asks(job) && job.from.None? && Careful(job)
    modifies e, e.pool
    ensures code == Success && e.Ready() && e.pool.taken == old(e.pool.taken)
    ensures var mem := old(e.store.mem);
      Delivered(e, job, Stream(mem, e.arith, job.path, job.op0, mem[job.op1..job.op1 + job.len], e.T), old(e.store), old(e.heads), old(e.outbound))
    ensures old(AllHere(e, x.src, x.more, x.tag)) ==> AllHere(e, x.src, x.more, x.tag)
  {
    EagerIs(e, job, job.len, 0, x);
    code := MemoryTransfer(e, job, x);
    EagerIs(e, job, 0, 0, x);
  }

  method WireTransfer(e: Engine, job: Job, attempts: nat, ghost x: Expected) returns (code: Code)
    requires e.Ready() && e.Asks(job) && job.from.Some? && Careful(job)
    modifies e, e.pool
    ensures code == Success || code == ReceiveTimeout
    ensures code == Success ==>
      && e.Ready() && TookAll(e, job.from.value, job.len, old(e.pool.taken))
      && Delivered(e, job, Stream(old(e.store.mem), e.arith, job.path, job.op0, Carried(e, job.from.value, job.len, old(e.pool.taken)), e.T),
                   old(e.store), old(e.heads), old(e.outbound))
    ensures old(e.Eager(job, job.len, attempts, x)) ==> code == Success && e.Eager(job, 0, attempts, x)
  {
    ghost var before, headsBefore, outboundBefore, src, taken := e.store, e.heads, e.outbound, job.from.value, e.pool.taken;
    code := e.WholeTransfer(job, attempts, x);
    if code == Success {
      AnswerFromWire(before.mem, e.arith, CallOf(job, taken[src]), e.T, e.pool.wire, src);
      ghost var r := Stream(before.mem, e.arith, job.path, job.op0, Carried(e, src, job.len, taken), e.T);
      IsDelivered(e, job, r, before, headsBefore, outboundBefore);
    }
  }

  /** A job on what arrives from rank `job.from`. If all its packets have landed it succeeds, and those behind them are still there. */
  method WireJob(e: Engine, job: Job, attempts: nat, ghost more: seq<nat>) returns (code: Code)
    requires e.Ready() && e.Asks(job) && job.from.Some? && Careful(job)
    modifies e, e.pool
    ensures code == Success || code == ReceiveTimeout
    ensures code == Success ==>
      && e.Ready() && TookAll(e, job.from.value, job.len, old(e.pool.taken))
      && Delivered(e, job, Stream(old(e.store.mem), e.arith, job.path, job.op0, Carried(e, job.from.value, job.len, old(e.pool.taken)), e.T),
                   old(e.store), old(e.heads), old(e.outbound))
    ensures attempts > 0 && old(AllHere(e, job.from.value, Cut(job.len, e.T) + more, job.tag)) ==>
      code == Success && AllHere(e, job.from.value, more, job.tag)
  {
    ghost var x := Expected(job.from.value, job.tag, more);
    if attempts > 0 {
      EagerIs(e, job, job.len, attempts, x);
    }
    code := WireTransfer(e, job, attempts, x);
    if attempts > 0 {
      EagerIs(e, job, 0, attempts, x);
    }
  }

  /** `dma_loopback`: a copy in memory. */
  method DmaLoopback(e: Engine, len: nat, src: nat, dst: nat, ghost x: Expected := Expected(0, 0, [])) returns (code: Code)
    requires e.Ready() && src + len <= |e.store.mem| && dst + len <= |e.store.mem| && Clear(src, dst, len)
    modifies e, e.pool
    ensures code == Success && e.Ready() && e.heads == old(e.heads) && e.outbound == old(e.outbound) && e.pool.taken == old(e.pool.taken)
    ensures var mem := old(e.store.mem);
      e.store == old(e.store).(mem := Overwrite(mem, dst, mem[src..src + len]))
    ensures old(AllHere(e, x.src, x.more, x.tag)) ==> AllHere(e, x.src, x.more, x.tag)
  {
    code := MemoryJob(e, Job(Path(false, true), len, 0, src, dst, None, None, TAG_ANY), x);
  }

  /** `reduce_loopback`: the arithmetic unit applied to two buffers in memory; the result may replace either. */
  method ReduceLoopback(e: Engine, len: nat, op0: nat, op1: nat, dst: nat, ghost x: Expected := Expected(0, 0, [])) returns (code: Code)
    requires e.Ready() && op0 + len <= |e.store.mem| && op1 + len <= |e.store.mem| && dst + len <= |e.store.mem|
    requires Clear(op0, dst, len) && Clear(op1, dst, len)
    modifies e, e.pool
    ensures code == Success && e.Ready() && e.heads == old(e.heads) && e.outbound == old(e.outbound) && e.pool.taken == old(e.pool.taken)
    ensures var mem := old(e.store.mem);
      e.store == old(e.store).(mem := Overwrite(mem, dst, Reduced(e, mem[op0..op0 + len], mem[op1..op1 + len])))
    ensures old(AllHere(e, x.src, x.more, x.tag)) ==> AllHere(e, x.src, x.more, x.tag)
  {
    var job := Job(Path(true, true), len, op0, op1, dst, None, None, TAG_ANY);
    ghost var r := Reduced(e, e.store.mem[op0..op0 + len], e.store.mem[op1..op1 + len]);
    StreamReduces(e.store.mem, e.arith, op0, op1, len, e.T);
    LoopbackIsCareful(e, job);
    code := MemoryJob(e, job, x);
    assert Delivered(e, job, r, old(e.store), old(e.heads), old(e.outbound));
  }

  /** `transmit_offchip_world`. */
  method TransmitOffchip(e: Engine, d: nat, len: nat, src: nat, tag: nat, ghost x: Expected := Expected(0, 0, [])) returns (code: Code)
    requires e.Ready() && d < |e.outbound| && src + len <= |e.store.mem|
    modifies e, e.pool
    ensures code == Success && e.Ready() && e.store.mem == old(e.store.mem) && e.pool.taken == old(e.pool.taken)
    ensures Sent(e, d, tag, old(e.store.mem)[src..src + len], old(e.store.out), old(e.heads), old(e.outbound))
    ensures old(AllHere(e, x.src, x.more, x.tag)) ==> AllHere(e, x.src, x.more, x.tag)
  {
    code := MemoryJob(e, Job(Path(false, false), len, 0, src, 0, None, Some(d), tag), x);
  }

  /** `reduce_offchip_world`. */
  method ReduceOffchip(e: Engine, d: nat, len: nat, op0: nat, op1: nat, tag: nat, ghost x: Expected := Expected(0, 0, [])) returns (code: Code)
    requires e.Ready() && d < |e.outbound| && op0 + len <= |e.store.mem| && op1 + len <= |e.store.mem|
    modifies e, e.pool
    ensures code == Success && e.Ready() && e.store.mem == old(e.store.mem) && e.pool.taken == old(e.pool.taken)
    ensures var mem := old(e.store.mem);
      Sent(e, d, tag, Reduced(e, mem[op0..op0 + len], mem[op1..op1 + len]), old(e.store.out), old(e.heads), old(e.outbound))
    ensures old(AllHere(e, x.src, x.more, x.tag)) ==> AllHere(e, x.src, x.more, x.tag)
  {
    StreamReduces(e.store.mem, e.arith, op0, op1, len, e.T);
    code := MemoryJob(e, Job(Path(true, false), len, op0, op1, 0, None, Some(d), tag), x);
  }

  /** `receive_offchip_world`. */
  method ReceiveOffchip(e: Engine, src: nat, len: nat, dst: nat, tag: nat, attempts: nat, ghost more: seq<nat> := []) returns (code: Code)
    requires e.Ready() && src < |e.pool.taken| && dst + len <= |e.store.mem|
    modifies e, e.pool
    ensures code == Success || code == ReceiveTimeout
    ensures code == Success ==>
      && e.Ready() && TookAll(e, src, len, old(e.pool.taken)) && e.heads == old(e.heads) && e.outbound == old(e.outbound)
      && e.store == old(e.store).(mem := Overwrite(old(e.store.mem), dst, Carried(e, src, len, old(e.pool.taken))))
    ensures attempts > 0 && old(AllHere(e, src, Cut(len, e.T) + more, tag)) ==> code == Success && AllHere(e, src, more, tag)
  {
    code := WireJob(e, Job(Path(false, true), len, 0, 0, dst, Some(src), None, tag), attempts, more);
  }

  /** `receive_and_accumulate`: the local buffer is operand 0, what arrives is operand 1. */
  method ReceiveAndAccumulate(e: Engine, src: nat, len: nat, op0: nat, dst: nat, tag: nat, attempts: nat, ghost more: seq<nat> := []) returns (code: Code)
    requires e.Ready() && src < |e.pool.taken| && op0 + len <= |e.store.mem| && dst + len <= |e.store.mem|
    requires Clear(op0, dst, len)
    modifies e, e.pool
    ensures code == Success || code == ReceiveTimeout
    ensures code == Success ==>
      && e.Ready() && TookAll(e, src, len, old(e.pool.taken)) && e.heads == old(e.heads) && e.outbound == old(e.outbound)
      && var mem := old(e.store.mem);
         e.store == old(e.store).(mem := Overwrite(mem, dst, Reduced(e, mem[op0..op0 + len], Carried(e, src, len, old(e.pool.taken)))))
    ensures attempts > 0 && old(AllHere(e, src, Cut(len, e.T) + more, tag)) ==> code == Success && AllHere(e, src, more, tag)
  {
    code := WireJob(e, Job(Path(true, true), len, op0, 0, dst, Some(src), None, tag), attempts, more);
  }

  /** `relay_to_other_rank`: memory is untouched, and what was taken in from `src` goes out to `d`. */
  method RelayToOtherRank(e: Engine, src: nat, d: nat, len: nat, tag: nat, attempts: nat, ghost more: seq<nat> := []) returns (code: Code)
    requires e.Ready() && src < |e.pool.taken| && d < |e.outbound|
    modifies e, e.pool
    ensures code == Success || code == ReceiveTimeout
    ensures code == Success ==>
      && e.Ready() && TookAll(e, src, len, old(e.pool.taken)) && e.store.mem == old(e.store.mem)
      && Sent(e, d, tag, Carried(e, src, len, old(e.pool.taken)), old(e.store.out), old(e.heads), old(e.outbound))
    ensures attempts > 0 && old(AllHere(e, src, Cut(len, e.T) + more, tag)) ==> code == Success && AllHere(e, src, more, tag)
  {
    code := WireJob(e, Job(Path(false, false), len, 0, 0, 0, Some(src), Some(d), tag), attempts, more);
  }

  /** `receive_and_reduce_offchip`: what was taken in from `src` is combined with the local buffer and goes out to `d`. */
  method ReceiveAndReduceOffchip(e: Engine, src: nat, d: nat, len: nat, op0: nat, tag: nat, attempts: nat, ghost more: seq<nat> := []) returns (code: Code)
    requires e.Ready() && src < |e.pool.taken| && d < |e.outbound| && op0 + len <= |e.store.mem|
    modifies e, e.pool
    ensures code == Success || code == ReceiveTimeout
    ensures code == Success ==>
      && e.Ready() && TookAll(e, src, len, old(e.pool.taken)) && e.store.mem == old(e.store.mem)
      && Sent(e, d, tag, Reduced(e, old(e.store.mem)[op0..op0 + len], Carried(e, src, len, old(e.pool.taken))),
              old(e.store.out), old(e.heads), old(e.outbound))
    ensures attempts > 0 && old(AllHere(e, src, Cut(len, e.T) + more, tag)) ==> code == Success && AllHere(e, src, more, tag)
  {
    code := WireJob(e, Job(Path(true, false), len, op0, 0, 0, Some(src), Some(d), tag), attempts, more);
  }

  /** What the depacketizer reports about a packet that left behind header `h`. */
  function Reported(h: Head): Header {
    Header(h.len, h.tag, h.src, h.seqNum)
  }

  /** Packet `k` of a message leaves behind the header the receiver looks for. */
  ghost predicate HeaderFits(heads: seq<Head>, before: nat, wire: (nat, nat) -> Packet, src: nat, first: nat, k: nat) {
    before + k < |heads| && HeaderOf((src, first + k), wire(src, first + k)) == Reported(heads[before + k])
  }

  /** The packets of a message are the segments of `data`, all with the same tag. */
  ghost predicate Carries(wire: (nat, nat) -> Packet, src: nat, first: nat, T: nat, data: seq<Byte>, tag: nat)
    requires T > 0
  {
    forall k :: 0 <= k < |Slices(data, T)| ==> wire(src, first + k) == Packet(tag, Slices(data, T)[k])
  }

  lemma {:induction false} CarriesPayloads(wire: (nat, nat) -> Packet, src: nat, first: nat, T: nat, data: seq<Byte>, tag: nat)
    requires T > 0 && Carries(wire, src, first, T, data, tag)
    ensures Flatten(Payloads(wire, src, first, |Cut(|data|, T)|)) == data
  {
    SlicesRoundTrip(data, T);
    assert |Lengths(Slices(data, T))| == |Cut(|data|, T)|;
    assert Payloads(wire, src, first, |Cut(|data|, T)|) == Slices(data, T);
  }

  lemma {:induction false} HeaderFitsPacket(e: Engine, d: nat, tag: nat, data: seq<Byte>, outBefore: seq<seq<Byte>>, headsBefore: seq<Head>,
                         outboundBefore: seq<nat>, wire: (nat, nat) -> Packet, first: nat, k: nat)
    requires e.T > 0 && Sent(e, d, tag, data, outBefore, headsBefore, outboundBefore) && k < |Slices(data, e.T)|
    requires Carries(wire, e.me, first, e.T, data, tag) && outboundBefore[d] == first % WORD
    ensures HeaderFits(e.heads, |headsBefore|, wire, e.me, first, k)
  {
    SlicesRoundTrip(data, e.T);
    assert |Lengths(Slices(data, e.T))| == |Cut(|data|, e.T)|;
    HeadersMatchPayloads(e, d, tag, data, outBefore, headsBefore, outboundBefore, k);
    assert wire(e.me, first + k) == Packet(tag, Slices(data, e.T)[k]);
    NumberAhead(first, 0, k);
  }

  /** Rank `a` has sent rank `b` as many packets as rank `b` has taken from it. */
  ghost predicate InStep(a: Engine, b: Engine)
    reads a, b, b.pool
  {
    b.me < |a.outbound| && a.me < |b.pool.taken| && a.outbound[b.me] == b.pool.taken[a.me] % WORD
  }

  /** The sending half: `wire` is what the receiver gets, from packet `first` on. */
  method SendTo(a: Engine, d: nat, len: nat, src: nat, tag: nat, ghost wire: (nat, nat) -> Packet, ghost first: nat) returns (code: Code)
    requires a.Ready() && d < |a.outbound| && src + len <= |a.store.mem| && a.outbound[d] == first % WORD
    requires Carries(wire, a.me, first, a.T, a.store.mem[src..src + len], tag)
    modifies a, a.pool
    ensures code == Success && a.Ready() && |a.outbound| == |old(a.outbound)|
    ensures a.outbound[d] == (first + |Cut(len, a.T)|) % WORD
    ensures forall k: nat :: k < |Slices(old(a.store.mem)[src..src + len], a.T)| ==> HeaderFits(a.heads, |old(a.heads)|, wire, a.me, first, k)
  {
    ghost var data := a.store.mem[src..src + len];
    code := TransmitOffchip(a, d, len, src, tag);
    forall k: nat | k < |Slices(data, a.T)| ensures HeaderFits(a.heads, |old(a.heads)|, wire, a.me, first, k) {
      HeaderFitsPacket(a, d, tag, data, old(a.store.out), old(a.heads), old(a.outbound), wire, first, k);
    }
    NextMany(first, |Cut(len, a.T)|);
  }

  /**
   A send on one rank and a receive on another, when the network carries what the sender puts on it: whatever order the
   packets reach the receiver's spare buffers in, its destination ends up equal to the source. The header behind which
   each packet leaves is the one the receiver looks for, and afterwards the two ranks' counters agree again. A receive that
   finds all its packets in the spare buffers does not fail.
   */
  method SendReceive(a: Engine, b: Engine, len: nat, src: nat, dst: nat, tag: nat, attempts: nat) returns (code: Code)
    requires a != b && a.pool != b.pool && a.T == b.T && a.Ready() && b.Ready() && InStep(a, b)
    requires src + len <= |a.store.mem| && dst + len <= |b.store.mem|
    requires Carries(b.pool.wire, a.me, b.pool.taken[a.me], a.T, a.store.mem[src..src + len], tag)
    modifies a, a.pool, b, b.pool
    ensures code == Success || code == ReceiveTimeout
    ensures code == Success ==>
      && a.Ready() && b.Ready() && InStep(a, b)
      && b.store.mem == Overwrite(old(b.store.mem), dst, old(a.store.mem)[src..src + len])
    ensures var first := old(b.pool.taken)[a.me];
      forall k: nat :: k < |Slices(old(a.store.mem)[src..src + len], a.T)| ==>
        HeaderFits(a.heads, |old(a.heads)|, b.pool.wire, a.me, first, k)
    ensures attempts > 0 && old(AllHere(b, a.me, Cut(len, b.T), tag)) ==> code == Success
  {
    assert Cut(len, b.T) + [] == Cut(len, b.T);
    ghost var data, first := a.store.mem[src..src + len], b.pool.taken[a.me];
    code := SendTo(a, b.me, len, src, tag, b.pool.wire, first);
    CarriesPayloads(b.pool.wire, a.me, first, a.T, data, tag);
    code := ReceiveOffchip(b, a.me, len, dst, tag, attempts);
  }

  lemma {:induction false} NextMany(first: nat, n: nat)
    ensures (first % WORD + n) % WORD == (first + n) % WORD
  {
  }
}
