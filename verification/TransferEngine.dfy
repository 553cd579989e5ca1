/**
 The firmware's windowed transfers. At most `W` segments of at most `T` bytes are in flight: the loop fills the window,
 then acknowledges the oldest segment before it issues the next, then drains. Operand 1 may come from memory or from
 spare buffers holding a peer's packets, and the result may go to memory or, behind packet headers, to the network.
 */
module TransferEngine {
  import opened RingIndex
  import opened Segments
  import opened Elementwise
  import opened Moves
  import opened DmaTags
  import opened SpareBuffers
  import opened Unfolding
  import opened Wrappers

  /** What the packetizer is told about a packet. */
  datatype Head = Head(dst: nat, len: nat, tag: nat, src: nat, seqNum: nat)

  /**
   A call of one of the windowed functions: the addresses of operand 0, operand 1 and result, the rank operand 1 is
   received from, if any, and the rank the result is sent to, if any.
   */
  datatype Job = Job(path: Path, len: nat, op0: nat, op1: nat, tx: nat, from: Option<nat>, to: Option<nat>, tag: nat)

  /** Packets of rank `src` that are to come after those of the call under way, by their lengths. */
  datatype Expected = Expected(src: nat, tag: nat, more: seq<nat>)

  /** The circular buffer of spare-buffer indices. */
  datatype Ring = Ring(indexes: seq<nat>, first: nat, last: nat)

  /** The local variables of the windowed loops. */
  datatype Window = Window(toMove: nat, toAck: nat, op0: nat, op1: nat, tx: nat, tag: nat, ring: Ring)

  /** Position `k` places after `start` in a circular buffer of `size` entries. */
  function Slot(start: nat, k: nat, size: nat): nat {
    if start + k < size then start + k else start + k - size
  }

  lemma {:induction false} LensOn(lens: seq<nat>, rest: seq<nat>, more: seq<nat>)
    requires lens != [] && rest == lens[1..]
    ensures rest + more == (lens + more)[1..]
  {
  }

  lemma {:induction false} SlotIsRemainder(start: nat, size: nat)
    requires start < size
    ensures (start + 1) % size == Slot(start, 1, size)
  {
    Quotient(start + 1, size, if start + 1 == size then 1 else 0);
  }

  /** The headers of consecutive packets of the given lengths. */
  function HeadsOf(dst: nat, c: seq<nat>, tag: nat, src: nat, seqNum: nat): (h: seq<Head>)
    ensures |h| == |c|
  {
    seq(|c|, k requires 0 <= k < |c| => Head(dst, c[k], tag, src, (seqNum + 1 + k) % WORD))
  }

  lemma {:induction false} NextLength(call: Call, left: Call, toAck: nat, T: nat, wire: nat -> seq<Byte>, past: seq<Move>, promised: seq<Move>, size: nat)
    requires Moving(call, left, toAck, T, wire, past, promised, size)
    ensures var c, k := Cut(call.len, T), |past| + |promised|;
      if left.len == 0 then k == |c| else k < |c| && c[k] == Min(left.len, T)
  {
    var c := Cut(call.len, T);
    assert c == LensOf(past) + (LensOf(promised) + Cut(left.len, T));
    assert c == (LensOf(past) + LensOf(promised)) + Cut(left.len, T);
  }

  lemma {:induction false} InFlight(call: Call, left: Call, toAck: nat, T: nat, wire: nat -> seq<Byte>, past: seq<Move>, promised: seq<Move>, size: nat)
    requires Moving(call, left, toAck, T, wire, past, promised, size)
    ensures left.len == 0 && toAck > 0 ==> promised != []
    ensures promised != [] ==> toAck > 0
  {
    assert |Cut(toAck, T)| == |promised| + |Cut(left.len, T)|;
  }

  /** The packetizer's counters have 32 bits. */
  ghost predicate Counters(outbound: seq<nat>) {
    forall d :: 0 <= d < |outbound| ==> outbound[d] < WORD
  }

  /** `sent` packets of a message of segments `c` have been announced to the packetizer and `acked` acknowledged. */
  ghost predicate Announced(heads: seq<Head>, before: seq<Head>, acks: nat, out: nat, dst: nat, c: seq<nat>, tag: nat, src: nat,
                            seqNum: nat, sent: nat, acked: nat) {
    && acked <= sent <= |c|
    && heads == before + HeadsOf(dst, c[..sent], tag, src, seqNum)
    && acks == |before| + acked
    && out == (seqNum + acked) % WORD
  }

  /** The oldest unanswered header carries the number expected next. */
  lemma {:induction false} AnswerDue(heads: seq<Head>, before: seq<Head>, acks: nat, out: nat, dst: nat, c: seq<nat>, tag: nat,
                                     src: nat, seqNum: nat, sent: nat, acked: nat)
    requires Announced(heads, before, acks, out, dst, c, tag, src, seqNum, sent, acked) && acked < sent
    ensures acks < |heads| && heads[acks].seqNum == (out + 1) % WORD
    ensures Announced(heads, before, acks + 1, (out + 1) % WORD, dst, c, tag, src, seqNum, sent, acked + 1)
  {
    assert heads[acks] == HeadsOf(dst, c[..sent], tag, src, seqNum)[acked];
    NumberAhead(seqNum, acked, 0);
  }

  lemma {:induction false} HeadsExtend(dst: nat, c: seq<nat>, tag: nat, src: nat, seqNum: nat, i: nat)
    requires i < |c|
    ensures HeadsOf(dst, c[..i + 1], tag, src, seqNum)
         == HeadsOf(dst, c[..i], tag, src, seqNum) + [Head(dst, c[i], tag, src, (seqNum + 1 + i) % WORD)]
  {
  }

  /** One more packet announced, while a window less one of packets awaits acknowledgement. */
  lemma {:induction false} AnnounceNext(heads: seq<Head>, before: seq<Head>, acks: nat, out: nat, dst: nat, c: seq<nat>, tag: nat,
                                        src: nat, seqNum: nat, sent: nat, acked: nat, len: nat)
    requires Announced(heads, before, acks, out, dst, c, tag, src, seqNum, sent, acked) && sent < |c| && c[sent] == len
    ensures Announced(heads + HeadsOf(dst, [len], tag, src, out + (sent - acked)), before, acks, out, dst, c, tag, src, seqNum, sent + 1, acked)
  {
    NumberAhead(seqNum, acked, sent - acked);
    HeadsExtend(dst, c, tag, src, seqNum, sent);
    assert HeadsOf(dst, [len], tag, src, out + (sent - acked)) == [Head(dst, len, tag, src, (seqNum + 1 + sent) % WORD)];
  }

  lemma {:induction false} CutStep(c: seq<nat>, i: nat, remaining: nat, T: nat)
    requires T > 0 && remaining > 0 && i <= |c| && c[i..] == Cut(remaining, T)
    ensures i < |c| && c[i] == Min(remaining, T) && c[i + 1..] == Cut(remaining - Min(remaining, T), T)
  {
    assert c[i] == c[i..][0];
    assert c[i + 1..] == c[i..][1..];
  }

  /** The packet announced while `inFlight` segments are unacknowledged carries the number its position demands. */
  lemma {:induction false} NumberAhead(seqNum: nat, acked: nat, ahead: nat)
    ensures ((seqNum + acked) % WORD + ahead + 1) % WORD == (seqNum + 1 + (acked + ahead)) % WORD
  {
  }

  /** A transfer with the contents of its spare buffer filled in. */
  function Resolved(m: Move, bufs: seq<RxBuffer>): Move
    requires m.op1.Spare? ==> m.op1.index < |bufs|
  {
    if m.op1.Spare? then m.(op1 := Payload(bufs[m.op1.index].data)) else m
  }

  ghost predicate Resolves(m: Move, r: Move, bufs: seq<RxBuffer>) {
    (m.op1.Spare? ==> m.op1.index < |bufs|) && r == Resolved(m, bufs)
  }

  /**
   The segments issued, acknowledged and still to come make up the plan, and the issued and acknowledged lengths agree
   position by position.
   */
  ghost predicate Moving(call: Call, left: Call, toAck: nat, T: nat, wire: nat -> seq<Byte>, past: seq<Move>, promised: seq<Move>, size: nat) {
    && T > 0 && Bounded(left, size) && left.path == call.path
    && AllFit(past, call.path, size) && AllFit(promised, call.path, size)
    && past + promised + Plan(left, T, wire) == Plan(call, T, wire)
    && LensOf(promised) + Cut(left.len, T) == Cut(toAck, T)
    && LensOf(past) + Cut(toAck, T) == Cut(call.len, T)
    && (Sized(left, T, wire) ==> Sized(call, T, wire))
  }

  lemma {:induction false} Outset(call: Call, T: nat, wire: nat -> seq<Byte>, size: nat)
    requires T > 0 && Bounded(call, size)
    ensures Moving(call, call, call.len, T, wire, [], [], size)
  {
    assert LensOf([]) == [] && [] + Cut(call.len, T) == Cut(call.len, T);
    assert [] + [] + Plan(call, T, wire) == Plan(call, T, wire);
  }

  /** When everything has been acknowledged the plan has been carried out. */
  lemma {:induction false} Arrival(call: Call, left: Call, T: nat, wire: nat -> seq<Byte>, past: seq<Move>, promised: seq<Move>, size: nat)
    requires Moving(call, left, 0, T, wire, past, promised, size)
    ensures left.len == 0 && promised == [] && past == Plan(call, T, wire) && |past| == |Cut(call.len, T)|
    ensures Sized(call, T, wire)
  {
    assert LensOf(promised) + Cut(left.len, T) == [];
    assert |LensOf(promised)| == 0 && |Cut(left.len, T)| == 0;
    assert past + promised + [] == past;
    assert LensOf(past) + [] == LensOf(past);
  }

  lemma {:induction false} MoveOn(call: Call, left: Call, toAck: nat, T: nat, wire: nat -> seq<Byte>, past: seq<Move>, promised: seq<Move>, size: nat)
    requires Moving(call, left, toAck, T, wire, past, promised, size) && left.len > 0
    requires var m := FirstMove(left, T, wire); m.op1.Payload? ==> |m.op1.data| == m.len
    ensures Fits(FirstMove(left, T, wire), call.path, size)
    ensures Moving(call, Rest(left, T), toAck, T, wire, past, promised + [FirstMove(left, T, wire)], size)
  {
    var m := FirstMove(left, T, wire);
    assert past + (promised + [m]) == (past + promised) + [m];
    assert past + (promised + [m]) + Plan(Rest(left, T), T, wire) == past + promised + ([m] + Plan(Rest(left, T), T, wire));
    LensOfSnoc(promised, m);
    assert LensOf(promised) + [m.len] + Cut(Rest(left, T).len, T) == LensOf(promised) + ([m.len] + Cut(Rest(left, T).len, T));
  }

  lemma {:induction false} LensOfCons(ms: seq<Move>)
    requires ms != []
    ensures LensOf(ms) == [ms[0].len] + LensOf(ms[1..])
  {
  }

  lemma {:induction false} LensOfSnoc(ms: seq<Move>, m: Move)
    ensures LensOf(ms + [m]) == LensOf(ms) + [m.len]
  {
  }

  lemma {:induction false} LensAck(past: seq<nat>, first: nat, others: seq<nat>, rest: seq<nat>, toAck: nat, T: nat)
    requires T > 0 && [first] + others + rest == Cut(toAck, T)
    ensures toAck > 0 && first == Min(toAck, T)
    ensures others + rest == Cut(toAck - first, T)
    ensures past + [first] + Cut(toAck - first, T) == past + Cut(toAck, T)
  {
    var c := Cut(toAck, T);
    assert ([first] + others + rest)[0] == first && ([first] + others + rest)[1..] == others + rest;
    assert c == [Min(toAck, T)] + Cut(toAck - Min(toAck, T), T);
    assert c[1..] == Cut(toAck - Min(toAck, T), T);
  }

  lemma {:induction false} AckOn(call: Call, left: Call, toAck: nat, T: nat, wire: nat -> seq<Byte>, past: seq<Move>, promised: seq<Move>, size: nat)
    requires Moving(call, left, toAck, T, wire, past, promised, size) && promised != []
    ensures toAck > 0 && promised[0].len == Min(toAck, T)
    ensures Moving(call, left, toAck - Min(toAck, T), T, wire, past + [promised[0]], promised[1..], size)
  {
    LensOfCons(promised);
    LensOfSnoc(past, promised[0]);
    LensAck(LensOf(past), promised[0].len, LensOf(promised[1..]), Cut(left.len, T), toAck, T);
    assert past + [promised[0]] + promised[1..] == past + promised;
  }

  /** The circular buffer holds the indices of the spare buffers in the window, oldest first. */
  ghost predicate RingHolds(ring: Ring, reading: seq<nat>, size: nat) {
    && |ring.indexes| == size && ring.first < size && |reading| <= size
    && ring.last == Slot(ring.first, |reading|, size)
    && forall k :: 0 <= k < |reading| ==> ring.indexes[Slot(ring.first, k, size)] == reading[k]
  }

  lemma {:induction false} RingPush(ring: Ring, reading: seq<nat>, size: nat, i: nat)
    requires RingHolds(ring, reading, size) && |reading| < size
    ensures ring.last < size
    ensures RingHolds(Ring(ring.indexes[ring.last := i], ring.first, (ring.last + 1) % size), reading + [i], size)
  {
    SlotIsRemainder(ring.last, size);
  }

  /** Buffers leave the circular buffer in the order they entered it. */
  lemma {:induction false} RingPop(ring: Ring, reading: seq<nat>, size: nat)
    requires RingHolds(ring, reading, size) && reading != []
    ensures ring.indexes[ring.first] == reading[0]
    ensures RingHolds(ring.(first := (ring.first + 1) % size), reading[1..], size)
  {
    SlotIsRemainder(ring.first, size);
    assert Slot(ring.first, 0, size) == ring.first;
    forall k | 0 <= k < |reading| - 1
      ensures ring.indexes[Slot(Slot(ring.first, 1, size), k, size)] == reading[1..][k]
    {
      assert Slot(ring.first, k + 1, size) == Slot(Slot(ring.first, 1, size), k, size);
    }
  }

  /** The indices are kept in eight bits. */
  function Truncate8(i: nat): nat {
    i % 256
  }

  const EXCHANGE_BYTES := 0x1000 // the exchange memory holds a count of four bytes and a record for each spare buffer
  const RECORD_BYTES := 36

  predicate HaveRecords(buffers: nat) {
    4 + buffers * RECORD_BYTES <= EXCHANGE_BYTES
  }

  /** There are at most 113 buffers, so no index is truncated. */
  lemma {:induction false} IndicesFit(buffers: nat)
    requires HaveRecords(buffers)
    ensures buffers <= 113 && forall i: nat :: Truncate8(i) < 256 && (i < buffers ==> Truncate8(i) == i)
  {
  }

  /** The packets a job receives, by number. */
  function WireOf(wire: (nat, nat) -> Packet, from: Option<nat>): nat -> seq<Byte> {
    (n: nat) => if from.Some? then wire(from.value, n).data else []
  }

  /** The movement a job asks for, when `next` is the number of the first packet to take. */
  function CallOf(job: Job, next: nat): Call {
    Call(job.path, job.len, job.op0, if job.from.Some? then FromWire(next) else FromMemory(job.op1), job.tx)
  }

  /** The local variables after a segment of `len` bytes has been issued with tag counter `tag`. */
  function Advance(w: Window, len: nat): Window
    requires len <= w.toMove
  {
    w.(toMove := w.toMove - len, op0 := w.op0 + len, op1 := w.op1 + len, tx := w.tx + len)
  }

  /** The counters of packets taken, after `n` packets more. */
  function TakenBy(job: Job, taken: seq<nat>, n: nat): seq<nat>
    requires job.from.Some? ==> job.from.value < |taken|
  {
    match job.from
    case None => taken
    case Some(s) => taken[s := taken[s] + n]
  }

  /** The number of the first packet a job takes. */
  function FirstPacket(job: Job, taken: seq<nat>): nat
    requires job.from.Some? ==> job.from.value < |taken|
  {
    if job.from.Some? then taken[job.from.value] else 0
  }

  /**
   The local variables stand at what is left of the movement after `n` segments, and the next packet to take is the next
   one needed; nothing has been taken from other ranks.
   */
  ghost predicate StandsAt(job: Job, w: Window, left: Call, taken0: seq<nat>, n: nat, taken: seq<nat>) {
    && left.path == job.path && left.len == w.toMove && left.op0 == w.op0 && left.tx == w.tx
    && (job.from.Some? ==> job.from.value < |taken0|) && taken == TakenBy(job, taken0, n)
    && match job.from
       case None => left.feed == FromMemory(w.op1)
       case Some(s) => left.feed == FromWire(taken[s])
  }

  /** Segment `r` starts where the local variables stand and takes operand 1 from memory or from the next packet. */
  ghost predicate Supplied(job: Job, w: Window, len: nat, taken: seq<nat>, after: seq<nat>, wire: (nat, nat) -> Packet, r: Move) {
    && r == Move(len, w.op0, r.op1, w.tx)
    && match job.from
       case None => r.op1 == Memory(w.op1) && after == taken
       case Some(s) =>
         && s < |taken| && after == TakenBy(job, taken, 1)
         && r.op1 == Payload(wire(s, taken[s]).data) && |r.op1.data| == len
  }

  /** The transfer of a segment whose operand 1 is in memory or in the spare buffer the next packet was found in. */
  lemma {:induction false} SegmentFound(job: Job, w: Window, len: nat, op1: Source, bufs: seq<RxBuffer>, taken: seq<nat>, after: seq<nat>,
                                        wire: (nat, nat) -> Packet, size: nat)
    requires job.path.reduce ==> w.op0 + len <= size
    requires job.path.store ==> w.tx + len <= size
    requires job.from.None? ==> w.op1 + len <= size
    requires match job.from
             case None => op1 == Memory(w.op1) && after == taken
             case Some(s) =>
               && op1.Spare? && op1.index < |bufs| && s < |taken| && after == taken[s := taken[s] + 1]
               && bufs[op1.index].data == wire(s, taken[s]).data && |bufs[op1.index].data| == len
    ensures var m := Move(len, w.op0, op1, w.tx);
      && Resolves(m, Resolved(m, bufs), bufs) && Fits(Resolved(m, bufs), job.path, size)
      && Supplied(job, w, len, taken, after, wire, Resolved(m, bufs))
  {
  }

  lemma {:induction false} StandsNext(job: Job, w: Window, v: Window, len: nat, left: Call, taken0: seq<nat>, n: nat, taken: seq<nat>, after: seq<nat>, T: nat,
                   wire: (nat, nat) -> Packet, r: Move)
    requires StandsAt(job, w, left, taken0, n, taken) && w.toMove > 0 && len == Min(w.toMove, T)
    requires v == w.(ring := v.ring, tag := v.tag) && Supplied(job, w, len, taken, after, wire, r)
    ensures r == FirstMove(left, T, WireOf(wire, job.from)) && StandsAt(job, Advance(v, len), Rest(left, T), taken0, n + 1, after)
    ensures r.op1.Payload? ==> |r.op1.data| == Min(left.len, T)
  {
  }

  /** Each channel holds its commands for the transfers in flight, and `tag` is the counter the next one starts from. */
  ghost predicate ChannelsHold(queues: seq<seq<Command>>, flying: seq<Move>, dmaTag: nat, path: Path, tag: nat) {
    && |queues| == CHANNELS
    && tag == TagAfter(dmaTag, Used(path), |flying|)
    && forall c :: 0 <= c < CHANNELS ==> queues[c] == Commands(flying, Used(path), dmaTag, c)
  }

  /** A status that passes: right tag, no error, and on a channel that counts bytes the right number of them. */
  ghost predicate Accepts(s: DmaStatus, len: nat, tag: nat, counted: bool) {
    s.tag == tag && !s.internal && !s.decode && !s.slave && s.okay && (counted ==> s.endOfPacket && s.btt == len)
  }

  /** The statuses of the channels in use all pass, each with the next tag. */
  ghost predicate AllAccept(sts: seq<DmaStatus>, len: nat, path: Path, dmaTag: nat)
    requires |sts| == CHANNELS
  {
    && (path.reduce ==> Accepts(sts[0], len, (dmaTag + 1) % 16, false))
    && Accepts(sts[1], len, (dmaTag + One(path.reduce) + 1) % 16, false)
    && (path.store ==> Accepts(sts[2], len, (dmaTag + One(path.reduce) + 2) % 16, true))
  }

  /** Each channel has served its oldest command. */
  function Served(queues: seq<seq<Command>>): (sts: seq<DmaStatus>)
    ensures |sts| == |queues|
  {
    seq(|queues|, c requires 0 <= c < |queues| => if queues[c] == [] then Good(0, 0) else Good(queues[c][0].tag, queues[c][0].len))
  }

  lemma {:induction false} ServedInOrder(queues: seq<seq<Command>>, flying: seq<Move>, dmaTag: nat, path: Path, tag: nat)
    requires ChannelsHold(queues, flying, dmaTag, path, tag) && flying != []
    ensures queues[1] != [] && (path.reduce ==> queues[0] != []) && (path.store ==> queues[2] != [])
    ensures AllAccept(Served(queues), flying[0].len, path, dmaTag)
    ensures var reduced, stored := if path.reduce then queues[0][1..] else queues[0], if path.store then queues[2][1..] else queues[2];
      ChannelsHold([reduced, queues[1][1..], stored, queues[3]], flying[1..], (dmaTag + One(path.reduce) + 1 + One(path.store)) % 16, path, tag)
  {
    TagsOfOne(dmaTag, path);
    var after, used := (dmaTag + One(path.reduce) + 1 + One(path.store)) % 16, Used(path);
    forall c | 0 <= c < CHANNELS
      ensures queues[c] == (if used[c] then [Command(flying[0].len, AddressOn(flying[0], c), TagUpTo(dmaTag, used, c + 1))] else [])
                           + Commands(flying[1..], used, after, c)
    {
    }
  }

  /** The store is what the first `landed` of the transfers promised make of it, after those of the past. */
  ghost predicate Landed(landed: nat, flying: seq<Move>, promised: seq<Move>, past: seq<Move>, start: Store, store: Store, arith: Arith, path: Path) {
    && landed <= |flying| == |promised|
    && AllFit(past, path, |start.mem|) && AllFit(promised, path, |start.mem|)
    && store == Run(start, arith, path, past + promised[..landed])
  }

  ghost predicate AllResolve(flying: seq<Move>, promised: seq<Move>, bufs: seq<RxBuffer>) {
    |flying| == |promised| &&
    forall k {:trigger Resolves(flying[k], promised[k], bufs)} :: 0 <= k < |flying| ==> Resolves(flying[k], promised[k], bufs)
  }

  /** The oldest transfer, once carried out, belongs to the past. */
  lemma {:induction false} OldestOver(landed: nat, flying: seq<Move>, promised: seq<Move>, past: seq<Move>, start: Store, store: Store, arith: Arith,
                                      path: Path, bufs: seq<RxBuffer>)
    requires Landed(landed, flying, promised, past, start, store, arith, path) && AllResolve(flying, promised, bufs) && landed > 0
    ensures flying[0].len == promised[0].len
    ensures Landed(landed - 1, flying[1..], promised[1..], past + [promised[0]], start, store, arith, path)
    ensures AllResolve(flying[1..], promised[1..], bufs)
  {
    assert Resolves(flying[0], promised[0], bufs);
    assert past + promised[..landed] == past + [promised[0]] + promised[1..][..landed - 1];
    forall k | 0 <= k < |flying| - 1 ensures Resolves(flying[1..][k], promised[1..][k], bufs) {
      assert Resolves(flying[k + 1], promised[k + 1], bufs);
    }
  }

  /** Every transfer in flight reads the spare buffer at its place in the window, `done` places on. */
  ghost predicate WindowReads(from: Option<nat>, ring: Ring, done: nat, ahead: nat, flying: seq<Move>, reading: seq<nat>, source: nat, W: nat) {
    && 0 < W <= DMA_MAX_TRANSACTIONS && done + |flying| + ahead <= W
    && match from
       case None => reading == []
       case Some(s) =>
         && source == s && |reading| == done + |flying| + ahead
         && RingHolds(ring, reading, W)
         && forall k :: 0 <= k < |flying| ==> flying[k].op1 == Spare(reading[done + k])
  }

  /** The headers of `past + flying` segments at least have gone out, and all but `behind` of the past ones are acknowledged. */
  ghost predicate HeadersOut(job: Job, T: nat, me: nat, behind: nat, heads: seq<Head>, heads0: seq<Head>, acks: nat, outbound: seq<nat>,
                             outbound0: seq<nat>, past: nat, flying: nat)
    requires T > 0
  {
    && behind <= past && Counters(outbound0)
    && match job.to
       case None => heads == heads0 && acks == |heads0| && outbound == outbound0
       case Some(d) =>
         && d < |outbound0| == |outbound| && outbound == outbound0[d := outbound[d]]
         && |heads0| + past + flying <= |heads|
         && Announced(heads, heads0, acks, outbound[d], d, Cut(job.len, T), job.tag, me, outbound0[d], |heads| - |heads0|, past - behind)
  }

  /** The headers of the first window have gone out. */
  lemma {:induction false} HeadersOpen(job: Job, T: nat, me: nat, W: nat, heads: seq<Head>, heads0: seq<Head>, acks: nat, outbound: seq<nat>)
    requires T > 0 && Counters(outbound) && acks == |heads0| && (job.to.Some? ==> job.to.value < |outbound|)
    requires match job.to
             case None => heads == heads0
             case Some(d) => var c := Cut(job.len, T); heads == heads0 + HeadsOf(d, c[..Min(W, |c|)], job.tag, me, outbound[d])
    ensures HeadersOut(job, T, me, 0, heads, heads0, acks, outbound, outbound, 0, 0)
  {
    if job.to.Some? {
      var d := job.to.value;
      assert outbound[d := outbound[d]] == outbound;
      assert (outbound[d] + 0) % WORD == outbound[d];
    }
  }

  class Engine {
    const T: nat
    const W: nat
    const me: nat
    const arith: Arith
    const pool: Pool

    // The DMA: commands per channel, the transfers they make up, how many of these have been carried out.
    var dmaTag: nat
    var queues: seq<seq<Command>>
    var flying: seq<Move>
    var landed: nat
    var store: Store

    // The packetizer: all headers it was given, how many of its acknowledgements were read, and the last one per rank.
    var outbound: seq<nat>
    var heads: seq<Head>
    var acks: nat

    // The current movement: the store it started from, and the resolved transfers acknowledged and in flight.
    ghost var start: Store
    ghost var call: Call
    ghost var left: Call
    ghost var heads0: seq<Head>
    ghost var outbound0: seq<nat>
    ghost var taken0: seq<nat>
    ghost var past: seq<Move>
    ghost var promised: seq<Move>

    constructor (T: nat, W: nat, me: nat, arith: Arith, pool: Pool, mem: seq<Byte>, ranks: nat)
      requires pool.Valid() && pool.reading == []
      requires T > 0 && 0 < W <= DMA_MAX_TRANSACTIONS && HaveRecords(|pool.bufs|) && ranks > me
      ensures Ready() && this.T == T && this.W == W && this.me == me && this.arith == arith && this.pool == pool
      ensures store == Store(mem, []) && heads == [] && outbound == seq(ranks, _ => 0)
    {
      this.T, this.W, this.me, this.arith, this.pool := T, W, me, arith, pool;
      dmaTag, queues, flying, landed, store := 0, [[], [], [], []], [], 0, Store(mem, []);
      outbound, heads, acks := seq(ranks, _ => 0), [], 0;
      start, past, promised := Store(mem, []), [], [];
      taken0, heads0, outbound0 := [], [], [];
      call, left := Call(Path(false, true), 0, 0, FromMemory(0), 0), Call(Path(false, true), 0, 0, FromMemory(0), 0);
    }

    /** Between two movements nothing is in flight, every acknowledgement has been read, and no spare buffer is held. */
    ghost predicate Ready()
      reads `queues, `flying, `landed, `acks, `heads, `store, `outbound, pool
    {
      && T > 0 && 0 < W <= DMA_MAX_TRANSACTIONS && |pool.bufs| <= 256
      && pool.Valid() && pool.reading == []
      && queues == [[], [], [], []] && flying == [] && landed == 0
      && acks == |heads| == |store.out| && Counters(outbound)
    }

    ghost predicate Tagged(path: Path, tag: nat)
      reads `queues, `flying, `dmaTag
    {
      ChannelsHold(queues, flying, dmaTag, path, tag)
    }

    /** `start_dma`: one command for each channel in use, each with the next tag. */
    method StartDma(m: Move, path: Path, tag: nat) returns (next: nat)
      requires |queues| == CHANNELS
      modifies `queues, `flying
      ensures flying == old(flying) + [m] && |queues| == CHANNELS && next == (tag + One(path.reduce) + 1 + One(path.store)) % 16
      ensures queues[0] == old(queues)[0] + if path.reduce then [Command(m.len, Memory(m.op0), (tag + 1) % 16)] else []
      ensures queues[1] == old(queues)[1] + [Command(m.len, m.op1, (tag + One(path.reduce) + 1) % 16)]
      ensures queues[2] == old(queues)[2] + if path.store then [Command(m.len, Memory(m.tx), (tag + One(path.reduce) + 2) % 16)] else []
      ensures queues[3] == old(queues)[3]
    {
      NextTag(tag, One(path.reduce));
      NextTag(tag, One(path.reduce) + 1);
      next := tag;
      if path.reduce {
        next := (next + 1) % TAG_RANGE;
        queues := queues[0 := queues[0] + [Command(m.len, Memory(m.op0), next)]];
      }
      next := (next + 1) % TAG_RANGE;
      queues := queues[1 := queues[1] + [Command(m.len, m.op1, next)]];
      if path.store {
        next := (next + 1) % TAG_RANGE;
        queues := queues[2 := queues[2] + [Command(m.len, Memory(m.tx), next)]];
      }
      flying := flying + [m];
    }

    /** The commands of one more transfer join those in flight. */
    method Start(m: Move, path: Path, tag: nat) returns (next: nat)
      requires Tagged(path, tag)
      modifies `queues, `flying
      ensures Tagged(path, next) && flying == old(flying) + [m]
    {
      CommandsSnoc(flying, path, dmaTag, m);
      next := StartDma(m, path, tag);
    }

    /** Reads the status of a channel, and checks it against the next tag; only on DMA1_TX are bytes counted. */
    method AckChannel(c: nat, status: DmaStatus, len: nat) returns (code: Code)
      requires c < |queues| && queues[c] != []
      modifies `queues, `dmaTag
      ensures queues == old(queues)[c := old(queues)[c][1..]] && dmaTag == (old(dmaTag) + 1) % 16
      ensures code == Success <==> Accepts(status, len, dmaTag, c == DMA1_TX)
    {
      queues := queues[c := queues[c][1..]];
      dmaTag := (dmaTag + 1) % TAG_RANGE;
      code := CheckStatus(status, len, dmaTag, c == DMA1_TX);
      StatusPasses(status, len, dmaTag, c == DMA1_TX);
    }

    /** `ack_dma`, once each channel in use has a status: it succeeds exactly if all of them are right. */
    method AckDma(len: nat, path: Path, sts: seq<DmaStatus>) returns (code: Code)
      requires |sts| == CHANNELS == |queues|
      requires queues[1] != [] && (path.reduce ==> queues[0] != []) && (path.store ==> queues[2] != [])
      modifies `queues, `flying, `dmaTag
      ensures code == Success <==> AllAccept(sts, len, path, old(dmaTag))
      ensures code == Success && old(flying) != [] ==>
        && flying == old(flying)[1..] && dmaTag == (old(dmaTag) + One(path.reduce) + 1 + One(path.store)) % 16
        && |queues| == CHANNELS && queues[3] == old(queues)[3] && queues[1] == old(queues)[1][1..]
        && queues[0] == (if path.reduce then old(queues)[0][1..] else old(queues)[0])
        && queues[2] == (if path.store then old(queues)[2][1..] else old(queues)[2])
    {
      NextTag(dmaTag, One(path.reduce));
      NextTag(dmaTag, One(path.reduce) + 1);
      code := Success;
      if path.reduce {
        code := AckChannel(0, sts[0], len);
      }
      if code == Success {
        code := AckChannel(1, sts[1], len);
      }
      if code == Success && path.store {
        code := AckChannel(2, sts[2], len);
      }
      flying := if flying == [] then [] else flying[1..];
    }

    /** The channels serve their commands in order and echo them, and then no check fails, although tags repeat in a long window. */
    method AckOldest(len: nat, path: Path, ghost tag: nat) returns (code: Code)
      requires Tagged(path, tag) && flying != [] && flying[0].len == len
      modifies `queues, `flying, `dmaTag
      ensures code == Success
      ensures Tagged(path, tag) && flying == old(flying)[1..]
    {
      ServedInOrder(queues, flying, dmaTag, path, tag);
      code := AckDma(len, path, Served(queues));
    }

    /** The transfers carried out so far are the first ones promised, one after the other. */
    ghost predicate Landing(path: Path)
      reads `landed, `flying, `promised, `past, `start, `store, pool
    {
      Landed(landed, flying, promised, past, start, store, arith, path) && AllResolve(flying, promised, pool.bufs)
    }

    /** The DMA carries out the transfer its oldest commands not yet served make up. */
    method Land(path: Path, ghost tag: nat)
      requires Tagged(path, tag) && Landing(path) && landed < |flying|
      modifies `store, `landed
      ensures Landing(path) && landed == old(landed) + 1
      ensures HasCommands(queues, path, old(landed))
      ensures var m := Told(queues, path, old(landed));
        && (m.op1.Spare? ==> m.op1.index < |pool.bufs|) && Fits(Resolved(m, pool.bufs), path, |old(store).mem|)
        && store == Effect(old(store), arith, path, Resolved(m, pool.bufs))
    {
      ToldIs(flying, path, dmaTag, queues, landed);
      assert Resolves(flying[landed], promised[landed], pool.bufs);
      assert past + promised[..landed + 1] == past + promised[..landed] + [promised[landed]];
      RunSnoc(start, arith, path, past + promised[..landed], promised[landed]);
      var m := Told(queues, path, landed);
      AlikeEffect(store, arith, path, promised[landed], Resolved(m, pool.bufs));
      store := Effect(store, arith, path, Resolved(m, pool.bufs));
      landed := landed + 1;
    }

    /** The DMA works at its own pace. */
    method Progress(path: Path, ghost tag: nat)
      requires Tagged(path, tag) && Landing(path)
      modifies `store, `landed
      ensures Landing(path) && landed >= old(landed)
    {
      var budget: nat := *;
      while budget > 0 && landed < |flying|
        invariant Landing(path) && landed >= old(landed)
      {
        Land(path, tag);
        budget := budget - 1;
      }
    }

    /** `start_packetizer_message`: one header per segment, for at most a window of them. */
    method StartMessage(dst: nat, len: nat, tag: nat, offset: nat)
      requires T > 0 && dst < |outbound|
      modifies `heads
      ensures var c := Cut(len, T);
        heads == old(heads) + HeadsOf(dst, c[..Min(W, |c|)], tag, me, outbound[dst] + offset)
    {
      ghost var c, s0 := Cut(len, T), outbound[dst] + offset;
      var remaining: nat, seqNum, i := len, (outbound[dst] + offset) % WORD, 0;
      assert heads == old(heads) + HeadsOf(dst, c[..0], tag, me, s0);
      while remaining > 0 && i < W
        invariant i <= W && i <= |c| && c[i..] == Cut(remaining, T)
        invariant seqNum == (s0 + i) % WORD
        invariant heads == old(heads) + HeadsOf(dst, c[..i], tag, me, s0)
        decreases remaining
      {
        NextNumber(s0 + i);
        seqNum := (seqNum + 1) % WORD;
        var n := if remaining > T then T else remaining;
        CutStep(c, i, remaining, T);
        HeadsExtend(dst, c, tag, me, s0, i);
        heads := heads + [Head(dst, n, tag, me, seqNum)];
        remaining, i := remaining - n, i + 1;
      }
      assert i == Min(W, |c|);
    }

    /**
     `ack_packetizer` for one packet. The packetizer answers headers in order, each once its payload has gone out. The
     answer is compared with the next number of the rank, whichever rank the answered header was for.
     */
    method AckPacketizer(dst: nat) returns (code: Code)
      requires dst < |outbound| && acks < |heads| && acks < |store.out|
      modifies `outbound, `acks
      ensures code == (if heads[old(acks)].seqNum == (old(outbound)[dst] + 1) % WORD then Success else PackSeqNumber)
      ensures acks == old(acks) + 1
      ensures outbound == if code == Success then old(outbound)[dst := (old(outbound)[dst] + 1) % WORD] else old(outbound)
    {
      var answer := heads[acks].seqNum;
      acks := acks + 1;
      if (outbound[dst] + 1) % WORD == answer {
        outbound := outbound[dst := (outbound[dst] + 1) % WORD];
        code := Success;
      } else {
        code := PackSeqNumber;
      }
    }

    /**
     Every transfer in flight reads memory, or the spare buffer at its place in the window. The window may still hold
     `done` buffers of transfers that are over, and `ahead` buffers of transfers about to be issued.
     */
    ghost predicate Receiving(job: Job, ring: Ring, done: nat, ahead: nat)
      reads `flying, pool
    {
      pool.Valid() && |pool.bufs| <= 256 && WindowReads(job.from, ring, done, ahead, flying, pool.reading, pool.from, W)
    }

    /** The packets still to be received in a job, and those expected after it, have landed, and a receive tries at least once. */
    ghost predicate Eager(job: Job, toMove: nat, attempts: nat, x: Expected)
      reads pool
    {
      && T > 0 && (job.from.Some? ==> attempts > 0 && job.from.value == x.src && job.tag == x.tag)
      && forall u: nat {:trigger Unfold(u)} :: u == 3 && Unfold(u) ==>
           AllLanded(pool.Now(), x.src, (if job.from.Some? then Cut(toMove, T) else []) + x.more, x.tag)
    }

    lemma {:induction false} EagerNext(job: Job, toMove: nat, len: nat, attempts: nat, x: Expected)
      requires Eager(job, toMove, attempts, x) && job.from.Some? && toMove > 0 && len == Min(toMove, T)
      ensures pool.NextLanded(job.from.value, len, job.tag)
    {
      assert Unfold(3);
      var v, src := pool.Now(), job.from.value;
      assert LandedAt(v, src, v.taken[src] + 0, (Cut(toMove, T) + x.more)[0], job.tag);
    }

    lemma {:induction false} EagerOn(job: Job, toMove: nat, len: nat, attempts: nat, x: Expected, v: View)
      requires T > 0 && attempts > 0 && job.from == Some(v.from) && v.from == x.src && job.tag == x.tag && toMove > 0 && len == Min(toMove, T)
      requires AllLanded(v, v.from, Cut(toMove, T) + x.more, job.tag)
      requires MovedOn(v, pool.Now()) && pool.taken == v.taken[v.from := v.taken[v.from] + 1]
      ensures Eager(job, toMove - len, attempts, x)
    {
      LensOn(Cut(toMove, T), Cut(toMove - len, T), x.more);
      LandedOn(v, pool.Now(), Cut(toMove, T) + x.more, Cut(toMove - len, T) + x.more, job.tag);
    }

    lemma {:induction false} EagerStays(job: Job, toMove: nat, attempts: nat, x: Expected, v: View)
      requires T > 0 && attempts > 0 && job.from == Some(v.from) && v.from == x.src && job.tag == x.tag
      requires AllLanded(v, v.from, Cut(toMove, T) + x.more, job.tag)
      requires SpareBuffers.Sound(v) && v.reading != [] && v.reading[0] < |v.bufs|
      requires pool.Now() == v.(bufs := v.bufs[v.reading[0] := v.bufs[v.reading[0]].(status := Idle)], origin := v.origin - {v.reading[0]},
                                reading := v.reading[1..])
      ensures Eager(job, toMove, attempts, x)
    {
      LandedFree(v, pool.Now(), Cut(toMove, T) + x.more, job.tag);
    }

    lemma {:induction false} EagerLands(job: Job, toMove: nat, attempts: nat, x: Expected)
      requires Eager(job, toMove, attempts, x) && job.from.Some?
      ensures job.from.value == x.src && job.tag == x.tag && attempts > 0
      ensures AllLanded(pool.Now(), job.from.value, Cut(toMove, T) + x.more, job.tag)
    {
      assert Unfold(3);
    }

    /** Waits for the next segment, of which `toMove` bytes and more are still to come. */
    method Await(job: Job, len: nat, attempts: nat, ghost toMove: nat, ghost x: Expected) returns (code: Code, i: int)
      requires pool.Valid() && job.from == Some(pool.from) && |pool.reading| < SpareBuffers.DMA_MAX_TRANSACTIONS
      modifies pool
      ensures pool.Valid() && pool.from == old(pool.from) && |pool.taken| == |old(pool.taken)| && Undisturbed(old(pool.bufs), pool.bufs)
      ensures code == Success || code == ReceiveTimeout
      ensures code == Success ==> pool.Took(i, pool.from, old(pool.taken), old(pool.reading), len, job.tag)
      ensures old(Eager(job, toMove, attempts, x)) && toMove > 0 && len == Min(toMove, T) ==> code == Success && Eager(job, toMove - len, attempts, x)
    {
      ghost var v, eager := pool.Now(), Eager(job, toMove, attempts, x) && toMove > 0 && len == Min(toMove, T);
      if eager {
        EagerNext(job, toMove, len, attempts, x);
        EagerLands(job, toMove, attempts, x);
      }
      code, i := pool.WaitReceive(job.from.value, len, job.tag, attempts);
      if eager {
        EagerOn(job, toMove, len, attempts, x, v);
      }
    }

    /** The buffer the next segment is in; what keeps arriving meanwhile does not change the buffers being read. */
    method Fetch(job: Job, ring: Ring, len: nat, attempts: nat, ghost toMove: nat, ghost x: Expected) returns (code: Code, index: nat, after: Ring)
      requires job.from.Some? && Receiving(job, ring, 0, 0) && Landing(job.path) && |flying| < W
      modifies pool
      ensures code == Success || code == ReceiveTimeout
      ensures code == Success ==>
        && Receiving(job, after, 0, 1) && Landing(job.path)
        && pool.reading == old(pool.reading) + [index] && index < |pool.bufs|
        && pool.taken == old(pool.taken)[pool.from := old(pool.taken)[pool.from] + 1]
        && pool.bufs[index].data == pool.wire(pool.from, old(pool.taken)[pool.from]).data
        && |pool.bufs[index].data| == len
      ensures old(Eager(job, toMove, attempts, x)) && toMove > 0 && len == Min(toMove, T) ==> code == Success && Eager(job, toMove - len, attempts, x)
    {
      ghost var before := pool.bufs;
      forall k | 0 <= k < |flying| ensures pool.reading[k] < |before| && before[pool.reading[k]].status == Reserved {
        pool.WindowHolds(k);
      }
      var i;
      code, i := Await(job, len, attempts, toMove, x);
      index, after := 0, ring;
      if code == Success {
        index := i;
        RingPush(ring, old(pool.reading), W, index);
        after := Ring(ring.indexes[ring.last := Truncate8(index)], ring.first, (ring.last + 1) % W);
        pool.WindowHolds(|flying|);
        forall k | 0 <= k < |flying| ensures Resolves(flying[k], promised[k], pool.bufs) {
          assert pool.reading[k] == old(pool.reading)[k];
          assert Resolves(flying[k], promised[k], before);
        }
      }
    }

    /**
     The packetizer has been given the headers of all segments in flight, and maybe of some to come; `behind` segments that
     are over await its acknowledgement.
     */
    ghost predicate Sending(job: Job, behind: nat)
      reads `start, `heads, `acks, `outbound, `past, `flying, `heads0, `outbound0
    {
      && T > 0 && |start.out| == |heads0| && job.path.store == job.to.None?
      && HeadersOut(job, T, me, behind, heads, heads0, acks, outbound, outbound0, |past|, |flying|)
    }

    /** Announces one segment, as the loop does when all but one of the window's segments await acknowledgement. */
    method Announce(job: Job, len: nat)
      requires Sending(job, 0) && job.to.Some? && 0 < len <= T && 0 < W
      requires |heads| - |heads0| == |past| + |flying| == |past| + W - 1
      requires |past| + |flying| < |Cut(job.len, T)| && Cut(job.len, T)[|past| + |flying|] == len
      modifies `heads
      ensures Sending(job, 0) && |heads| == |old(heads)| + 1
    {
      assert Cut(len, T) == [len];
      AnnounceNext(heads, heads0, acks, outbound[job.to.value], job.to.value, Cut(job.len, T), job.tag, me, outbound0[job.to.value], |past| + W - 1, |past|, len);
      StartMessage(job.to.value, len, job.tag, W - 1);
    }

    /** The header of the next segment is out, or goes out now. */
    method AnnounceIf(job: Job, len: nat, announce: bool)
      requires Sending(job, 0) && 0 < len <= T && 0 < W
      requires job.to.Some? ==> |past| + |flying| < |Cut(job.len, T)| && Cut(job.len, T)[|past| + |flying|] == len
      requires announce && job.to.Some? ==> |heads| - |heads0| == |past| + |flying| == |past| + W - 1
      requires !announce && job.to.Some? ==> |past| + |flying| < |heads| - |heads0|
      modifies `heads
      ensures Sending(job, 0) && (job.to.Some? ==> |past| + |flying| < |heads| - |heads0|)
      ensures |heads| == |old(heads)| + (if announce && job.to.Some? then 1 else 0)
    {
      if announce && job.to.Some? {
        Announce(job, len);
      }
    }

    /** Starts the DMA on a segment whose operand 1 is at hand. */
    method Launch(job: Job, w: Window, m: Move, ghost r: Move) returns (tag: nat)
      requires Tagged(job.path, w.tag) && Landing(job.path) && Receiving(job, w.ring, 0, if job.from.Some? then 1 else 0) && |flying| < W
      requires job.from.Some? ==> m.op1 == Spare(pool.reading[|flying|])
      requires Resolves(m, r, pool.bufs) && Fits(r, job.path, |start.mem|)
      modifies `queues, `flying, `promised
      ensures Tagged(job.path, tag) && Landing(job.path) && Receiving(job, w.ring, 0, 0)
      ensures flying == old(flying) + [m] && promised == old(promised) + [r]
    {
      tag := Start(m, job.path, w.tag);
      assert (promised + [r])[..landed] == promised[..landed];
      promised := promised + [r];
    }

    /** The DMA, the window of spare buffers and the packetizer are in step. */
    ghost predicate Working(job: Job, ring: Ring, tag: nat)
      reads `queues, `flying, `dmaTag, `landed, `promised, `past, `start, `store, pool
      reads `heads, `acks, `outbound, `heads0, `outbound0
    {
      forall k {:trigger Unfold(k)} :: k == 1 && Unfold(k) ==>
        Tagged(job.path, tag) && Landing(job.path) && Receiving(job, ring, 0, 0) && Sending(job, 0)
    }

    /** The state between two steps of a windowed loop. */
    ghost predicate Flight(job: Job, w: Window)
      reads this, pool
    {
      T > 0 && W > 0 && forall k {:trigger Unfold(k)} :: k == 0 && Unfold(k) ==>
        && Working(job, w.ring, w.tag) && |flying| == |promised| <= W
        && call.len == job.len && call.path == job.path && StandsAt(job, w, left, taken0, |past| + |flying|, pool.taken)
        && Moving(call, left, w.toAck, T, WireOf(pool.wire, job.from), past, promised, |start.mem|)
    }

    /** How the segments in flight relate to those still to be moved and acknowledged. */
    lemma {:induction false} Positions(job: Job, w: Window)
      requires Flight(job, w)
      ensures |flying| <= W && (flying != [] ==> w.toAck > 0)
      ensures var c, k := Cut(job.len, T), |past| + |flying|;
        if w.toMove == 0 then k == |c| else k < |c| && c[k] == Min(w.toMove, T)
      ensures w.toMove == 0 && w.toAck > 0 ==> flying != []
    {
      assert Unfold(0);
      NextLength(call, left, w.toAck, T, WireOf(pool.wire, job.from), past, promised, |start.mem|);
      InFlight(call, left, w.toAck, T, WireOf(pool.wire, job.from), past, promised, |start.mem|);
    }

    /** The spare buffer the next packet has been found in. */
    method PrepareSpare(job: Job, w: Window, len: nat, attempts: nat, ghost x: Expected) returns (code: Code, op1: Source, ring: Ring)
      requires job.from.Some? && Landing(job.path) && Receiving(job, w.ring, 0, 0) && |flying| < W
      modifies pool
      ensures code == Success || code == ReceiveTimeout
      ensures code == Success ==>
        && Landing(job.path) && Receiving(job, ring, 0, 1)
        && var s := job.from.value;
           && op1 == Spare(pool.reading[|flying|]) && op1.index < |pool.bufs|
           && s < |old(pool.taken)|
           && pool.taken == old(pool.taken)[s := old(pool.taken)[s] + 1]
           && pool.bufs[op1.index].data == pool.wire(s, old(pool.taken)[s]).data && |pool.bufs[op1.index].data| == len
      ensures old(Eager(job, w.toMove, attempts, x)) && w.toMove > 0 && len == Min(w.toMove, T) ==> code == Success && Eager(job, w.toMove - len, attempts, x)
    {
      var index;
      code, index, ring := Fetch(job, w.ring, len, attempts, w.toMove, x);
      op1 := Spare(index);
    }

    /** Where the next segment's operand 1 is: in memory, or in the spare buffer the next packet has been found in. */
    method Prepare(job: Job, w: Window, len: nat, attempts: nat, ghost x: Expected) returns (code: Code, op1: Source, v: Window)
      requires Tagged(job.path, w.tag) && Landing(job.path) && Receiving(job, w.ring, 0, 0) && |flying| < W
      modifies `store, `landed, pool
      ensures code == Success || (code == ReceiveTimeout && job.from.Some?)
      ensures code == Success ==>
        && Tagged(job.path, v.tag) && Landing(job.path) && Receiving(job, v.ring, 0, if job.from.Some? then 1 else 0)
        && v == w.(ring := v.ring)
        && match job.from
           case None => op1 == Memory(w.op1) && pool.taken == old(pool.taken)
           case Some(s) =>
             && op1 == Spare(pool.reading[|flying|]) && op1.index < |pool.bufs|
             && s < |old(pool.taken)|
             && pool.taken == old(pool.taken)[s := old(pool.taken)[s] + 1]
             && pool.bufs[op1.index].data == pool.wire(s, old(pool.taken)[s]).data && |pool.bufs[op1.index].data| == len
      ensures old(Eager(job, w.toMove, attempts, x)) && w.toMove > 0 && len == Min(w.toMove, T) ==> code == Success && Eager(job, w.toMove - len, attempts, x)
    {
      Progress(job.path, w.tag);
      code, op1, v := Success, Memory(w.op1), w;
      if job.from.Some? {
        var ring;
        code, op1, ring := PrepareSpare(job, w, len, attempts, x);
        v := w.(ring := ring);
      }
    }

    /** Announces the segment if `announce` says so, and starts the DMA on it. */
    method Emit(job: Job, w: Window, m: Move, ghost r: Move, announce: bool) returns (tag: nat)
      requires Tagged(job.path, w.tag) && Landing(job.path) && Receiving(job, w.ring, 0, if job.from.Some? then 1 else 0) && Sending(job, 0)
      requires 0 < m.len <= T && |flying| < W
      requires job.from.Some? ==> m.op1 == Spare(pool.reading[|flying|])
      requires Resolves(m, r, pool.bufs) && Fits(r, job.path, |start.mem|)
      requires job.to.Some? ==> |past| + |flying| < |Cut(job.len, T)| && Cut(job.len, T)[|past| + |flying|] == m.len
      requires announce && job.to.Some? ==> |heads| - |heads0| == |past| + |flying| == |past| + W - 1
      requires !announce && job.to.Some? ==> |past| + |flying| < |heads| - |heads0|
      modifies `heads, `queues, `flying, `promised
      ensures Tagged(job.path, tag) && Landing(job.path) && Receiving(job, w.ring, 0, 0) && Sending(job, 0)
      ensures |flying| == |old(flying)| + 1 && promised == old(promised) + [r]
      ensures |heads| == |old(heads)| + (if announce && job.to.Some? then 1 else 0)
    {
      AnnounceIf(job, m.len, announce);
      tag := Launch(job, w, m, r);
    }

    /** The same for a segment whose operand 1 has been found. */
    method Dispatch(job: Job, w: Window, op1: Source, len: nat, announce: bool, ghost taken: seq<nat>) returns (tag: nat, ghost r: Move)
      requires Tagged(job.path, w.tag) && Landing(job.path) && Receiving(job, w.ring, 0, if job.from.Some? then 1 else 0) && Sending(job, 0)
      requires 0 < len <= T && |flying| < W
      requires job.path.reduce ==> w.op0 + len <= |start.mem|
      requires job.path.store ==> w.tx + len <= |start.mem|
      requires job.from.None? ==> w.op1 + len <= |start.mem|
      requires match job.from
               case None => op1 == Memory(w.op1) && pool.taken == taken
               case Some(s) =>
                 && op1 == Spare(pool.reading[|flying|]) && op1.index < |pool.bufs| && s < |taken| && pool.taken == taken[s := taken[s] + 1]
                 && pool.bufs[op1.index].data == pool.wire(s, taken[s]).data && |pool.bufs[op1.index].data| == len
      requires job.to.Some? ==> |past| + |flying| < |Cut(job.len, T)| && Cut(job.len, T)[|past| + |flying|] == len
      requires announce && job.to.Some? ==> |heads| - |heads0| == |past| + |flying| == |past| + W - 1
      requires !announce && job.to.Some? ==> |past| + |flying| < |heads| - |heads0|
      modifies `heads, `queues, `flying, `promised
      ensures Tagged(job.path, tag) && Landing(job.path) && Receiving(job, w.ring, 0, 0) && Sending(job, 0)
      ensures |flying| == |old(flying)| + 1 && promised == old(promised) + [r]
      ensures |heads| == |old(heads)| + (if announce && job.to.Some? then 1 else 0)
      ensures Supplied(job, w, len, taken, pool.taken, pool.wire, r)
    {
      var m := Move(len, w.op0, op1, w.tx);
      SegmentFound(job, w, len, op1, pool.bufs, taken, pool.taken, pool.wire, |start.mem|);
      r := Resolved(m, pool.bufs);
      tag := Emit(job, w, m, r, announce);
    }

    /** Waits for the next segment if it comes from a peer, announces it if need be, and starts the DMA on it. */
    method SupplyNext(job: Job, w: Window, len: nat, announce: bool, attempts: nat, ghost x: Expected)
      returns (code: Code, v: Window, ghost r: Move)
      requires Tagged(job.path, w.tag) && Landing(job.path) && Receiving(job, w.ring, 0, 0) && Sending(job, 0)
      requires 0 < len <= T && |flying| < W
      requires job.path.reduce ==> w.op0 + len <= |start.mem|
      requires job.path.store ==> w.tx + len <= |start.mem|
      requires job.from.None? ==> w.op1 + len <= |start.mem|
      requires job.to.Some? ==> |past| + |flying| < |Cut(job.len, T)| && Cut(job.len, T)[|past| + |flying|] == len
      requires announce && job.to.Some? ==> |heads| - |heads0| == |past| + |flying| == |past| + W - 1
      requires !announce && job.to.Some? ==> |past| + |flying| < |heads| - |heads0|
      modifies `store, `landed, `heads, `queues, `flying, `promised, pool
      ensures code == Success || (code == ReceiveTimeout && job.from.Some?)
      ensures code == Success ==>
        && Tagged(job.path, v.tag) && Landing(job.path) && Receiving(job, v.ring, 0, 0) && Sending(job, 0)
        && v == w.(ring := v.ring, tag := v.tag)
        && |flying| == |old(flying)| + 1 && promised == old(promised) + [r]
        && |heads| == |old(heads)| + (if announce && job.to.Some? then 1 else 0)
        && Supplied(job, w, len, old(pool.taken), pool.taken, pool.wire, r)
      ensures old(Eager(job, w.toMove, attempts, x)) && w.toMove > 0 && len == Min(w.toMove, T) ==> code == Success && Eager(job, w.toMove - len, attempts, x)
    {
      var op1;
      code, op1, v := Prepare(job, w, len, attempts, x);
      r := Move(0, 0, Memory(0), 0);
      if code == Success {
        var tag;
        tag, r := Dispatch(job, v, op1, len, announce, old(pool.taken));
        v := v.(tag := tag);
      }
    }

    /** The same, with the state taken as a whole. */
    method Supply(job: Job, w: Window, len: nat, announce: bool, attempts: nat, ghost x: Expected)
      returns (code: Code, v: Window, ghost r: Move)
      requires Working(job, w.ring, w.tag) && 0 < len <= T && |flying| < W
      requires job.path.reduce ==> w.op0 + len <= |start.mem|
      requires job.path.store ==> w.tx + len <= |start.mem|
      requires job.from.None? ==> w.op1 + len <= |start.mem|
      requires job.to.Some? ==> |past| + |flying| < |Cut(job.len, T)| && Cut(job.len, T)[|past| + |flying|] == len
      requires announce && job.to.Some? ==> |heads| - |heads0| == |past| + |flying| == |past| + W - 1
      requires !announce && job.to.Some? ==> |past| + |flying| < |heads| - |heads0|
      modifies `store, `landed, `heads, `queues, `flying, `promised, pool
      ensures code == Success || (code == ReceiveTimeout && job.from.Some?)
      ensures code == Success ==>
        && Working(job, v.ring, v.tag) && v == w.(ring := v.ring, tag := v.tag)
        && |flying| == |old(flying)| + 1 && promised == old(promised) + [r]
        && |heads| == |old(heads)| + (if announce && job.to.Some? then 1 else 0)
        && Supplied(job, w, len, old(pool.taken), pool.taken, pool.wire, r)
      ensures old(Eager(job, w.toMove, attempts, x)) && w.toMove > 0 && len == Min(w.toMove, T) ==> code == Success && Eager(job, w.toMove - len, attempts, x)
    {
      InStep(job, w.ring, w.tag);
      code, v, r := SupplyNext(job, w, len, announce, attempts, x);
    }

    lemma {:induction false} InStep(job: Job, ring: Ring, tag: nat)
      requires Working(job, ring, tag)
      ensures Tagged(job.path, tag) && Landing(job.path) && Receiving(job, ring, 0, 0) && Sending(job, 0)
    {
      assert Unfold(1);
    }

    /** Issues the next segment of the plan; what is left of the plan has still to be noted. */
    method IssueNext(job: Job, w: Window, len: nat, announce: bool, attempts: nat, ghost x: Expected)
      returns (code: Code, v: Window)
      requires Working(job, w.ring, w.tag) && |flying| == |promised| < W && call.len == job.len && call.path == job.path
      requires StandsAt(job, w, left, taken0, |past| + |promised|, pool.taken)
      requires Moving(call, left, w.toAck, T, WireOf(pool.wire, job.from), past, promised, |start.mem|)
      requires w.toMove > 0 && len == Min(w.toMove, T)
      requires announce && job.to.Some? ==> |heads| - |heads0| == |past| + |flying| == |past| + W - 1
      requires !announce && job.to.Some? ==> |past| + |flying| < |heads| - |heads0|
      modifies `store, `landed, `heads, `queues, `flying, `promised, pool
      ensures code == Success || (code == ReceiveTimeout && job.from.Some?)
      ensures code == Success ==>
        && Working(job, v.ring, v.tag) && |flying| == |promised| == |old(flying)| + 1
        && v == Advance(w, len).(ring := v.ring, tag := v.tag)
        && StandsAt(job, v, Rest(left, T), taken0, |past| + |promised|, pool.taken)
        && Moving(call, Rest(left, T), w.toAck, T, WireOf(pool.wire, job.from), past, promised, |start.mem|)
        && |heads| == |old(heads)| + (if announce && job.to.Some? then 1 else 0)
      ensures old(Eager(job, w.toMove, attempts, x)) ==> code == Success && Eager(job, w.toMove - len, attempts, x)
    {
      ghost var taken, before := pool.taken, promised;
      NextLength(call, left, w.toAck, T, WireOf(pool.wire, job.from), past, promised, |start.mem|);
      ghost var r;
      code, v, r := Supply(job, w, len, announce, attempts, x);
      if code == Success {
        PlanOn(job, w, v, len, left, r, before, taken);
        v := Advance(v, len);
      }
    }

    lemma {:induction false} InFlightNow(job: Job, w: Window)
      requires Flight(job, w)
      ensures Working(job, w.ring, w.tag) && |flying| == |promised| <= W && call.len == job.len && call.path == job.path
      ensures StandsAt(job, w, left, taken0, |past| + |promised|, pool.taken)
      ensures Moving(call, left, w.toAck, T, WireOf(pool.wire, job.from), past, promised, |start.mem|)
    {
      assert Unfold(0);
    }

    /** Issues the next segment of the plan. */
    method Issue(job: Job, w: Window, len: nat, announce: bool, attempts: nat, ghost x: Expected)
      returns (code: Code, v: Window)
      requires Flight(job, w) && w.toMove > 0 && len == Min(w.toMove, T) && |flying| < W
      requires announce && job.to.Some? ==> |heads| - |heads0| == |past| + |flying| == |past| + W - 1
      requires !announce && job.to.Some? ==> |past| + |flying| < |heads| - |heads0|
      modifies `store, `landed, `heads, `queues, `flying, `promised, `left, pool
      ensures code == Success || (code == ReceiveTimeout && job.from.Some?)
      ensures code == Success ==>
        && Flight(job, v) && v.toMove == w.toMove - len && v.toAck == w.toAck
        && |flying| == |old(flying)| + 1
        && |heads| == |old(heads)| + (if announce && job.to.Some? then 1 else 0)
      ensures old(Eager(job, w.toMove, attempts, x)) ==> code == Success && Eager(job, w.toMove - len, attempts, x)
    {
      InFlightNow(job, w);
      code, v := IssueNext(job, w, len, announce, attempts, x);
      if code == Success {
        left := Rest(left, T);
      }
    }

    /** The plan after one more segment `r`. */
    lemma {:induction false} PlanOn(job: Job, w: Window, v: Window, len: nat, l: Call, r: Move, before: seq<Move>, taken: seq<nat>)
      requires w.toMove > 0 && len == Min(w.toMove, T) && v == w.(ring := v.ring, tag := v.tag)
      requires StandsAt(job, w, l, taken0, |past| + |before|, taken) && Supplied(job, w, len, taken, pool.taken, pool.wire, r)
      requires Moving(call, l, w.toAck, T, WireOf(pool.wire, job.from), past, before, |start.mem|)
      ensures StandsAt(job, Advance(v, len), Rest(l, T), taken0, |past| + (|before| + 1), pool.taken)
      ensures Moving(call, Rest(l, T), w.toAck, T, WireOf(pool.wire, job.from), past, before + [r], |start.mem|)
    {
      StandsNext(job, w, v, len, l, taken0, |past| + |before|, taken, pool.taken, T, pool.wire, r);
      MoveOn(call, l, w.toAck, T, WireOf(pool.wire, job.from), past, before, |start.mem|);
    }

    /** The DMA gets at least its oldest transfer done. */
    method Catch(path: Path, ghost tag: nat)
      requires Tagged(path, tag) && Landing(path) && flying != []
      modifies `store, `landed
      ensures Landing(path) && landed > 0
    {
      Progress(path, tag);
      if landed == 0 {
        Land(path, tag);
      }
    }

    /** Waits for the oldest transfer on every channel. */
    method Settle(job: Job, w: Window, len: nat) returns (code: Code)
      requires Tagged(job.path, w.tag) && Landing(job.path) && flying != [] && promised[0].len == len
      modifies `store, `landed, `queues, `flying, `dmaTag, `past, `promised
      ensures code == Success && Tagged(job.path, w.tag) && Landing(job.path)
      ensures flying == old(flying)[1..] && promised == old(promised)[1..] && past == old(past) + [old(promised[0])]
    {
      Catch(job.path, w.tag);
      OldestOver(landed, flying, promised, past, start, store, arith, job.path, pool.bufs);
      code := AckOldest(len, job.path, w.tag);
      past, promised, landed := past + [promised[0]], promised[1..], landed - 1;
    }

    /** Hands back the spare buffer of the oldest transfer, once it is over. */
    method Release(job: Job, ring: Ring, ghost toMove: nat, ghost attempts: nat, ghost x: Expected) returns (after: Ring)
      requires job.from.Some? && Receiving(job, ring, 1, 0) && Landing(job.path)
      modifies pool
      ensures Receiving(job, after, 0, 0) && Landing(job.path)
      ensures pool.taken == old(pool.taken) && (old(Eager(job, toMove, attempts, x)) ==> Eager(job, toMove, attempts, x))
    {
      ghost var v, eager := pool.Now(), Eager(job, toMove, attempts, x);
      if eager {
        EagerLands(job, toMove, attempts, x);
      }
      RingPop(ring, pool.reading, W);
      var i := ring.indexes[ring.first];
      after := ring.(first := (ring.first + 1) % W);
      ghost var before := pool.bufs;
      pool.Free(i);
      if eager {
        EagerStays(job, toMove, attempts, x, v);
      }
      forall k | 0 <= k < |flying| ensures Resolves(flying[k], promised[k], pool.bufs) {
        assert Resolves(flying[k], promised[k], before);
      }
    }

    /** Reads the packetizer's answer for a segment that is over. */
    method Acknowledge(job: Job) returns (code: Code)
      requires job.to.Some? && Sending(job, 1) && Landing(job.path)
      modifies `outbound, `acks
      ensures code == Success && Sending(job, 0)
    {
      RunOut(start, arith, job.path, past + promised[..landed]);
      AnswerDue(heads, heads0, acks, outbound[job.to.value], job.to.value, Cut(job.len, T), job.tag, me, outbound0[job.to.value],
                |heads| - |heads0|, |past| - 1);
      code := AckPacketizer(job.to.value);
    }

    /** The oldest transfer is over: its spare buffer is still held, and its packet still to be acknowledged. */
    method SettleOldest(job: Job, w: Window, len: nat) returns (code: Code)
      requires Tagged(job.path, w.tag) && Landing(job.path) && Receiving(job, w.ring, 0, 0) && Sending(job, 0)
      requires flying != [] && promised[0].len == len
      modifies `store, `landed, `queues, `flying, `dmaTag, `past, `promised
      ensures code == Success
      ensures Tagged(job.path, w.tag) && Landing(job.path) && Receiving(job, w.ring, 1, 0) && Sending(job, 1)
      ensures flying == old(flying)[1..] && promised == old(promised)[1..] && past == old(past) + [old(promised[0])]
    {
      code := Settle(job, w, len);
    }

    /** Acknowledges the oldest segment: its transfer, then its packet, and then its spare buffer is free again. */
    method CompleteOldest(job: Job, w: Window, len: nat, ghost attempts: nat, ghost x: Expected) returns (code: Code, ring: Ring)
      requires Tagged(job.path, w.tag) && Landing(job.path) && Receiving(job, w.ring, 0, 0) && Sending(job, 0)
      requires flying != [] && promised[0].len == len
      modifies `store, `landed, `queues, `flying, `dmaTag, `past, `promised, `outbound, `acks, pool
      ensures code == Success
      ensures Tagged(job.path, w.tag) && Landing(job.path) && Receiving(job, ring, 0, 0) && Sending(job, 0)
      ensures |flying| == |old(flying)| - 1 && promised == old(promised)[1..] && past == old(past) + [old(promised[0])]
      ensures pool.taken == old(pool.taken) && (old(Eager(job, w.toMove, attempts, x)) ==> Eager(job, w.toMove, attempts, x))
    {
      code := SettleOldest(job, w, len);
      ring := w.ring;
      if code == Success && job.to.Some? {
        code := Acknowledge(job);
      }
      if code == Success && job.from.Some? {
        ring := Release(job, w.ring, w.toMove, attempts, x);
      }
    }

    method Complete(job: Job, w: Window, len: nat, ghost attempts: nat, ghost x: Expected) returns (code: Code, ring: Ring)
      requires Working(job, w.ring, w.tag) && flying != [] && |promised| == |flying| && promised[0].len == len
      modifies `store, `landed, `queues, `flying, `dmaTag, `past, `promised, `outbound, `acks, pool
      ensures code == Success
      ensures Working(job, ring, w.tag)
      ensures |flying| == |old(flying)| - 1 && promised == old(promised)[1..] && past == old(past) + [old(promised[0])]
      ensures pool.taken == old(pool.taken) && (old(Eager(job, w.toMove, attempts, x)) ==> Eager(job, w.toMove, attempts, x))
    {
      InStep(job, w.ring, w.tag);
      code, ring := CompleteOldest(job, w, len, attempts, x);
    }

    /** The same, following the plan. */
    method Retire(job: Job, w: Window, len: nat, ghost attempts: nat, ghost x: Expected) returns (code: Code, v: Window)
      requires Flight(job, w) && flying != [] && len == Min(w.toAck, T)
      modifies `store, `landed, `queues, `flying, `dmaTag, `past, `promised, `outbound, `acks, pool
      ensures code == Success && len > 0
      ensures Flight(job, v) && v.toMove == w.toMove && v.toAck == w.toAck - len
      ensures |flying| == |old(flying)| - 1 && |past| == |old(past)| + 1
      ensures pool.taken == old(pool.taken) && (old(Eager(job, w.toMove, attempts, x)) ==> Eager(job, w.toMove, attempts, x))
    {
      InFlightNow(job, w);
      AckOn(call, left, w.toAck, T, WireOf(pool.wire, job.from), past, promised, |start.mem|);
      var ring;
      code, ring := Complete(job, w, len, attempts, x);
      v := w.(toAck := w.toAck - len, ring := ring);
    }

    /** The first of the three loops fills the window. */
    method Fill(job: Job, w: Window, attempts: nat, ghost x: Expected) returns (code: Code, v: Window)
      requires Flight(job, w) && flying == [] && past == []
      requires job.to.Some? ==> |heads| - |heads0| == Min(W, |Cut(job.len, T)|)
      modifies `store, `landed, `heads, `queues, `flying, `promised, `left, pool
      ensures code == Success || (code == ReceiveTimeout && job.from.Some?)
      ensures code == Success ==> Flight(job, v)
      ensures code == Success ==> v.toMove == 0 || (|flying| == W && (job.to.Some? ==> |heads| - |heads0| == W))
      ensures old(Eager(job, w.toMove, attempts, x)) ==> code == Success && Eager(job, v.toMove, attempts, x)
    {
      code, v := Success, w;
      var len, i := T, 0;
      while v.toMove > 0 && i < W
        invariant code == Success && |flying| == i <= W
        invariant Flight(job, v)
        invariant v.toMove > 0 ==> len == T
        invariant job.to.Some? ==> |heads| - |heads0| == Min(W, |Cut(job.len, T)|)
        invariant old(Eager(job, w.toMove, attempts, x)) ==> Eager(job, v.toMove, attempts, x)
        decreases W - i
      {
        if v.toMove < T {
          len := v.toMove;
        }
        Positions(job, v);
        code, v := Issue(job, v, len, false, attempts, x);
        if code != Success {
          return;
        }
        i := i + 1;
      }
      Positions(job, v);
    }

    /** The second loop acknowledges one segment and issues the next, until all are issued. */
    method Slide(job: Job, w: Window, attempts: nat, ghost x: Expected) returns (code: Code, v: Window, lenAck: nat)
      requires Flight(job, w)
      requires w.toMove > 0 ==> |flying| == W && (job.to.Some? ==> |heads| - |heads0| == |past| + W)
      modifies `store, `landed, `heads, `queues, `flying, `dmaTag, `past, `promised, `left, `outbound, `acks, pool
      ensures code == Success || (code == ReceiveTimeout && job.from.Some?)
      ensures code == Success ==> Flight(job, v) && v.toMove == 0 && (lenAck == T || v.toAck == 0)
      ensures old(Eager(job, w.toMove, attempts, x)) ==> code == Success && Eager(job, 0, attempts, x)
    {
      code, v := Success, w;
      var len := T;
      lenAck := T;
      while v.toMove > 0
        invariant code == Success && Flight(job, v)
        invariant v.toMove > 0 ==> len == T && |flying| == W && (job.to.Some? ==> |heads| - |heads0| == |past| + W)
        invariant lenAck == T || v.toAck == 0
        invariant old(Eager(job, w.toMove, attempts, x)) ==> Eager(job, v.toMove, attempts, x)
        decreases v.toMove
      {
        Positions(job, v);
        if v.toAck < T {
          lenAck := v.toAck;
        }
        code, v := Retire(job, v, lenAck, attempts, x);
        if v.toMove < T {
          len := v.toMove;
        }
        code, v := Issue(job, v, len, true, attempts, x);
        if code != Success {
          return;
        }
      }
    }

    /** The third loop drains the window. */
    method Drain(job: Job, w: Window, length: nat, ghost attempts: nat, ghost x: Expected) returns (code: Code, v: Window)
      requires Flight(job, w) && w.toMove == 0 && (length == T || w.toAck == 0)
      modifies `store, `landed, `queues, `flying, `dmaTag, `past, `promised, `outbound, `acks, pool
      ensures code == Success && Flight(job, v) && v.toMove == 0 && v.toAck == 0
      ensures old(Eager(job, 0, attempts, x)) ==> Eager(job, 0, attempts, x)
    {
      code, v := Success, w;
      var lenAck := length;
      while v.toAck > 0 && code == Success
        invariant code == Success && Flight(job, v) && v.toMove == 0
        invariant old(Eager(job, 0, attempts, x)) ==> Eager(job, 0, attempts, x)
        invariant lenAck == T || v.toAck == 0
        decreases v.toAck
      {
        Positions(job, v);
        if v.toAck < T {
          lenAck := v.toAck;
        }
        code, v := Retire(job, v, lenAck, attempts, x);
      }
    }

    /** What the callers of the windowed functions see to. */
    ghost predicate Asks(job: Job)
      reads `store, `outbound, pool
    {
      && Bounded(CallOf(job, 0), |store.mem|) && job.path.store == job.to.None?
      && (job.to.Some? ==> job.to.value < |outbound|)
      && (job.from.Some? ==> job.from.value < |pool.taken|)
    }

    /** A windowed function first of all announces a window of segments to the packetizer. */
    method Open(job: Job) returns (w: Window)
      requires Ready() && Asks(job)
      modifies this, pool`from
      ensures Flight(job, w) && w.toMove == job.len && flying == [] && past == []
      ensures job.to.Some? ==> |heads| - |heads0| == Min(W, |Cut(job.len, T)|)
      ensures start == old(store) && heads0 == old(heads) && outbound0 == old(outbound) && taken0 == old(pool.taken)
      ensures job.from.Some? ==> job.from.value < |taken0|
      ensures call == CallOf(job, FirstPacket(job, taken0))
    {
      ghost var next := FirstPacket(job, pool.taken);
      if job.from.Some? {
        pool.Begin(job.from.value);
      }
      Note(CallOf(job, next));
      w := Window(job.len, job.len, job.op0, job.op1, job.tx, dmaTag, Ring(seq(W, _ => 0), 0, 0));
      OpenMessage(job, w.ring);
      Begins(job, w, next);
    }

    /** Remembers where the movement starts. */
    ghost method Note(c: Call)
      modifies `start, `heads0, `outbound0, `taken0, `call, `left, `past, `promised
      ensures start == store && heads0 == heads && outbound0 == outbound && taken0 == pool.taken
      ensures call == left == c && past == promised == []
    {
      start, heads0, outbound0, taken0 := store, heads, outbound, pool.taken;
      call, left, past, promised := c, c, [], [];
    }

    lemma {:induction false} Begins(job: Job, w: Window, next: nat)
      requires Working(job, w.ring, w.tag) && flying == promised == past == [] && T > 0 && W > 0
      requires call == left == CallOf(job, next) && Bounded(call, |start.mem|) && taken0 == pool.taken
      requires job.from.Some? ==> job.from.value < |pool.taken| && next == pool.taken[job.from.value]
      requires w == Window(job.len, job.len, job.op0, job.op1, job.tx, w.tag, w.ring)
      ensures Flight(job, w)
    {
      Outset(call, T, WireOf(pool.wire, job.from), |start.mem|);
    }

    method OpenMessage(job: Job, ring: Ring)
      requires Ready() && job.path.store == job.to.None? && (job.to.Some? ==> job.to.value < |outbound|)
      requires promised == past == [] && outbound == outbound0 && heads == heads0 && store == start
      requires job.from.Some? ==> pool.from == job.from.value && RingHolds(ring, [], W)
      modifies `heads
      ensures Working(job, ring, dmaTag)
      ensures job.to.Some? ==> |heads| - |heads0| == Min(W, |Cut(job.len, T)|)
    {
      NothingInFlight(job, ring);
      if job.to.Some? {
        StartMessage(job.to.value, job.len, job.tag, 0);
      }
      HeadersOpen(job, T, me, W, heads, heads0, acks, outbound);
    }

    /** With nothing in flight the channels hold nothing, the store is as it was, and the window is empty. */
    lemma {:induction false} NothingInFlight(job: Job, ring: Ring)
      requires Ready() && promised == past == [] && store == start
      requires job.from.Some? ==> pool.from == job.from.value && RingHolds(ring, [], W)
      ensures Tagged(job.path, dmaTag) && Landing(job.path) && Receiving(job, ring, 0, 0)
    {
      assert past + promised[..landed] == [];
    }

    /** The headers of all segments have gone out, numbered from the counter's old value on, and the counter has moved on. */
    ghost predicate SentAll(job: Job, headsBefore: seq<Head>, outboundBefore: seq<nat>)
      requires T > 0
      reads `heads, `outbound
    {
      match job.to
      case None => heads == headsBefore && outbound == outboundBefore
      case Some(d) =>
        var c := Cut(job.len, T);
        && d < |outboundBefore|
        && heads == headsBefore + HeadsOf(d, c, job.tag, me, outboundBefore[d])
        && outbound == outboundBefore[d := (outboundBefore[d] + |c|) % WORD]
    }

    /** The end of a windowed function: everything issued has been acknowledged. */
    lemma {:induction false} Close(job: Job, w: Window)
      requires Flight(job, w) && w.toMove == 0 && w.toAck == 0 && W <= DMA_MAX_TRANSACTIONS
      ensures flying == [] && Working(job, w.ring, w.tag)
      ensures var wire := WireOf(pool.wire, job.from);
        && past == Plan(call, T, wire) && |past| == |Cut(job.len, T)| && Sized(call, T, wire)
      ensures (job.from.Some? ==> job.from.value < |taken0|) && pool.taken == TakenBy(job, taken0, |past|)
    {
      assert Unfold(0);
      Arrival(call, left, T, WireOf(pool.wire, job.from), past, promised, |start.mem|);
    }

    /** With nothing in flight, every channel is empty and the packetizer has answered for everything that went out. */
    lemma {:induction false} Quiet(job: Job, w: Window)
      requires Working(job, w.ring, w.tag) && flying == [] && T > 0 && 0 < W
      requires job.to.Some? ==> |past| == |Cut(job.len, T)|
      ensures Ready()
      ensures AllFit(past, job.path, |start.mem|) && store == Run(start, arith, job.path, past)
      ensures SentAll(job, heads0, outbound0)
    {
      assert Unfold(1);
      assert past + promised[..landed] == past;
      RunOut(start, arith, job.path, past);
      assert Cut(job.len, T)[..|Cut(job.len, T)|] == Cut(job.len, T);
    }

    /** The job has been carried out: the store is what its plan, one segment after the other, makes of the store before. */
    ghost predicate CarriedOut(job: Job, storeBefore: Store, headsBefore: seq<Head>, outboundBefore: seq<nat>, takenBefore: seq<nat>)
      reads `store, `heads, `outbound, pool
    {
      && T > 0 && (job.from.Some? ==> job.from.value < |takenBefore|)
      && var c, wire := CallOf(job, FirstPacket(job, takenBefore)), WireOf(pool.wire, job.from);
      && Sized(c, T, wire) && AllFit(Plan(c, T, wire), job.path, |storeBefore.mem|)
      && store == Run(storeBefore, arith, job.path, Plan(c, T, wire))
      && SentAll(job, headsBefore, outboundBefore)
      && pool.taken == TakenBy(job, takenBefore, |Cut(job.len, T)|)
    }

    lemma {:induction false} Finish(job: Job, w: Window)
      requires Flight(job, w) && w.toMove == 0 && w.toAck == 0 && W <= DMA_MAX_TRANSACTIONS
      requires (job.from.Some? ==> job.from.value < |taken0|) && call == CallOf(job, FirstPacket(job, taken0))
      ensures Ready() && CarriedOut(job, start, heads0, outbound0, taken0)
    {
      Close(job, w);
      Quiet(job, w);
    }

    /** The three loops, one after the other. */
    method Loops(job: Job, w: Window, attempts: nat, ghost x: Expected) returns (code: Code, v: Window)
      requires Flight(job, w) && flying == [] && past == []
      requires job.to.Some? ==> |heads| - |heads0| == Min(W, |Cut(job.len, T)|)
      modifies `store, `landed, `heads, `queues, `flying, `dmaTag, `past, `promised, `left, `outbound, `acks, pool
      ensures code == Success || (code == ReceiveTimeout && job.from.Some?)
      ensures code == Success ==> Flight(job, v) && v.toMove == 0 && v.toAck == 0
      ensures old(Eager(job, w.toMove, attempts, x)) ==> code == Success && Eager(job, 0, attempts, x)
    {
      code, v := Fill(job, w, attempts, x);
      if code == Success {
        var lenAck;
        code, v, lenAck := Slide(job, v, attempts, x);
        if code == Success {
          code, v := Drain(job, v, lenAck, attempts, x);
        }
      }
    }

    /** The loops carry out the whole job. */
    method Work(job: Job, w: Window, attempts: nat, ghost x: Expected) returns (code: Code)
      requires Flight(job, w) && flying == [] && past == [] && W <= DMA_MAX_TRANSACTIONS
      requires job.to.Some? ==> |heads| - |heads0| == Min(W, |Cut(job.len, T)|)
      requires (job.from.Some? ==> job.from.value < |taken0|) && call == CallOf(job, FirstPacket(job, taken0))
      modifies `store, `landed, `heads, `queues, `flying, `dmaTag, `past, `promised, `left, `outbound, `acks, pool
      ensures code == Success || (code == ReceiveTimeout && job.from.Some?)
      ensures code == Success ==> Ready() && CarriedOut(job, start, heads0, outbound0, taken0)
      ensures old(Eager(job, w.toMove, attempts, x)) ==> code == Success && Eager(job, 0, attempts, x)
    {
      var v;
      code, v := Loops(job, w, attempts, x);
      if code == Success {
        Finish(job, v);
      }
    }

    /** Opening a job leaves what has landed where it is. */
    method OpenJob(job: Job, ghost attempts: nat, ghost x: Expected) returns (w: Window)
      requires Ready() && Asks(job)
      modifies this, pool`from
      ensures Flight(job, w) && w.toMove == job.len && flying == [] && past == []
      ensures job.to.Some? ==> |heads| - |heads0| == Min(W, |Cut(job.len, T)|)
      ensures start == old(store) && heads0 == old(heads) && outbound0 == old(outbound) && taken0 == old(pool.taken)
      ensures job.from.Some? ==> job.from.value < |taken0|
      ensures call == CallOf(job, FirstPacket(job, taken0))
      ensures old(Eager(job, job.len, attempts, x)) ==> Eager(job, job.len, attempts, x)
    {
      ghost var v := pool.Now();
      EagerAnyway(job, attempts, x, v);
      w := Open(job);
      EagerAnyway(job, attempts, x, v);
    }

    /**
     The windowed functions. They do what their plan says, in the order of its segments, whatever the window; the only way
     to fail is that a segment to be received does not come.
     */
    method Transfer(job: Job, attempts: nat, ghost x: Expected) returns (code: Code)
      requires Ready() && Asks(job)
      modifies this, pool
      ensures code == Success || (code == ReceiveTimeout && job.from.Some?)
      ensures code == Success ==> Ready() && CarriedOut(job, old(store), old(heads), old(outbound), old(pool.taken))
      ensures old(Eager(job, job.len, attempts, x)) ==> code == Success && Eager(job, 0, attempts, x)
    {
      var w := OpenJob(job, attempts, x);
      code := Work(job, w, attempts, x);
    }

    /** What has landed does not depend on the rank received from. */
    lemma {:induction false} EagerAnyway(job: Job, attempts: nat, x: Expected, v: View)
      requires pool.Now() == v.(from := pool.from)
      ensures Eager(job, job.len, attempts, x) <==>
        && T > 0 && (job.from.Some? ==> attempts > 0 && job.from.value == x.src && job.tag == x.tag)
        && AllLanded(v, x.src, (if job.from.Some? then Cut(job.len, T) else []) + x.more, x.tag)
    {
      assert Unfold(3);
      if T > 0 {
        AnyFrom(v, pool.Now(), x.src, (if job.from.Some? then Cut(job.len, T) else []) + x.more, x.tag);
      }
    }

    /** The result of a job on memory `mem`, and the packets it takes in, stated without segments. */
    ghost predicate SoundJob(job: Job, mem: seq<Byte>, next: nat)
    {
      Moves.Sound(|mem|, CallOf(job, next), T, WireOf(pool.wire, job.from))
    }

    /**
     What the windowed functions promise: a result stored is the result of streaming the operands the movement starts with,
     a result sent is its segments. This needs operand 0 and operand 1 not to straddle the destination.
     */
    method WholeTransfer(job: Job, attempts: nat, ghost x: Expected) returns (code: Code)
      requires Ready() && Asks(job)
      requires job.path.store && job.path.reduce ==> Clear(job.op0, job.tx, job.len)
      requires job.path.store && job.from.None? ==> Clear(job.op1, job.tx, job.len)
      modifies this, pool
      ensures code == Success || (code == ReceiveTimeout && job.from.Some?)
      ensures code == Success ==>
        var next := FirstPacket(job, old(pool.taken));
        && Ready() && SentAll(job, old(heads), old(outbound)) && pool.taken == TakenBy(job, old(pool.taken), |Cut(job.len, T)|)
        && SoundJob(job, old(store).mem, next)
        && var answer := Answer(old(store).mem, arith, CallOf(job, next), T, WireOf(pool.wire, job.from));
           if job.path.store then store == old(store).(mem := Overwrite(old(store).mem, job.tx, answer))
           else store == old(store).(out := old(store).out + Slices(answer, T))
      ensures old(Eager(job, job.len, attempts, x)) ==> code == Success && Eager(job, 0, attempts, x)
    {
      code := Transfer(job, attempts, x);
      if code == Success {
        ghost var c := CallOf(job, FirstPacket(job, old(pool.taken)));
        if job.path.store {
          RunStores(old(store), arith, c, T, WireOf(pool.wire, job.from));
        } else {
          RunSends(old(store), arith, c, T, WireOf(pool.wire, job.from));
        }
      }
    }
  }
}
