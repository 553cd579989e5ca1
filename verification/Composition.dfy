/**
 How the layers fit together: on a rank's memory, a call of the transfer engine does what the corresponding move of the
 ring network does on its cells, and puts on the network, or takes from it, the message that the move sends or receives.
 */
module Composition {
  import opened Unfolding
  import opened Wrappers
  import opened Segments
  import opened Elementwise
  import opened Moves
  import opened SpareBuffers
  import opened TransferEngine
  import opened OffchipCalls
  import N = Network
  import R = RingIndex
  import L = Lanes

  /** The cells of a rank: `len` bytes each, at `place(c)`, not overlapping. */
  ghost predicate Placed<C>(place: C -> nat, cells: set<C>, len: nat, size: nat) {
    && (forall c :: c in cells ==> place(c) + len <= size)
    && (forall c, d :: c in cells && d in cells && c != d ==> Apart(place(c), place(d), len))
  }

  ghost predicate Apart(p: nat, q: nat, len: nat) {
    p + len <= q || q + len <= p
  }

  /** What the cells hold. */
  ghost function Cells<C>(mem: seq<Byte>, place: C -> nat, cells: set<C>, len: nat): (m: map<C, seq<Byte>>)
    requires Placed(place, cells, len, |mem|)
    ensures m.Keys == cells
  {
    map c | c in cells :: mem[place(c)..place(c) + len]
  }

  /** The operator of the network is the arithmetic unit along a message, streamed in segments of at most `T` bytes. */
  ghost function MessageOp(a: Arith, T: nat): (seq<Byte>, seq<Byte>) -> seq<Byte> {
    (x, y) => if |x| == |y| && T > 0 then Pieces(a, x, y, T) else x
  }

  /** Segments make no difference to messages cut at operands. */
  lemma {:induction false} MessageOpIsWhole(a: Arith, T: nat, x: seq<Byte>, y: seq<Byte>)
    requires T > 0 && |x| == |y| && CutsAtOperands(|x|, T, a.width)
    ensures MessageOp(a, T)(x, y) == Whole(a, x, y)
  {
    PiecesAreWhole(a, x, y, T);
  }

  lemma {:induction false} WriteCell<C>(mem: seq<Byte>, place: C -> nat, cells: set<C>, len: nat, to: C, data: seq<Byte>)
    requires Placed(place, cells, len, |mem|) && to in cells && |data| == len
    ensures Cells(Overwrite(mem, place(to), data), place, cells, len) == Cells(mem, place, cells, len)[to := data]
  {
    var after := Overwrite(mem, place(to), data);
    forall c | c in cells && c != to ensures after[place(c)..place(c) + len] == mem[place(c)..place(c) + len] {
      assert Apart(place(c), place(to), len);
    }
    assert after[place(to)..place(to) + len] == data;
  }

  lemma {:induction false} StoreCell<C>(a: Arith, T: nat, mem: seq<Byte>, place: C -> nat, cells: set<C>, len: nat, local: C, to: C, x: seq<Byte>)
    requires Placed(place, cells, len, |mem|) && local in cells && to in cells && |x| == len && T > 0
    ensures var m := Cells(mem, place, cells, len);
      Cells(Overwrite(mem, place(to), Pieces(a, mem[place(local)..place(local) + len], x, T)), place, cells, len)
        == m[to := MessageOp(a, T)(m[local], x)]
  {
    var y := mem[place(local)..place(local) + len];
    assert |y| == len;
    WriteCell(mem, place, cells, len, to, Pieces(a, y, x, T));
  }

  lemma {:induction false} CopyCell<C>(mem: seq<Byte>, place: C -> nat, cells: set<C>, len: nat, from: C, to: C)
    requires Placed(place, cells, len, |mem|) && from in cells && to in cells
    ensures var m := Cells(mem, place, cells, len);
      Cells(Overwrite(mem, place(to), mem[place(from)..place(from) + len]), place, cells, len) == m[to := m[from]]
  {
    WriteCell(mem, place, cells, len, to, mem[place(from)..place(from) + len]);
  }

  lemma {:induction false} CellsClear<C>(place: C -> nat, cells: set<C>, len: nat, size: nat, c: C, d: C)
    requires Placed(place, cells, len, size) && c in cells && d in cells
    ensures Clear(place(c), place(d), len)
  {
    assert c != d ==> Apart(place(c), place(d), len);
  }

  /** The message a move takes in. */
  ghost function Taken<C>(e: Engine, i: N.Instr<C>, prev: nat, len: nat, takenBefore: seq<nat>): Option<seq<Byte>>
    requires e.T > 0 && prev < |takenBefore|
  {
    if N.Receives(i) then Some(Carried(e, prev, len, takenBefore)) else None
  }

  /** The state of a rank's engine before a move. */
  datatype Before = Before(mem: seq<Byte>, out: seq<seq<Byte>>, heads: seq<Head>, outbound: seq<nat>, taken: seq<nat>)

  ghost function Now(e: Engine): Before
    reads e, e.pool
  {
    Before(e.store.mem, e.store.out, e.heads, e.outbound, e.pool.taken)
  }

  /** Where a rank's cells are, and its neighbours. */
  datatype Rank<!C> = Rank(place: C -> nat, len: nat, prev: nat, next: nat, tag: nat)

  /** The firmware can carry out the move: the cells it names are among `cells`. */
  ghost predicate Able<C>(e: Engine, k: Rank<C>, cells: set<C>, i: N.Instr<C>)
    reads e, e.pool
  {
    && e.Ready() && k.prev < |e.pool.taken| && k.next < |e.outbound|
    && Placed(k.place, cells, k.len, |e.store.mem|) && N.Fits(i, Cells(e.store.mem, k.place, cells, k.len))
  }

  /** The cells have changed, and messages have gone out and been taken in, as the move says. */
  ghost predicate CarriedOut<C>(e: Engine, k: Rank<C>, cells: set<C>, i: N.Instr<C>, b: Before)
    requires e.T > 0 && k.prev < |b.taken| && Placed(k.place, cells, k.len, |b.mem|) && N.Fits(i, Cells(b.mem, k.place, cells, k.len))
    reads e, e.pool
  {
    var m, x, op := Cells(b.mem, k.place, cells, k.len), Taken(e, i, k.prev, k.len, b.taken), MessageOp(e.arith, e.T);
    && |e.store.mem| == |b.mem|
    && Cells(e.store.mem, k.place, cells, k.len) == N.After(op, i, m, x)
    && (if N.Sends(i) then Sent(e, k.next, k.tag, N.Outgoing(op, i, m, x), b.out, b.heads, b.outbound)
        else e.heads == b.heads && e.outbound == b.outbound && e.store.out == b.out)
    && (if N.Receives(i) then TookAll(e, k.prev, k.len, b.taken) else e.pool.taken == b.taken)
  }

  /** The move has been carried out, and the engine is ready for the next. */
  ghost predicate Moved<C>(e: Engine, k: Rank<C>, cells: set<C>, i: N.Instr<C>, b: Before)
    requires e.T > 0 && k.prev < |b.taken| && Placed(k.place, cells, k.len, |b.mem|) && N.Fits(i, Cells(b.mem, k.place, cells, k.len))
    reads e, e.pool
  {
    e.Ready() && CarriedOut(e, k, cells, i, b)
  }

  method PerformSend<C>(e: Engine, k: Rank<C>, ghost cells: set<C>, from: C, ghost more: seq<nat>) returns (code: Code)
    requires Able(e, k, cells, N.Send(from))
    modifies e, e.pool
    ensures code == Success && Moved(e, k, cells, N.Send(from), old(Now(e)))
    ensures old(AllHere(e, k.prev, more, k.tag)) ==> AllHere(e, k.prev, more, k.tag)
  {
    code := TransmitOffchip(e, k.next, k.len, k.place(from), k.tag, Expected(k.prev, k.tag, more));
  }

  method PerformRecv<C>(e: Engine, k: Rank<C>, ghost cells: set<C>, to: C, attempts: nat, ghost more: seq<nat>) returns (code: Code)
    requires Able(e, k, cells, N.Recv(to))
    modifies e, e.pool
    ensures code == Success || code == ReceiveTimeout
    ensures code == Success ==> Moved(e, k, cells, N.Recv(to), old(Now(e)))
    ensures attempts > 0 && old(AllHere(e, k.prev, Cut(k.len, e.T) + more, k.tag)) ==> code == Success && AllHere(e, k.prev, more, k.tag)
  {
    code := ReceiveOffchip(e, k.prev, k.len, k.place(to), k.tag, attempts, more);
    if code == Success {
      WriteCell(old(e.store.mem), k.place, cells, k.len, to, Carried(e, k.prev, k.len, old(e.pool.taken)));
    }
  }

  method PerformRelay<C>(e: Engine, k: Rank<C>, ghost cells: set<C>, attempts: nat, ghost more: seq<nat>) returns (code: Code)
    requires Able(e, k, cells, N.Relay)
    modifies e, e.pool
    ensures code == Success || code == ReceiveTimeout
    ensures code == Success ==> Moved(e, k, cells, N.Relay, old(Now(e)))
    ensures attempts > 0 && old(AllHere(e, k.prev, Cut(k.len, e.T) + more, k.tag)) ==> code == Success && AllHere(e, k.prev, more, k.tag)
  {
    code := RelayToOtherRank(e, k.prev, k.next, k.len, k.tag, attempts, more);
  }

  method PerformReduceSend<C>(e: Engine, k: Rank<C>, ghost cells: set<C>, local: C, attempts: nat, ghost more: seq<nat>) returns (code: Code)
    requires Able(e, k, cells, N.ReduceSend(local))
    modifies e, e.pool
    ensures code == Success || code == ReceiveTimeout
    ensures code == Success ==> Moved(e, k, cells, N.ReduceSend(local), old(Now(e)))
    ensures attempts > 0 && old(AllHere(e, k.prev, Cut(k.len, e.T) + more, k.tag)) ==> code == Success && AllHere(e, k.prev, more, k.tag)
  {
    code := ReceiveAndReduceOffchip(e, k.prev, k.next, k.len, k.place(local), k.tag, attempts, more);
  }

  /** A move that only writes cell `to`, and sends nothing. */
  lemma {:induction false} StoreMoved<C>(e: Engine, k: Rank<C>, cells: set<C>, i: N.Instr<C>, b: Before)
    requires e.T > 0 && k.prev < |b.taken| && Placed(k.place, cells, k.len, |b.mem|) && N.Fits(i, Cells(b.mem, k.place, cells, k.len))
    requires !N.Sends(i) && e.heads == b.heads && e.outbound == b.outbound && e.store.out == b.out && |e.store.mem| == |b.mem|
    requires Cells(e.store.mem, k.place, cells, k.len)
          == N.After(MessageOp(e.arith, e.T), i, Cells(b.mem, k.place, cells, k.len), Taken(e, i, k.prev, k.len, b.taken))
    requires if N.Receives(i) then TookAll(e, k.prev, k.len, b.taken) else e.pool.taken == b.taken
    ensures CarriedOut(e, k, cells, i, b)
  {
  }

  lemma {:induction false} AccumulateCell<C>(a: Arith, T: nat, mem: seq<Byte>, place: C -> nat, cells: set<C>, len: nat, local: C, to: C, x: seq<Byte>)
    requires Placed(place, cells, len, |mem|) && local in cells && to in cells && |x| == len && T > 0
    ensures var m := Cells(mem, place, cells, len);
      Cells(Overwrite(mem, place(to), Pieces(a, mem[place(local)..place(local) + len], x, T)), place, cells, len)
        == N.After(MessageOp(a, T), N.ReduceStore(local, to), m, Some(x))
  {
    StoreCell(a, T, mem, place, cells, len, local, to, x);
  }

  lemma {:induction false} AccumulatedCells<C>(e: Engine, k: Rank<C>, cells: set<C>, local: C, to: C, mem: seq<Byte>, x: seq<Byte>)
    requires e.T > 0 && Placed(k.place, cells, k.len, |mem|) && local in cells && to in cells && |x| == k.len
    requires var at := k.place(local); e.store.mem == Overwrite(mem, k.place(to), Reduced(e, mem[at..at + k.len], x))
    ensures Placed(k.place, cells, k.len, |e.store.mem|)
    ensures var m := Cells(mem, k.place, cells, k.len);
      && local in m && to in m
      && Cells(e.store.mem, k.place, cells, k.len) == N.After(MessageOp(e.arith, e.T), N.ReduceStore(local, to), m, Some(x))
  {
    AccumulateCell(e.arith, e.T, mem, k.place, cells, k.len, local, to, x);
  }

  lemma {:induction false} AccumulateMoved<C>(e: Engine, k: Rank<C>, cells: set<C>, local: C, to: C, b: Before)
    requires e.T > 0 && k.prev < |b.taken| && Placed(k.place, cells, k.len, |b.mem|) && local in cells && to in cells
    requires TookAll(e, k.prev, k.len, b.taken) && e.heads == b.heads && e.outbound == b.outbound && e.store.out == b.out
    requires var at := k.place(local);
      e.store.mem == Overwrite(b.mem, k.place(to), Reduced(e, b.mem[at..at + k.len], Carried(e, k.prev, k.len, b.taken)))
    ensures CarriedOut(e, k, cells, N.ReduceStore(local, to), b)
  {
    AccumulatedCells(e, k, cells, local, to, b.mem, Carried(e, k.prev, k.len, b.taken));
    StoreMoved(e, k, cells, N.ReduceStore(local, to), b);
  }

  method PerformReduceStore<C>(e: Engine, k: Rank<C>, ghost cells: set<C>, local: C, to: C, attempts: nat, ghost more: seq<nat>) returns (code: Code)
    requires Able(e, k, cells, N.ReduceStore(local, to))
    modifies e, e.pool
    ensures code == Success || code == ReceiveTimeout
    ensures code == Success ==> Moved(e, k, cells, N.ReduceStore(local, to), old(Now(e)))
    ensures attempts > 0 && old(AllHere(e, k.prev, Cut(k.len, e.T) + more, k.tag)) ==> code == Success && AllHere(e, k.prev, more, k.tag)
  {
    ghost var b := Now(e);
    CellsClear(k.place, cells, k.len, |b.mem|, local, to);
    code := ReceiveAndAccumulate(e, k.prev, k.len, k.place(local), k.place(to), k.tag, attempts, more);
    if code == Success {
      AccumulateMoved(e, k, cells, local, to, b);
    }
  }

  method PerformCopy<C>(e: Engine, k: Rank<C>, ghost cells: set<C>, from: C, to: C, ghost more: seq<nat>) returns (code: Code)
    requires Able(e, k, cells, N.Copy(from, to))
    modifies e, e.pool
    ensures code == Success && Moved(e, k, cells, N.Copy(from, to), old(Now(e)))
    ensures old(AllHere(e, k.prev, more, k.tag)) ==> AllHere(e, k.prev, more, k.tag)
  {
    ghost var b := Now(e);
    CellsClear(k.place, cells, k.len, |b.mem|, from, to);
    code := DmaLoopback(e, k.len, k.place(from), k.place(to), Expected(k.prev, k.tag, more));
    CopyMoved(e, k, cells, from, to, b);
  }

  lemma {:induction false} CopyMoved<C>(e: Engine, k: Rank<C>, cells: set<C>, from: C, to: C, b: Before)
    requires e.T > 0 && k.prev < |b.taken| && Placed(k.place, cells, k.len, |b.mem|) && from in cells && to in cells
    requires e.heads == b.heads && e.outbound == b.outbound && e.store.out == b.out && e.pool.taken == b.taken
    requires e.store.mem == Overwrite(b.mem, k.place(to), b.mem[k.place(from)..k.place(from) + k.len])
    ensures CarriedOut(e, k, cells, N.Copy(from, to), b)
  {
    CopyCell(b.mem, k.place, cells, k.len, from, to);
    StoreMoved(e, k, cells, N.Copy(from, to), b);
  }

  /** The packets a move takes in, by their lengths. */
  function TakesIn<C>(i: N.Instr<C>, len: nat, T: nat): seq<nat>
    requires T > 0
  {
    if N.Receives(i) then Cut(len, T) else []
  }

  /** Every move of a ring collective is carried out by the firmware's call for it. */
  method Perform<C>(e: Engine, k: Rank<C>, ghost cells: set<C>, i: N.Instr<C>, attempts: nat, ghost more: seq<nat>) returns (code: Code)
    requires Able(e, k, cells, i)
    modifies e, e.pool
    ensures code == Success || (code == ReceiveTimeout && N.Receives(i))
    ensures code == Success ==> Moved(e, k, cells, i, old(Now(e)))
    ensures attempts > 0 && old(AllHere(e, k.prev, TakesIn(i, k.len, e.T) + more, k.tag)) ==> code == Success && AllHere(e, k.prev, more, k.tag)
  {
    assert [] + more == more;
    match i
    case Send(from) => code := PerformSend(e, k, cells, from, more);
    case Recv(to) => code := PerformRecv(e, k, cells, to, attempts, more);
    case Relay => code := PerformRelay(e, k, cells, attempts, more);
    case ReduceSend(local) => code := PerformReduceSend(e, k, cells, local, attempts, more);
    case ReduceStore(local, to) => code := PerformReduceStore(e, k, cells, local, to, attempts, more);
    case Copy(from, to) => code := PerformCopy(e, k, cells, from, to, more);
  }

  /** Message `j` of rank `src`, put together from the packets of a receive that starts at packet `first`. */
  ghost function Heard(wire: (nat, nat) -> Packet, src: nat, len: nat, T: nat, first: nat, j: nat): seq<Byte>
    requires T > 0
  {
    var n := |Cut(len, T)|;
    Flatten(Payloads(wire, src, first + L.Times(j, n), n))
  }

  /** The packets of some messages. */
  function Packets(ms: seq<seq<Byte>>, T: nat): seq<seq<Byte>>
    requires T > 0
  {
    if ms == [] then [] else Packets(ms[..|ms| - 1], T) + Slices(ms[|ms| - 1], T)
  }

  lemma {:induction false} PacketsSnoc(before: seq<seq<Byte>>, ms: seq<seq<Byte>>, m: seq<Byte>, T: nat)
    requires T > 0
    ensures before + Packets(ms + [m], T) == before + Packets(ms, T) + Slices(m, T)
  {
    assert (ms + [m])[..|ms|] == ms;
  }

  predicate AllLong(ms: seq<seq<Byte>>, len: nat) {
    forall k :: 0 <= k < |ms| ==> |ms[k]| == len
  }

  /**
   One call of a collective on a rank: the rank, its place `r` in the ring, the state it starts from, and what its
   predecessor's packets amount to, message by message.
   */
  datatype Call<!C> = Call(k: Rank<C>, cells: set<C>, g: N.Ring<C, seq<Byte>>, feed: (nat, nat) -> seq<Byte>, r: nat, start: Before)

  /** The rank has its place in the ring, and `feed` is what its predecessor's packets amount to, whatever they are. */
  ghost predicate Placement<C>(e: Engine, c: Call<C>) {
    forall u: nat {:trigger Unfold(u)} :: u == 1 && Unfold(u) ==>
      && N.WellFormed(c.g) && c.g.op == MessageOp(e.arith, e.T) && c.r < |c.g.progs|
      && c.k.prev == R.Prev(c.r, |c.g.progs|)
      && e.T > 0 && c.k.prev < |c.start.taken|
      && forall j: nat :: c.feed(c.k.prev, j) == Heard(e.pool.wire, c.k.prev, c.k.len, e.T, c.start.taken[c.k.prev], j)
  }

  /** Memory `mem` is that after `i` moves of the program. */
  ghost predicate MemoryAt<C>(c: Call<C>, i: nat, mem: seq<Byte>)
    requires N.WellFormed(c.g) && c.r < |c.g.progs| && i <= |c.g.progs[c.r]|
  {
    Placed(c.k.place, c.cells, c.k.len, |mem|) && Cells(mem, c.k.place, c.cells, c.k.len) == N.MemAt(c.g, c.feed, c.r, i)
  }

  /** So many packets have been taken in, and the packets of these messages have been put out. */
  ghost predicate Traffic(len: nat, T: nat, first: nat, before: seq<seq<Byte>>, received: nat, sent: seq<seq<Byte>>, taken: nat, out: seq<seq<Byte>>)
    requires T > 0
  {
    && taken == first + L.Times(received, |Cut(len, T)|)
    && out == before + Packets(sent, T)
    && AllLong(sent, len)
  }

  /** State `s` is that after `i` moves of the program: memory, messages taken in and messages sent. */
  ghost predicate Reached<C>(T: nat, c: Call<C>, i: nat, s: Before) {
    && T > 0 && N.WellFormed(c.g) && c.r < |c.g.progs| && i <= |c.g.progs[c.r]|
    && c.k.prev < |c.start.taken| && c.k.prev < |s.taken| && c.k.next < |s.outbound|
    && MemoryAt(c, i, s.mem)
    && Traffic(c.k.len, T, c.start.taken[c.k.prev], c.start.out, N.Received(c.g.progs[c.r], i), N.Emitted(c.g, c.feed, c.r, i),
               s.taken[c.k.prev], s.out)
  }

  ghost predicate Standing<C>(T: nat, c: Call<C>, i: nat, s: Before) {
    forall u: nat {:trigger Unfold(u)} :: u == 2 && Unfold(u) ==> Reached(T, c, i, s)
  }

  /** The next move of the program can be carried out. */
  lemma {:induction false} NextMove<C>(e: Engine, c: Call<C>, prog: seq<N.Instr<C>>, i: nat)
    requires e.Ready() && Placement(e, c) && c.r < |c.g.progs| && prog == c.g.progs[c.r] && i < |prog| && Standing(e.T, c, i, Now(e))
    ensures Able(e, c.k, c.cells, prog[i])
  {
    assert Unfold(1) && Unfold(2);
    assert N.Fits(prog[i], c.g.init[c.r]);
  }

  /** What a move takes in is the next message of the feed, and its effect is the next step of the timeline. */
  lemma {:induction false} MoveOnTimeline<C>(e: Engine, c: Call<C>, i: nat, p: Before)
    requires Placement(e, c) && e.T > 0 && c.r < |c.g.progs| && i < |c.g.progs[c.r]| && Reached(e.T, c, i, p)
    ensures var instr, m, x := c.g.progs[c.r][i], Cells(p.mem, c.k.place, c.cells, c.k.len), Taken(e, c.g.progs[c.r][i], c.k.prev, c.k.len, p.taken);
      && N.Fits(instr, m) && x == N.Incoming(c.g, c.feed, c.r, i)
      && N.After(MessageOp(e.arith, e.T), instr, m, x) == N.MemAt(c.g, c.feed, c.r, i + 1)
      && (N.Sends(instr) ==>
          N.Emitted(c.g, c.feed, c.r, i + 1) == N.Emitted(c.g, c.feed, c.r, i) + [N.Outgoing(MessageOp(e.arith, e.T), instr, m, x)])
  {
    assert Unfold(1);
    assert N.Fits(c.g.progs[c.r][i], c.g.init[c.r]);
  }

  /** Messages sent are as long as the cells, if those taken in are. */
  lemma {:induction false} OutgoingLong<C>(a: Arith, T: nat, i: N.Instr<C>, mem: seq<Byte>, place: C -> nat, cells: set<C>, len: nat, x: Option<seq<Byte>>)
    requires Placed(place, cells, len, |mem|) && N.Fits(i, Cells(mem, place, cells, len)) && N.Sends(i)
    requires N.Receives(i) ==> x.Some? && |x.value| == len
    ensures |N.Outgoing(MessageOp(a, T), i, Cells(mem, place, cells, len), x)| == len
  {
  }

  /** What a move that was carried out has done to the counters and the outgoing packets. */
  lemma {:induction false} MovedOn<C>(e: Engine, k: Rank<C>, cells: set<C>, i: N.Instr<C>, p: Before)
    requires e.T > 0 && k.prev < |p.taken| && Placed(k.place, cells, k.len, |p.mem|) && N.Fits(i, Cells(p.mem, k.place, cells, k.len))
    requires Moved(e, k, cells, i, p) && k.next < |p.outbound|
    ensures var m, x, op, s := Cells(p.mem, k.place, cells, k.len), Taken(e, i, k.prev, k.len, p.taken), MessageOp(e.arith, e.T), Now(e);
      && |s.mem| == |p.mem| && Cells(s.mem, k.place, cells, k.len) == N.After(op, i, m, x)
      && |s.outbound| == |p.outbound| && |s.taken| == |p.taken|
      && s.taken[k.prev] == p.taken[k.prev] + (if N.Receives(i) then |Cut(k.len, e.T)| else 0)
      && (N.Receives(i) ==> |x.value| == k.len)
      && s.out == (if N.Sends(i) then p.out + Slices(N.Outgoing(op, i, m, x), e.T) else p.out)
  {
  }

  /** The messages a move takes in and puts out, as values: `x` if it receives, `data` if it sends. */
  lemma {:induction false} TrafficOn<C>(c: Call<C>, T: nat, i: nat, taken: nat, out: seq<seq<Byte>>, after: nat, outAfter: seq<seq<Byte>>, data: seq<Byte>)
    requires T > 0 && N.WellFormed(c.g) && c.r < |c.g.progs| && i < |c.g.progs[c.r]| && c.k.prev < |c.start.taken|
    requires Traffic(c.k.len, T, c.start.taken[c.k.prev], c.start.out, N.Received(c.g.progs[c.r], i), N.Emitted(c.g, c.feed, c.r, i), taken, out)
    requires after == taken + (if N.Receives(c.g.progs[c.r][i]) then |Cut(c.k.len, T)| else 0)
    requires if N.Sends(c.g.progs[c.r][i])
      then |data| == c.k.len && outAfter == out + Slices(data, T)
        && N.Emitted(c.g, c.feed, c.r, i + 1) == N.Emitted(c.g, c.feed, c.r, i) + [data]
      else outAfter == out
    ensures Traffic(c.k.len, T, c.start.taken[c.k.prev], c.start.out, N.Received(c.g.progs[c.r], i + 1), N.Emitted(c.g, c.feed, c.r, i + 1),
                    after, outAfter)
  {
    var first, before, received, sent := c.start.taken[c.k.prev], c.start.out, N.Received(c.g.progs[c.r], i), N.Emitted(c.g, c.feed, c.r, i);
    if N.Receives(c.g.progs[c.r][i]) {
      MessageIn(c.k.len, T, first, before, received, sent, taken, out);
    }
    if N.Sends(c.g.progs[c.r][i]) {
      MessageOut(c.k.len, T, first, before, N.Received(c.g.progs[c.r], i + 1), sent, after, out, data);
    }
  }

  lemma {:induction false} Advance<C>(e: Engine, c: Call<C>, i: nat, p: Before)
    requires Placement(e, c) && e.T > 0 && c.r < |c.g.progs| && i < |c.g.progs[c.r]| && Reached(e.T, c, i, p)
    requires N.Fits(c.g.progs[c.r][i], Cells(p.mem, c.k.place, c.cells, c.k.len)) && Moved(e, c.k, c.cells, c.g.progs[c.r][i], p)
    ensures Reached(e.T, c, i + 1, Now(e))
  {
    var instr, x := c.g.progs[c.r][i], Taken(e, c.g.progs[c.r][i], c.k.prev, c.k.len, p.taken);
    var s, m, data := Now(e), Cells(p.mem, c.k.place, c.cells, c.k.len), [];
    MoveOnTimeline(e, c, i, p);
    MovedOn(e, c.k, c.cells, instr, p);
    if N.Sends(instr) {
      OutgoingLong(e.arith, e.T, instr, p.mem, c.k.place, c.cells, c.k.len, x);
      data := N.Outgoing(MessageOp(e.arith, e.T), instr, m, x);
    }
    TrafficOn(c, e.T, i, p.taken[c.k.prev], p.out, s.taken[c.k.prev], s.out, data);
  }

  lemma {:induction false} MessageIn(len: nat, T: nat, first: nat, before: seq<seq<Byte>>, received: nat, sent: seq<seq<Byte>>, taken: nat, out: seq<seq<Byte>>)
    requires T > 0 && Traffic(len, T, first, before, received, sent, taken, out)
    ensures Traffic(len, T, first, before, received + 1, sent, taken + |Cut(len, T)|, out)
  {
  }

  lemma {:induction false} MessageOut(len: nat, T: nat, first: nat, before: seq<seq<Byte>>, received: nat, sent: seq<seq<Byte>>, taken: nat, out: seq<seq<Byte>>,
                                      data: seq<Byte>)
    requires T > 0 && Traffic(len, T, first, before, received, sent, taken, out) && |data| == len
    ensures Traffic(len, T, first, before, received, sent + [data], taken, out + Slices(data, T))
  {
    PacketsSnoc(before, sent, data, T);
  }

  lemma {:induction false} StandsOn<C>(e: Engine, c: Call<C>, i: nat, p: Before)
    requires Placement(e, c) && e.T > 0 && c.r < |c.g.progs| && i < |c.g.progs[c.r]| && Standing(e.T, c, i, p)
    requires c.k.prev < |p.taken| && Placed(c.k.place, c.cells, c.k.len, |p.mem|)
    requires N.Fits(c.g.progs[c.r][i], Cells(p.mem, c.k.place, c.cells, c.k.len)) && Moved(e, c.k, c.cells, c.g.progs[c.r][i], p)
    ensures Standing(e.T, c, i + 1, Now(e))
  {
    assert Unfold(2);
    Advance(e, c, i, p);
  }

  /** The packets of `n` messages, by their lengths. */
  function Receipts(n: nat, c: seq<nat>): seq<nat> {
    if n == 0 then [] else c + Receipts(n - 1, c)
  }

  /** The packets a program is still to take in after `i` moves. */
  function ToCome<C>(prog: seq<N.Instr<C>>, i: nat, len: nat, T: nat): seq<nat>
    requires T > 0 && i <= |prog|
  {
    var n := N.Received(prog, |prog|) - N.Received(prog, i);
    Receipts(if n >= 0 then n else 0, Cut(len, T))
  }

  lemma {:induction false} ToComeOn<C>(prog: seq<N.Instr<C>>, i: nat, len: nat, T: nat)
    requires T > 0 && i < |prog|
    ensures ToCome(prog, i, len, T) == TakesIn(prog[i], len, T) + ToCome(prog, i + 1, len, T)
    ensures N.Receives(prog[i]) ==> N.Received(prog, |prog|) > 0
  {
    N.ReceivedGrows(prog, i + 1, |prog|);
  }

  method Step<C>(e: Engine, instr: N.Instr<C>, k: Rank<C>, ghost c: Call<C>, ghost i: nat, attempts: nat, ghost more: seq<nat>) returns (code: Code)
    requires e.Ready() && Placement(e, c) && c.k == k && c.r < |c.g.progs| && i < |c.g.progs[c.r]| && instr == c.g.progs[c.r][i]
    requires Standing(e.T, c, i, Now(e))
    modifies e, e.pool
    ensures code == Success || (code == ReceiveTimeout && N.Receives(instr))
    ensures code == Success ==> e.Ready() && Standing(e.T, c, i + 1, Now(e))
    ensures attempts > 0 && old(AllHere(e, k.prev, TakesIn(instr, k.len, e.T) + more, k.tag)) ==> code == Success && AllHere(e, k.prev, more, k.tag)
  {
    ghost var p := Now(e);
    NextMove(e, c, c.g.progs[c.r], i);
    code := Perform(e, k, c.cells, instr, attempts, more);
    if code == Success {
      StandsOn(e, c, i, p);
    }
  }

  /**
   A rank's whole program, run by the firmware: whatever its predecessor's packets are, the rank's memory ends as the
   program leaves it when fed the messages they amount to, and the packets it puts out are the segments of the messages
   the program then sends. A program that receives nothing is carried out in any case; one that receives is if the packets
   of all its messages have landed when it starts.
   */
  method RunProgram<C>(e: Engine, prog: seq<N.Instr<C>>, k: Rank<C>, ghost c: Call<C>, attempts: nat) returns (code: Code)
    requires e.Ready() && Placement(e, c) && c.k == k && c.r < |c.g.progs| && prog == c.g.progs[c.r]
    requires c.start == Now(e) && Placed(k.place, c.cells, k.len, |e.store.mem|) && k.next < |e.outbound|
    requires c.r < |c.g.init| && Cells(e.store.mem, k.place, c.cells, k.len) == c.g.init[c.r]
    modifies e, e.pool
    ensures code == Success || code == ReceiveTimeout
    ensures code == Success ==> e.Ready() && Reached(e.T, c, |prog|, Now(e))
    ensures (forall i :: 0 <= i < |prog| ==> !N.Receives(prog[i])) ==> code == Success
    ensures attempts > 0 && old(AllHere(e, k.prev, Receipts(N.Received(prog, |prog|), Cut(k.len, e.T)), k.tag)) ==> code == Success
  {
    code := Success;
    var i := 0;
    Outset(e, c);
    while i < |prog| && code == Success
      invariant i <= |prog| && (code == Success || code == ReceiveTimeout)
      invariant code == Success ==> e.Ready() && Standing(e.T, c, i, Now(e))
      invariant code == Success || exists j :: 0 <= j < |prog| && N.Receives(prog[j])
      invariant attempts > 0 && old(AllHere(e, k.prev, ToCome(prog, 0, k.len, e.T), k.tag)) ==>
        code == Success && AllHere(e, k.prev, ToCome(prog, i, k.len, e.T), k.tag)
      decreases |prog| - i
    {
      ToComeOn(prog, i, k.len, e.T);
      code := Step(e, prog[i], k, c, i, attempts, ToCome(prog, i + 1, k.len, e.T));
      i := i + 1;
    }
    assert Unfold(2);
  }

  lemma {:induction false} Outset<C>(e: Engine, c: Call<C>)
    requires e.Ready() && Placement(e, c) && c.r < |c.g.progs|
    requires c.start == Now(e) && Placed(c.k.place, c.cells, c.k.len, |e.store.mem|) && c.k.next < |e.outbound|
    requires c.r < |c.g.init| && Cells(e.store.mem, c.k.place, c.cells, c.k.len) == c.g.init[c.r]
    ensures Standing(e.T, c, 0, Now(e))
  {
    assert Unfold(1);
  }
}
