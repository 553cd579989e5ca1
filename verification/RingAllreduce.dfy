/**
 All-reduce by a whole ring of engines, byte for byte: the moves each rank's firmware chooses, run by its transfer engine,
 on source and destination buffers that lie apart or coincide.
 */
module RingAllreduce {
  import opened RingIndex
  import opened Segments
  import opened SpareBuffers
  import opened TransferEngine
  import opened Buffers
  import opened ChunkSize
  import opened Lanes
  import opened Composition
  import opened RingOfEngines
  import opened InPlace
  import opened Unfolding
  import A = Allreduce
  import N = Network

  /** All messages of an all-reduce of `n` ranks. */
  ghost function Messages(op: (seq<Byte>, seq<Byte>) -> seq<Byte>, y: (nat, nat) -> seq<Byte>, n: nat): (nat, nat) -> seq<Byte> {
    (r: nat, k: nat) => if r < n && k + 2 < 2 * n then A.Message(op, y, n, r, k) else []
  }

  /** Which chunks a collective works on: `chunk` bytes each, `size` of them, of a buffer of `len` bytes. */
  ghost predicate Cover(len: nat, size: nat, width: nat, chunk: nat) {
    && len < WORD && size >= 2 && 0 < width < WORD
    && forall u: nat {:trigger Unfold(u)} :: u == 1 && Unfold(u) ==>
      chunk == ChunkLength(len, size, width) && (len % size == 0 || (len / size) % width != 0)
  }

  /** Byte `b` of a buffer is byte `off` of its chunk `c`. */
  predicate LiesAt(b: nat, chunk: nat, c: nat, off: nat) {
    off < chunk && b == Times(c, chunk) + off
  }

  lemma {:induction false} LiesAtQuotient(b: nat, chunk: nat, c: nat, off: nat)
    requires chunk > 0
    ensures LiesAt(b, chunk, c, off) <==> c == b / chunk && off == b % chunk
  {
    TimesIsProduct(c, chunk);
    if LiesAt(b, chunk, c, off) {
      Quotient(b, chunk, c);
    }
  }

  lemma {:induction false} FindChunk(b: nat, chunk: nat, size: nat) returns (c: nat, off: nat)
    requires b < Times(size, chunk)
    ensures c < size && LiesAt(b, chunk, c, off)
  {
    if b < Times(size - 1, chunk) {
      c, off := FindChunk(b, chunk, size - 1);
    } else {
      c, off := size - 1, b - Times(size - 1, chunk);
    }
  }

  lemma {:induction false} ChunksCover(len: nat, size: nat, width: nat, chunk: nat)
    requires Cover(len, size, width, chunk)
    ensures len <= Times(size, chunk)
  {
    assert Unfold(1);
    CoversIff(len, size, width);
    TimesIsProduct(size, chunk);
  }

  /** The destination buffer of a rank: its chunks lie one after the other from `dst` on. */
  ghost predicate DestinationAt(k: Rank<Block>, cells: set<Block>, dst: nat, n: nat) {
    forall c: nat :: c < n ==> Dst(c) in cells && k.place(Dst(c)) == dst + Times(c, k.len)
  }

  /** Byte `b` of the destination is that byte of the reduction of the chunk it lies in. */
  ghost predicate ReducedByte(mem: seq<Byte>, dst: nat, op: (seq<Byte>, seq<Byte>) -> seq<Byte>, y: (nat, nat) -> seq<Byte>, n: nat, chunk: nat, b: nat) {
    exists c: nat, off: nat :: LiesAt(b, chunk, c, off) && c < n && IsByte(mem, dst + b, A.Result(op, y, c, n), chunk, off)
  }

  ghost predicate IsByte(mem: seq<Byte>, at: nat, v: seq<Byte>, len: nat, off: nat) {
    at < |mem| && off < |v| == len && mem[at] == v[off]
  }

  ghost predicate ReducedChunk(mem: seq<Byte>, k: Rank<Block>, cells: set<Block>, op: (seq<Byte>, seq<Byte>) -> seq<Byte>, y: (nat, nat) -> seq<Byte>, n: nat, c: nat)
    requires Placed(k.place, cells, k.len, |mem|)
  {
    c < n && Dst(c) in cells && Cells(mem, k.place, cells, k.len)[Dst(c)] == A.Result(op, y, c, n)
  }

  lemma {:induction false} ByteOfChunk(mem: seq<Byte>, k: Rank<Block>, cells: set<Block>, dst: nat, op: (seq<Byte>, seq<Byte>) -> seq<Byte>,
                                       y: (nat, nat) -> seq<Byte>, n: nat, c: nat, off: nat, b: nat)
    requires Placed(k.place, cells, k.len, |mem|) && DestinationAt(k, cells, dst, n) && LiesAt(b, k.len, c, off)
    requires ReducedChunk(mem, k, cells, op, y, n, c)
    ensures ReducedByte(mem, dst, op, y, n, k.len, b)
  {
    CellByte(mem, k, cells, Dst(c), off);
    assert IsByte(mem, dst + b, A.Result(op, y, c, n), k.len, off);
  }

  lemma {:induction false} CellByte(mem: seq<Byte>, k: Rank<Block>, cells: set<Block>, b: Block, off: nat)
    requires Placed(k.place, cells, k.len, |mem|) && b in cells && off < k.len
    ensures k.place(b) + off < |mem| && |Cells(mem, k.place, cells, k.len)[b]| == k.len
    ensures Cells(mem, k.place, cells, k.len)[b][off] == mem[k.place(b) + off]
  {
  }

  lemma {:induction false} Solution(g: N.Ring<Block, seq<Byte>>, y: (nat, nat) -> seq<Byte>, n: nat, time: (nat, nat) -> nat)
    requires n >= 2 && A.Runs(g, g.progs, y, n, A.Length(n)) && forall r: nat, i: nat :: time(r, i) == i
    ensures N.Solves(g, Messages(g.op, y, n)) && N.Causal(g, time) && N.Balanced(g)
    ensures A.Carries(g, y, n, Messages(g.op, y, n))
  {
    A.AllreduceSolves(g, g.progs, y, n, A.Length(n), Messages(g.op, y, n));
    A.AllreduceCausal(g, g.progs, y, n, A.Length(n), time);
  }

  lemma {:induction false} ChunkInPlace(g: N.Ring<Block, seq<Byte>>, y: (nat, nat) -> seq<Byte>, n: nat, r: nat, c: nat)
    requires n >= 2 && A.Runs(g, g.progs, y, n, A.Length(n)) && A.Carries(g, y, n, Messages(g.op, y, n)) && r < n && c < n
    ensures var m := N.MemAt(g, Messages(g.op, y, n), r, |g.progs[r]|); Dst(c) in m && m[Dst(c)] == A.Result(g.op, y, c, n)
  {
    assert A.Follows(g.progs[r], r, n, A.Length(n));
    A.ChunkStays(g, g.progs, y, n, A.Length(n), Messages(g.op, y, n), r, Back(r, c, n));
    assert Back(r, Back(r, c, n), n) == c;
  }

  /** The moves of every rank. */
  method Programs(size: nat) returns (progs: seq<seq<N.Instr<Block>>>)
    requires size >= 2
    ensures |progs| == size && forall r :: 0 <= r < size ==> progs[r] == A.Program(r, size)
  {
    progs := [];
    var r := 0;
    while r < size
      invariant r <= size && |progs| == r && forall q :: 0 <= q < r ==> progs[q] == A.Program(q, size)
    {
      var moves := A.AllReduceShare(r, size);
      progs := progs + [moves];
      r := r + 1;
    }
  }

  /** What both forms of the call ask for. */
  ghost predicate Prepared(t: Team<Block>, dst: seq<nat>, size: nat, len: nat, width: nat) {
    && Proper(t) && |t.es| == |dst| == size && Cover(len, size, width, t.len)
    && forall r: nat :: r < size ==> DestinationAt(t.ks[r], t.cells[r], dst[r], size)
  }

  ghost predicate ReducedOn(t: Team<Block>, dst: seq<nat>, y: (nat, nat) -> seq<Byte>, len: nat, r: nat, s: Before)
    requires r < |dst|
  {
    forall b: nat :: b < len ==> ReducedByte(s.mem, dst[r], t.g.op, y, |dst|, t.len, b)
  }

  ghost predicate AllReduced(t: Team<Block>, dst: seq<nat>, y: (nat, nat) -> seq<Byte>, len: nat, ends: seq<Before>)
    requires |ends| == |dst|
  {
    forall r: nat :: r < |dst| ==> ReducedOn(t, dst, y, len, r, ends[r])
  }

  /**
   `all_reduce_share` on `size` ranks. If no rank gives up waiting and the links carry what is put out on them, then on
   every rank each byte of the destination buffer is that byte of the reduction of its chunk.
   */
  method AllreduceOnRing(es: seq<Engine>, ks: seq<Rank<Block>>, size: nat, ghost t: Team<Block>, ghost dst: seq<nat>, ghost len: nat, ghost width: nat,
                         ghost y: (nat, nat) -> seq<Byte>, attempts: nat)
    returns (code: Code, ghost ends: seq<Before>)
    requires Prepared(t, dst, size, len, width) && t.es == es && t.ks == ks
    requires A.Runs(t.g, t.g.progs, y, size, A.Length(size))
    requires Underway(t, [])
    modifies es, set e | e in es :: e.pool
    ensures code == Success || code == ReceiveTimeout
    ensures code == Success ==>
      |ends| == size && Underway(t, ends) && (AllCarry(t, ends) ==> AllReduced(t, dst, y, len, ends))
    ensures code == Success && WiresBring(t, Messages(t.g.op, y, size)) ==> AllCarry(t, ends)
    ensures old(AllProvided(t, 0, attempts)) ==> code == Success
  {
    var progs := Programs(size);
    assert progs == t.g.progs by {
      forall r | 0 <= r < size ensures progs[r] == t.g.progs[r] {
        assert A.Follows(t.g.progs[r], r, size, A.Length(size));
      }
    }
    ghost var out, time := Messages(t.g.op, y, size), (r: nat, i: nat) => i;
    Solution(t.g, y, size, time);
    code, ends := RunRing(es, progs, ks, t, out, time, attempts);
    if code == Success && AllCarry(t, ends) {
      forall r: nat | r < size ensures ReducedOn(t, dst, y, len, r, ends[r]) {
        assert Solved(t, out, r, ends[r]);
        SolvedIsReduced(t, dst, y, size, len, width, r, ends[r]);
      }
    }
  }

  lemma {:induction false} SolvedIsReduced(t: Team<Block>, dst: seq<nat>, y: (nat, nat) -> seq<Byte>, size: nat, len: nat, width: nat, r: nat, s: Before)
    requires Prepared(t, dst, size, len, width) && r < size && A.Runs(t.g, t.g.progs, y, size, A.Length(size))
    requires A.Carries(t.g, y, size, Messages(t.g.op, y, size)) && Solved(t, Messages(t.g.op, y, size), r, s)
    ensures ReducedOn(t, dst, y, len, r, s)
  {
    assert Member(t, r);
    forall c: nat | c < size ensures ReducedChunk(s.mem, t.ks[r], t.cells[r], t.g.op, y, size, c) {
      ChunkInPlace(t.g, y, size, r, c);
      assert DestinationAt(t.ks[r], t.cells[r], dst[r], size);
      assert Dst(c) in t.cells[r];
    }
    AllBytes(t, dst, y, size, len, width, r, s);
  }

  lemma {:induction false} AllBytes(t: Team<Block>, dst: seq<nat>, y: (nat, nat) -> seq<Byte>, size: nat, len: nat, width: nat, r: nat, s: Before)
    requires Prepared(t, dst, size, len, width) && r < size && Placed(t.ks[r].place, t.cells[r], t.ks[r].len, |s.mem|)
    requires forall c: nat :: c < size ==> ReducedChunk(s.mem, t.ks[r], t.cells[r], t.g.op, y, size, c)
    ensures ReducedOn(t, dst, y, len, r, s)
  {
    assert Member(t, r);
    ChunksCover(len, size, width, t.len);
    forall b: nat | b < len ensures ReducedByte(s.mem, dst[r], t.g.op, y, size, t.len, b) {
      var c, off := FindChunk(b, t.len, size);
      ByteOfChunk(s.mem, t.ks[r], t.cells[r], dst[r], t.g.op, y, size, c, off, b);
    }
  }

  /** ---- The same with one buffer for source and destination ---- */

  function OnDestination(b: Block): Block {
    Dst(b.block)
  }

  /** No rank reads a source chunk after the destination chunk on it has been written, or a destination chunk before. */
  lemma {:induction false} CarefulProgram(r: nat, n: nat)
    requires n >= 2 && r < n
    ensures Careful(A.Program(r, n), OnDestination)
  {
    var prog := A.Program(r, n);
    forall i | 0 <= i < |prog| ensures CarefulMove(prog, OnDestination, i) {
      assert prog[i] == A.MoveAt(r, n, i);
      forall c | Reads(prog[i], c) ensures Current(prog, OnDestination, i, c) {
        if i < n {
          assert c.Src?;
          assert forall j :: 0 <= j < i ==> prog[j] == A.MoveAt(r, n, j);
        } else {
          assert c.Dst? && prog[i - 1] == A.MoveAt(r, n, i - 1) && N.Writes(prog[i - 1], c);
        }
      }
    }
  }

  /** Rank `r` starts with its contributions in the destination buffer, and runs the same moves on that buffer alone. */
  ghost predicate InPlaceRank(h: N.Ring<Block, seq<Byte>>, y: (nat, nat) -> seq<Byte>, n: nat, r: nat)
    requires n >= 2 && r < n == |h.progs| == |h.init|
  {
    && h.progs[r] == RenamedProgram(A.Program(r, n), OnDestination)
    && forall c: nat :: c < n ==> Dst(c) in h.init[r] && h.init[r][Dst(c)] == y(r, c)
  }

  ghost predicate InPlaceJob(h: N.Ring<Block, seq<Byte>>, y: (nat, nat) -> seq<Byte>, n: nat) {
    2 <= n == |h.progs| == |h.init| && forall r: nat :: r < n ==> InPlaceRank(h, y, n, r)
  }

  ghost function Blocks(n: nat): (s: set<Block>)
    ensures forall b :: b in s <==> b.block < n
  {
    if n == 0 then {} else Blocks(n - 1) + {Src(n - 1), Dst(n - 1)}
  }

  /** The same call on separate buffers. */
  ghost function Separated(h: N.Ring<Block, seq<Byte>>, y: (nat, nat) -> seq<Byte>, n: nat): N.Ring<Block, seq<Byte>>
    requires n >= 2
  {
    N.Ring(h.op, seq(n, r requires 0 <= r < n => A.Program(r, n)), seq(n, r requires 0 <= r < n => map b | b in Blocks(n) :: y(r, b.block)))
  }

  lemma {:induction false} SeparatedRuns(h: N.Ring<Block, seq<Byte>>, y: (nat, nat) -> seq<Byte>, n: nat)
    requires InPlaceJob(h, y, n)
    ensures var g := Separated(h, y, n); A.Runs(g, g.progs, y, n, A.Length(n)) && Overlay(g, h, OnDestination)
  {
    var g := Separated(h, y, n);
    forall r, i | 0 <= r < n && 0 <= i < |g.progs[r]| ensures N.Fits(g.progs[r][i], g.init[r]) {
      assert g.progs[r][i] == A.MoveAt(r, n, i);
    }
    forall r: nat | r < n ensures Overlaid(g, h, OnDestination, r) {
      assert InPlaceRank(h, y, n, r);
      CarefulProgram(r, n);
    }
  }

  lemma {:induction false} EveryChunkIsWritten(r: nat, n: nat, c: nat)
    requires n >= 2 && r < n && c < n
    ensures WrittenBefore(A.Program(r, n), |A.Program(r, n)|, Dst(c))
  {
    var u := Back(r, c, n);
    assert Back(r, u, n) == c;
    var i := if u == 0 then n - 1 else n + 2 * u - 1;
    assert A.Program(r, n)[i] == A.MoveAt(r, n, i) && N.Writes(A.MoveAt(r, n, i), Dst(c));
  }

  lemma {:induction false} InPlaceSolution(h: N.Ring<Block, seq<Byte>>, y: (nat, nat) -> seq<Byte>, n: nat, time: (nat, nat) -> nat)
    requires InPlaceJob(h, y, n) && forall r: nat, i: nat :: time(r, i) == i
    ensures N.WellFormed(h) && N.Solves(h, Messages(h.op, y, n)) && N.Causal(h, time) && N.Balanced(h)
  {
    var g := Separated(h, y, n);
    SeparatedRuns(h, y, n);
    Solution(g, y, n, time);
    OverlayIsWellFormed(g, h, OnDestination);
    OverlaySolves(g, h, OnDestination, Messages(h.op, y, n));
    OverlayCausal(g, h, OnDestination, time);
  }

  lemma {:induction false} InPlaceChunk(h: N.Ring<Block, seq<Byte>>, y: (nat, nat) -> seq<Byte>, n: nat, r: nat, c: nat)
    requires InPlaceJob(h, y, n) && N.WellFormed(h) && r < n && c < n
    ensures var m := N.MemAt(h, Messages(h.op, y, n), r, |h.progs[r]|); Dst(c) in m && m[Dst(c)] == A.Result(h.op, y, c, n)
  {
    var g, time := Separated(h, y, n), (r: nat, i: nat) => i;
    SeparatedRuns(h, y, n);
    Solution(g, y, n, time);
    ChunkInPlace(g, y, n, r, c);
    EveryChunkIsWritten(r, n, c);
    assert InPlaceRank(h, y, n, r);
    SameCell(g, h, OnDestination, Messages(h.op, y, n), r, |g.progs[r]|, Dst(c));
  }

  method InPlacePrograms(size: nat) returns (progs: seq<seq<N.Instr<Block>>>)
    requires size >= 2
    ensures |progs| == size && forall r :: 0 <= r < size ==> progs[r] == RenamedProgram(A.Program(r, size), OnDestination)
  {
    var separate := Programs(size);
    progs := seq(size, r requires 0 <= r < size => RenamedProgram(separate[r], OnDestination));
  }

  /** The same promise when every rank's destination buffer is its source buffer. */
  method AllreduceInPlaceOnRing(es: seq<Engine>, ks: seq<Rank<Block>>, size: nat, ghost t: Team<Block>, ghost dst: seq<nat>, ghost len: nat,
                                ghost width: nat, ghost y: (nat, nat) -> seq<Byte>, attempts: nat)
    returns (code: Code, ghost ends: seq<Before>)
    requires Prepared(t, dst, size, len, width) && t.es == es && t.ks == ks
    requires InPlaceJob(t.g, y, size)
    requires Underway(t, [])
    modifies es, set e | e in es :: e.pool
    ensures code == Success || code == ReceiveTimeout
    ensures code == Success ==>
      |ends| == size && Underway(t, ends) && (AllCarry(t, ends) ==> AllReduced(t, dst, y, len, ends))
    ensures code == Success && WiresBring(t, Messages(t.g.op, y, size)) ==> AllCarry(t, ends)
    ensures old(AllProvided(t, 0, attempts)) ==> code == Success
  {
    var progs := InPlacePrograms(size);
    assert progs == t.g.progs by {
      forall r: nat | r < size ensures progs[r] == t.g.progs[r] {
        assert InPlaceRank(t.g, y, size, r);
      }
    }
    ghost var out, time := Messages(t.g.op, y, size), (r: nat, i: nat) => i;
    InPlaceSolution(t.g, y, size, time);
    code, ends := RunRing(es, progs, ks, t, out, time, attempts);
    if code == Success && AllCarry(t, ends) {
      forall r: nat | r < size ensures ReducedOn(t, dst, y, len, r, ends[r]) {
        assert Solved(t, out, r, ends[r]);
        InPlaceIsReduced(t, dst, y, size, len, width, r, ends[r]);
      }
    }
  }

  lemma {:induction false} InPlaceIsReduced(t: Team<Block>, dst: seq<nat>, y: (nat, nat) -> seq<Byte>, size: nat, len: nat, width: nat, r: nat, s: Before)
    requires Prepared(t, dst, size, len, width) && r < size && InPlaceJob(t.g, y, size) && Solved(t, Messages(t.g.op, y, size), r, s)
    ensures ReducedOn(t, dst, y, len, r, s)
  {
    assert Member(t, r);
    forall c: nat | c < size ensures ReducedChunk(s.mem, t.ks[r], t.cells[r], t.g.op, y, size, c) {
      InPlaceChunk(t.g, y, size, r, c);
      assert DestinationAt(t.ks[r], t.cells[r], dst[r], size);
      assert Dst(c) in t.cells[r];
    }
    AllBytes(t, dst, y, size, len, width, r, s);
  }
}
