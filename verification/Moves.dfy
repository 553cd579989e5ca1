/**
 What a list of DMA transfers does to memory and to the outgoing network stream. Operand 0 is read by DMA0, operand 1
 by DMA1, and the result is written by DMA1 or leaves on the network. Operand 1 may lie in a spare receive buffer; a
 transfer is resolved once the bytes found there are filled in.
 */
module Moves {
  import opened Segments
  import opened Elementwise

  datatype Source = Memory(at: nat) | Spare(index: nat) | Payload(data: seq<Byte>)

  datatype Move = Move(len: nat, op0: nat, op1: Source, tx: nat)

  /** Which data path the switch is set to. */
  datatype Path = Path(reduce: bool, store: bool)

  datatype Store = Store(mem: seq<Byte>, out: seq<seq<Byte>>)

  predicate Fits(m: Move, path: Path, size: nat) {
    && (path.reduce ==> m.op0 + m.len <= size)
    && (path.store ==> m.tx + m.len <= size)
    && match m.op1
       case Memory(at) => at + m.len <= size
       case Spare(_) => false
       case Payload(data) => |data| == m.len
  }

  /** Operand 1 passed along the data path, which may combine it with operand 0 at `at`. */
  function Pass(mem: seq<Byte>, a: Arith, path: Path, at: nat, b: seq<Byte>): (r: seq<Byte>)
    requires path.reduce ==> at + |b| <= |mem|
    ensures |r| == |b|
  {
    if path.reduce then Whole(a, mem[at..at + |b|], b) else b
  }

  function OperandOf(mem: seq<Byte>, m: Move): seq<Byte>
    requires match m.op1 case Memory(at) => at + m.len <= |mem| case Spare(_) => false case Payload(_) => true
  {
    if m.op1.Memory? then mem[m.op1.at..m.op1.at + m.len] else m.op1.data
  }

  function Result(mem: seq<Byte>, a: Arith, path: Path, m: Move): (r: seq<Byte>)
    requires Fits(m, path, |mem|)
    ensures |r| == m.len
  {
    Pass(mem, a, path, m.op0, OperandOf(mem, m))
  }

  function Effect(s: Store, a: Arith, path: Path, m: Move): (t: Store)
    requires Fits(m, path, |s.mem|)
    ensures |t.mem| == |s.mem|
  {
    var r := Result(s.mem, a, path, m);
    if path.store then s.(mem := Overwrite(s.mem, m.tx, r)) else s.(out := s.out + [r])
  }

  predicate AllFit(ms: seq<Move>, path: Path, size: nat) {
    forall k :: 0 <= k < |ms| ==> Fits(ms[k], path, size)
  }

  /** Doing the transfers one after the other. */
  function Run(s: Store, a: Arith, path: Path, ms: seq<Move>): (t: Store)
    requires AllFit(ms, path, |s.mem|)
    ensures |t.mem| == |s.mem|
    decreases |ms|
  {
    if ms == [] then s else Run(Effect(s, a, path, ms[0]), a, path, ms[1..])
  }

  lemma {:induction false} RunSnoc(s: Store, a: Arith, path: Path, ms: seq<Move>, m: Move)
    requires AllFit(ms, path, |s.mem|) && Fits(m, path, |s.mem|)
    ensures AllFit(ms + [m], path, |s.mem|)
    ensures Run(s, a, path, ms + [m]) == Effect(Run(s, a, path, ms), a, path, m)
    decreases |ms|
  {
    if ms == [] {
      assert (ms + [m])[1..] == [];
    } else {
      RunSnoc(Effect(s, a, path, ms[0]), a, path, ms[1..], m);
      assert (ms + [m])[1..] == ms[1..] + [m];
    }
  }

  /** Where operand 1 of consecutive segments comes from: the next addresses, or the next packets of a peer. */
  datatype Feed = FromMemory(at: nat) | FromWire(first: nat)

  /** A whole data movement, before it is cut into segments. */
  datatype Call = Call(path: Path, len: nat, op0: nat, feed: Feed, tx: nat)

  function FirstMove(c: Call, T: nat, wire: nat -> seq<Byte>): Move {
    Move(Min(c.len, T), c.op0, match c.feed case FromMemory(at) => Memory(at) case FromWire(k) => Payload(wire(k)), c.tx)
  }

  /** What is left of a movement after its first segment. */
  function Rest(c: Call, T: nat): Call {
    var n := Min(c.len, T);
    Call(c.path, c.len - n, c.op0 + n, match c.feed case FromMemory(at) => FromMemory(at + n) case FromWire(k) => FromWire(k + 1), c.tx + n)
  }

  /** The transfers of a movement: consecutive segments at consecutive addresses. */
  function Plan(c: Call, T: nat, wire: nat -> seq<Byte>): seq<Move>
    requires T > 0
    decreases c.len
  {
    if c.len == 0 then [] else [FirstMove(c, T, wire)] + Plan(Rest(c, T), T, wire)
  }

  /** The peer's packets have the lengths the receiver cuts its buffer into. */
  ghost predicate Sized(c: Call, T: nat, wire: nat -> seq<Byte>)
    requires T > 0
    decreases c.len
  {
    c.feed.FromWire? && c.len > 0 ==> |wire(c.feed.first)| == Min(c.len, T) && Sized(Rest(c, T), T, wire)
  }

  /** Operand 1 of the whole movement: a piece of memory, or the peer's packets put end to end. */
  ghost function Operand(mem: seq<Byte>, c: Call, T: nat, wire: nat -> seq<Byte>): (b: seq<Byte>)
    requires T > 0 && (c.feed.FromMemory? ==> c.feed.at + c.len <= |mem|) && Sized(c, T, wire)
    ensures |b| == c.len
    decreases c.len
  {
    match c.feed
    case FromMemory(at) => mem[at..at + c.len]
    case FromWire(k) => if c.len == 0 then [] else wire(k) + Operand(mem, Rest(c, T), T, wire)
  }

  /** Reading `len` bytes at `at` while writing `len` bytes at `tx`, segment by segment, is safe. */
  predicate Clear(at: nat, tx: nat, len: nat) {
    at == tx || at + len <= tx || tx + len <= at
  }

  /** The operands lie in memory of the given size and, when the movement writes memory, do not straddle the result. */
  ghost predicate Sound(size: nat, c: Call, T: nat, wire: nat -> seq<Byte>) {
    && T > 0
    && (c.path.reduce ==> c.op0 + c.len <= size)
    && (c.feed.FromMemory? ==> c.feed.at + c.len <= size)
    && Sized(c, T, wire)
    && (c.path.store ==>
      && c.tx + c.len <= size
      && (c.path.reduce ==> Clear(c.op0, c.tx, c.len))
      && (c.feed.FromMemory? ==> Clear(c.feed.at, c.tx, c.len)))
  }

  /** Operand 1 streamed along the data path in segments: what a reduction makes of each is on its own. */
  function Stream(mem: seq<Byte>, a: Arith, path: Path, at: nat, b: seq<Byte>, T: nat): (r: seq<Byte>)
    requires T > 0 && (path.reduce ==> at + |b| <= |mem|)
    ensures |r| == |b|
  {
    if path.reduce then Pieces(a, mem[at..at + |b|], b, T) else b
  }

  /** The result of the whole movement, computed from the memory it starts with. */
  ghost function Answer(mem: seq<Byte>, a: Arith, c: Call, T: nat, wire: nat -> seq<Byte>): (r: seq<Byte>)
    requires Sound(|mem|, c, T, wire)
    ensures |r| == c.len
  {
    Stream(mem, a, c.path, c.op0, Operand(mem, c, T, wire), T)
  }

  lemma {:induction false} SoundRest(size: nat, c: Call, T: nat, wire: nat -> seq<Byte>)
    requires Sound(size, c, T, wire) && c.len > 0
    ensures Fits(FirstMove(c, T, wire), c.path, size)
    ensures Sound(size, Rest(c, T), T, wire)
  {
  }

  ghost predicate Same(mem: seq<Byte>, after: seq<Byte>, at: nat, len: nat) {
    at + len <= |mem| && at + len <= |after| && mem[at..at + len] == after[at..at + len]
  }

  /** Writing the first segment leaves the rest of an operand alone. */
  lemma {:induction false} RestUntouched(mem: seq<Byte>, tx: nat, r: seq<Byte>, at: nat, len: nat)
    requires |r| <= len && tx + len <= |mem| && at + len <= |mem| && Clear(at, tx, len)
    ensures Same(mem, Overwrite(mem, tx, r), at + |r|, len - |r|)
  {
  }

  lemma {:induction false} OperandSame(mem: seq<Byte>, after: seq<Byte>, c: Call, T: nat, wire: nat -> seq<Byte>)
    requires T > 0 && Sized(c, T, wire) && (c.feed.FromMemory? ==> Same(mem, after, c.feed.at, c.len))
    ensures Operand(mem, c, T, wire) == Operand(after, c, T, wire)
    decreases c.len
  {
    if c.feed.FromWire? && c.len > 0 {
      OperandSame(mem, after, Rest(c, T), T, wire);
    }
  }

  /** A stream is its first segment and the stream of the rest. */
  lemma {:induction false} StreamSplits(mem: seq<Byte>, a: Arith, path: Path, at: nat, b0: seq<Byte>, b1: seq<Byte>, T: nat)
    requires T > 0 && (path.reduce ==> at + |b0| + |b1| <= |mem|)
    requires b0 + b1 != [] && |b0| == Min(|b0 + b1|, T)
    ensures Stream(mem, a, path, at, b0 + b1, T) == Pass(mem, a, path, at, b0) + Stream(mem, a, path, at + |b0|, b1, T)
  {
    if path.reduce {
      var x, b, n := mem[at..at + |b0| + |b1|], b0 + b1, |b0|;
      assert x[..n] == mem[at..at + n] && x[n..] == mem[at + n..at + n + |b1|];
      assert b[..n] == b0 && b[n..] == b1;
    }
  }

  /** Cut at operands, a stream is the operator along the whole operands. */
  lemma {:induction false} StreamIsPass(mem: seq<Byte>, a: Arith, path: Path, at: nat, b: seq<Byte>, T: nat)
    requires T > 0 && (path.reduce ==> at + |b| <= |mem| && CutsAtOperands(|b|, T, a.width))
    ensures Stream(mem, a, path, at, b, T) == Pass(mem, a, path, at, b)
  {
    if path.reduce {
      PiecesAreWhole(a, mem[at..at + |b|], b, T);
    }
  }

  lemma {:induction false} OperandSplits(mem: seq<Byte>, c: Call, T: nat, wire: nat -> seq<Byte>)
    requires T > 0 && c.len > 0 && Sized(c, T, wire) && (c.feed.FromMemory? ==> c.feed.at + c.len <= |mem|)
    ensures Operand(mem, c, T, wire) == OperandOf(mem, FirstMove(c, T, wire)) + Operand(mem, Rest(c, T), T, wire)
  {
  }

  /** The first segment's result is the front of the answer. */
  lemma {:induction false} AnswerSplits(mem: seq<Byte>, a: Arith, c: Call, T: nat, wire: nat -> seq<Byte>)
    requires Sound(|mem|, c, T, wire) && c.len > 0
    requires Fits(FirstMove(c, T, wire), c.path, |mem|) && Sound(|mem|, Rest(c, T), T, wire)
    ensures Answer(mem, a, c, T, wire)
         == Result(mem, a, c.path, FirstMove(c, T, wire)) + Answer(mem, a, Rest(c, T), T, wire)
  {
    OperandSplits(mem, c, T, wire);
    StreamSplits(mem, a, c.path, c.op0, OperandOf(mem, FirstMove(c, T, wire)), Operand(mem, Rest(c, T), T, wire), T);
  }

  lemma {:induction false} StreamSame(mem: seq<Byte>, after: seq<Byte>, a: Arith, path: Path, at: nat, b: seq<Byte>, T: nat)
    requires T > 0 && (path.reduce ==> Same(mem, after, at, |b|))
    ensures Stream(mem, a, path, at, b, T) == Stream(after, a, path, at, b, T)
  {
  }

  lemma {:induction false} OperandsUntouched(mem: seq<Byte>, c: Call, T: nat, wire: nat -> seq<Byte>, r: seq<Byte>)
    requires c.path.store && Sound(|mem|, c, T, wire) && c.len > 0 && |r| == Min(c.len, T)
    ensures var after, rest := Overwrite(mem, c.tx, r), Rest(c, T);
      && (c.feed.FromMemory? ==> Same(mem, after, rest.feed.at, rest.len))
      && (c.path.reduce ==> Same(mem, after, rest.op0, rest.len))
  {
    if c.feed.FromMemory? {
      RestUntouched(mem, c.tx, r, c.feed.at, c.len);
    }
    if c.path.reduce {
      RestUntouched(mem, c.tx, r, c.op0, c.len);
    }
  }

  lemma {:induction false} AnswerSurvives(mem: seq<Byte>, a: Arith, c: Call, T: nat, wire: nat -> seq<Byte>, r: seq<Byte>)
    requires c.path.store && Sound(|mem|, c, T, wire) && c.len > 0 && |r| == Min(c.len, T)
    requires Sound(|mem|, Rest(c, T), T, wire)
    ensures Answer(Overwrite(mem, c.tx, r), a, Rest(c, T), T, wire) == Answer(mem, a, Rest(c, T), T, wire)
  {
    var after := Overwrite(mem, c.tx, r);
    OperandsUntouched(mem, c, T, wire, r);
    OperandSame(mem, after, Rest(c, T), T, wire);
    StreamSame(mem, after, a, c.path, Rest(c, T).op0, Operand(mem, Rest(c, T), T, wire), T);
  }

  lemma {:induction false} StoreStep(mem: seq<Byte>, a: Arith, c: Call, T: nat, wire: nat -> seq<Byte>)
    requires c.path.store && Sound(|mem|, c, T, wire) && c.len > 0
    requires Fits(FirstMove(c, T, wire), c.path, |mem|) && Sound(|mem|, Rest(c, T), T, wire)
    ensures var after := Overwrite(mem, c.tx, Result(mem, a, c.path, FirstMove(c, T, wire)));
      Overwrite(after, Rest(c, T).tx, Answer(after, a, Rest(c, T), T, wire)) == Overwrite(mem, c.tx, Answer(mem, a, c, T, wire))
  {
    var r := Result(mem, a, c.path, FirstMove(c, T, wire));
    AnswerSplits(mem, a, c, T, wire);
    AnswerSurvives(mem, a, c, T, wire, r);
    OverwriteTwice(mem, c.tx, r, Answer(mem, a, Rest(c, T), T, wire));
  }

  /** Segment by segment, a movement into memory writes exactly the whole answer, computed from the memory it started with. */
  lemma {:induction false} RunStores(s: Store, a: Arith, c: Call, T: nat, wire: nat -> seq<Byte>)
    requires c.path.store && Sound(|s.mem|, c, T, wire)
    ensures AllFit(Plan(c, T, wire), c.path, |s.mem|)
    ensures Run(s, a, c.path, Plan(c, T, wire)) == s.(mem := Overwrite(s.mem, c.tx, Answer(s.mem, a, c, T, wire)))
    decreases c.len
  {
    if c.len == 0 {
      assert Overwrite(s.mem, c.tx, []) == s.mem;
    } else {
      SoundRest(|s.mem|, c, T, wire);
      RunStores(Effect(s, a, c.path, FirstMove(c, T, wire)), a, Rest(c, T), T, wire);
      StoreStep(s.mem, a, c, T, wire);
      assert ([FirstMove(c, T, wire)] + Plan(Rest(c, T), T, wire))[1..] == Plan(Rest(c, T), T, wire);
    }
  }

  /** The first segment of an answer goes out before the rest of it. */
  lemma {:induction false} SlicesOn(out: seq<seq<Byte>>, r: seq<Byte>, rest: seq<Byte>, T: nat)
    requires T > 0 && |r| == Min(|r + rest|, T) && r + rest != []
    ensures (out + [r]) + Slices(rest, T) == out + Slices(r + rest, T)
  {
    assert (r + rest)[..|r|] == r && (r + rest)[|r|..] == rest;
    assert out + ([r] + Slices(rest, T)) == (out + [r]) + Slices(rest, T);
  }

  /** Segment by segment, a movement to the network emits exactly the segments of the whole answer. */
  lemma {:induction false} RunSends(s: Store, a: Arith, c: Call, T: nat, wire: nat -> seq<Byte>)
    requires !c.path.store && Sound(|s.mem|, c, T, wire)
    ensures AllFit(Plan(c, T, wire), c.path, |s.mem|)
    ensures Run(s, a, c.path, Plan(c, T, wire)) == s.(out := s.out + Slices(Answer(s.mem, a, c, T, wire), T))
    decreases c.len
  {
    if c.len == 0 {
      assert s.out + [] == s.out;
    } else {
      var m := FirstMove(c, T, wire);
      SoundRest(|s.mem|, c, T, wire);
      RunSends(Effect(s, a, c.path, m), a, Rest(c, T), T, wire);
      AnswerSplits(s.mem, a, c, T, wire);
      SlicesOn(s.out, Result(s.mem, a, c.path, m), Answer(s.mem, a, Rest(c, T), T, wire), T);
      assert ([m] + Plan(Rest(c, T), T, wire))[1..] == Plan(Rest(c, T), T, wire);
    }
  }

  function LensOf(ms: seq<Move>): (c: seq<nat>)
    ensures |c| == |ms|
  {
    seq(|ms|, k requires 0 <= k < |ms| => ms[k].len)
  }

  /** The memory a movement touches exists. */
  predicate Bounded(c: Call, size: nat) {
    && (c.path.reduce ==> c.op0 + c.len <= size)
    && (c.path.store ==> c.tx + c.len <= size)
    && (c.feed.FromMemory? ==> c.feed.at + c.len <= size)
  }

  /** Transfers to the network leave memory alone and emit one packet each; transfers to memory emit nothing. */
  lemma {:induction false} RunOut(s: Store, a: Arith, path: Path, ms: seq<Move>)
    requires AllFit(ms, path, |s.mem|)
    ensures var t := Run(s, a, path, ms);
      && (path.store ==> t.out == s.out)
      && (!path.store ==> t.mem == s.mem && |t.out| == |s.out| + |ms|)
    decreases |ms|
  {
    if ms != [] {
      var n := |ms| - 1;
      assert ms[..n] + [ms[n]] == ms;
      RunSnoc(s, a, path, ms[..n], ms[n]);
      RunOut(s, a, path, ms[..n]);
    }
  }
}
