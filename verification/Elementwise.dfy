/** The arithmetic unit: an operator on operands of `width` bytes, applied along a buffer. */
module Elementwise {
  import opened RingIndex
  import opened Segments

  /** `f(x, y, k)` is byte `k` of the result of the operator on operands `x` and `y`. */
  datatype Arith = Arith(width: nat, f: (seq<Byte>, seq<Byte>, nat) -> Byte)

  function Lane(a: Arith, x: seq<Byte>, y: seq<Byte>): (r: seq<Byte>)
    ensures |r| == |x|
  {
    seq<Byte>(|x|, k requires 0 <= k < |x| => a.f(x, y, k))
  }

  /** `n` bytes are a whole number of operands. */
  predicate Aligned(n: nat, width: nat) {
    width > 0 && (n == 0 || (n >= width && Aligned(n - width, width)))
  }

  lemma {:induction false} AlignedIsMultiple(n: nat, width: nat)
    requires width > 0
    ensures Aligned(n, width) <==> n % width == 0
  {
    if n >= width {
      OneLess(n, width);
      AlignedIsMultiple(n - width, width);
    } else {
      Quotient(n, width, 0);
    }
  }

  /** The operator along two whole buffers. */
  function Whole(a: Arith, x: seq<Byte>, y: seq<Byte>): (r: seq<Byte>)
    requires |x| == |y|
    ensures |r| == |x|
  {
    if x == [] || a.width == 0 then Lane(a, x, y) else
      var n := Min(a.width, |x|);
      Lane(a, x[..n], y[..n]) + Whole(a, x[n..], y[n..])
  }

  lemma {:induction false} TailSlice<A>(s: seq<A>, w: nat, from: nat, end: nat)
    requires w <= from <= end <= |s|
    ensures s[w..][from - w..end - w] == s[from..end]
  {
  }

  /** Byte `j` of the operand at `at` is that byte of the operator on the operands there, the left one first. */
  lemma {:induction false} OperandAt(a: Arith, x: seq<Byte>, y: seq<Byte>, at: nat, j: nat)
    requires |x| == |y| && Aligned(at, a.width) && j < a.width && at + j < |x|
    ensures var end := Min(at + a.width, |x|); Whole(a, x, y)[at + j] == a.f(x[at..end], y[at..end], j)
  {
    var w := a.width;
    if at > 0 {
      OperandAt(a, x[w..], y[w..], at - w, j);
      var end := Min(at + w, |x|);
      TailSlice(x, w, at, end);
      TailSlice(y, w, at, end);
    }
  }

  /** Streaming in pieces changes nothing, provided the pieces end on operand boundaries. */
  lemma {:induction false} WholeOfPieces(a: Arith, x0: seq<Byte>, y0: seq<Byte>, x1: seq<Byte>, y1: seq<Byte>)
    requires |x0| == |y0| && |x1| == |y1| && Aligned(|x0|, a.width)
    ensures Whole(a, x0 + x1, y0 + y1) == Whole(a, x0, y0) + Whole(a, x1, y1)
  {
    if x0 == [] {
      assert x0 + x1 == x1 && y0 + y1 == y1;
    } else {
      var w := a.width;
      WholeOfPieces(a, x0[w..], y0[w..], x1, y1);
      CutFront(x0, x1, w);
      CutFront(y0, y1, w);
      assert Lane(a, x0[..w], y0[..w]) + (Whole(a, x0[w..], y0[w..]) + Whole(a, x1, y1)) == Whole(a, x0, y0) + Whole(a, x1, y1);
    }
  }

  lemma {:induction false} CutFront<A>(s: seq<A>, t: seq<A>, w: nat)
    requires w <= |s|
    ensures (s + t)[..w] == s[..w] && (s + t)[w..] == s[w..] + t
  {
  }

  /** Streaming a buffer through the unit in segments of at most `T` bytes, each of them treated as a buffer of its own. */
  function Pieces(a: Arith, x: seq<Byte>, y: seq<Byte>, T: nat): (r: seq<Byte>)
    requires |x| == |y| && T > 0
    ensures |r| == |x|
  {
    if x == [] then [] else
      var n := Min(|x|, T);
      Whole(a, x[..n], y[..n]) + Pieces(a, x[n..], y[n..], T)
  }

  /** Byte `j` of the segment at `at` of a streamed buffer is that byte of the operator along the segment. */
  lemma {:induction false} StreamedAt(a: Arith, x: seq<Byte>, y: seq<Byte>, T: nat, at: nat, j: nat)
    requires |x| == |y| && Aligned(at, T) && j < T && at + j < |x|
    ensures var end := Min(at + T, |x|); Pieces(a, x, y, T)[at + j] == Whole(a, x[at..end], y[at..end])[j]
  {
    if at > 0 {
      StreamedAt(a, x[T..], y[T..], T, at - T, j);
      var end := Min(at + T, |x|);
      TailSlice(x, T, at, end);
      TailSlice(y, T, at, end);
    }
  }

  /** A buffer of `len` bytes is cut at operands only: it is one segment, or all segments but the last are whole operands. */
  predicate CutsAtOperands(len: nat, T: nat, width: nat) {
    len <= T || Aligned(T, width)
  }

  lemma {:induction false} OnePiece(a: Arith, x: seq<Byte>, y: seq<Byte>, T: nat)
    requires |x| == |y| <= T && T > 0
    ensures Pieces(a, x, y, T) == Whole(a, x, y)
  {
    if x != [] {
      assert x[..|x|] == x && y[..|y|] == y && x[|x|..] == [];
      assert Pieces(a, [], [], T) == [] && Whole(a, x, y) + [] == Whole(a, x, y);
    }
  }

  lemma {:induction false} PiecesAreWhole(a: Arith, x: seq<Byte>, y: seq<Byte>, T: nat)
    requires |x| == |y| && T > 0 && CutsAtOperands(|x|, T, a.width)
    ensures Pieces(a, x, y, T) == Whole(a, x, y)
  {
    if |x| <= T {
      OnePiece(a, x, y, T);
    } else {
      var x0, y0, x1, y1 := x[..T], y[..T], x[T..], y[T..];
      PiecesAreWhole(a, x1, y1, T);
      assert x == x0 + x1 && y == y0 + y1;
      WholeOfPieces(a, x0, y0, x1, y1);
    }
  }

  /** ---- The integer sum, and what becomes of a carry ---- */

  /** What the lower bytes of two little-endian operands carry into byte `k` of their sum. */
  function Carry(x: seq<Byte>, y: seq<Byte>, k: nat): (c: nat)
    requires k <= |x| && k <= |y|
    ensures c <= 1
  {
    if k == 0 then 0 else (x[k - 1] + y[k - 1] + Carry(x, y, k - 1)) / 256
  }

  function SumByte(x: seq<Byte>, y: seq<Byte>, k: nat): Byte {
    if k < |x| && k < |y| then (x[k] + y[k] + Carry(x, y, k)) % 256 else 0
  }

  /** The unit set to the sum of integers of `width` bytes. */
  function IntegerSum(width: nat): Arith {
    Arith(width, SumByte)
  }

  /** The number some bytes stand for, the lowest byte first. */
  function Number(x: seq<Byte>): nat {
    if x == [] then 0 else x[0] + 256 * Number(x[1..])
  }

  function Power(k: nat): nat {
    if k == 0 then 1 else 256 * Power(k - 1)
  }

  /** The bytes from `k` on, given what is carried into byte `k`. */
  lemma {:induction false} SumFrom(width: nat, x: seq<Byte>, y: seq<Byte>, k: nat)
    requires |x| == |y| && k <= |x|
    ensures Number(Lane(IntegerSum(width), x, y)[k..]) + (if Carry(x, y, |x|) == 1 then Power(|x| - k) else 0)
         == Number(x[k..]) + Number(y[k..]) + Carry(x, y, k)
    decreases |x| - k
  {
    var r := Lane(IntegerSum(width), x, y);
    if k < |x| {
      SumFrom(width, x, y, k + 1);
      assert r[k..][1..] == r[k + 1..] && x[k..][1..] == x[k + 1..] && y[k..][1..] == y[k + 1..];
      assert r[k] == SumByte(x, y, k);
      assert x[k] + y[k] + Carry(x, y, k) == r[k] + 256 * Carry(x, y, k + 1);
    } else {
      assert r[k..] == x[k..] == y[k..] == [];
    }
  }

  /** It is the sum of the numbers, up to what does not fit the operand. */
  lemma {:induction false} SumIsSum(width: nat, x: seq<Byte>, y: seq<Byte>)
    requires |x| == |y|
    ensures Number(Lane(IntegerSum(width), x, y)) + (if Carry(x, y, |x|) == 1 then Power(|x|) else 0) == Number(x) + Number(y)
  {
    SumFrom(width, x, y, 0);
    assert Lane(IntegerSum(width), x, y)[0..] == Lane(IntegerSum(width), x, y) && x[0..] == x && y[0..] == y;
  }

  lemma {:induction false} Remainder(m: nat, width: nat) returns (r: nat)
    requires width > 0
    ensures r < width && r <= m && Aligned(m - r, width) && (r == 0 <==> Aligned(m, width))
  {
    if m < width {
      r := m;
    } else {
      r := Remainder(m - width, width);
    }
  }

  /** `len` bytes, all zero but for byte `at`. */
  function Spike(len: nat, at: nat, b: Byte): (x: seq<Byte>)
    ensures |x| == len
  {
    seq<Byte>(len, k => if k == at then b else 0)
  }

  lemma {:induction false} SpikeTail(len: nat, at: nat, b: Byte, n: nat)
    requires n <= at < len
    ensures Spike(len, at, b)[n..] == Spike(len - n, at - n, b)
  {
  }

  lemma {:induction false} CarryShows(x: seq<Byte>, y: seq<Byte>, at: nat)
    requires at + 1 < |x| == |y| && x[at] == 255 && y[at] == 1 && x[at + 1] == y[at + 1] == 0
    ensures SumByte(x, y, at + 1) == 1
  {
    assert Carry(x, y, at + 1) == (256 + Carry(x, y, at)) / 256 == 1;
  }

  /** Byte `k` of the whole result, in the first operand and past it. */
  lemma {:induction false} WholeAt(a: Arith, x: seq<Byte>, y: seq<Byte>, k: nat)
    requires a.width > 0 && k < |x| == |y|
    ensures var n := Min(a.width, |x|);
      Whole(a, x, y)[k] == if k < n then a.f(x[..n], y[..n], k) else Whole(a, x[n..], y[n..])[k - n]
  {
    var n := Min(a.width, |x|);
    assert Whole(a, x, y) == Lane(a, x[..n], y[..n]) + Whole(a, x[n..], y[n..]);
  }

  lemma {:induction false} FirstOperandCarries(width: nat, len: nat, at: nat)
    requires at + 1 < width && at + 1 < len
    ensures Whole(IntegerSum(width), Spike(len, at, 255), Spike(len, at, 1))[at + 1] == 1
  {
    var x, y, n := Spike(len, at, 255), Spike(len, at, 1), Min(width, len);
    WholeAt(IntegerSum(width), x, y, at + 1);
    CarryShows(x[..n], y[..n], at);
  }

  lemma {:induction false} PastFirstOperand(width: nat, len: nat, at: nat)
    requires 0 < width <= at && at + 1 < len
    ensures Whole(IntegerSum(width), Spike(len, at, 255), Spike(len, at, 1))[at + 1]
         == Whole(IntegerSum(width), Spike(len - width, at - width, 255), Spike(len - width, at - width, 1))[at + 1 - width]
  {
    WholeAt(IntegerSum(width), Spike(len, at, 255), Spike(len, at, 1), at + 1);
    SpikeTail(len, at, 255, width);
    SpikeTail(len, at, 1, width);
  }

  /** In the whole buffer, 255 + 1 at byte `r - 1` of an operand carries into its next byte; `m` bytes of operands come before. */
  lemma {:induction false} WholeCarries(width: nat, len: nat, m: nat, r: nat)
    requires 0 < r < width && Aligned(m, width) && m + r < len
    ensures Whole(IntegerSum(width), Spike(len, m + r - 1, 255), Spike(len, m + r - 1, 1))[m + r] == 1
    decreases m
  {
    var at := m + r - 1;
    if m == 0 {
      FirstOperandCarries(width, len, at);
    } else {
      PastFirstOperand(width, len, at);
      WholeCarries(width, len - width, m - width, r);
    }
  }

  lemma {:induction false} FirstByte(width: nat, x: seq<Byte>, y: seq<Byte>)
    requires width > 0 && |x| == |y| > 0 && x[0] == y[0] == 0
    ensures Whole(IntegerSum(width), x, y)[0] == 0
  {
    WholeAt(IntegerSum(width), x, y, 0);
  }

  /** Cut after byte `T - 1`, the carry is lost. */
  lemma {:induction false} PiecesLoseCarry(width: nat, len: nat, T: nat)
    requires width > 0 && 0 < T < len
    ensures Pieces(IntegerSum(width), Spike(len, T - 1, 255), Spike(len, T - 1, 1), T)[T] == 0
  {
    var x, y := Spike(len, T - 1, 255)[T..], Spike(len, T - 1, 1)[T..];
    var n := Min(|x|, T);
    FirstByte(width, x[..n], y[..n]);
    assert Pieces(IntegerSum(width), x, y, T)[0] == Whole(IntegerSum(width), x[..n], y[..n])[0];
  }

  /**
   Streaming a buffer in segments is right for every operator exactly when it is right for the integer sum, and that is
   exactly when the buffer is cut at operands.
   */
  lemma {:induction false} StreamsIff(len: nat, T: nat, width: nat)
    requires T > 0 && width > 0
    ensures CutsAtOperands(len, T, width) <==>
      forall a: Arith, x: seq<Byte>, y: seq<Byte> :: a.width == width && |x| == |y| == len ==> Pieces(a, x, y, T) == Whole(a, x, y)
    ensures CutsAtOperands(len, T, width) <==>
      forall x: seq<Byte>, y: seq<Byte> :: |x| == |y| == len ==> Pieces(IntegerSum(width), x, y, T) == Whole(IntegerSum(width), x, y)
  {
    if CutsAtOperands(len, T, width) {
      forall a: Arith, x: seq<Byte>, y: seq<Byte> | a.width == width && |x| == |y| == len ensures Pieces(a, x, y, T) == Whole(a, x, y) {
        PiecesAreWhole(a, x, y, T);
      }
    } else {
      var r := Remainder(T, width);
      var x, y := Spike(len, T - 1, 255), Spike(len, T - 1, 1);
      WholeCarries(width, len, T - r, r);
      PiecesLoseCarry(width, len, T);
      assert Pieces(IntegerSum(width), x, y, T) != Whole(IntegerSum(width), x, y);
    }
  }

  /** Two 8-byte integers each, in segments of 12 bytes. */
  lemma {:induction false} StreamingFails()
    ensures var x, y := Spike(16, 11, 255), Spike(16, 11, 1);
      Pieces(IntegerSum(8), x, y, 12)[12] == 0 && Whole(IntegerSum(8), x, y)[12] == 1
  {
    assert Aligned(8, 8);
    WholeCarries(8, 16, 8, 4);
    PiecesLoseCarry(8, 16, 12);
  }
}
