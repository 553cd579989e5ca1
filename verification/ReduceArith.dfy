/** The streaming arithmetic unit, and the number of words the firmware programs it for. */
module ReduceArith {
  import opened RingIndex
  import opened Segments
  import opened Elementwise
  import opened TxHandler

  /** Words of 64 bytes holding a whole number of operands. */
  ghost predicate WordStream(s: seq<seq<Byte>>) {
    forall k :: 0 <= k < |s| ==> |s[k]| == WORD_BYTES
  }

  /** The inner loop of `elementwise_sum`: one lane after the other. */
  method SumWord(a: Arith, x: seq<Byte>, y: seq<Byte>) returns (r: seq<Byte>)
    requires |x| == |y| && Aligned(|x|, a.width)
    ensures r == Whole(a, x, y)
  {
    r := [];
    var done := 0;
    while done < |x|
      invariant done <= |x| && Aligned(|x| - done, a.width)
      invariant r + Whole(a, x[done..], y[done..]) == Whole(a, x, y)
    {
      var lane := Lane(a, x[done..done + a.width], y[done..done + a.width]);
      LaneFirst(a, x, y, r, done);
      r := r + lane;
      done := done + a.width;
    }
  }

  lemma {:induction false} LaneFirst(a: Arith, x: seq<Byte>, y: seq<Byte>, r: seq<Byte>, k: nat)
    requires |x| == |y| && a.width > 0 && k + a.width <= |x|
    ensures r + Whole(a, x[k..], y[k..])
         == r + Lane(a, x[k..k + a.width], y[k..k + a.width]) + Whole(a, x[k + a.width..], y[k + a.width..])
  {
    assert x[k..][..a.width] == x[k..k + a.width] && y[k..][..a.width] == y[k..k + a.width];
    assert x[k..][a.width..] == x[k + a.width..] && y[k..][a.width..] == y[k + a.width..];
  }

  /** `elementwise_sum`: `count` words of each operand, word by word; the result is that of the operator on the whole streams. */
  method ElementwiseSum(a: Arith, in1: seq<seq<Byte>>, in2: seq<seq<Byte>>, count: nat) returns (out: seq<seq<Byte>>)
    requires Aligned(WORD_BYTES, a.width) && count <= |in1| && count <= |in2| && WordStream(in1) && WordStream(in2)
    ensures |out| == count && WordStream(out)
    ensures |Flatten(in1[..count])| == |Flatten(in2[..count])|
    ensures Flatten(out) == Whole(a, Flatten(in1[..count]), Flatten(in2[..count]))
  {
    out := [];
    var i := 0;
    while i < count
      invariant i <= count && |out| == i && WordStream(out)
      invariant |Flatten(in1[..i])| == |Flatten(in2[..i])| && Aligned(|Flatten(in1[..i])|, a.width)
      invariant Flatten(out) == Whole(a, Flatten(in1[..i]), Flatten(in2[..i]))
    {
      var w := SumWord(a, in1[i], in2[i]);
      FlattenSnoc(out, w);
      FlattenSnoc(in1[..i], in1[i]);
      FlattenSnoc(in2[..i], in2[i]);
      assert in1[..i + 1] == in1[..i] + [in1[i]] && in2[..i + 1] == in2[..i] + [in2[i]];
      WholeOfPieces(a, Flatten(in1[..i]), Flatten(in2[..i]), in1[i], in2[i]);
      AlignedSum(|Flatten(in1[..i])|, WORD_BYTES, a.width);
      out := out + [w];
      i := i + 1;
    }
  }

  lemma {:induction false} AlignedSum(m: nat, n: nat, width: nat)
    requires Aligned(m, width) && Aligned(n, width)
    ensures Aligned(m + n, width)
  {
    if m > 0 {
      AlignedSum(m - width, n, width);
    }
  }

  function Product(q: nat, w: nat): nat {
    q * w
  }

  /** The word count `start_arith` programs. */
  function ArithWords(bytes: nat, T: nat): nat
    requires T > 0
  {
    Product(bytes / T, Words(T)) + Words(bytes % T)
  }

  lemma {:induction false} OneMore(q: nat, w: nat)
    ensures Product(q + 1, w) == Product(q, w) + w
  {
  }

  lemma {:induction false} ArithWordsStep(bytes: nat, T: nat)
    requires 0 < T <= bytes
    ensures ArithWords(bytes, T) == Words(T) + ArithWords(bytes - T, T)
  {
    OneLess(bytes, T);
    OneMore((bytes - T) / T, Words(T));
  }

  /** It is the number of words the segments of the transfer take up, each rounded up by itself. */
  lemma {:induction false} ArithCountsSegments(bytes: nat, T: nat)
    requires T > 0
    ensures ArithWords(bytes, T) == TotalWords(Cut(bytes, T))
    decreases bytes
  {
    if bytes >= T {
      ArithCountsSegments(bytes - T, T);
      ArithWordsStep(bytes, T);
      assert Cut(bytes, T)[1..] == Cut(bytes - T, T);
    } else {
      Quotient(bytes, T, 0);
      if bytes > 0 {
        assert Cut(bytes, T) == [bytes] && [bytes][1..] == [];
      }
    }
  }

  lemma {:induction false} WordsOfSum(m: nat, n: nat)
    ensures Words(m) + Words(n) >= Words(m + n)
    ensures m % 64 == 0 ==> Words(m) + Words(n) == Words(m + n)
  {
  }

  /** Rounding each segment up never loses words, and costs none when segments end on words. */
  lemma {:induction false} SegmentsPad(c: seq<nat>, T: nat, bytes: nat)
    requires T > 0 && c == Cut(bytes, T)
    ensures TotalWords(c) >= Words(bytes)
    ensures T % 64 == 0 ==> TotalWords(c) == Words(bytes)
    decreases bytes
  {
    if bytes > 0 {
      var n := Min(bytes, T);
      assert c[1..] == Cut(bytes - n, T);
      SegmentsPad(c[1..], T, bytes - n);
      WordsOfSum(n, bytes - n);
    }
  }
}
