/** How `all_reduce_share` cuts a buffer of `len` bytes into `size` chunks of whole operands. */
module ChunkSize {
  import opened RingIndex
  import opened Segments

  /** `arith_number_of_bytes_per`: its -1 for an unknown function is read back as an unsigned int. */
  function OperandBytes(function_: nat): nat {
    match function_
    case 0 => 4
    case 1 => 8
    case 2 => 4
    case 3 => 8
    case _ => WORD - 1
  }

  /** The 32-bit arithmetic of the source. */
  function ChunkLength(len: nat, size: nat, width: nat): nat
    requires size > 0 && width > 0
  {
    var share := len / size;
    var tail := share % width;
    (share + (WORD - tail % WORD) + if tail == 0 then 0 else width) % WORD
  }

  lemma {:induction false} ShareBounds(len: nat, size: nat)
    requires size >= 2
    ensures len / size <= len / 2 && (len >= size ==> len / size >= 1)
  {
    var share := len / size;
    assert len == size * share + len % size;
    MultipleSign(size - 2, share);
    assert (size - 2) * share == size * share - 2 * share;
  }

  /** The share of each rank, rounded up to whole operands; nothing wraps when there are two ranks or more. */
  lemma {:induction false} RoundsUp(len: nat, size: nat, width: nat)
    requires len < WORD && size >= 2 && 0 < width < WORD
    ensures var share := len / size;
      ChunkLength(len, size, width) == if share % width == 0 then share else share - share % width + width
  {
    var share := len / size;
    ShareBounds(len, size);
    var tail := share % width;
    assert width <= share || tail == share by {
      if share < width {
        Quotient(share, width, 0);
      }
    }
    var rounded := if tail == 0 then share else share - tail + width;
    Quotient(tail, WORD, 0);
    Quotient(share + (WORD - tail) + (if tail == 0 then 0 else width), WORD, 1);
  }

  lemma {:induction false} WholeOperands(len: nat, size: nat, width: nat)
    requires len < WORD && size >= 2 && 0 < width < WORD
    ensures ChunkLength(len, size, width) % width == 0
  {
    RoundsUp(len, size, width);
    var share := len / size;
    assert (share / width + 1) * width == (share / width) * width + width;
    Quotient(share - share % width, width, share / width);
    Quotient(share - share % width + width, width, share / width + 1);
  }

  /**
   The four functions work on single, double, int and long operands, which fill the words of the arithmetic unit, and their
   chunks are shares rounded up to whole operands; any other function makes chunks of 2^32 - 1 bytes.
   */
  lemma {:induction false} OperandWidths(function_: nat, len: nat, size: nat)
    requires len < WORD && size >= 2
    ensures var width, chunk := OperandBytes(function_), ChunkLength(len, size, OperandBytes(function_));
      if function_ < 4 then
        && width == (if function_ == 0 || function_ == 2 then 4 else 8) && 64 % width == 0
        && chunk % width == 0 && len / size <= chunk < len / size + width
      else len >= size ==> chunk == 0xFFFF_FFFF
  {
    var width, share := OperandBytes(function_), len / size;
    RoundsUp(len, size, width);
    if function_ < 4 {
      WholeOperands(len, size, width);
    } else if len >= size {
      ShareBounds(len, size);
      Quotient(share, width, 0);
    }
  }

  /**
   The chunks cover the whole buffer exactly when nothing was cut off by the division, or the rounding added an operand;
   they never overshoot by more than `size * (width - 1)`.
   */
  lemma {:induction false} CoversIff(len: nat, size: nat, width: nat)
    requires len < WORD && size >= 2 && 0 < width < WORD
    ensures size * ChunkLength(len, size, width) >= len <==> len % size == 0 || (len / size) % width != 0
    ensures size * ChunkLength(len, size, width) <= len + size * (width - 1)
  {
    RoundsUp(len, size, width);
    var share, chunk := len / size, ChunkLength(len, size, width);
    var extra := chunk - share;
    assert size * chunk == size * share + size * extra;
    assert len == size * share + len % size;
    assert 0 <= extra <= width - 1;
    MultipleSign(extra, size);
    MultipleSign(width - 1 - extra, size);
    assert (width - 1 - extra) * size == size * (width - 1) - size * extra;
  }

  /** The shortfall is real: 24 bytes of 4-byte operands over 5 ranks leave the last 4 bytes out. */
  lemma {:induction false} CoverageFails()
    ensures ChunkLength(24, 5, OperandBytes(0)) == 4
    ensures 5 * ChunkLength(24, 5, OperandBytes(0)) < 24
  {
    Quotient(24, 5, 4);
    RoundsUp(24, 5, 4);
  }

  lemma {:induction false} WholeMultiple(x: nat, width: nat) returns (q: nat)
    requires width > 0 && x % width == 0
    ensures x == q * width
  {
    q := x / width;
    assert x == width * q + x % width;
  }

  /** What the division leaves over is a multiple of the width as well, and so at least the width. */
  lemma {:induction false} RestIsMultiple(len: nat, size: nat, width: nat)
    requires size > 0 && width > 0 && len % width == 0 && (len / size) % width == 0 && len % size != 0
    ensures size > width
  {
    var a := WholeMultiple(len, width);
    var b := WholeMultiple(len / size, width);
    assert len % size == len - size * (len / size);
    assert size * (b * width) == (size * b) * width;
    assert (a - size * b) * width == a * width - (size * b) * width;
    MultipleSign(a - size * b, width);
  }

  /** With whole operands in the buffer, no more ranks than operand bytes, or an even split, nothing is left out. */
  lemma {:induction false} CoversWhenFewRanks(len: nat, size: nat, width: nat)
    requires len < WORD && size >= 2 && 0 < width < WORD
    requires len % width == 0 && (size <= width || len % size == 0)
    ensures size * ChunkLength(len, size, width) >= len
  {
    CoversIff(len, size, width);
    if len % size != 0 && (len / size) % width == 0 {
      RestIsMultiple(len, size, width);
    }
  }

  /** Byte `b` of the buffer lies in chunk `b / chunk`, and that is one of the `size` chunks exactly under coverage. */
  lemma {:induction false} EveryByteHasAChunk(len: nat, size: nat, chunk: nat)
    requires len > 0 && size > 0 && chunk > 0
    ensures (forall b {:trigger b / chunk} :: 0 <= b < len ==> b / chunk < size) <==> size * chunk >= len
  {
    if size * chunk >= len {
      forall b | 0 <= b < len ensures b / chunk < size {
        MultipleSign(b / chunk - size, chunk);
        assert (b / chunk - size) * chunk == (b / chunk) * chunk - size * chunk;
      }
    } else {
      Quotient(size * chunk, chunk, size);
      assert (size * chunk) / chunk == size;
    }
  }
}
