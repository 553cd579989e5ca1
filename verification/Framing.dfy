/**
 The packetizers and depacketizers between the DMA and the network. A 512-bit word is sixteen 32-bit fields; the first
 four fields of a header word hold a message's length, tag, source and sequence number.
 */
module Framing {
  import opened RingIndex
  import opened TxHandler

  const FIELDS := 16
  const MAX_LENGTH := 0x7FFF_FFBF // the byte counter, a signed 32-bit integer, also counts the header

  type Data = d: seq<nat> | |d| == FIELDS witness [0, 0, 0, 0, 0, 0, 0, 0, 0, 0, 0, 0, 0, 0, 0, 0]

  datatype Message = Message(length: nat, tag: nat, src: nat, seqNum: nat)

  /** A word on a stream: data, byte mask and end-of-packet mark. */
  datatype Word = Word(data: Data, keep: nat, last: bool)

  function Pow2(n: nat): (p: nat)
    ensures p > 0
  {
    if n == 0 then 1 else 2 * Pow2(n - 1)
  }

  /** The mask of the first `n` bytes, as the source computes it. */
  function Mask(n: nat): (m: int) {
    Pow2(n) - 1
  }

  /** The number of bytes a mask keeps. */
  function Kept(mask: nat): nat {
    if mask == 0 then 0 else mask % 2 + Kept(mask / 2)
  }

  lemma {:induction false} OddKeeps(m: nat)
    ensures Kept(2 * m + 1) == 1 + Kept(m)
  {
    assert (2 * m + 1) % 2 == 1 && (2 * m + 1) / 2 == m;
  }

  lemma {:induction false} MaskKeeps(n: nat)
    ensures Mask(n) >= 0 && Kept(Mask(n)) == n
  {
    if n > 0 {
      MaskKeeps(n - 1);
      OddKeeps(Mask(n - 1));
      assert Mask(n) == 2 * Mask(n - 1) + 1;
    }
  }

  lemma {:induction false} HalvesQuotient(m: nat, c: nat, p: nat)
    requires c < 2 && p > 0
    ensures (2 * m + c) / (2 * p) == m / p
  {
    var q, r := m / p, m % p;
    assert 2 * m + c == q * (2 * p) + (2 * r + c) by {
      assert m == q * p + r;
      assert q * (2 * p) == 2 * (q * p);
    }
    Quotient(2 * m + c, 2 * p, q);
  }

  /** Bit `k` of the mask of `n` bytes is set exactly for the first `n` of them. */
  lemma {:induction false} MaskBits(n: nat, k: nat)
    ensures (Mask(n) / Pow2(k)) % 2 == 1 <==> k < n
  {
    if n > 0 {
      var m := Mask(n - 1);
      assert Mask(n) == 2 * m + 1;
      if k == 0 {
        assert (2 * m + 1) % 2 == 1;
      } else {
        MaskBits(n - 1, k - 1);
        HalvesQuotient(m, 1, Pow2(k - 1));
      }
    }
  }

  /** Every byte of a word: the source assigns -1. */
  const WHOLE: nat := 0xFFFF_FFFF_FFFF_FFFF

  lemma {:induction false} Pow2Doubles(n: nat)
    ensures Pow2(n + n) == Pow2(n) * Pow2(n)
  {
    if n > 0 {
      Pow2Doubles(n - 1);
      var p := Pow2(n - 1);
      assert Pow2(n + n) == 2 * Pow2(n + n - 1) == 4 * (p * p);
      assert (2 * p) * (2 * p) == 4 * (p * p);
    }
  }

  lemma {:induction false} Squares(n: nat, v: nat)
    requires Pow2(n) == v
    ensures Pow2(n + n) == v * v
  {
    Pow2Doubles(n);
  }

  lemma {:induction false} SixtyFour(n: nat, v: nat)
    requires n == 4 && v == 16 && Pow2(n) == v
    ensures Pow2(n * 16) == WHOLE + 1
  {
    Squares(n, v);
    Squares(n * 2, v * v);
    Squares(n * 4, 0x1_0000);
    Squares(n * 8, 0x1_0000_0000);
  }

  lemma {:induction false} KeepsAll(mask: nat, n: nat)
    requires mask + 1 == Pow2(n)
    ensures Kept(mask) == n
  {
    MaskKeeps(n);
  }

  lemma {:induction false} WholeKeeps()
    ensures Kept(WHOLE) == WORD_BYTES
  {
    var n: nat :| n == 4;
    assert Pow2(n) == 16;
    SixtyFour(n, 16);
    KeepsAll(WHOLE, n * 16);
  }

  lemma {:induction false} WholeIsMask() returns (n: nat)
    ensures n == 64 && WHOLE == Mask(n)
  {
    n :| n == 64;
    var m: nat :| m == 4;
    assert Pow2(m) == 16;
    SixtyFour(m, 16);
    assert m * 16 == n;
  }

  /** The mask -1 keeps all 64 bytes, and there are no more. */
  lemma {:induction false} WholeBits(k: nat)
    ensures (WHOLE / Pow2(k)) % 2 == 1 <==> k < 64
  {
    var n := WholeIsMask();
    MaskBits(n, k);
  }

  /** The mask of a word when `left` bytes are still to go, and the bytes it carries. */
  function KeepFor(left: nat): (k: nat)
    ensures Kept(k) == if left < WORD_BYTES then left else WORD_BYTES
  {
    MaskKeeps(left);
    WholeKeeps();
    if left < WORD_BYTES then Mask(left) else WHOLE
  }

  /** Byte `b` of a word is part of the stream. */
  predicate KeepsByte(keep: nat, b: nat) {
    (keep / Pow2(b)) % 2 == 1
  }

  lemma {:induction false} KeepForBits(left: nat, b: nat)
    ensures KeepsByte(KeepFor(left), b) <==> b < 64 && b < left
  {
    MaskBits(left, b);
    WholeBits(b);
  }

  /** The word counter after `k` words, reset at every `max`-th. */
  function Phase(k: nat, max: nat): nat {
    if k == 0 then 0 else
      var p := Phase(k - 1, max) + 1;
      if p == max then 0 else p
  }

  lemma {:induction false} PhaseQuotient(k: nat, max: nat) returns (q: nat)
    requires max > 0
    ensures Phase(k, max) < max && k == q * max + Phase(k, max)
  {
    if k == 0 {
      q := 0;
    } else {
      q := PhaseQuotient(k - 1, max);
      if Phase(k, max) == 0 {
        assert (q + 1) * max == q * max + max;
        q := q + 1;
      }
    }
  }

  lemma {:induction false} PhaseIsRemainder(k: nat, max: nat)
    requires max > 0
    ensures Phase(k, max) == k % max
  {
    var q := PhaseQuotient(k, max);
    Quotient(k, max, q);
  }

  /** The bytes still to go before word `k` of a message and its header; they run out with the words. */
  function Left(bytes: nat, k: nat): (left: nat)
    requires k <= Words(bytes)
    ensures left > 0 && (left <= WORD_BYTES <==> k == Words(bytes))
  {
    bytes + WORD_BYTES - k * WORD_BYTES
  }

  lemma {:induction false} NextWord(bytes: nat, k: nat, processed: nat)
    requires processed == k * WORD_BYTES < bytes
    ensures k < Words(bytes) && bytes - processed == Left(bytes, k + 1)
    ensures bytes - processed <= WORD_BYTES <==> k + 1 == Words(bytes)
  {
  }

  predicate IsHeader(d: Data, m: Message) {
    d[0] == m.length && d[1] == m.tag && d[2] == m.src && d[3] == m.seqNum
  }

  /** Fields above the fourth keep whatever the register held. */
  function HeaderWord(m: Message, junk: Data): (d: Data)
    ensures IsHeader(d, m)
  {
    [m.length, m.tag, m.src, m.seqNum] + junk[4..]
  }

  /** Word `k` of a framed message of `bytes` bytes, of which the payload is `payload`. */
  function FrameWord(head: Data, payload: seq<Data>, bytes: nat, max: nat, k: nat): Word
    requires k <= |payload| == Words(bytes)
  {
    Word(if k == 0 then head else payload[k - 1],
         KeepFor(Left(bytes, k)),
         Phase(k + 1, max) == 0 || k == |payload|)
  }

  /** A whole framed message. */
  function Frame(head: Data, payload: seq<Data>, bytes: nat, max: nat): (f: seq<Word>)
    requires |payload| == Words(bytes)
    ensures |f| == |payload| + 1
  {
    seq(|payload| + 1, k requires 0 <= k <= |payload| => FrameWord(head, payload, bytes, max, k))
  }

  lemma {:induction false} Prefix<A>(s: seq<A>, k: nat)
    requires k < |s|
    ensures s[..k] + [s[k]] == s[..k + 1]
  {
  }

  /** The part of the loop body both packetizers share: byte counter, word counter and end-of-packet mark. */
  method EmitWord(data: Data, keep: nat, left: nat, pktsize: nat, max: nat) returns (w: Word, step: nat, next: nat)
    ensures step == if left < WORD_BYTES then left else WORD_BYTES
    ensures w == Word(data, keep, pktsize + 1 == max || left <= WORD_BYTES)
    ensures next == if w.last then 0 else pktsize + 1
  {
    step := if left < WORD_BYTES then left else WORD_BYTES;
    next := pktsize + 1;
    var last := false;
    if next == max || left <= WORD_BYTES {
      last := true;
      next := 0;
    }
    w := Word(data, keep, last);
  }

  /**
   `vnx_packetizer`: one call takes one message's words off the input and sends them behind a header word. Every word but
   a ragged last one is kept whole, and a packet ends after every `max` words and at the end of the message.
   */
  method VnxPacketizer(input: seq<Data>, m: Message, max: nat, junk: Data)
    returns (output: seq<Word>, rest: seq<Data>, status: nat)
    requires m.length <= MAX_LENGTH && Words(m.length) <= |input|
    ensures var n := Words(m.length);
      rest == input[n..] && output == Frame(HeaderWord(m, junk), input[..n], m.length, max)
    ensures IsFrame(output, m, input[..Words(m.length)], max)
    ensures status == m.seqNum
  {
    var head := HeaderWord(m, junk);
    ghost var n, k := Words(m.length), 0;
    ghost var payload := input[..n];
    var total := m.length + WORD_BYTES;
    var processed, pktsize := 0, 0;
    output, rest := [], input;
    while processed < total
      invariant k <= n + 1 && (if k <= n then processed == k * WORD_BYTES && pktsize == Phase(k, max) else processed == total)
      invariant rest == input[if k == 0 then 0 else k - 1..]
      invariant output == Frame(head, payload, m.length, max)[..k]
      decreases total - processed
    {
      assert total - processed == Left(m.length, k);
      var data := head;
      if processed != 0 {
        data, rest := rest[0], rest[1..];
      }
      var word, step;
      word, step, pktsize := EmitWord(data, KeepFor(total - processed), total - processed, pktsize, max);
      assert word == FrameWord(head, payload, m.length, max, k);
      Prefix(Frame(head, payload, m.length, max), k);
      output, processed := output + [word], processed + step;
      k := k + 1;
    }
    status := m.seqNum;
    FrameIs(m, junk, payload, max);
  }

  /** What a depacketizer call returns: the header's fields, the payload with its end marked, and the words left. */
  datatype Unframed = Unframed(status: Message, payload: seq<Word>, rest: seq<Word>)

  /** The length field read as a signed 32-bit integer. */
  function Signed(x: nat): (r: int)
    ensures x < 0x1_0000_0000 ==> -0x8000_0000 <= r < 0x8000_0000 && (r == x || r == x - 0x1_0000_0000)
  {
    if x < 0x8000_0000 then x else x - 0x1_0000_0000
  }

  function WordsSigned(count: int): nat {
    if count <= 0 then 0 else Words(count)
  }

  function Unframe(input: seq<Word>): Unframed
    requires input != [] && 1 + WordsSigned(Signed(input[0].data[0])) <= |input|
  {
    var h := input[0].data;
    var n := WordsSigned(Signed(h[0]));
    Unframed(Message(h[0], h[1], h[2], h[3]),
             seq(n, j requires 0 <= j < n => Word(input[j + 1].data, input[j + 1].keep, j == n - 1)),
             input[n + 1..])
  }

  /** `vnx_depacketizer` and `tcp_depacketizer`: one call takes exactly one message off the input. */
  method Depacketizer(input: seq<Word>) returns (output: seq<Word>, status: Message, rest: seq<Word>)
    requires input != [] && 1 + WordsSigned(Signed(input[0].data[0])) <= |input|
    ensures Unframed(status, output, rest) == Unframe(input)
    ensures 0x8000_0000 <= input[0].data[0] < 0x1_0000_0000 ==> output == [] && rest == input[1..]
  {
    var h := input[0].data;
    var count := Signed(h[0]);
    status := Message(h[0], h[1], h[2], h[3]);
    ghost var total, k := WordsSigned(count), 0;
    output, rest := [], input[1..];
    while count > 0
      invariant k <= total && WordsSigned(count) == total - k
      invariant |output| == k && rest == input[k + 1..]
      invariant forall j :: 0 <= j < k ==> output[j] == Word(input[j + 1].data, input[j + 1].keep, j == total - 1)
      decreases count
    {
      var word := rest[0];
      rest := rest[1..];
      count := count - WORD_BYTES;
      output := output + [Word(word.data, word.keep, count <= 0)];
      k := k + 1;
    }
  }

  /** The payload as it arrives: the same words and masks, the end of the message marked and nothing else. */
  function Arriving(payload: seq<Data>, bytes: nat): seq<Word>
    requires |payload| == Words(bytes)
  {
    seq(|payload|, j requires 0 <= j < |payload| =>
      Word(payload[j], KeepFor(Left(bytes, j + 1)), j == |payload| - 1))
  }

  /** Depacketizing undoes packetizing, whatever the packet size, and leaves what follows untouched. */
  lemma {:induction false} RoundTrip(m: Message, payload: seq<Data>, max: nat, junk: Data, rest: seq<Word>)
    requires m.length <= MAX_LENGTH && |payload| == Words(m.length)
    ensures var f := Frame(HeaderWord(m, junk), payload, m.length, max) + rest;
      && 1 + WordsSigned(Signed(f[0].data[0])) <= |f|
      && Unframe(f) == Unframed(m, Arriving(payload, m.length), rest)
  {
    var f := Frame(HeaderWord(m, junk), payload, m.length, max) + rest;
    assert f[0] == FrameWord(HeaderWord(m, junk), payload, m.length, max, 0);
    forall j | 0 <= j < |payload| ensures Unframe(f).payload[j] == Arriving(payload, m.length)[j] {
      assert f[j + 1] == FrameWord(HeaderWord(m, junk), payload, m.length, max, j + 1);
    }
    assert Unframe(f).payload == Arriving(payload, m.length);
  }

  function KeptBytes(f: seq<Word>): nat {
    if f == [] then 0 else KeptBytes(f[..|f| - 1]) + Kept(f[|f| - 1].keep)
  }

  /** The first `k` words of a frame keep `k` whole words, and all of them the message and its header exactly. */
  lemma {:induction false} FrameKeeps(head: Data, payload: seq<Data>, bytes: nat, max: nat, k: nat)
    requires |payload| == Words(bytes) && k <= |payload| + 1
    ensures KeptBytes(Frame(head, payload, bytes, max)[..k]) == if k <= |payload| then k * WORD_BYTES else bytes + WORD_BYTES
  {
    if k > 0 {
      var f := Frame(head, payload, bytes, max);
      FrameKeeps(head, payload, bytes, max, k - 1);
      assert f[..k][..k - 1] == f[..k - 1];
      assert f[k - 1] == FrameWord(head, payload, bytes, max, k - 1);
      assert Left(bytes, k - 1) > 0;
    }
  }

  /** Packet ends fall after every `max` words and at the end of the message. */
  lemma {:induction false} FrameEnds(head: Data, payload: seq<Data>, bytes: nat, max: nat, k: nat)
    requires |payload| == Words(bytes) && k <= |payload| && max > 0
    ensures Frame(head, payload, bytes, max)[k].last <==> (k + 1) % max == 0 || k == |payload|
  {
    PhaseIsRemainder(k + 1, max);
  }

  /**
   What word `i` of a framed message is: the header's four fields first and then the payload in order; of its bytes those
   that lie below the length of header and message; and the mark of a packet's end after every `max` words and at the end.
   */
  ghost predicate IsFrameWord(w: Word, i: nat, m: Message, payload: seq<Data>, max: nat)
    requires i <= |payload|
  {
    && (if i == 0 then w.data[..4] == [m.length, m.tag, m.src, m.seqNum] else w.data == payload[i - 1])
    && (forall b: nat :: KeepsByte(w.keep, b) <==> b < 64 && 64 * i + b < 64 + m.length)
    && (w.last <==> (max > 0 && (i + 1) % max == 0) || i == |payload|)
  }

  ghost predicate IsFrame(f: seq<Word>, m: Message, payload: seq<Data>, max: nat) {
    |f| == 1 + |payload| && forall i :: 0 <= i <= |payload| ==> IsFrameWord(f[i], i, m, payload, max)
  }

  lemma {:induction false} PhaseOfNone(k: nat)
    ensures Phase(k, 0) == k
  {
    if k > 0 {
      PhaseOfNone(k - 1);
    }
  }

  lemma {:induction false} FrameWordIs(m: Message, junk: Data, payload: seq<Data>, max: nat, i: nat)
    requires i <= |payload| == Words(m.length)
    ensures IsFrameWord(Frame(HeaderWord(m, junk), payload, m.length, max)[i], i, m, payload, max)
  {
    var head := HeaderWord(m, junk);
    var w := Frame(head, payload, m.length, max)[i];
    assert w == FrameWord(head, payload, m.length, max, i);
    forall b: nat ensures KeepsByte(w.keep, b) <==> b < 64 && 64 * i + b < 64 + m.length {
      KeepForBits(Left(m.length, i), b);
    }
    if max == 0 {
      PhaseOfNone(i + 1);
    } else {
      PhaseIsRemainder(i + 1, max);
    }
  }

  lemma {:induction false} FrameIs(m: Message, junk: Data, payload: seq<Data>, max: nat)
    requires |payload| == Words(m.length)
    ensures IsFrame(Frame(HeaderWord(m, junk), payload, m.length, max), m, payload, max)
  {
    forall i | 0 <= i <= |payload|
      ensures IsFrameWord(Frame(HeaderWord(m, junk), payload, m.length, max)[i], i, m, payload, max)
    {
      FrameWordIs(m, junk, payload, max, i);
    }
  }

  /** A message with its payload. */
  datatype Load = Load(msg: Message, payload: seq<Data>, junk: Data)

  ghost predicate Proper(ls: seq<Load>) {
    forall k :: 0 <= k < |ls| ==> ls[k].msg.length <= MAX_LENGTH && |ls[k].payload| == Words(ls[k].msg.length)
  }

  /** The stream that a sequence of packetizer calls writes. */
  ghost function Frames(ls: seq<Load>, max: nat): seq<Word>
    requires Proper(ls)
  {
    if ls == [] then [] else
      Frame(HeaderWord(ls[0].msg, ls[0].junk), ls[0].payload, ls[0].msg.length, max) + Frames(ls[1..], max)
  }

  /** As many depacketizer calls return the same messages, one each, and use up the stream. */
  ghost predicate Returns(f: seq<Word>, ls: seq<Load>)
    requires Proper(ls)
    decreases |ls|
  {
    if ls == [] then f == [] else
      && f != [] && 1 + WordsSigned(Signed(f[0].data[0])) <= |f|
      && var u := Unframe(f);
      && u.status == ls[0].msg && u.payload == Arriving(ls[0].payload, ls[0].msg.length)
      && Returns(u.rest, ls[1..])
  }

  lemma {:induction false} ManyRoundTrips(ls: seq<Load>, max: nat)
    requires Proper(ls)
    ensures Returns(Frames(ls, max), ls)
    decreases |ls|
  {
    if ls != [] {
      RoundTrip(ls[0].msg, ls[0].payload, max, ls[0].junk, Frames(ls[1..], max));
      ManyRoundTrips(ls[1..], max);
    }
  }

  /**
   Word `k` of a message as `tcp_packetizer` sends it. The packet counter starts after the header; `ragged(n)` stands for
   the mask of a last word of `n` bytes, which the source computes by shifting a plain integer.
   */
  function TcpWord(head: Data, payload: seq<Data>, bytes: nat, max: nat, ragged: nat -> nat, k: nat): Word
    requires k <= |payload| == Words(bytes)
  {
    if k == 0 then Word(head, WHOLE, false)
    else Word(payload[k - 1], TcpKeep(Left(bytes, k), ragged), Phase(k, max) == 0 || k == |payload|)
  }

  function TcpKeep(left: nat, ragged: nat -> nat): nat {
    if left < WORD_BYTES then ragged(left) else WHOLE
  }

  function TcpFrame(head: Data, payload: seq<Data>, bytes: nat, max: nat, ragged: nat -> nat): (f: seq<Word>)
    requires |payload| == Words(bytes)
    ensures |f| == |payload| + 1
  {
    seq(|payload| + 1, k requires 0 <= k <= |payload| => TcpWord(head, payload, bytes, max, ragged, k))
  }

  lemma {:induction false} TcpNext(head: Data, payload: seq<Data>, bytes: nat, max: nat, ragged: nat -> nat, k: nat, w: Word)
    requires k < |payload| == Words(bytes)
    requires w == Word(payload[k], TcpKeep(Left(bytes, k + 1), ragged), Phase(k, max) + 1 == max || k + 1 == |payload|)
    ensures w == TcpWord(head, payload, bytes, max, ragged, k + 1)
  {
  }

  /** `k` payload words of a message have been sent, `processed` bytes in all. */
  ghost predicate TcpAt(bytes: nat, max: nat, k: nat, processed: nat, pktsize: nat) {
    && k <= Words(bytes) && processed <= bytes
    && if processed < bytes then processed == k * WORD_BYTES && pktsize == Phase(k, max) else k == Words(bytes)
  }

  /** One more word of the payload. */
  lemma {:induction false} TcpStep(head: Data, payload: seq<Data>, bytes: nat, max: nat, ragged: nat -> nat, k: nat, processed: nat, pktsize: nat,
                                   w: Word, next: nat)
    requires TcpAt(bytes, max, k, processed, pktsize) && processed < bytes && |payload| == Words(bytes)
    ensures k < |payload|
    ensures var left := bytes - processed;
      w == Word(payload[k], TcpKeep(left, ragged), pktsize + 1 == max || left <= WORD_BYTES) && next == (if w.last then 0 else pktsize + 1) ==>
      && TcpAt(bytes, max, k + 1, processed + (if left < WORD_BYTES then left else WORD_BYTES), next)
      && TcpFrame(head, payload, bytes, max, ragged)[..k + 1] + [w] == TcpFrame(head, payload, bytes, max, ragged)[..k + 2]
  {
    NextWord(bytes, k, processed);
    var left := bytes - processed;
    if w == Word(payload[k], TcpKeep(left, ragged), pktsize + 1 == max || left <= WORD_BYTES) {
      TcpNext(head, payload, bytes, max, ragged, k, w);
      Prefix(TcpFrame(head, payload, bytes, max, ragged), k + 1);
    }
  }

  /** `tcp_packetizer`: the framing behind a command to the transmit handler. It waits until payload is there. */
  method TcpPacketizer(input: seq<Data>, session: nat, m: Message, max: nat, junk: Data, ragged: nat -> nat)
    returns (output: seq<Word>, rest: seq<Data>, cmd: TxCommand, status: nat)
    requires m.length <= MAX_LENGTH && 0 < |input| && Words(m.length) <= |input|
    ensures var n := Words(m.length);
      rest == input[n..] && output == TcpFrame(HeaderWord(m, junk), input[..n], m.length, max, ragged)
    ensures IsTcpFrame(output, m, input[..Words(m.length)], max, ragged)
    ensures cmd == TxCommand(session % LENGTH_RANGE, m.length + WORD_BYTES, max) && status == m.seqNum
  {
    cmd := TxCommand(session % LENGTH_RANGE, m.length + WORD_BYTES, max);
    var head := HeaderWord(m, junk);
    ghost var k, payload := 0, input[..Words(m.length)];
    ghost var f := TcpFrame(head, payload, m.length, max, ragged);
    var processed, pktsize := 0, 0;
    output, rest := [Word(head, WHOLE, false)], input;
    assert f[0] == output[0];
    while processed < m.length
      invariant TcpAt(m.length, max, k, processed, pktsize)
      invariant rest == input[k..] && output == f[..k + 1]
      decreases m.length - processed
    {
      var data, left := rest[0], m.length - processed;
      rest := rest[1..];
      var word, step, next := EmitWord(data, TcpKeep(left, ragged), left, pktsize, max);
      TcpStep(head, payload, m.length, max, ragged, k, processed, pktsize, word, next);
      output, processed, pktsize := output + [word], processed + step, next;
      k := k + 1;
    }
    status := m.seqNum;
    TcpFrameIs(m, junk, payload, max, ragged);
  }

  function TcpArriving(payload: seq<Data>, bytes: nat, ragged: nat -> nat): seq<Word>
    requires |payload| == Words(bytes)
  {
    seq(|payload|, j requires 0 <= j < |payload| => Word(payload[j], TcpKeep(Left(bytes, j + 1), ragged), j == |payload| - 1))
  }

  /** The depacketizer undoes `tcp_packetizer` as well: header fields, data words, and the end of the message. */
  lemma {:induction false} TcpRoundTrip(m: Message, payload: seq<Data>, max: nat, junk: Data, ragged: nat -> nat, rest: seq<Word>)
    requires m.length <= MAX_LENGTH && |payload| == Words(m.length)
    ensures var f := TcpFrame(HeaderWord(m, junk), payload, m.length, max, ragged) + rest;
      && 1 + WordsSigned(Signed(f[0].data[0])) <= |f|
      && Unframe(f) == Unframed(m, TcpArriving(payload, m.length, ragged), rest)
  {
    var f := TcpFrame(HeaderWord(m, junk), payload, m.length, max, ragged) + rest;
    assert f[0] == TcpWord(HeaderWord(m, junk), payload, m.length, max, ragged, 0);
    forall j | 0 <= j < |payload| ensures Unframe(f).payload[j] == TcpArriving(payload, m.length, ragged)[j] {
      assert f[j + 1] == TcpWord(HeaderWord(m, junk), payload, m.length, max, ragged, j + 1);
    }
    assert Unframe(f).payload == TcpArriving(payload, m.length, ragged);
  }

  /**
   What word `i` of a message on TCP is: header fields and payload as before; every word whole but the last, whose mask for
   `n` < 64 bytes is `ragged(n)`; packets end after every `max` words behind the header and at the end of the message.
   */
  ghost predicate IsTcpWord(w: Word, i: nat, m: Message, payload: seq<Data>, max: nat, ragged: nat -> nat)
    requires i <= |payload|
  {
    && (if i == 0 then w.data[..4] == [m.length, m.tag, m.src, m.seqNum] else w.data == payload[i - 1])
    && (if 64 * i <= m.length then forall b: nat :: KeepsByte(w.keep, b) <==> b < 64
        else m.length + 64 > 64 * i && w.keep == ragged(m.length + 64 - 64 * i))
    && (w.last <==> i > 0 && ((max > 0 && i % max == 0) || i == |payload|))
  }

  ghost predicate IsTcpFrame(f: seq<Word>, m: Message, payload: seq<Data>, max: nat, ragged: nat -> nat) {
    |f| == 1 + |payload| && forall i :: 0 <= i <= |payload| ==> IsTcpWord(f[i], i, m, payload, max, ragged)
  }

  lemma {:induction false} TcpWordIs(m: Message, junk: Data, payload: seq<Data>, max: nat, ragged: nat -> nat, i: nat)
    requires i <= |payload| == Words(m.length)
    ensures IsTcpWord(TcpFrame(HeaderWord(m, junk), payload, m.length, max, ragged)[i], i, m, payload, max, ragged)
  {
    var head := HeaderWord(m, junk);
    var w := TcpFrame(head, payload, m.length, max, ragged)[i];
    assert w == TcpWord(head, payload, m.length, max, ragged, i);
    assert i > 0 ==> Left(m.length, i) > 0;
    forall b: nat ensures KeepsByte(WHOLE, b) <==> b < 64 {
      WholeBits(b);
    }
    if max == 0 {
      PhaseOfNone(i);
    } else {
      PhaseIsRemainder(i, max);
    }
  }

  lemma {:induction false} TcpFrameIs(m: Message, junk: Data, payload: seq<Data>, max: nat, ragged: nat -> nat)
    requires |payload| == Words(m.length)
    ensures IsTcpFrame(TcpFrame(HeaderWord(m, junk), payload, m.length, max, ragged), m, payload, max, ragged)
  {
    forall i | 0 <= i <= |payload|
      ensures IsTcpWord(TcpFrame(HeaderWord(m, junk), payload, m.length, max, ragged)[i], i, m, payload, max, ragged)
    {
      TcpWordIs(m, junk, payload, max, ragged, i);
    }
  }

  /** The transmit handler takes, for the command it is given, exactly the words `tcp_packetizer` wrote for it. */
  lemma {:induction false} HandlerTakesFrame(head: Data, payload: seq<Data>, session: nat, bytes: nat, max: nat, ragged: nat -> nat)
    requires |payload| == Words(bytes) && max > 0
    ensures TotalWords(Plan(TxCommand(session, bytes + WORD_BYTES, max))) == |TcpFrame(head, payload, bytes, max, ragged)| == 1 + Words(bytes)
  {
    CutWords(bytes + WORD_BYTES, max);
  }
}
