/**
 The pool of spare receive buffers: the interrupt handler hands idle buffers to the receive DMA and collects filled ones;
 the receive loop matches filled buffers and frees them. `wire(s, n)` is the n-th packet rank `s` sends to this rank.
 Packets may reach the pool in any order.
 */
module SpareBuffers {
  import opened Segments

  const MAX_DMA_TAGS := 16
  const TAG_ANY := 0xFFFF_FFFF
  const DMA_MAX_TRANSACTIONS := 20

  datatype Status = Idle | Enqueued | Reserved | Error

  datatype RxBuffer = RxBuffer(status: Status, dmaTag: nat, rxLen: nat, rxTag: nat, rxSrc: nat, seqNum: nat, data: seq<Byte>)

  datatype Packet = Packet(tag: nat, data: seq<Byte>)

  /** What the depacketizer reports about a packet. */
  datatype Header = Header(len: nat, tag: nat, src: nat, seqNum: nat)

  /** A command of the receive DMA: the tag, and the buffer whose address it carries. */
  datatype RxCommand = RxCommand(tag: nat, buf: nat)

  /** A completion word of the receive DMA. */
  datatype DmaStatus = DmaStatus(tag: nat, internal: bool, decode: bool, slave: bool, okay: bool, endOfPacket: bool, btt: nat)

  datatype Code =
    | Success
    | DmaMismatch | DmaInternal | DmaDecode | DmaSlave | DmaNotOkay | DmaNotEndOfPacket | DmaNotExpectedBtt | DmaTimeout
    | DequeueTimeout | SpareBufferStatus | SpareBufferTagMismatch | SpareBufferIndex
    | ReceiveTimeout | PackSeqNumber | PackTimeout

  /** `check_DMA_status`: the first test that fails decides. */
  function CheckStatus(s: DmaStatus, expectedBtt: nat, tag: nat, indeterminate: bool): Code {
    if s.tag != tag then DmaMismatch
    else if s.internal then DmaInternal
    else if s.decode then DmaDecode
    else if s.slave then DmaSlave
    else if !s.okay then DmaNotOkay
    else if indeterminate && !s.endOfPacket then DmaNotEndOfPacket
    else if indeterminate && s.btt != expectedBtt then DmaNotExpectedBtt
    else Success
  }

  /** A completion is accepted exactly when tag and flags are right and, where the DMA counts, the count and the end. */
  lemma {:induction false} StatusPasses(s: DmaStatus, expectedBtt: nat, tag: nat, indeterminate: bool)
    ensures CheckStatus(s, expectedBtt, tag, indeterminate) == Success <==>
      && s.tag == tag && !s.internal && !s.decode && !s.slave && s.okay
      && (indeterminate ==> s.endOfPacket && s.btt == expectedBtt)
    ensures match CheckStatus(s, expectedBtt, tag, indeterminate)
      case Success => true
      case DmaMismatch => s.tag != tag
      case DmaInternal => s.tag == tag && s.internal
      case DmaDecode => s.tag == tag && !s.internal && s.decode
      case DmaSlave => s.tag == tag && !s.internal && !s.decode && s.slave
      case DmaNotOkay => s.tag == tag && !s.internal && !s.decode && !s.slave && !s.okay
      case DmaNotEndOfPacket => indeterminate && s.tag == tag && s.okay && !s.endOfPacket
      case DmaNotExpectedBtt => indeterminate && s.tag == tag && s.okay && s.endOfPacket && s.btt != expectedBtt
      case _ => false
  {
  }

  /** A well-behaved DMA echoes the tag, reports no error and counts the bytes right. */
  function Good(tag: nat, len: nat): DmaStatus {
    DmaStatus(tag, false, false, false, true, true, len)
  }

  /** ---- The tag pool ---- */

  function InUse(lookup: seq<int>): set<nat> {
    set t: nat | 0 <= t < |lookup| && lookup[t] != -1
  }

  function EnqueuedIn(bufs: seq<RxBuffer>): set<nat> {
    set i: nat | 0 <= i < |bufs| && bufs[i].status == Enqueued
  }

  ghost predicate Distinct(q: seq<nat>) {
    forall j, k :: 0 <= j < k < |q| ==> q[j] != q[k]
  }

  ghost predicate TagHasBuffer(bufs: seq<RxBuffer>, lookup: seq<int>, t: nat)
    requires t < |lookup|
  {
    lookup[t] != -1 ==> 0 <= lookup[t] < |bufs| && bufs[lookup[t]].status == Enqueued && bufs[lookup[t]].dmaTag == t
  }

  ghost predicate BufferHasTag(bufs: seq<RxBuffer>, lookup: seq<int>, i: nat)
    requires i < |bufs|
  {
    bufs[i].status == Enqueued ==> bufs[i].dmaTag < |lookup| && lookup[bufs[i].dmaTag] == i
  }

  /** `queue` holds the tags the receive DMA has been given and the firmware has not collected, oldest first. */
  ghost predicate Tags(bufs: seq<RxBuffer>, lookup: seq<int>, enqueued: nat, queue: seq<nat>) {
    && |lookup| == MAX_DMA_TAGS
    && (forall t :: 0 <= t < MAX_DMA_TAGS ==> TagHasBuffer(bufs, lookup, t))
    && (forall i :: 0 <= i < |bufs| ==> BufferHasTag(bufs, lookup, i))
    && enqueued == |InUse(lookup)|
    && Distinct(queue)
    && (forall t: nat :: t in queue <==> t in InUse(lookup))
  }

  function Range(n: nat): (r: set<nat>)
    ensures forall t: nat :: t in r <==> t < n
    ensures |r| == n
  {
    if n == 0 then {} else Range(n - 1) + {n - 1}
  }

  lemma {:induction false} SubsetSize(a: set<nat>, b: set<nat>)
    requires a <= b
    ensures |a| <= |b|
    ensures |a| == |b| ==> a == b
  {
    if a != {} {
      var x :| x in a;
      SubsetSize(a - {x}, b - {x});
    }
  }

  /** By pigeonhole: fewer than sixteen buffers enqueued leave a tag free. */
  lemma {:induction false} FreeTag(bufs: seq<RxBuffer>, lookup: seq<int>, enqueued: nat, queue: seq<nat>)
    requires Tags(bufs, lookup, enqueued, queue)
    ensures |lookup| == 16 && enqueued <= 16
    ensures enqueued < 16 <==> exists t :: 0 <= t < 16 && lookup[t] == -1
  {
    var all := Range(MAX_DMA_TAGS);
    SubsetSize(InUse(lookup), all);
    if enqueued < MAX_DMA_TAGS {
      assert InUse(lookup) != all;
      var t :| t in all && t !in InUse(lookup);
      assert lookup[t] == -1;
    }
    if t :| 0 <= t < MAX_DMA_TAGS && lookup[t] == -1 {
      assert t in all && t !in InUse(lookup);
    }
  }

  lemma {:induction false} ImageSize(a: set<nat>, b: set<nat>, f: nat -> nat, g: nat -> nat)
    requires forall x :: x in a ==> f(x) in b && g(f(x)) == x
    requires forall y :: y in b ==> g(y) in a && f(g(y)) == y
    ensures |a| == |b|
  {
    if a == {} {
      assert b == {} by {
        if y :| y in b { assert g(y) in a; }
      }
    } else {
      var x :| x in a;
      ImageSize(a - {x}, b - {f(x)}, f, g);
    }
  }

  /** The tag table is a bijection: buffers enqueued, tags in use, and the counter all agree, and never exceed sixteen. */
  lemma {:induction false} TagsAreABijection(bufs: seq<RxBuffer>, lookup: seq<int>, enqueued: nat, queue: seq<nat>)
    requires Tags(bufs, lookup, enqueued, queue)
    ensures enqueued == |EnqueuedIn(bufs)| == |InUse(lookup)| <= 16 == |lookup|
    ensures forall i, t :: 0 <= i < |bufs| && 0 <= t < 16 ==>
      (lookup[t] == i <==> bufs[i].status == Enqueued && bufs[i].dmaTag == t)
  {
    FreeTag(bufs, lookup, enqueued, queue);
    forall i: nat, t: nat | i < |bufs| && t < MAX_DMA_TAGS
      ensures lookup[t] == i <==> bufs[i].status == Enqueued && bufs[i].dmaTag == t
    {
      assert TagHasBuffer(bufs, lookup, t) && BufferHasTag(bufs, lookup, i);
    }
    forall i | i in EnqueuedIn(bufs) ensures bufs[i].dmaTag in InUse(lookup) && lookup[bufs[i].dmaTag] == i {
      assert BufferHasTag(bufs, lookup, i);
    }
    forall t | t in InUse(lookup) ensures 0 <= lookup[t] && lookup[t] in EnqueuedIn(bufs) && bufs[lookup[t]].dmaTag == t {
      assert TagHasBuffer(bufs, lookup, t);
    }
    var f := (i: nat) => if i < |bufs| then bufs[i].dmaTag else 0;
    var g := (t: nat) => if t < |lookup| && lookup[t] >= 0 then lookup[t] as nat else 0;
    ImageSize(EnqueuedIn(bufs), InUse(lookup), f, g);
  }

  lemma {:induction false} TakeTag(bufs: seq<RxBuffer>, lookup: seq<int>, enqueued: nat, queue: seq<nat>, i: nat, t: nat)
    requires Tags(bufs, lookup, enqueued, queue)
    requires i < |bufs| && bufs[i].status != Enqueued && t < MAX_DMA_TAGS && lookup[t] == -1
    ensures Tags(bufs[i := bufs[i].(status := Enqueued, dmaTag := t)], lookup[t := i], enqueued + 1, queue + [t])
  {
    var after, table := bufs[i := bufs[i].(status := Enqueued, dmaTag := t)], lookup[t := i];
    forall u: nat | u < MAX_DMA_TAGS ensures TagHasBuffer(after, table, u) {
      assert TagHasBuffer(bufs, lookup, u);
    }
    forall j: nat | j < |after| ensures BufferHasTag(after, table, j) {
      assert BufferHasTag(bufs, lookup, j);
    }
    assert InUse(lookup[t := i]) == InUse(lookup) + {t};
    assert t !in queue by {
      assert t !in InUse(lookup);
    }
  }

  lemma {:induction false} ReturnTag(bufs: seq<RxBuffer>, lookup: seq<int>, enqueued: nat, queue: seq<nat>, b: RxBuffer)
    requires Tags(bufs, lookup, enqueued, queue) && queue != [] && b.status != Enqueued
    ensures var t := queue[0];
      && t < MAX_DMA_TAGS && 0 <= lookup[t] < |bufs|
      && bufs[lookup[t]].status == Enqueued && bufs[lookup[t]].dmaTag == t && enqueued > 0
      && Tags(bufs[lookup[t] := b], lookup[t := -1], enqueued - 1, queue[1..])
  {
    var t := queue[0];
    assert t in queue;
    assert t in InUse(lookup);
    assert TagHasBuffer(bufs, lookup, t);
    var after, rest := bufs[lookup[t] := b], lookup[t := -1];
    assert InUse(rest) == InUse(lookup) - {t};
    forall u: nat | u < MAX_DMA_TAGS ensures TagHasBuffer(after, rest, u) {
      assert TagHasBuffer(bufs, lookup, u);
    }
    forall j: nat | j < |after| ensures BufferHasTag(after, rest, j) {
      assert BufferHasTag(bufs, lookup, j);
    }
    forall u: nat ensures u in queue[1..] <==> u in InUse(rest) {
      if u in queue[1..] {
        assert u in queue;
      }
      if u in InUse(rest) {
        assert u in queue && u != t;
      }
    }
  }

  lemma {:induction false} OtherBuffer(bufs: seq<RxBuffer>, lookup: seq<int>, enqueued: nat, queue: seq<nat>, i: nat, b: RxBuffer)
    requires Tags(bufs, lookup, enqueued, queue)
    requires i < |bufs| && bufs[i].status != Enqueued && b.status != Enqueued
    ensures Tags(bufs[i := b], lookup, enqueued, queue)
  {
    var after := bufs[i := b];
    forall t: nat | t < MAX_DMA_TAGS ensures TagHasBuffer(after, lookup, t) {
      assert TagHasBuffer(bufs, lookup, t);
    }
    forall j: nat | j < |bufs| ensures BufferHasTag(after, lookup, j) {
      assert BufferHasTag(bufs, lookup, j);
    }
  }

  /** Filling an enqueued buffer's memory does not disturb the table. */
  lemma {:induction false} FillBuffer(bufs: seq<RxBuffer>, lookup: seq<int>, enqueued: nat, queue: seq<nat>, i: nat, d: seq<Byte>)
    requires Tags(bufs, lookup, enqueued, queue) && i < |bufs|
    ensures Tags(bufs[i := bufs[i].(data := d)], lookup, enqueued, queue)
  {
    var after := bufs[i := bufs[i].(data := d)];
    forall t: nat | t < MAX_DMA_TAGS ensures TagHasBuffer(after, lookup, t) {
      assert TagHasBuffer(bufs, lookup, t);
    }
    forall j: nat | j < |bufs| ensures BufferHasTag(after, lookup, j) {
      assert BufferHasTag(bufs, lookup, j);
    }
  }

  function TagsOf(sts: seq<DmaStatus>): (q: seq<nat>)
    ensures |q| == |sts| && forall k :: 0 <= k < |q| ==> q[k] == sts[k].tag
  {
    seq(|sts|, k requires 0 <= k < |sts| => sts[k].tag)
  }

  function CommandTags(cmds: seq<RxCommand>): (q: seq<nat>)
    ensures |q| == |cmds| && forall k :: 0 <= k < |q| ==> q[k] == cmds[k].tag
  {
    seq(|cmds|, k requires 0 <= k < |cmds| => cmds[k].tag)
  }

  /** The tags the receive DMA has, oldest first: completed ones the firmware has not collected, then unserved ones. */
  function Pending(sts: seq<DmaStatus>, cmds: seq<RxCommand>): seq<nat> {
    TagsOf(sts) + CommandTags(cmds)
  }

  lemma {:induction false} PendingPush(sts: seq<DmaStatus>, cmds: seq<RxCommand>, c: RxCommand)
    ensures Pending(sts, cmds + [c]) == Pending(sts, cmds) + [c.tag]
  {
    assert CommandTags(cmds + [c]) == CommandTags(cmds) + [c.tag];
  }

  lemma {:induction false} PendingServe(sts: seq<DmaStatus>, cmds: seq<RxCommand>, s: DmaStatus)
    requires cmds != [] && s.tag == cmds[0].tag
    ensures Pending(sts + [s], cmds[1..]) == Pending(sts, cmds)
  {
    var before, after := Pending(sts, cmds), Pending(sts + [s], cmds[1..]);
    forall k | 0 <= k < |before| ensures after[k] == before[k] {
      if k <= |sts| {
        assert after[k] == TagsOf(sts + [s])[k];
      } else {
        assert after[k] == CommandTags(cmds[1..])[k - |sts| - 1];
      }
    }
  }

  lemma {:induction false} PendingCollect(sts: seq<DmaStatus>, cmds: seq<RxCommand>)
    requires sts != []
    ensures Pending(sts[1..], cmds) == Pending(sts, cmds)[1..]
  {
    assert TagsOf(sts[1..]) == TagsOf(sts)[1..];
  }

  /** ---- What the buffers hold ---- */

  function HeaderOf(o: (nat, nat), p: Packet): Header {
    Header(|p.data|, p.tag, o.0, (o.1 + 1) % WORD)
  }

  ghost predicate Holds(b: RxBuffer, o: (nat, nat), p: Packet) {
    Header(b.rxLen, b.rxTag, b.rxSrc, b.seqNum) == HeaderOf(o, p) && b.data == p.data
  }

  /** Everything the pool, its DMA and its depacketizer know. The fields are those of class `Pool` below. */
  datatype View = View(bufs: seq<RxBuffer>, lookup: seq<int>, enqueued: nat, inbound: seq<nat>,
                       cmds: seq<RxCommand>, sts: seq<DmaStatus>, hdrs: seq<Header>,
                       arrived: set<(nat, nat)>, taken: seq<nat>,
                       origin: map<int, (nat, nat)>, reading: seq<nat>, from: nat, wire: (nat, nat) -> Packet)

  /** The k-th completion and the k-th header are about the same buffer, and tell the truth about the packet in it. */
  ghost predicate Completed(v: View, k: nat)
    requires k < |v.sts| == |v.hdrs|
  {
    var t := v.sts[k].tag;
    t < |v.lookup| && 0 <= v.lookup[t] < |v.bufs| && v.lookup[t] in v.origin &&
    var o := v.origin[v.lookup[t]];
    var p := v.wire(o.0, o.1);
    v.hdrs[k] == HeaderOf(o, p) && v.sts[k] == Good(t, |p.data|) && v.bufs[v.lookup[t]].data == p.data
  }

  /** The k-th command not yet served is about the buffer its tag stands for, which is empty. */
  ghost predicate Waiting(v: View, k: nat)
    requires k < |v.cmds|
  {
    v.cmds[k].tag < |v.lookup| && v.lookup[v.cmds[k].tag] == v.cmds[k].buf && v.cmds[k].buf !in v.origin
  }

  /** A reserved buffer holds the packet it is said to hold. */
  ghost predicate Stored(v: View, i: nat)
    requires i < |v.bufs|
  {
    && v.bufs[i].status != Error
    && (v.bufs[i].status == Reserved ==> i in v.origin && Holds(v.bufs[i], v.origin[i], v.wire(v.origin[i].0, v.origin[i].1)))
  }

  /** A filled buffer holds a packet that arrived and, unless the buffer is in the window, is still to be taken. */
  ghost predicate Known(v: View, i: int)
    requires i in v.origin
  {
    var o := v.origin[i];
    && 0 <= i < |v.bufs| && (v.bufs[i].status == Reserved || v.bufs[i].status == Enqueued)
    && o in v.arrived && o.0 < |v.taken| && o.1 < v.taken[o.0] + WORD
    && (i !in v.reading ==> v.taken[o.0] <= o.1)
  }

  /** A packet that has arrived stays in a buffer until it is taken. */
  ghost predicate Kept(v: View, o: (nat, nat)) {
    o.0 < |v.taken| && v.taken[o.0] <= o.1 ==> exists i: nat :: IsAt(v.origin, i, o)
  }

  ghost predicate IsAt(origin: map<int, (nat, nat)>, i: nat, o: (nat, nat)) {
    i in origin && origin[i] == o
  }

  /** Two buffers do not hold the same packet. */
  ghost predicate Apart(origin: map<int, (nat, nat)>, i: int, j: int) {
    i in origin && j in origin && i != j ==> origin[i] != origin[j]
  }

  /** The k-th buffer of the window holds the k-th of the last `|reading|` packets taken from rank `from`. */
  ghost predicate InTurn(v: View, k: nat)
    requires k < |v.reading| && v.from < |v.taken|
  {
    var i := v.reading[k];
    && i in v.origin && i < |v.bufs| && v.bufs[i].status == Reserved
    && v.origin[i].0 == v.from && v.origin[i].1 + |v.reading| == v.taken[v.from] + k
  }

  ghost predicate Counted(inbound: seq<nat>, taken: seq<nat>) {
    |inbound| == |taken| && forall s :: 0 <= s < |taken| ==> inbound[s] == taken[s] % WORD
  }

  /** The invariant of the pool, kept by every step of the firmware, the interrupt handler and the network. */
  ghost predicate Sound(v: View) {
    && Tags(v.bufs, v.lookup, v.enqueued, Pending(v.sts, v.cmds))
    && |v.hdrs| == |v.sts|
    && (forall k: nat :: k < |v.sts| ==> Completed(v, k))
    && (forall k: nat :: k < |v.cmds| ==> Waiting(v, k))
    && (forall i: nat :: i < |v.bufs| ==> Stored(v, i))
    && (forall i {:trigger Known(v, i)} :: i in v.origin ==> Known(v, i))
    && (forall o {:trigger Kept(v, o)} :: o in v.arrived ==> Kept(v, o))
    && (forall i, j :: Apart(v.origin, i, j))
    && v.from < |v.taken| && |v.reading| <= v.taken[v.from] && |v.reading| <= DMA_MAX_TRANSACTIONS
    && (forall k: nat :: k < |v.reading| ==> InTurn(v, k))
    && Counted(v.inbound, v.taken)
  }

  lemma {:induction false} Congruent(a: nat, b: nat)
    requires (a + 1) % WORD == (b + 1) % WORD && a < b + WORD && b < a + WORD
    ensures a == b
  {
  }

  lemma {:induction false} NextNumber(n: nat)
    ensures (n % WORD + 1) % WORD == (n + 1) % WORD
  {
  }

  /** Handing an idle buffer to the DMA. */
  lemma {:induction false} EnqueueKeeps(v: View, i: nat, t: nat)
    requires Sound(v) && i < |v.bufs| && v.bufs[i].status == Idle && t < MAX_DMA_TAGS && v.lookup[t] == -1
    ensures Sound(v.(bufs := v.bufs[i := v.bufs[i].(status := Enqueued, dmaTag := t)], lookup := v.lookup[t := i],
                     enqueued := v.enqueued + 1, cmds := v.cmds + [RxCommand(t, i)]))
  {
    TakeTag(v.bufs, v.lookup, v.enqueued, Pending(v.sts, v.cmds), i, t);
    PendingPush(v.sts, v.cmds, RxCommand(t, i));
    var w := v.(bufs := v.bufs[i := v.bufs[i].(status := Enqueued, dmaTag := t)], lookup := v.lookup[t := i],
                enqueued := v.enqueued + 1, cmds := v.cmds + [RxCommand(t, i)]);
    assert i in v.origin ==> Known(v, i);
    forall o | o in w.arrived ensures Kept(w, o) { assert Kept(v, o); }
    forall k: nat | k < |w.sts| ensures Completed(w, k) { assert Completed(v, k); }
    forall k: nat | k < |w.cmds| ensures Waiting(w, k) {
      if k < |v.cmds| { assert Waiting(v, k); }
    }
    forall j: nat | j < |w.bufs| ensures Stored(w, j) { assert Stored(v, j); }
    forall j | j in w.origin ensures Known(w, j) { assert Known(v, j); }
    forall k: nat | k < |w.reading| ensures InTurn(w, k) { assert InTurn(v, k); }
  }

  lemma {:induction false} PendingDistinct(v: View, j: nat, k: nat)
    requires Sound(v) && j < k < |v.sts| + |v.cmds|
    ensures var q := Pending(v.sts, v.cmds);
      q[j] < |v.lookup| && q[k] < |v.lookup| && q[j] != q[k] && v.lookup[q[j]] != v.lookup[q[k]]
  {
    var q := Pending(v.sts, v.cmds);
    assert q[j] in q && q[k] in q;
    assert TagHasBuffer(v.bufs, v.lookup, q[j]) && TagHasBuffer(v.bufs, v.lookup, q[k]);
  }

  lemma {:induction false} PendingBuffer(v: View, k: nat)
    requires Sound(v) && k < |v.sts| + |v.cmds|
    ensures var t := Pending(v.sts, v.cmds)[k];
      t < |v.lookup| && 0 <= v.lookup[t] < |v.bufs| && v.bufs[v.lookup[t]].status == Enqueued && v.bufs[v.lookup[t]].dmaTag == t
  {
    var q := Pending(v.sts, v.cmds);
    assert q[k] in q;
    assert TagHasBuffer(v.bufs, v.lookup, q[k]);
  }

  /** The DMA fills the buffer of its oldest command with a packet that had not arrived before. */
  function Arrived(v: View, o: (nat, nat)): View
    requires v.cmds != [] && v.cmds[0].buf < |v.bufs|
  {
    var p, i := v.wire(o.0, o.1), v.cmds[0].buf;
    v.(bufs := v.bufs[i := v.bufs[i].(data := p.data)], cmds := v.cmds[1..],
       sts := v.sts + [Good(v.cmds[0].tag, |p.data|)], hdrs := v.hdrs + [HeaderOf(o, p)],
       origin := v.origin[i := o], arrived := v.arrived + {o})
  }

  /** A packet comes once, if a buffer is waiting for it, and neither after it was taken nor 2^32 packets early. */
  ghost predicate Deliverable(v: View, o: (nat, nat)) {
    v.cmds != [] && o !in v.arrived && o.0 < |v.taken| && v.taken[o.0] <= o.1 < v.taken[o.0] + 0x1_0000_0000
  }

  lemma {:induction false} ArriveHolds(v: View, o: (nat, nat))
    requires Sound(v) && Deliverable(v, o) && v.cmds[0].buf < |v.bufs| && v.cmds[0].buf !in v.origin
    ensures forall q {:trigger Kept(Arrived(v, o), q)} :: q in Arrived(v, o).arrived ==> Kept(Arrived(v, o), q)
  {
    var w, i := Arrived(v, o), v.cmds[0].buf;
    forall q | q in w.arrived ensures Kept(w, q) {
      if q == o {
        assert IsAt(w.origin, i, o);
      } else {
        assert Kept(v, q);
        if q.0 < |v.taken| && v.taken[q.0] <= q.1 {
          var j: nat :| IsAt(v.origin, j, q);
          assert IsAt(w.origin, j, q);
        }
      }
    }
  }

  lemma {:induction false} ArriveOthers(v: View, o: (nat, nat))
    requires Sound(v) && Deliverable(v, o) && v.cmds[0].buf < |v.bufs| && Waiting(v, 0)
    ensures var w := Arrived(v, o); (forall k: nat :: k < |w.sts| ==> Completed(w, k)) && (forall k: nat :: k < |w.cmds| ==> Waiting(w, k))
  {
    var w := Arrived(v, o);
    forall k: nat | k < |w.sts| ensures Completed(w, k) {
      if k < |v.sts| {
        assert Completed(v, k);
        PendingDistinct(v, k, |v.sts|);
      }
    }
    forall k: nat | k < |w.cmds| ensures Waiting(w, k) {
      assert Waiting(v, k + 1);
      PendingDistinct(v, |v.sts|, |v.sts| + (k + 1));
    }
  }

  lemma {:induction false} ArriveFills(v: View, o: (nat, nat))
    requires Deliverable(v, o) && v.cmds[0].buf < |v.bufs| && v.bufs[v.cmds[0].buf].status == Enqueued
    ensures OnlyFills(v.bufs, Arrived(v, o).bufs)
  {
  }

  lemma {:induction false} ArriveKeeps(v: View, o: (nat, nat))
    requires Sound(v) && Deliverable(v, o)
    ensures v.cmds[0].buf < |v.bufs| && v.bufs[v.cmds[0].buf].status == Enqueued
    ensures Sound(Arrived(v, o))
  {
    PendingBuffer(v, |v.sts|);
    assert Waiting(v, 0);
    var w, i, p := Arrived(v, o), v.cmds[0].buf, v.wire(o.0, o.1);
    FillBuffer(v.bufs, v.lookup, v.enqueued, Pending(v.sts, v.cmds), i, p.data);
    PendingServe(v.sts, v.cmds, Good(v.cmds[0].tag, |p.data|));
    ArriveHolds(v, o);
    ArriveOthers(v, o);
    forall j: nat | j < |w.bufs| ensures Stored(w, j) { assert Stored(v, j); }
    forall k: nat | k < |w.reading| ensures InTurn(w, k) && w.reading[k] != i { assert InTurn(v, k); }
    forall j | j in w.origin ensures Known(w, j) {
      if j != i { assert Known(v, j); }
    }
    forall j, k ensures Apart(w.origin, j, k) {
      assert Apart(v.origin, j, k);
      assert j in v.origin ==> Known(v, j);
      assert k in v.origin ==> Known(v, k);
    }
  }

  /** What `dequeue_rx_buffers` records about a filled buffer. */
  function Collected(b: RxBuffer, h: Header): RxBuffer {
    b.(rxLen := h.len, rxTag := h.tag, rxSrc := h.src, seqNum := h.seqNum, status := Reserved)
  }

  /** The tests of `dequeue_rx_buffers`, in the source's order. */
  function DequeueCheck(bufs: seq<RxBuffer>, lookup: seq<int>, status: DmaStatus, h: Header): Code
    requires status.tag < |lookup| && 0 <= lookup[status.tag] < |bufs|
  {
    var b := bufs[lookup[status.tag]];
    if b.status != Enqueued then SpareBufferStatus
    else if b.dmaTag != status.tag then SpareBufferTagMismatch
    else CheckStatus(status, h.len, b.dmaTag, true)
  }

  /** A completion is collected exactly when its buffer is enqueued under its tag, and the status is good for the header's length. */
  lemma {:induction false} DequeuePasses(bufs: seq<RxBuffer>, lookup: seq<int>, status: DmaStatus, h: Header)
    requires status.tag < |lookup| && 0 <= lookup[status.tag] < |bufs|
    ensures var b, code := bufs[lookup[status.tag]], DequeueCheck(bufs, lookup, status, h);
      && (code == Success <==>
          && b.status == Enqueued && b.dmaTag == status.tag && !status.internal && !status.decode && !status.slave && status.okay
          && status.endOfPacket && status.btt == h.len)
      && (code == SpareBufferStatus <==> b.status != Enqueued)
      && (code == SpareBufferTagMismatch <==> b.status == Enqueued && b.dmaTag != status.tag)
  {
    StatusPasses(status, h.len, bufs[lookup[status.tag]].dmaTag, true);
  }

  ghost predicate Collectable(v: View) {
    v.sts != [] && v.hdrs != [] && v.enqueued > 0 && v.sts[0].tag < |v.lookup| && 0 <= v.lookup[v.sts[0].tag] < |v.bufs|
  }

  /** The oldest completion collected. */
  ghost function Collect(v: View): View
    requires Collectable(v)
  {
    var i, t := v.lookup[v.sts[0].tag], v.sts[0].tag;
    v.(bufs := v.bufs[i := Collected(v.bufs[i], v.hdrs[0])], lookup := v.lookup[t := -1], enqueued := v.enqueued - 1,
       sts := v.sts[1..], hdrs := v.hdrs[1..])
  }

  /** Every test passes, and the tag goes back to the pool. */
  lemma {:induction false} CollectPasses(v: View)
    requires Sound(v) && v.sts != []
    ensures v.sts[0].tag < |v.lookup| && 0 <= v.lookup[v.sts[0].tag] < |v.bufs| && v.hdrs != [] && v.enqueued > 0
    ensures DequeueCheck(v.bufs, v.lookup, v.sts[0], v.hdrs[0]) == Success
    ensures v.bufs[v.lookup[v.sts[0].tag]].status == Enqueued
    ensures Stored(Collect(v), v.lookup[v.sts[0].tag])
    ensures var w := Collect(v); Tags(w.bufs, w.lookup, w.enqueued, Pending(w.sts, w.cmds))
  {
    PendingBuffer(v, 0);
    assert Completed(v, 0);
    var i := v.lookup[v.sts[0].tag];
    PendingCollect(v.sts, v.cmds);
    ReturnTag(v.bufs, v.lookup, v.enqueued, Pending(v.sts, v.cmds), Collected(v.bufs[i], v.hdrs[0]));
  }

  lemma {:induction false} CollectOthers(v: View)
    requires Sound(v) && v.sts != []
    requires v.sts[0].tag < |v.lookup| && 0 <= v.lookup[v.sts[0].tag] < |v.bufs| && v.hdrs != [] && v.enqueued > 0
    ensures var w := Collect(v); (forall k: nat :: k < |w.sts| ==> Completed(w, k)) && (forall k: nat :: k < |w.cmds| ==> Waiting(w, k))
  {
    var w := Collect(v);
    forall k: nat | k < |w.sts| ensures Completed(w, k) {
      assert Completed(v, k + 1);
      PendingDistinct(v, 0, k + 1);
    }
    forall k: nat | k < |w.cmds| ensures Waiting(w, k) {
      assert Waiting(v, k);
      PendingDistinct(v, 0, |v.sts| + k);
    }
  }

  /** Collecting a completion: the buffer becomes reserved. */
  lemma {:induction false} CollectKeeps(v: View)
    requires Sound(v) && v.sts != []
    ensures v.sts[0].tag < |v.lookup| && 0 <= v.lookup[v.sts[0].tag] < |v.bufs| && v.hdrs != [] && v.enqueued > 0
    ensures DequeueCheck(v.bufs, v.lookup, v.sts[0], v.hdrs[0]) == Success
    ensures v.bufs[v.lookup[v.sts[0].tag]].status == Enqueued && Sound(Collect(v))
  {
    CollectPasses(v);
    CollectOthers(v);
    var w := Collect(v);
    forall j: nat | j < |w.bufs| ensures Stored(w, j) { assert Stored(v, j); }
    forall j | j in w.origin ensures Known(w, j) { assert Known(v, j); }
    forall o | o in w.arrived ensures Kept(w, o) { assert Kept(v, o); }
    forall k: nat | k < |w.reading| ensures InTurn(w, k) { assert InTurn(v, k); }
    forall j, k ensures Apart(w.origin, j, k) { assert Apart(v.origin, j, k); }
  }

  /** All completions collected, oldest first. */
  ghost function CollectAll(v: View): View
    requires Sound(v)
    decreases |v.sts|
  {
    if v.sts == [] then v else
      CollectKeeps(v);
      CollectAll(Collect(v))
  }

  lemma {:induction false} EnqueuedIsEmpty(v: View, i: nat)
    requires Sound(v) && v.sts == [] && i < |v.bufs| && v.bufs[i].status == Enqueued
    ensures i !in v.origin
  {
    assert BufferHasTag(v.bufs, v.lookup, i);
    var t := v.bufs[i].dmaTag;
    assert t in InUse(v.lookup);
    assert t in Pending(v.sts, v.cmds);
    var k: nat :| k < |v.cmds| && v.cmds[k].tag == t;
    assert Waiting(v, k);
  }

  /** With all completions collected, a buffer that holds a packet is reserved. */
  lemma {:induction false} NoneUncollected(v: View, i: nat)
    requires Sound(v) && v.sts == [] && i in v.origin
    ensures i < |v.bufs| && v.bufs[i].status == Reserved
  {
    assert Known(v, i);
    if v.bufs[i].status == Enqueued {
      EnqueuedIsEmpty(v, i);
    }
  }

  /** And every packet that has arrived and has not been taken lies in a reserved buffer. */
  ghost predicate AllCollected(v: View) {
    forall o {:trigger InBuffer(v, o)} :: o in v.arrived && o.0 < |v.taken| && v.taken[o.0] <= o.1 ==> InBuffer(v, o)
  }

  ghost predicate InBuffer(v: View, o: (nat, nat)) {
    exists i: nat :: HasPacket(v, i, o.0, o.1)
  }

  lemma {:induction false} NoneUnlanded(v: View)
    requires Sound(v) && v.sts == []
    ensures AllCollected(v)
  {
    forall o | o in v.arrived && o.0 < |v.taken| && v.taken[o.0] <= o.1 ensures InBuffer(v, o) {
      assert Kept(v, o);
      var i: nat :| IsAt(v.origin, i, o);
      NoneUncollected(v, i);
      assert HasPacket(v, i, o.0, o.1);
    }
  }

  /** The k-th completion of `v` has been dealt with: its buffer is reserved, and holds the packet. */
  ghost predicate Dequeued(v: View, w: View, k: nat)
    requires k < |v.sts|
  {
    v.sts[k].tag < |v.lookup| && var i := v.lookup[v.sts[k].tag];
    && 0 <= i < |w.bufs| && w.bufs[i].status == Reserved
    && i in v.origin && Holds(w.bufs[i], v.origin[i], v.wire(v.origin[i].0, v.origin[i].1))
  }

  lemma {:induction false} AllDequeued(v: View, w: View)
    requires Sound(v) && Sound(w) && w.sts == [] && w.origin == v.origin && w.wire == v.wire
    ensures forall k: nat :: k < |v.sts| ==> Dequeued(v, w, k)
  {
    forall k: nat | k < |v.sts| ensures Dequeued(v, w, k) {
      assert Completed(v, k);
      var i := v.lookup[v.sts[k].tag];
      NoneUncollected(w, i);
      assert Stored(w, i);
    }
  }

  /** The sequence number picks out one packet: a buffer in the window, or out of turn, never matches. */
  lemma {:induction false} MatchIsNext(v: View, i: nat)
    requires Sound(v) && i < |v.bufs| && v.bufs[i].status == Reserved && v.bufs[i].rxSrc == v.from
    requires v.bufs[i].seqNum == (v.inbound[v.from] + 1) % WORD
    ensures i in v.origin && i !in v.reading && v.origin[i] == (v.from, v.taken[v.from])
    ensures Holds(v.bufs[i], v.origin[i], v.wire(v.from, v.taken[v.from]))
  {
    assert Stored(v, i) && Known(v, i);
    var n := v.origin[i].1;
    NextNumber(v.taken[v.from]);
    assert v.taken[v.from] <= n + |v.reading| && (i in v.reading ==> n < v.taken[v.from]) by {
      if i in v.reading {
        var k :| 0 <= k < |v.reading| && v.reading[k] == i;
        assert InTurn(v, k);
      }
    }
    Congruent(n, v.taken[v.from]);
  }

  /** Taking the next packet moves its buffer to the end of the window. */
  lemma {:induction false} MatchKeeps(v: View, i: nat)
    requires Sound(v) && |v.reading| < DMA_MAX_TRANSACTIONS
    requires i < |v.bufs| && v.bufs[i].status == Reserved && i in v.origin && i !in v.reading
    requires v.origin[i] == (v.from, v.taken[v.from])
    ensures Sound(v.(taken := v.taken[v.from := v.taken[v.from] + 1], reading := v.reading + [i],
                     inbound := v.inbound[v.from := (v.inbound[v.from] + 1) % WORD]))
  {
    NextNumber(v.taken[v.from]);
    var w := v.(taken := v.taken[v.from := v.taken[v.from] + 1], reading := v.reading + [i],
                inbound := v.inbound[v.from := (v.inbound[v.from] + 1) % WORD]);
    forall k: nat | k < |w.sts| ensures Completed(w, k) { assert Completed(v, k); }
    forall k: nat | k < |w.cmds| ensures Waiting(w, k) { assert Waiting(v, k); }
    forall j: nat | j < |w.bufs| ensures Stored(w, j) { assert Stored(v, j); }
    forall j | j in w.origin ensures Known(w, j) {
      assert Known(v, j) && Apart(v.origin, i, j);
    }
    forall o | o in w.arrived ensures Kept(w, o) { assert Kept(v, o); }
    forall k: nat | k < |w.reading| ensures InTurn(w, k) {
      if k < |v.reading| { assert InTurn(v, k); }
    }
  }

  lemma {:induction false} FreeHolds(v: View, w: View)
    requires Sound(v) && v.reading != []
    requires w.arrived == v.arrived && w.taken == v.taken && w.origin == v.origin - {v.reading[0]}
    ensures forall o {:trigger Kept(w, o)} :: o in w.arrived ==> Kept(w, o)
  {
    assert InTurn(v, 0);
    forall o | o in w.arrived ensures Kept(w, o) {
      assert Kept(v, o);
      if o.0 < |v.taken| && v.taken[o.0] <= o.1 {
        var j: nat :| IsAt(v.origin, j, o);
        assert IsAt(w.origin, j, o);
      }
    }
  }

  /** Freeing the oldest buffer of the window. */
  lemma {:induction false} FreeKeeps(v: View)
    requires Sound(v) && v.reading != []
    ensures var i := v.reading[0];
      && i < |v.bufs| && v.bufs[i].status == Reserved
      && Sound(v.(bufs := v.bufs[i := v.bufs[i].(status := Idle)], origin := v.origin - {i}, reading := v.reading[1..]))
  {
    var i := v.reading[0];
    assert InTurn(v, 0);
    OtherBuffer(v.bufs, v.lookup, v.enqueued, Pending(v.sts, v.cmds), i, v.bufs[i].(status := Idle));
    var w := v.(bufs := v.bufs[i := v.bufs[i].(status := Idle)], origin := v.origin - {i}, reading := v.reading[1..]);
    forall k: nat | k < |w.sts| ensures Completed(w, k) {
      assert Completed(v, k);
      PendingBuffer(v, k);
    }
    forall k: nat | k < |w.cmds| ensures Waiting(w, k) { assert Waiting(v, k); }
    forall j: nat | j < |w.bufs| ensures Stored(w, j) { assert Stored(v, j); }
    forall k: nat | k < |w.reading| ensures InTurn(w, k) { assert InTurn(v, k + 1); }
    forall j | j in w.origin ensures Known(w, j) {
      assert Known(v, j);
      if j in v.reading {
        var k :| 0 <= k < |v.reading| && v.reading[k] == j;
        assert w.reading[k - 1] == j;
      }
    }
    FreeHolds(v, w);
    forall j, k ensures Apart(w.origin, j, k) { assert Apart(v.origin, j, k); }
  }

  /** A receive from another rank may start once the window is empty. */
  lemma {:induction false} BeginKeeps(v: View, src: nat)
    requires Sound(v) && v.reading == [] && src < |v.taken|
    ensures Sound(v.(from := src))
  {
    var w := v.(from := src);
    forall k: nat | k < |w.sts| ensures Completed(w, k) { assert Completed(v, k); }
    forall k: nat | k < |w.cmds| ensures Waiting(w, k) { assert Waiting(v, k); }
    forall j: nat | j < |w.bufs| ensures Stored(w, j) { assert Stored(v, j); }
    forall j | j in w.origin ensures Known(w, j) { assert Known(v, j); }
    forall o | o in w.arrived ensures Kept(w, o) { assert Kept(v, o); }
  }

  /** ---- Packets that have landed before they are asked for ---- */

  /** Packet `n` of rank `src` is in spare buffer `i`, dequeued. */
  ghost predicate HasPacket(v: View, i: nat, src: nat, n: nat) {
    i < |v.bufs| && i in v.origin && v.origin[i] == (src, n) && v.bufs[i].status == Reserved
  }

  /** Packet `n` is in a spare buffer, and is what a receive of `len` bytes asks for. */
  ghost predicate LandedAt(v: View, src: nat, n: nat, len: nat, tag: nat) {
    && (exists i: nat :: HasPacket(v, i, src, n))
    && var p := v.wire(src, n);
    |p.data| == len && (p.tag == tag || tag == 0xFFFF_FFFF)
  }

  /** The next packets of `src` have landed, and have the lengths a receive is to ask for. */
  ghost predicate AllLanded(v: View, src: nat, lens: seq<nat>, tag: nat) {
    src < |v.taken| && forall j: nat :: j < |lens| ==> LandedAt(v, src, v.taken[src] + j, lens[j], tag)
  }

  lemma {:induction false} AnyFrom(v: View, w: View, src: nat, lens: seq<nat>, tag: nat)
    requires w == v.(from := w.from)
    ensures AllLanded(w, src, lens, tag) <==> AllLanded(v, src, lens, tag)
  {
    forall n: nat, len: nat ensures LandedAt(w, src, n, len, tag) <==> LandedAt(v, src, n, len, tag) {
      SameBuffers(v, w, src, n);
    }
  }

  lemma {:induction false} SameBuffers(v: View, w: View, src: nat, n: nat)
    requires w == v.(from := w.from)
    ensures (exists i: nat :: HasPacket(w, i, src, n)) <==> (exists i: nat :: HasPacket(v, i, src, n))
  {
    forall i: nat ensures HasPacket(w, i, src, n) <==> HasPacket(v, i, src, n) {
    }
  }

  /** Packets have come and gone elsewhere, and up to one was taken, from the rank received from. */
  ghost predicate MovedOn(v: View, w: View) {
    && Sound(v) && Sound(w) && v.wire == w.wire && v.from == w.from && Undisturbed(v.bufs, w.bufs)
    && (|| (w.taken == v.taken && w.reading == v.reading)
        || (w.taken == v.taken[v.from := v.taken[v.from] + 1] && |w.reading| == |v.reading| + 1
          && forall k :: 0 <= k < |v.reading| ==> w.reading[k] == v.reading[k]))
  }

  /** A reserved buffer that nothing has happened to is said to hold the same packet, up to 2^32 packets. */
  lemma {:induction false} SamePacket(v: View, w: View, i: nat)
    requires Sound(v) && Sound(w) && i < |v.bufs| == |w.bufs| && v.bufs[i].status == Reserved && w.bufs[i] == v.bufs[i]
    ensures i in v.origin && i in w.origin && v.origin[i].0 == w.origin[i].0
    ensures (v.origin[i].1 + 1) % WORD == (w.origin[i].1 + 1) % WORD
  {
    assert Stored(v, i) && Stored(w, i);
  }

  /** A buffer of the window holds a packet that was taken. */
  lemma {:induction false} InWindow(v: View, i: nat)
    requires Sound(v) && i in v.reading
    ensures i in v.origin && v.origin[i].0 == v.from && v.origin[i].1 < v.taken[v.from]
  {
    var k :| 0 <= k < |v.reading| && v.reading[k] == i;
    assert InTurn(v, k);
  }

  /** A packet that is still to be taken stays where it is. */
  lemma {:induction false} StaysLanded(v: View, w: View, i: nat, n: nat)
    requires MovedOn(v, w) && HasPacket(v, i, v.from, n) && w.taken[v.from] <= n
    ensures HasPacket(w, i, v.from, n)
  {
    SamePacket(v, w, i);
    assert Known(v, i) && Known(w, i);
    if i in w.reading {
      var k :| 0 <= k < |w.reading| && w.reading[k] == i;
      assert InTurn(w, k);
      if k < |v.reading| {
        InWindow(v, i);
        assert false;
      }
    }
    Congruent(n, w.origin[i].1);
  }

  /** One packet taken, the others that have landed are still there. */
  lemma {:induction false} LandedOn(v: View, w: View, lens: seq<nat>, rest: seq<nat>, tag: nat)
    requires MovedOn(v, w) && w.taken == v.taken[v.from := v.taken[v.from] + 1] && lens != [] && rest == lens[1..]
    requires AllLanded(v, v.from, lens, tag)
    ensures AllLanded(w, v.from, rest, tag)
  {
    forall j: nat | j < |rest| ensures LandedAt(w, v.from, w.taken[v.from] + j, rest[j], tag) {
      assert LandedAt(v, v.from, v.taken[v.from] + (j + 1), lens[j + 1], tag);
      var i: nat :| HasPacket(v, i, v.from, v.taken[v.from] + (j + 1));
      StaysLanded(v, w, i, v.taken[v.from] + (j + 1));
    }
  }

  /** Handing back the oldest buffer of the window leaves them alone. */
  lemma {:induction false} LandedFree(v: View, w: View, lens: seq<nat>, tag: nat)
    requires Sound(v) && v.reading != [] && AllLanded(v, v.from, lens, tag) && v.reading[0] < |v.bufs|
    requires w == v.(bufs := v.bufs[v.reading[0] := v.bufs[v.reading[0]].(status := Idle)], origin := v.origin - {v.reading[0]},
                     reading := v.reading[1..])
    ensures AllLanded(w, v.from, lens, tag)
  {
    InWindow(v, v.reading[0]);
    forall j: nat | j < |lens| ensures LandedAt(w, v.from, w.taken[v.from] + j, lens[j], tag) {
      assert LandedAt(v, v.from, v.taken[v.from] + j, lens[j], tag);
      var i: nat :| HasPacket(v, i, v.from, v.taken[v.from] + j);
      assert HasPacket(w, i, v.from, v.taken[v.from] + j);
    }
  }

  /** `t` is the first tag nobody uses. */
  ghost predicate FirstFree(lookup: seq<int>, t: nat) {
    t < |lookup| && lookup[t] == -1 && forall u :: 0 <= u < t ==> lookup[u] != -1
  }

  /** The search loop of `enqueue_rx_buffers`. */
  method FindFreeTag(lookup: seq<int>) returns (t: nat)
    requires |lookup| == MAX_DMA_TAGS
    ensures t <= MAX_DMA_TAGS && (forall u :: 0 <= u < t ==> lookup[u] != -1)
    ensures t < MAX_DMA_TAGS ==> lookup[t] == -1
  {
    t := 0;
    while t < MAX_DMA_TAGS && lookup[t] != -1
      invariant t <= MAX_DMA_TAGS
      invariant forall u :: 0 <= u < t ==> lookup[u] != -1
    {
      t := t + 1;
    }
  }

  /** ---- The pool as the firmware keeps it ---- */

  class Pool {
    var bufs: seq<RxBuffer>
    var lookup: seq<int>
    var numEnqueued: nat
    var inbound: seq<nat>
    const timeout: nat

    // The receive DMA and the depacketizer: commands not yet served, completions and headers not yet read.
    var cmds: seq<RxCommand>
    var sts: seq<DmaStatus>
    var hdrs: seq<Header>

    // The network: what peers send here, which packets have arrived, and how many of each source were taken.
    const wire: (nat, nat) -> Packet
    var arrived: set<(nat, nat)>
    var taken: seq<nat>
    ghost var origin: map<int, (nat, nat)>
    ghost var reading: seq<nat>
    ghost var from: nat

    ghost function Now(): View
      reads this
    {
      View(bufs, lookup, numEnqueued, inbound, cmds, sts, hdrs, arrived, taken, origin, reading, from, wire)
    }

    ghost predicate Valid()
      reads this
    {
      Sound(Now())
    }

    constructor (buffers: seq<seq<Byte>>, ranks: nat, timeout: nat, wire: (nat, nat) -> Packet)
      requires ranks > 0
      ensures Valid()
      ensures |bufs| == |buffers| && |taken| == ranks && reading == [] && numEnqueued == 0 && arrived == {}
      ensures forall i :: 0 <= i < |bufs| ==> bufs[i].status == Idle && bufs[i].data == buffers[i]
      ensures forall s :: 0 <= s < ranks ==> taken[s] == 0
      ensures this.timeout == timeout && this.wire == wire
    {
      this.timeout, this.wire := timeout, wire;
      bufs := seq(|buffers|, i requires 0 <= i < |buffers| => RxBuffer(Idle, 0, 0, 0, 0, 0, buffers[i]));
      lookup := seq(MAX_DMA_TAGS, _ => -1);
      numEnqueued, inbound := 0, seq(ranks, _ => 0);
      cmds, sts, hdrs := [], [], [];
      arrived, taken := {}, seq(ranks, _ => 0);
      origin, reading, from := map[], [], 0;
      new;
      assert InUse(lookup) == {};
    }

    method EnqueueOne(i: nat)
      requires Valid() && i < |bufs| && bufs[i].status == Idle && numEnqueued < MAX_DMA_TAGS
      modifies `bufs, `lookup, `numEnqueued, `cmds
      ensures Valid()
      ensures numEnqueued == old(numEnqueued) + 1
      ensures exists t: nat :: FirstFree(old(lookup), t) && cmds == old(cmds) + [RxCommand(t, i)] && lookup == old(lookup)[t := i]
                            && bufs == old(bufs)[i := old(bufs[i]).(status := Enqueued, dmaTag := t)]
    {
      FreeTag(bufs, lookup, numEnqueued, Pending(sts, cmds));
      var t := FindFreeTag(lookup);
      // The source's "no free tag" return is dead: `t` is one of the sixteen.
      EnqueueKeeps(Now(), i, t);
      assert FirstFree(lookup, t);
      cmds := cmds + [RxCommand(t, i)];
      bufs := bufs[i := bufs[i].(status := Enqueued, dmaTag := t)];
      lookup := lookup[t := i];
      numEnqueued := numEnqueued + 1;
    }

    /** `enqueue_rx_buffers`: gives idle buffers to the DMA until all sixteen tags are out. */
    method EnqueueRxBuffers() returns (ret: nat)
      requires Valid()
      modifies `bufs, `lookup, `numEnqueued, `cmds
      ensures Valid()
      ensures numEnqueued == old(numEnqueued) + ret
      ensures numEnqueued == 16 || forall i :: 0 <= i < |bufs| ==> bufs[i].status != Idle
      ensures OnlyEnqueues(old(bufs), bufs)
      ensures |cmds| == |old(cmds)| + ret && cmds[..|old(cmds)|] == old(cmds)
    {
      ret := 0;
      var i := 0;
      while i < |bufs|
        invariant 0 <= i <= |bufs| == |old(bufs)|
        invariant Valid()
        invariant numEnqueued == old(numEnqueued) + ret
        invariant forall j :: 0 <= j < i ==> bufs[j].status != Idle
        invariant OnlyEnqueues(old(bufs), bufs)
        invariant |cmds| == |old(cmds)| + ret && cmds[..|old(cmds)|] == old(cmds)
      {
        if numEnqueued >= MAX_DMA_TAGS {
          FreeTag(bufs, lookup, numEnqueued, Pending(sts, cmds));
          return;
        }
        if bufs[i].status == Idle {
          EnqueueOne(i);
          ret := ret + 1;
        }
        i := i + 1;
      }
    }

    /** What is done with a completion; while it is examined the buffer passes through the error status. */
    method ReadStatus() returns (code: Code)
      requires sts != [] && hdrs != [] && numEnqueued > 0 && sts[0].tag < |lookup| && 0 <= lookup[sts[0].tag] < |bufs|
      modifies `bufs, `lookup, `numEnqueued, `sts, `hdrs
      ensures code == DequeueCheck(old(bufs), old(lookup), old(sts)[0], old(hdrs)[0])
      ensures var status, header := old(sts)[0], old(hdrs)[0];
        var idx := old(lookup)[status.tag];
        code == Success ==>
          && bufs == old(bufs)[idx := Collected(old(bufs)[idx], header)] && lookup == old(lookup)[status.tag := -1]
          && sts == old(sts)[1..] && hdrs == old(hdrs)[1..] && numEnqueued == old(numEnqueued) - 1
      ensures sts == old(sts)[1..]
      ensures code == SpareBufferStatus || code == SpareBufferTagMismatch ==>
        bufs == old(bufs) && lookup == old(lookup) && hdrs == old(hdrs) && numEnqueued == old(numEnqueued)
      ensures var status, header := old(sts)[0], old(hdrs)[0];
        var idx := old(lookup)[status.tag];
        code != Success && code != SpareBufferStatus && code != SpareBufferTagMismatch ==>
          && bufs == old(bufs)[idx := Collected(old(bufs)[idx], header).(status := Error)] && lookup == old(lookup)[status.tag := -1]
          && hdrs == old(hdrs)[1..] && numEnqueued == old(numEnqueued) - 1
    {
      var status, header := sts[0], hdrs[0];
      var idx := lookup[status.tag];
      code := DequeueCheck(bufs, lookup, status, header);
      sts := sts[1..];
      if code != SpareBufferStatus && code != SpareBufferTagMismatch {
        bufs := bufs[idx := Collected(bufs[idx], header).(status := Error)];
        hdrs, numEnqueued, lookup := hdrs[1..], numEnqueued - 1, lookup[status.tag := -1];
        if code == Success {
          bufs := bufs[idx := bufs[idx].(status := Reserved)];
        }
      }
    }

    /** One turn of the loop of `dequeue_rx_buffers`. */
    method DequeueOne() returns (code: Code)
      requires Valid() && sts != []
      modifies `bufs, `lookup, `numEnqueued, `sts, `hdrs
      ensures Valid() && code == Success
      ensures Collectable(old(Now())) && Now() == Collect(old(Now()))
      ensures OnlyReserves(old(bufs), bufs)
    {
      CollectKeeps(Now());
      code := ReadStatus();
    }

    /** `dequeue_rx_buffers`: none of its error exits is taken when the DMA returns the tags it was given. */
    method DequeueRxBuffers() returns (code: Code)
      requires Valid()
      modifies `bufs, `lookup, `numEnqueued, `sts, `hdrs
      ensures Valid() && code == Success && sts == [] && hdrs == []
      ensures Now() == CollectAll(old(Now()))
      ensures OnlyReserves(old(bufs), bufs)
    {
      var count := 0;
      code := Success;
      var invalid := false;
      while !invalid && code == Success
        invariant Valid() && code == Success && (invalid || count == 0)
        invariant invalid ==> sts == []
        invariant CollectAll(Now()) == CollectAll(old(Now()))
        invariant OnlyReserves(old(bufs), bufs)
        decreases !invalid, |sts|
      {
        if timeout != 0 && count >= timeout {
          code := DequeueTimeout;
        }
        if code == Success {
          count := count + 1;
          invalid := sts == [];
          if !invalid {
            count := 0;
            code := DequeueOne();
          }
        }
      }
    }

    /** A packet goes into the buffer of the oldest DMA command; the DMA and the depacketizer report it. */
    method Deliver(s: nat, n: nat)
      requires Valid() && Deliverable(Now(), (s, n))
      modifies `bufs, `cmds, `sts, `hdrs, `arrived, `origin
      ensures Valid() && old(cmds)[0].buf < |old(bufs)| && Now() == Arrived(old(Now()), (s, n))
    {
      ArriveKeeps(Now(), (s, n));
      ghost var after := Arrived(Now(), (s, n));
      var p, c := wire(s, n), cmds[0];
      cmds, sts, hdrs := cmds[1..], sts + [Good(c.tag, |p.data|)], hdrs + [HeaderOf((s, n), p)];
      bufs := bufs[c.buf := bufs[c.buf].(data := p.data)];
      arrived, origin := arrived + {(s, n)}, origin[c.buf := (s, n)];
      assert Now() == after;
    }

    /** The network delivers packet `n` of rank `s`, if it can. */
    method Arrive(s: nat, n: nat)
      requires Valid()
      modifies `bufs, `cmds, `sts, `hdrs, `arrived, `origin
      ensures Valid()
      ensures if Deliverable(old(Now()), (s, n)) then old(cmds)[0].buf < |old(bufs)| && Now() == Arrived(old(Now()), (s, n)) else Now() == old(Now())
      ensures OnlyFills(old(bufs), bufs)
    {
      if cmds == [] || (s, n) in arrived || s >= |taken| || n < taken[s] || n >= taken[s] + WORD {
        return;
      }
      ArriveKeeps(Now(), (s, n));
      ArriveFills(Now(), (s, n));
      Deliver(s, n);
    }

    /**
     `stream_isr`, with the line that says that completions are waiting up or not: in any case idle buffers go to the DMA
     until none is left or all sixteen tags are out; with the line up all completions are collected first, after which every
     packet that has arrived lies in a buffer where the receive loop can find it.
     */
    method StreamIsr(line: bool)
      requires Valid()
      modifies `bufs, `lookup, `numEnqueued, `cmds, `sts, `hdrs
      ensures Valid() && Undisturbed(old(bufs), bufs)
      ensures numEnqueued == 16 || forall i :: 0 <= i < |bufs| ==> bufs[i].status != Idle
      ensures |old(cmds)| <= |cmds| && cmds[..|old(cmds)|] == old(cmds)
      ensures line ==> sts == [] && hdrs == [] && AllCollected(Now())
      ensures line ==> forall k: nat :: k < |old(sts)| ==> Dequeued(old(Now()), Now(), k)
      ensures !line ==> sts == old(sts) && hdrs == old(hdrs) && OnlyEnqueues(old(bufs), bufs)
    {
      if line {
        var code := DequeueRxBuffers();
      }
      var enqueued := EnqueueRxBuffers();
      if line {
        NoneUnlanded(Now());
        AllDequeued(old(Now()), Now());
      }
    }

    /** Whatever may happen while interrupts are enabled: any number of arrivals and handler calls, in any order. */
    method Interrupts()
      requires Valid()
      modifies `bufs, `lookup, `numEnqueued, `cmds, `sts, `hdrs, `arrived, `origin
      ensures Valid()
      ensures Undisturbed(old(bufs), bufs)
    {
      var events: nat := *;
      while events > 0
        invariant Valid()
        invariant Undisturbed(old(bufs), bufs)
      {
        if * {
          var s: nat, n: nat := *, *;
          Arrive(s, n);
        } else {
          var line: bool := *;
          StreamIsr(line);
        }
        events := events - 1;
      }
    }

    /** The branch of `t_wait_receive_world_i` taken on a match, interrupts off. */
    method Take(i: nat, src: nat, len: nat, tag: nat)
      requires Valid() && src == from && |reading| < DMA_MAX_TRANSACTIONS
      requires i < |bufs| && Matches(bufs[i], src, len, tag, (inbound[src] + 1) % WORD)
      modifies `taken, `reading, `inbound
      ensures Valid() && Took(i, src, old(taken), old(reading), len, tag)
    {
      MatchIsNext(Now(), i);
      MatchKeeps(Now(), i);
      taken, reading := taken[src := taken[src] + 1], reading + [i];
      inbound := inbound[src := (inbound[src] + 1) % WORD];
    }

    /** One buffer of the scan: interrupts are off only while it is examined. */
    method Examine(i: nat, src: nat, len: nat, tag: nat) returns (found: bool)
      requires Valid() && src == from && |reading| < DMA_MAX_TRANSACTIONS && i < |bufs|
      modifies this
      ensures Valid() && from == old(from) && Undisturbed(old(bufs), bufs)
      ensures found ==> Took(i, src, old(taken), old(reading), len, tag)
      ensures !found ==> taken == old(taken) && reading == old(reading) && inbound == old(inbound)
      ensures !found ==> !Matches(old(bufs[i]), src, len, tag, (old(inbound[src]) + 1) % WORD)
    {
      Interrupts();
      found := Matches(bufs[i], src, len, tag, (inbound[src] + 1) % WORD);
      if found {
        Take(i, src, len, tag);
      }
    }

    /** `t_wait_receive_world_i`: a scan that finds nothing leaves everything as it was, and no buffer matched at its start. */
    method TryReceive(src: nat, len: nat, tag: nat) returns (i: int)
      requires Valid() && src == from && |reading| < DMA_MAX_TRANSACTIONS
      modifies this
      ensures Valid() && from == old(from) && Undisturbed(old(bufs), bufs)
      ensures -1 <= i < |bufs|
      ensures i >= 0 ==> Took(i, src, old(taken), old(reading), len, tag)
      ensures i < 0 ==> taken == old(taken) && reading == old(reading)
      ensures i < 0 ==> NoneMatches(old(bufs), |bufs|, src, len, tag, (old(inbound[src]) + 1) % WORD)
    {
      ghost var bufs0, taken0, reading0, inbound0 := bufs, taken, reading, inbound;
      ghost var seqNum := (inbound[src] + 1) % WORD;
      var found, n := false, 0;
      while n < |bufs| && !found
        invariant n <= |bufs|
        invariant Valid() && from == src && Undisturbed(bufs0, bufs)
        invariant found ==> n < |bufs| && Took(n, src, taken0, reading0, len, tag)
        invariant !found ==> taken == taken0 && reading == reading0 && inbound == inbound0 && NoneMatches(bufs0, n, src, len, tag, seqNum)
        decreases |bufs0| - n, !found
      {
        ghost var before := bufs;
        found := Examine(n, src, len, tag);
        Onward(bufs0, before, bufs, n, src, len, tag, seqNum);
        if !found {
          n := n + 1;
        }
      }
      i := if found then n else -1;
    }

    /** Buffer `i` now holds the next packet of `src`, at the end of the window. */
    ghost predicate Took(i: int, src: nat, takenBefore: seq<nat>, readingBefore: seq<nat>, len: nat, tag: nat)
      reads this
    {
      && 0 <= i < |bufs| && src < |takenBefore|
      && taken == takenBefore[src := takenBefore[src] + 1]
      && reading == readingBefore + [i]
      && var p := wire(src, takenBefore[src]);
      |p.data| == len && (p.tag == tag || tag == TAG_ANY)
    }

    /** The k-th buffer of the window is reserved and holds the k-th of the packets taken last. */
    lemma {:induction false} WindowHolds(k: nat)
      requires Valid() && k < |reading|
      ensures |reading| <= taken[from] && |reading| <= 20
      ensures 0 <= reading[k] < |bufs| && bufs[reading[k]].status == Reserved
      ensures bufs[reading[k]].data == wire(from, taken[from] - |reading| + k).data
    {
      assert InTurn(Now(), k);
      assert Stored(Now(), reading[k]);
    }

    /** The next packet of `src` is in a spare buffer, dequeued, and is what the receive asks for. */
    ghost predicate NextLanded(src: nat, len: nat, tag: nat)
      reads this
    {
      src < |taken| && LandedAt(Now(), src, taken[src], len, tag)
    }

    /** One call of the handler is enough for a packet that has arrived. */
    lemma {:induction false} ArrivedLands(src: nat, len: nat, tag: nat)
      requires AllCollected(Now()) && src < |taken| && (src, taken[src]) in arrived
      ensures NextLanded(src, len, tag) <==> var p := wire(src, taken[src]); |p.data| == len && (p.tag == tag || tag == 0xFFFF_FFFF)
    {
      assert InBuffer(Now(), (src, taken[src]));
    }

    /** Then the scan will find it. */
    lemma {:induction false} LandedMatches(src: nat, len: nat, tag: nat)
      requires Valid() && src < |taken|
      ensures NextLanded(src, len, tag) ==> src < |inbound| && !NoneMatches(bufs, |bufs|, src, len, tag, (inbound[src] + 1) % WORD)
    {
      if NextLanded(src, len, tag) {
        var i: nat :| HasPacket(Now(), i, src, taken[src]);
        assert Stored(Now(), i);
        NextNumber(taken[src]);
        assert Matches(bufs[i], src, len, tag, (inbound[src] + 1) % WORD);
      }
    }

    /**
     `wait_receive_world_i`, trying at most `attempts` times. A receive whose next packet has landed does not fail, and a
     receive that fails has taken nothing.
     */
    method WaitReceive(src: nat, len: nat, tag: nat, attempts: nat) returns (code: Code, i: int)
      requires Valid() && src == from && |reading| < DMA_MAX_TRANSACTIONS
      modifies this
      ensures Valid() && from == old(from) && |taken| == |old(taken)|
      ensures Undisturbed(old(bufs), bufs)
      ensures code == Success || code == ReceiveTimeout
      ensures code == Success ==> Took(i, src, old(taken), old(reading), len, tag)
      ensures code == ReceiveTimeout ==> taken == old(taken) && reading == old(reading)
      ensures attempts > 0 && old(NextLanded(src, len, tag)) ==> code == Success
    {
      var count := 0;
      ghost var landed := NextLanded(src, len, tag);
      while count < attempts
        invariant landed ==> count == 0 && NextLanded(src, len, tag)
        invariant Valid() && from == old(from) && taken == old(taken) && reading == old(reading)
        invariant Undisturbed(old(bufs), bufs)
      {
        LandedMatches(src, len, tag);
        i := TryReceive(src, len, tag);
        if i >= 0 {
          return Success, i;
        }
        count := count + 1;
      }
      return ReceiveTimeout, -1;
    }

    /** The oldest buffer of the window is handed back, with interrupts off. */
    method Free(i: nat)
      requires Valid() && reading != [] && i == reading[0]
      modifies `bufs, `origin, `reading
      ensures Valid() && reading == old(reading)[1..] && origin == old(origin) - {i}
      ensures i < |bufs| == |old(bufs)| && bufs == old(bufs)[i := old(bufs[i]).(status := Idle)]
    {
      FreeKeeps(Now());
      bufs, origin, reading := bufs[i := bufs[i].(status := Idle)], origin - {i}, reading[1..];
    }

    /** A receive from another rank may start once the window is empty. */
    method Begin(src: nat)
      requires Valid() && reading == [] && src < |taken|
      modifies `from
      ensures Valid() && from == src
    {
      BeginKeeps(Now(), src);
      from := src;
    }
  }

  /** The test of the receive loop on one buffer. */
  predicate Matches(b: RxBuffer, src: nat, len: nat, tag: nat, seqNum: nat) {
    b.status == Reserved && b.rxSrc == src && b.rxLen == len && (b.rxTag == tag || tag == TAG_ANY) && b.seqNum == seqNum
  }

  /** Idle buffers may have become enqueued, and enqueued ones reserved; reserved ones have not been touched. */
  ghost predicate Undisturbed(before: seq<RxBuffer>, after: seq<RxBuffer>) {
    && |before| == |after|
    && (forall i :: 0 <= i < |before| && before[i].status == Reserved ==> after[i] == before[i])
    && (forall i :: 0 <= i < |before| && before[i].status == Enqueued ==> after[i].status == Enqueued || after[i].status == Reserved)
  }

  ghost predicate NoneMatches(bufs: seq<RxBuffer>, n: nat, src: nat, len: nat, tag: nat, seqNum: nat) {
    n <= |bufs| && forall j :: 0 <= j < n ==> !Matches(bufs[j], src, len, tag, seqNum)
  }

  /** A buffer that matched when the scan began still matches when the scan comes to it. */
  lemma {:induction false} Onward(a: seq<RxBuffer>, b: seq<RxBuffer>, c: seq<RxBuffer>, i: nat, src: nat, len: nat, tag: nat, seqNum: nat)
    requires Undisturbed(a, b) && Undisturbed(b, c) && i < |a|
    ensures Undisturbed(a, c)
    ensures NoneMatches(a, i, src, len, tag, seqNum) && !Matches(b[i], src, len, tag, seqNum) ==> NoneMatches(a, i + 1, src, len, tag, seqNum)
  {
  }

  /** An enqueued buffer may have been filled; nothing else has changed. */
  ghost predicate OnlyFills(before: seq<RxBuffer>, after: seq<RxBuffer>) {
    && |before| == |after|
    && forall i :: 0 <= i < |before| ==>
      after[i] == before[i] || (before[i].status == Enqueued && after[i] == before[i].(data := after[i].data))
  }

  /** An idle buffer may have become enqueued; nothing else has changed. */
  ghost predicate OnlyEnqueues(before: seq<RxBuffer>, after: seq<RxBuffer>) {
    && |before| == |after|
    && forall i :: 0 <= i < |before| ==> after[i] == before[i] || (before[i].status == Idle && after[i].status == Enqueued)
  }

  /** An enqueued buffer may have become reserved; nothing else has changed. */
  ghost predicate OnlyReserves(before: seq<RxBuffer>, after: seq<RxBuffer>) {
    && |before| == |after|
    && forall i :: 0 <= i < |before| ==> after[i] == before[i] || (before[i].status == Enqueued && after[i].status == Reserved)
  }
}
