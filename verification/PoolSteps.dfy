/**
 The spare-buffer pool as a state machine: everything the firmware, the interrupt handler and the network can do to it, one
 step at a time, each step being the state change of the method of `SpareBuffers.Pool` it is named after.
 */
module PoolSteps {
  import opened Segments
  import opened SpareBuffers

  datatype Step = Enqueue(i: nat, t: nat) | Arrive(o: (nat, nat)) | Collect | Begin(src: nat) | Take(i: nat) | Free

  ghost predicate Allowed(v: View, s: Step) {
    match s
    case Enqueue(i, t) => i < |v.bufs| && v.bufs[i].status == Idle && t < MAX_DMA_TAGS == |v.lookup| && v.lookup[t] == -1
    case Arrive(o) => Deliverable(v, o) && v.cmds[0].buf < |v.bufs|
    case Collect => Collectable(v)
    case Begin(src) => v.reading == [] && src < |v.taken|
    case Take(i) =>
      && |v.reading| < DMA_MAX_TRANSACTIONS && i < |v.bufs| && v.bufs[i].status == Reserved && i in v.origin && i !in v.reading
      && v.from < |v.taken| == |v.inbound| && v.origin[i] == (v.from, v.taken[v.from])
    case Free => v.reading != [] && v.reading[0] < |v.bufs|
  }

  ghost function After(v: View, s: Step): View
    requires Allowed(v, s)
  {
    match s
    case Enqueue(i, t) =>
      v.(bufs := v.bufs[i := v.bufs[i].(status := Enqueued, dmaTag := t)], lookup := v.lookup[t := i], enqueued := v.enqueued + 1,
         cmds := v.cmds + [RxCommand(t, i)])
    case Arrive(o) => Arrived(v, o)
    case Collect => SpareBuffers.Collect(v)
    case Begin(src) => v.(from := src)
    case Take(i) =>
      v.(taken := v.taken[v.from := v.taken[v.from] + 1], reading := v.reading + [i],
         inbound := v.inbound[v.from := (v.inbound[v.from] + 1) % WORD])
    case Free =>
      v.(bufs := v.bufs[v.reading[0] := v.bufs[v.reading[0]].(status := Idle)], origin := v.origin - {v.reading[0]}, reading := v.reading[1..])
  }

  /** The steps lead from `v` to `w`. */
  ghost predicate Path(v: View, steps: seq<Step>, w: View)
    decreases |steps|
  {
    if steps == [] then v == w else Allowed(v, steps[0]) && Path(After(v, steps[0]), steps[1..], w)
  }

  lemma {:induction false} StepKeepsSound(v: View, s: Step)
    requires Sound(v) && Allowed(v, s)
    ensures Sound(After(v, s))
  {
    match s
    case Enqueue(i, t) => EnqueueKeeps(v, i, t);
    case Arrive(o) => ArriveKeeps(v, o);
    case Collect => CollectKeeps(v);
    case Begin(src) => BeginKeeps(v, src);
    case Take(i) => MatchKeeps(v, i);
    case Free => FreeKeeps(v);
  }

  lemma {:induction false} PathJoins(v: View, a: seq<Step>, w: View, b: seq<Step>, x: View)
    requires Path(v, a, w) && Path(w, b, x)
    ensures Path(v, a + b, x)
    decreases |a|
  {
    if a == [] {
      assert a + b == b;
    } else {
      PathJoins(After(v, a[0]), a[1..], w, b, x);
      assert (a + b)[1..] == a[1..] + b;
    }
  }

  /** ---- One call of a collective ---- */

  /** The packets that have arrived since a call began, `start[s]` packets of rank `s` having been taken by then. */
  function Since(arrived: set<(nat, nat)>, start: seq<nat>): set<(nat, nat)> {
    set o | o in arrived && o.0 < |start| && start[o.0] <= o.1
  }

  /** The call began with no packet in hand, and has taken the packets since. */
  ghost predicate Began(v: View, start: seq<nat>) {
    && |start| == |v.taken| && v.from < |start|
    && (forall s :: 0 <= s < |start| ==> start[s] <= v.taken[s])
    && start[v.from] + |v.reading| <= v.taken[v.from]
  }

  /** Every step keeps it. */
  lemma {:induction false} StepKeepsBegan(v: View, s: Step, start: seq<nat>)
    requires Allowed(v, s) && Began(v, start)
    ensures Began(After(v, s), start) && |After(v, s).bufs| == |v.bufs| && After(v, s).wire == v.wire
  {
  }

  /** And so, wherever the steps of a call lead, the pool is sound and the call began as it did. */
  lemma {:induction false} PathKeeps(v: View, steps: seq<Step>, w: View, start: seq<nat>)
    requires Sound(v) && Began(v, start) && Path(v, steps, w)
    ensures Sound(w) && Began(w, start) && |w.bufs| == |v.bufs| && w.wire == v.wire
    decreases |steps|
  {
    if steps != [] {
      StepKeepsSound(v, steps[0]);
      StepKeepsBegan(v, steps[0], start);
      PathKeeps(After(v, steps[0]), steps[1..], w, start);
    }
  }

  /** ---- How the pool fills up when nothing is taken ---- */

  /** Buffers a packet can come to lie in, now or after the next call of the interrupt handler. */
  function Open(bufs: seq<RxBuffer>): set<nat> {
    set i: nat | 0 <= i < |bufs| && (bufs[i].status == Idle || bufs[i].status == Enqueued)
  }

  /** A call starts: every packet of earlier calls has been taken and its buffer handed back, and none of this one has come. */
  ghost predicate Fresh(v: View) {
    && Sound(v) && v.reading == [] && v.sts == []
    && (forall i :: 0 <= i < |v.bufs| ==> v.bufs[i].status == Idle || v.bufs[i].status == Enqueued)
    && Since(v.arrived, v.taken) == {}
  }

  /** Between rounds: what the handler has been told of has been collected, and packets from number `next` on are to come. */
  ghost predicate Settled(v: View, p: nat, next: nat) {
    && Sound(v) && v.sts == [] && p < |v.taken| && v.taken[p] <= next
    && forall n: nat :: n >= next ==> (p, n) !in v.arrived
  }

  lemma {:induction false} NothingEnqueued(v: View)
    requires Sound(v) && v.sts == [] && v.cmds == []
    ensures forall i :: 0 <= i < |v.bufs| ==> v.bufs[i].status != Enqueued
    ensures |v.lookup| == MAX_DMA_TAGS && v.lookup[0] == -1
  {
    assert Pending(v.sts, v.cmds) == [];
    forall t: nat | t < |v.lookup| ensures v.lookup[t] == -1 {
      assert t !in InUse(v.lookup);
    }
    forall i | 0 <= i < |v.bufs| ensures v.bufs[i].status != Enqueued {
      assert BufferHasTag(v.bufs, v.lookup, i);
    }
  }

  /** If no buffer waits for a packet, the handler makes an idle one wait. */
  lemma {:induction false} MakeWait(v: View, p: nat, next: nat) returns (steps: seq<Step>, w: View)
    requires Settled(v, p, next) && Open(v.bufs) != {}
    ensures Path(v, steps, w) && Settled(w, p, next) && w.cmds != [] && Open(w.bufs) == Open(v.bufs)
    ensures w.taken == v.taken && w.arrived == v.arrived
  {
    if v.cmds != [] {
      steps, w := [], v;
    } else {
      NothingEnqueued(v);
      var i :| i in Open(v.bufs);
      var s := Enqueue(i, 0);
      StepKeepsSound(v, s);
      steps, w := [s], After(v, s);
      assert steps[1..] == [];
    }
  }

  /** The next packet arrives in the buffer that has waited longest, and the handler collects it. */
  lemma {:induction false} FillOne(v: View, p: nat, next: nat) returns (steps: seq<Step>, w: View, i: nat)
    requires Settled(v, p, next) && v.cmds != [] && next < v.taken[p] + WORD
    ensures Path(v, steps, w) && Settled(w, p, next + 1)
    ensures i in Open(v.bufs) && Open(w.bufs) == Open(v.bufs) - {i}
    ensures w.taken == v.taken && w.arrived == v.arrived + {(p, next)}
  {
    var a := Arrive((p, next));
    ArriveKeeps(v, (p, next));
    assert Waiting(v, 0);
    i := v.cmds[0].buf;
    var u := After(v, a);
    CollectKeeps(u);
    w := After(u, Collect);
    steps := [a, Collect];
    assert steps[1..] == [Collect] && [Collect][1..] == [];
    assert Path(u, [Collect], w);
  }

  /** As many packets as there are open buffers leave none. */
  lemma {:induction false} FillUp(v: View, p: nat, next: nat) returns (steps: seq<Step>, w: View)
    requires Settled(v, p, next) && next + |Open(v.bufs)| <= v.taken[p] + WORD
    ensures Path(v, steps, w) && Open(w.bufs) == {} && w.taken == v.taken
    ensures forall o :: o in w.arrived ==> o in v.arrived || (o.0 == p && next <= o.1 < next + |Open(v.bufs)|)
    decreases |Open(v.bufs)|
  {
    if Open(v.bufs) == {} {
      steps, w := [], v;
    } else {
      var wait, u := MakeWait(v, p, next);
      var fill, x, i := FillOne(u, p, next);
      var rest;
      rest, w := FillUp(x, p, next + 1);
      PathJoins(u, fill, x, rest, w);
      PathJoins(v, wait, u, fill + rest, w);
      steps := wait + (fill + rest);
    }
  }
}
