/**
 The packet multiplexor: a lookup process and a stream process, joined by a FIFO of responses one way and a FIFO of updates
 the other way, stepping in any order. The lookup learns the size of a new message from the stream process, so it waits
 for it there; otherwise it may run ahead.
 */
module Multiplexor {
  import opened Unfolding
  import opened Wrappers
  import opened Framing
  import opened MessageTable
  import opened OutputWords

  datatype LookupState = Setup | Req | HitResp | MissResp | Update
  datatype StreamState = WaitStream | Consume

  datatype Request = Request(session: nat, len: nat)
  datatype Upd = Upd(dest: nat, session: nat, len: nat, size: nat)

  function RequestOf(p: Packet): Request {
    Request(p.session, p.len)
  }

  function UpdateOf(p: Packet, r: Response): Upd
    requires p.words != []
  {
    Upd(r.dest, p.session, p.len, MessageSize(p.words[0]))
  }

  /** The fields of a response have 16 bits. */
  function Low16(x: nat): nat {
    x % 0x1_0000
  }

  ghost predicate Framed(p: Packet) {
    p.session < 0x1_0000 && p.len < 0x1_0000 && MarkedPacket(p)
  }

  /** What reaches the multiplexor: sessions and lengths of 16 bits, and the packets' words, each packet's last one marked. */
  ghost predicate Input(ps: seq<Packet>) {
    NonEmpty(ps) && forall u: nat {:trigger Unfold(u)} :: u == 7 && Unfold(u) ==> forall k :: 0 <= k < |ps| ==> Framed(ps[k])
  }

  /** The requests, and the words, from packet `n` on. */
  function Requests(ps: seq<Packet>, n: nat): seq<Request>
    requires n <= |ps|
    decreases |ps| - n
  {
    if n == |ps| then [] else [RequestOf(ps[n])] + Requests(ps, n + 1)
  }

  function Words(ps: seq<Packet>, n: nat): seq<Word>
    requires n <= |ps|
    decreases |ps| - n
  {
    if n == |ps| then [] else ps[n].words + Words(ps, n + 1)
  }

  ghost function Responses(ps: seq<Packet>, m: nat, n: nat): seq<Response>
    requires NonEmpty(ps) && m <= n <= |ps|
  {
    seq(n - m, k requires 0 <= k < n - m => ResponseTo(ps, m + k))
  }

  /** The stream process between packets: `m` packets are through and `n` answered. */
  ghost predicate Waiting(ps: seq<Packet>, m: nat, n: nat, input: seq<Word>, output: seq<OutWord>, resps: seq<Response>) {
    && NonEmpty(ps) && m <= n <= |ps|
    && forall u: nat {:trigger Unfold(u)} :: u == 1 && Unfold(u) ==>
      && input == Words(ps, m) && output == Output(ps, m) && resps == Responses(ps, m, n)
  }

  /** The stream process inside packet `m`, with `b` words of it through. */
  ghost predicate Consuming(ps: seq<Packet>, m: nat, b: nat, n: nat, input: seq<Word>, output: seq<OutWord>, resps: seq<Response>, r: Response) {
    && NonEmpty(ps) && m < n <= |ps| && 0 < b < |ps[m].words|
    && forall u: nat {:trigger Unfold(u)} :: u == 2 && Unfold(u) ==>
      && r == ResponseTo(ps, m) && resps == Responses(ps, m + 1, n)
      && input == ps[m].words[b..] + Words(ps, m + 1)
      && output == Output(ps, m) + OutWords(ps[m].words[..b], r)
  }

  lemma {:induction false} OutWordsSnoc(ws: seq<Word>, b: nat, r: Response)
    requires b < |ws|
    ensures OutWords(ws[..b], r) + [OutOf(ws[b], r)] == OutWords(ws[..b + 1], r)
  {
  }

  lemma {:induction false} First(ps: seq<Packet>, m: nat, n: nat, input: seq<Word>, output: seq<OutWord>, resps: seq<Response>)
    requires Input(ps) && Waiting(ps, m, n, input, output, resps) && resps != [] && input != []
    ensures m < n && resps[0] == ResponseTo(ps, m) && input[0] == ps[m].words[0]
    ensures var out := output + [OutOf(input[0], resps[0])];
      if input[0].last then Waiting(ps, m + 1, n, input[1..], out, resps[1..])
      else Consuming(ps, m, 1, n, input[1..], out, resps[1..], resps[0])
  {
    assert Unfold(1) && Unfold(7);
    var ws := ps[m].words;
    ResponsesNext(ps, m, n);
    assert input[0] == ws[0] && input[1..] == ws[1..] + Words(ps, m + 1);
    OutWordsSnoc(ws, 0, resps[0]);
    assert OutWords(ws[..0], resps[0]) == [];
    assert ws[0].last <==> 0 == |ws| - 1;
    if |ws| == 1 {
      assert ws[..1] == ws;
    }
  }

  lemma {:induction false} Next(ps: seq<Packet>, m: nat, b: nat, n: nat, input: seq<Word>, output: seq<OutWord>, resps: seq<Response>, r: Response)
    requires Input(ps) && Consuming(ps, m, b, n, input, output, resps, r)
    ensures input != []
    ensures var out := output + [OutOf(input[0], r)];
      if input[0].last then Waiting(ps, m + 1, n, input[1..], out, resps)
      else Consuming(ps, m, b + 1, n, input[1..], out, resps, r)
  {
    assert Unfold(2) && Unfold(7);
    var ws := ps[m].words;
    assert input[0] == ws[b] && input[1..] == ws[b + 1..] + Words(ps, m + 1);
    OutWordsSnoc(ws, b, r);
    assert Output(ps, m) + OutWords(ws[..b], r) + [OutOf(ws[b], r)] == Output(ps, m) + (OutWords(ws[..b], r) + [OutOf(ws[b], r)]);
    assert ws[b].last <==> b == |ws| - 1;
    if b == |ws| - 1 {
      assert ws[..b + 1] == ws;
    }
  }

  /** Exactly bit `d` of the comparison mask is set. */
  predicate OneHot(mask: seq<bool>, d: nat) {
    d < |mask| && mask[d] && forall i :: 0 <= i < |mask| && i != d ==> !mask[i]
  }

  predicate NonZero(mask: seq<bool>) {
    true in mask
  }

  /** The comparison of a session with all entries. */
  function Compare(es: seq<Entry>, session: nat): (mask: seq<bool>)
    ensures |mask| == |es|
  {
    seq(|es|, d requires 0 <= d < |es| => Holds(es, d, session))
  }

  /** The sessions of the valid entries are distinct, so a mask that is not zero is one-hot. */
  lemma {:induction false} MaskIsOneHot(t: Table, session: nat)
    requires Sound(t)
    ensures match Find(t.entries, session, 0)
            case Some(d) =>
              var mask := Compare(t.entries, session);
              |mask| == 8 && OneHot(mask, d) && NonZero(mask) && forall i :: 0 <= i < 8 ==> (mask[i] <==> i == d)
            case None => true !in Compare(t.entries, session)
  {
    var r := Find(t.entries, session, 0);
    if r.Some? {
      assert Compare(t.entries, session)[r.value];
      forall i | 0 <= i < DESTS && i != r.value ensures !Compare(t.entries, session)[i] {
        if Holds(t.entries, i, session) {
          OnlyEntry(t, i, session);
        }
      }
    }
  }

  lemma {:induction false} MaskTellsHit(ps: seq<Packet>, k: nat, session: nat)
    requires NonEmpty(ps) && k < |ps| && Served(ps, k)
    ensures var mask, hit := Compare(After(ps, k).entries, session), Find(After(ps, k).entries, session, 0);
      && (NonZero(mask) <==> hit.Some?)
      && (hit.Some? ==> OneHot(mask, hit.value))
  {
    AfterIsSound(ps, k);
    MaskIsOneHot(After(ps, k), session);
  }

  /** Serving packet `k`, by cases. */
  lemma {:induction false} NextTable(ps: seq<Packet>, k: nat)
    requires NonEmpty(ps) && k < |ps| && Served(ps, k + 1)
    ensures After(ps, k + 1) == Serve(After(ps, k), ps[k]).0 && ResponseTo(ps, k).dest < DESTS
    ensures Find(After(ps, k).entries, ps[k].session, 0).None? ==> After(ps, k).free != []
  {
    assert CanServe(After(ps, k), ps[k]);
    ServeShapes(After(ps, k), ps[k]);
  }

  lemma {:induction false} ResponsesNext(ps: seq<Packet>, m: nat, n: nat)
    requires NonEmpty(ps) && m <= n <= |ps|
    ensures n < |ps| ==> Responses(ps, m, n + 1) == Responses(ps, m, n) + [ResponseTo(ps, n)]
    ensures m < n ==> Responses(ps, m, n) == [ResponseTo(ps, m)] + Responses(ps, m + 1, n)
  {
  }

  lemma {:induction false} ResponseFields(ps: seq<Packet>, k: nat)
    requires NonEmpty(ps) && k < |ps|
    ensures ResponseTo(ps, k).session == ps[k].session && ResponseTo(ps, k).len == ps[k].len
    ensures ResponseTo(ps, k).hit <==> Find(After(ps, k).entries, ps[k].session, 0).Some?
  {
  }

  /**
   `looked` packets have left their mark on the table, the first words of `begun` packets have been seen. The lookup runs
   ahead over hits only; when it waits for an update, that is under way once the first word has been seen.
   */
  ghost predicate Updates(ps: seq<Packet>, waits: bool, looked: nat, begun: nat, upd: seq<Upd>)
    requires NonEmpty(ps)
  {
    && looked <= |ps| && (waits ==> looked < |ps|)
    && forall u: nat {:trigger Unfold(u)} :: u == 3 && Unfold(u) ==>
      && (waits ==> !ResponseTo(ps, looked).hit)
      && (forall k: nat {:trigger ResponseTo(ps, k)} :: begun <= k < looked ==> ResponseTo(ps, k).hit)
      && upd == if waits && looked < begun then [UpdateOf(ps[looked], ResponseTo(ps, looked))] else []
  }

  lemma {:induction false} UpdateIs(ps: seq<Packet>, looked: nat, begun: nat, upd: seq<Upd>)
    requires NonEmpty(ps) && Updates(ps, true, looked, begun, upd) && upd != []
    ensures upd == [UpdateOf(ps[looked], ResponseTo(ps, looked))] && Updates(ps, false, looked + 1, begun, [])
  {
    assert Unfold(3);
  }

  lemma {:induction false} UpdatesOn(ps: seq<Packet>, looked: nat, begun: nat, upd: seq<Upd>)
    requires NonEmpty(ps) && Updates(ps, false, looked, begun, upd) && looked < |ps|
    ensures upd == []
    ensures if ResponseTo(ps, looked).hit then Updates(ps, false, looked + 1, begun, upd)
            else begun <= looked ==> Updates(ps, true, looked, begun, upd)
  {
    assert Unfold(3);
  }

  lemma {:induction false} UpdatesFirst(ps: seq<Packet>, waits: bool, looked: nat, m: nat, upd: seq<Upd>, w: Word)
    requires NonEmpty(ps) && Updates(ps, waits, looked, m, upd) && m < |ps| && m < looked + (if waits then 1 else 0) && w == ps[m].words[0]
    ensures var r := ResponseTo(ps, m);
      Updates(ps, waits, looked, m + 1, if r.hit then upd else upd + [Upd(r.dest, r.session, r.len, MessageSize(w))])
  {
    assert Unfold(3);
    ResponseFields(ps, m);
    if !ResponseTo(ps, m).hit {
      assert looked == m;
    }
  }

  /** The lookup filling the free list and clearing the table, `n` destinations done. */
  ghost predicate Clearing(ps: seq<Packet>, n: nat, table: seq<Entry>, free: seq<nat>, reqs: seq<Request>) {
    && NonEmpty(ps) && n < DESTS == |table|
    && forall u: nat {:trigger Unfold(u)} :: u == 8 && Unfold(u) ==>
      reqs == Requests(ps, 0) && (forall d :: 0 <= d < n ==> table[d] == CLEAR) && free == START.free[..n]
  }

  lemma {:induction false} ClearOne(ps: seq<Packet>, n: nat, table: seq<Entry>, free: seq<nat>, reqs: seq<Request>)
    requires Clearing(ps, n, table, free, reqs)
    ensures if n + 1 < DESTS then Clearing(ps, n + 1, table[n := CLEAR], free + [n], reqs)
            else AtPacket(ps, 0, table[n := CLEAR], free + [n], reqs)
  {
    assert Unfold(8);
    if n + 1 == DESTS {
      assert table[n := CLEAR] == START.entries && free + [n] == START.free;
    }
  }

  lemma {:induction false} ClearNone(ps: seq<Packet>, table: seq<Entry>, reqs: seq<Request>)
    requires NonEmpty(ps) && |table| == DESTS && reqs == Requests(ps, 0)
    ensures Clearing(ps, 0, table, [], reqs)
  {
  }

  /** The lookup between packets, the table being that after `k` packets. */
  ghost predicate AtPacket(ps: seq<Packet>, k: nat, table: seq<Entry>, free: seq<nat>, reqs: seq<Request>) {
    && NonEmpty(ps) && k <= |ps|
    && forall u: nat {:trigger Unfold(u)} :: u == 4 && Unfold(u) ==>
      reqs == Requests(ps, k) && Table(table, free) == After(ps, k)
  }

  /** The lookup holding the request of packet `k`. */
  ghost predicate OnPacket(ps: seq<Packet>, k: nat, table: seq<Entry>, free: seq<nat>, reqs: seq<Request>, session: nat, len: nat, hit: bool) {
    && NonEmpty(ps) && k < |ps|
    && forall u: nat {:trigger Unfold(u)} :: u == 5 && Unfold(u) ==>
      && reqs == Requests(ps, k + 1) && Table(table, free) == After(ps, k)
      && session == ps[k].session && len == ps[k].len && hit == ResponseTo(ps, k).hit
  }

  /** The lookup waiting for the update of packet `k`, for which it has taken a destination. */
  ghost predicate Awaiting(ps: seq<Packet>, k: nat, table: seq<Entry>, free: seq<nat>, reqs: seq<Request>) {
    && NonEmpty(ps) && k < |ps|
    && forall u: nat {:trigger Unfold(u)} :: u == 6 && Unfold(u) ==>
      && reqs == Requests(ps, k + 1) && !ResponseTo(ps, k).hit
      && table == After(ps, k).entries && After(ps, k).free == [ResponseTo(ps, k).dest] + free
  }

  lemma {:induction false} TakeRequest(ps: seq<Packet>, k: nat, table: seq<Entry>, free: seq<nat>, reqs: seq<Request>)
    requires AtPacket(ps, k, table, free, reqs) && reqs != [] && Served(ps, k)
    ensures k < |ps| && |table| == DESTS
    ensures var session := reqs[0].session;
      OnPacket(ps, k, table, free, reqs[1..], session, reqs[0].len, NonZero(Compare(table, session)))
  {
    assert Unfold(4);
    MaskTellsHit(ps, k, ps[k].session);
    ResponseFields(ps, k);
  }

  lemma {:induction false} ServedOne(ps: seq<Packet>, k: nat)
    requires NonEmpty(ps) && k < |ps| && Served(ps, k) && CanServe(After(ps, k), ps[k])
    ensures Served(ps, k + 1)
  {
  }

  /** A hit finds its destination in the mask, and leaves the table as the reference does. */
  lemma {:induction false} TakeHit(ps: seq<Packet>, k: nat, table: seq<Entry>, free: seq<nat>, reqs: seq<Request>, session: nat, len: nat)
    requires Input(ps) && OnPacket(ps, k, table, free, reqs, session, len, true) && Served(ps, k)
    ensures Low16(session) == session && Low16(len) == len && Served(ps, k + 1)
    ensures var d := ResponseTo(ps, k).dest;
      && d < DESTS == |table| && OneHot(Compare(table, session), d)
      && var e := table[d];
         var last := e.rcvd + len >= e.total;
         && ResponseTo(ps, k) == Response(true, last, d, len, session)
         && AtPacket(ps, k + 1, if last then table[d := CLEAR] else table[d := e.(rcvd := e.rcvd + len)],
                     if last then free + [d] else free, reqs)
  {
    assert Unfold(5);
    FieldsFit(ps, k, session, len);
    MaskTellsHit(ps, k, session);
    ResponseFields(ps, k);
    ServedOne(ps, k);
  }

  lemma {:induction false} TakeMiss(ps: seq<Packet>, k: nat, table: seq<Entry>, free: seq<nat>, reqs: seq<Request>, session: nat, len: nat)
    requires Input(ps) && OnPacket(ps, k, table, free, reqs, session, len, false) && Served(ps, k) && free != []
    ensures Low16(session) == session && Low16(len) == len && Served(ps, k + 1)
    ensures ResponseTo(ps, k) == Response(false, false, free[0], len, session)
    ensures Awaiting(ps, k, table, free[1..], reqs)
  {
    assert Unfold(5);
    FieldsFit(ps, k, session, len);
    ServedOne(ps, k);
    NextTable(ps, k);
    ResponseFields(ps, k);
    assert [free[0]] + free[1..] == free;
  }

  lemma {:induction false} TakeUpd(ps: seq<Packet>, k: nat, table: seq<Entry>, free: seq<nat>, reqs: seq<Request>, upd: Upd)
    requires Awaiting(ps, k, table, free, reqs) && Served(ps, k + 1) && upd == UpdateOf(ps[k], ResponseTo(ps, k))
    ensures upd.dest < |table|
    ensures var single := upd.len >= upd.size;
      AtPacket(ps, k + 1, if single then table[upd.dest := CLEAR] else table[upd.dest := Entry(true, upd.session, upd.size, upd.len)],
               if single then free + [upd.dest] else free, reqs)
  {
    assert Unfold(6);
    NextTable(ps, k);
    ResponseFields(ps, k);
    assert ([ResponseTo(ps, k).dest] + free)[1..] == free;
  }

  lemma {:induction false} FieldsFit(ps: seq<Packet>, k: nat, session: nat, len: nat)
    requires Input(ps) && k < |ps| && session == ps[k].session && len == ps[k].len
    ensures Low16(session) == session && Low16(len) == len
  {
    assert Unfold(7);
    assert Framed(ps[k]);
  }

  /** The response to the next packet joins the queue, whatever the stream process is doing. */
  lemma {:induction false} Answered(ps: seq<Packet>, m: nat, b: nat, n: nat, input: seq<Word>, output: seq<OutWord>, resps: seq<Response>, r: Response)
    requires NonEmpty(ps) && n < |ps|
    ensures Waiting(ps, m, n, input, output, resps) ==> Waiting(ps, m, n + 1, input, output, resps + [ResponseTo(ps, n)])
    ensures Consuming(ps, m, b, n, input, output, resps, r) ==> Consuming(ps, m, b, n + 1, input, output, resps + [ResponseTo(ps, n)], r)
  {
    assert Unfold(1) && Unfold(2);
    if m <= n {
      ResponsesNext(ps, m, n);
    }
    if m + 1 <= n {
      ResponsesNext(ps, m + 1, n);
    }
  }

  /** The lookup process: its registers, its input, and how many packets are in the table and how many were answered. */
  datatype Lookup = Lookup(state: LookupState, table: seq<Entry>, free: seq<nat>, counter: nat, mask: seq<bool>, session: nat, len: nat,
                           reqs: seq<Request>, looked: nat, answered: nat)

  /** The stream process, with `through` packets and `begun` words of the next one passed on. */
  datatype Stream = Stream(state: StreamState, input: seq<Word>, output: seq<OutWord>, resps: seq<Response>, r: Response,
                           through: nat, begun: nat)

  /** The lookup in any of its states. */
  ghost predicate Looking(ps: seq<Packet>, l: Lookup) {
    && NonEmpty(ps) && l.answered == l.looked + (if l.state == Update then 1 else 0) <= |ps| && Served(ps, l.answered)
    && (l.state == Setup ==> l.counter < DESTS == |l.table|)
    && forall u: nat {:trigger Unfold(u)} :: u == 9 && Unfold(u) ==>
      match l.state
      case Setup => l.looked == 0 && Clearing(ps, l.counter, l.table, l.free, l.reqs)
      case Req => AtPacket(ps, l.looked, l.table, l.free, l.reqs)
      case HitResp => OnPacket(ps, l.looked, l.table, l.free, l.reqs, l.session, l.len, true) && l.mask == Compare(l.table, l.session)
      case MissResp => OnPacket(ps, l.looked, l.table, l.free, l.reqs, l.session, l.len, false)
      case Update => Awaiting(ps, l.looked, l.table, l.free, l.reqs)
  }

  /** The stream process in either of its states, with `n` packets answered. */
  ghost predicate Streaming(ps: seq<Packet>, n: nat, s: Stream) {
    if s.state == WaitStream then s.begun == 0 && Waiting(ps, s.through, n, s.input, s.output, s.resps)
    else Consuming(ps, s.through, s.begun, n, s.input, s.output, s.resps, s.r)
  }

  /** The packets whose first word has been seen. */
  function Begun(s: Stream): nat {
    s.through + if s.begun > 0 then 1 else 0
  }

  function SetUpDone(l: Lookup): Lookup {
    var last := l.counter + 1 == DESTS;
    l.(state := if last then Req else Setup, counter := if last then 0 else l.counter + 1,
       table := if l.counter < |l.table| then l.table[l.counter := CLEAR] else l.table, free := l.free + [l.counter])
  }

  lemma {:induction false} SetUpStep(ps: seq<Packet>, l: Lookup)
    requires Looking(ps, l) && l.state == Setup
    ensures Looking(ps, SetUpDone(l))
  {
    assert Unfold(9);
    ClearOne(ps, l.counter, l.table, l.free, l.reqs);
  }

  function ReadDone(l: Lookup): Lookup
    requires l.reqs != []
  {
    var mask := Compare(l.table, l.reqs[0].session);
    l.(state := if NonZero(mask) then HitResp else MissResp, session := l.reqs[0].session, len := l.reqs[0].len,
       reqs := l.reqs[1..], mask := mask)
  }

  lemma {:induction false} ReadStep(ps: seq<Packet>, l: Lookup)
    requires Looking(ps, l) && l.state == Req && l.reqs != []
    ensures Looking(ps, ReadDone(l))
  {
    assert Unfold(9);
    TakeRequest(ps, l.looked, l.table, l.free, l.reqs);
  }

  /** The lookup after a hit on destination `d`. */
  function HitDone(l: Lookup, d: nat): Lookup
    requires d < |l.table|
  {
    var e := l.table[d];
    var last := e.rcvd + l.len >= e.total;
    l.(state := Req, looked := l.looked + 1, answered := l.answered + 1,
       table := if last then l.table[d := CLEAR] else l.table[d := e.(rcvd := e.rcvd + l.len)],
       free := if last then l.free + [d] else l.free)
  }

  function HitResponse(l: Lookup, d: nat): Response
    requires d < |l.table|
  {
    Response(true, l.table[d].rcvd + l.len >= l.table[d].total, d, Low16(l.len), Low16(l.session))
  }

  lemma {:induction false} HitKnown(ps: seq<Packet>, l: Lookup) returns (d: nat)
    requires Input(ps) && Looking(ps, l) && l.state == HitResp
    ensures d < DESTS == |l.table| == |l.mask| && OneHot(l.mask, d) && Looking(ps, HitDone(l, d))
    ensures l.looked == l.answered < |ps| && ResponseTo(ps, l.looked) == HitResponse(l, d)
  {
    HoldsRequest(ps, l);
    TakeHit(ps, l.looked, l.table, l.free, l.reqs, l.session, l.len);
    d := ResponseTo(ps, l.looked).dest;
    BackAtPacket(ps, HitDone(l, d));
  }

  lemma {:induction false} HoldsRequest(ps: seq<Packet>, l: Lookup)
    requires Looking(ps, l) && l.state == HitResp
    ensures OnPacket(ps, l.looked, l.table, l.free, l.reqs, l.session, l.len, true) && l.mask == Compare(l.table, l.session)
  {
    assert Unfold(9);
  }

  lemma {:induction false} BackAtPacket(ps: seq<Packet>, l: Lookup)
    requires l.state == Req && l.answered == l.looked && AtPacket(ps, l.looked, l.table, l.free, l.reqs) && Served(ps, l.looked)
    ensures Looking(ps, l)
  {
  }

  /** What one call of the lookup does on a hit, for both processes. */
  lemma {:induction false} HitStep(ps: seq<Packet>, l: Lookup, s: Stream, upd: seq<Upd>) returns (d: nat)
    requires Input(ps) && Looking(ps, l) && l.state == HitResp
    requires Updates(ps, false, l.looked, Begun(s), upd) && Streaming(ps, l.answered, s)
    ensures d < DESTS == |l.table| == |l.mask| && OneHot(l.mask, d)
    ensures Looking(ps, HitDone(l, d)) && Streaming(ps, l.answered + 1, s.(resps := s.resps + [HitResponse(l, d)]))
    ensures Updates(ps, false, l.looked + 1, Begun(s), upd)
  {
    d := HitKnown(ps, l);
    Answered(ps, s.through, s.begun, l.looked, s.input, s.output, s.resps, s.r);
    UpdatesOn(ps, l.looked, Begun(s), upd);
  }

  function MissDone(l: Lookup): Lookup
    requires l.free != []
  {
    l.(state := Update, free := l.free[1..], answered := l.answered + 1)
  }

  function MissResponse(l: Lookup): Response
    requires l.free != []
  {
    Response(false, false, l.free[0], Low16(l.len), Low16(l.session))
  }

  lemma {:induction false} MissStep(ps: seq<Packet>, l: Lookup, s: Stream, upd: seq<Upd>)
    requires Input(ps) && Looking(ps, l) && l.state == MissResp && l.free != []
    requires Updates(ps, false, l.looked, Begun(s), upd) && Streaming(ps, l.answered, s)
    ensures Looking(ps, MissDone(l)) && Streaming(ps, l.answered + 1, s.(resps := s.resps + [MissResponse(l)]))
    ensures Updates(ps, true, l.looked, Begun(s), upd)
  {
    assert Unfold(9);
    TakeMiss(ps, l.looked, l.table, l.free, l.reqs, l.session, l.len);
    Answered(ps, s.through, s.begun, l.looked, s.input, s.output, s.resps, s.r);
    ResponseFields(ps, l.looked);
    UpdatesOn(ps, l.looked, Begun(s), upd);
  }

  /** The lookup after the update of a message that is longer than its first packet, or not. */
  function UpdateDone(l: Lookup, upd: Upd): Lookup
    requires upd.dest < |l.table|
  {
    var single := upd.len >= upd.size;
    l.(state := Req, looked := l.looked + 1, session := upd.session, len := upd.len,
       table := if single then l.table[upd.dest := CLEAR] else l.table[upd.dest := Entry(true, upd.session, upd.size, upd.len)],
       free := if single then l.free + [upd.dest] else l.free)
  }

  lemma {:induction false} UpdateStep(ps: seq<Packet>, l: Lookup, begun: nat, upds: seq<Upd>)
    requires Looking(ps, l) && l.state == Update && Updates(ps, true, l.looked, begun, upds) && upds != []
    ensures upds[0].dest < |l.table| && Looking(ps, UpdateDone(l, upds[0])) && Updates(ps, false, l.looked + 1, begun, upds[1..])
  {
    assert Unfold(9);
    UpdateIs(ps, l.looked, begun, upds);
    TakeUpd(ps, l.looked, l.table, l.free, l.reqs, upds[0]);
  }

  /** The stream process after one more word, on its way under response `r`. */
  function WordDone(s: Stream, r: Response): Stream
    requires s.input != []
  {
    var last := s.input[0].last;
    s.(input := s.input[1..], output := s.output + [OutOf(s.input[0], r)],
       state := if last then WaitStream else Consume, r := r,
       through := if last then s.through + 1 else s.through, begun := if last then 0 else s.begun + 1)
  }

  /** What one call of the stream process does at the first word of a packet. */
  lemma {:induction false} FirstStep(ps: seq<Packet>, waits: bool, looked: nat, upds: seq<Upd>, n: nat, s: Stream)
    requires Input(ps) && Streaming(ps, n, s) && s.state == WaitStream && s.resps != [] && s.input != []
    requires Updates(ps, waits, looked, Begun(s), upds) && n == looked + (if waits then 1 else 0)
    ensures s.begun == 0 && Streaming(ps, n, WordDone(s.(resps := s.resps[1..]), s.resps[0]))
    ensures var r := s.resps[0];
      Updates(ps, waits, looked, s.through + 1, if r.hit then upds else upds + [Upd(r.dest, r.session, r.len, MessageSize(s.input[0]))])
  {
    First(ps, s.through, n, s.input, s.output, s.resps);
    UpdatesFirst(ps, waits, looked, s.through, upds, s.input[0]);
  }

  lemma {:induction false} NextStep(ps: seq<Packet>, n: nat, s: Stream)
    requires Input(ps) && Streaming(ps, n, s) && s.state == Consume && s.input != []
    ensures s.begun > 0 && Streaming(ps, n, WordDone(s, s.r))
  {
    Next(ps, s.through, s.begun, n, s.input, s.output, s.resps, s.r);
  }

  /** The chain of tests on the mask: the register keeps its value if none succeeds. */
  method DecodeMask(mask: seq<bool>, was: nat, ghost d: nat) returns (dest: nat)
    requires |mask| == DESTS && OneHot(mask, d)
    ensures dest == d
  {
    dest := was;
    var i := 0;
    while i < DESTS
      invariant i <= DESTS && (d < i ==> dest == d)
    {
      if OneHot(mask, i) {
        dest := i;
      }
      i := i + 1;
    }
  }

  class Mux {
    // The lookup process; `dest` is a register that only passes values on.
    var lookupState: LookupState
    var table: seq<Entry>
    var freeDest: seq<nat>
    var counter: nat
    var mask: seq<bool>
    var dest: nat
    var session: nat
    var pktLen: nat
    var lookupReq: seq<Request>

    // The FIFOs between the processes.
    var lookupResp: seq<Response>
    var lookupUpd: seq<Upd>

    // The stream process.
    var streamState: StreamState
    var resp: Response
    var input: seq<Word>
    var output: seq<OutWord>

    // All packets; how many the table has taken in, how many were answered, and how many are through, with `begun` words
    // of the next one. With the invariant, these four numbers and the two states fix everything else.
    ghost const packets: seq<Packet>
    ghost var looked: nat
    ghost var answered: nat
    ghost var through: nat
    ghost var begun: nat

    ghost function LookupNow(): Lookup
      reads `lookupState, `table, `freeDest, `counter, `mask, `session, `pktLen, `lookupReq, `looked, `answered
    {
      Lookup(lookupState, table, freeDest, counter, mask, session, pktLen, lookupReq, looked, answered)
    }

    ghost function StreamNow(): Stream
      reads `streamState, `begun, `input, `output, `lookupResp, `resp, `through
    {
      Stream(streamState, input, output, lookupResp, resp, through, begun)
    }

    ghost predicate Valid()
      reads this
    {
      && Input(packets)
      && Looking(packets, LookupNow()) && Streaming(packets, answered, StreamNow())
      && Updates(packets, lookupState == Update, looked, Begun(StreamNow()), lookupUpd)
    }

    constructor (ghost packets: seq<Packet>, requests: seq<Request>, words: seq<Word>, table: seq<Entry>)
      requires Input(packets) && requests == Requests(packets, 0) && words == Words(packets, 0) && |table| == DESTS
      ensures Valid() && this.packets == packets && output == []
    {
      lookupState, this.table, freeDest, counter := Setup, table, [], 0;
      mask, dest, session, pktLen, lookupReq := [], 0, 0, 0, requests;
      lookupResp, lookupUpd := [], [];
      streamState, resp, input, output := WaitStream, Response(false, false, 0, 0, 0), words, [];
      this.packets, looked, answered, through, begun := packets, 0, 0, 0, 0;
      ClearNone(packets, table, requests);
    }

    /** `IDLE`: fills the free list and clears the table. */
    method SetUp()
      requires lookupState == Setup && counter < |table|
      modifies `lookupState, `table, `freeDest, `counter
      ensures LookupNow() == SetUpDone(old(LookupNow()))
    {
      freeDest := freeDest + [counter];
      table := table[counter := CLEAR];
      counter := counter + 1;
      if counter == DESTS {
        counter := 0;
        lookupState := Req;
      }
    }

    /** `REQ`: compares the session of the next packet with all entries. */
    method ReadRequest()
      requires lookupState == Req && lookupReq != []
      modifies `lookupState, `mask, `session, `pktLen, `lookupReq
      ensures LookupNow() == ReadDone(old(LookupNow()))
    {
      session, pktLen := lookupReq[0].session, lookupReq[0].len;
      lookupReq := lookupReq[1..];
      mask := Compare(table, session);
      lookupState := if NonZero(mask) then HitResp else MissResp;
    }

    /** `HIT_RESP`: the packet continues a message; its last packet gives the destination back. */
    method RespondHit(ghost d: nat)
      requires lookupState == HitResp && d < DESTS == |table| == |mask| && OneHot(mask, d)
      modifies `lookupState, `table, `freeDest, `dest, `lookupResp, `looked, `answered
      ensures LookupNow() == HitDone(old(LookupNow()), d) && lookupResp == old(lookupResp) + [HitResponse(old(LookupNow()), d)]
    {
      dest := DecodeMask(mask, dest, d);
      var e := table[dest];
      var last := e.rcvd + pktLen >= e.total;
      lookupResp := lookupResp + [Response(true, last, dest, Low16(pktLen), Low16(session))];
      if last {
        table, freeDest := table[dest := CLEAR], freeDest + [dest];
      } else {
        table := table[dest := e.(rcvd := e.rcvd + pktLen)];
      }
      looked, answered, lookupState := looked + 1, answered + 1, Req;
    }

    /** `MISS_RESP`: the packet begins a message. */
    method RespondMiss()
      requires lookupState == MissResp && freeDest != []
      modifies `lookupState, `freeDest, `dest, `lookupResp, `answered
      ensures LookupNow() == MissDone(old(LookupNow())) && lookupResp == old(lookupResp) + [MissResponse(old(LookupNow()))]
    {
      dest, freeDest := freeDest[0], freeDest[1..];
      lookupResp := lookupResp + [Response(false, false, dest, Low16(pktLen), Low16(session))];
      answered, lookupState := answered + 1, Update;
    }

    /** `UPDATE`: enters the new message in the table, unless it ends with its first packet. */
    method TakeUpdate()
      requires lookupState == Update && lookupUpd != [] && lookupUpd[0].dest < |table|
      modifies `lookupState, `table, `freeDest, `dest, `session, `pktLen, `lookupUpd, `looked
      ensures LookupNow() == UpdateDone(old(LookupNow()), old(lookupUpd)[0]) && lookupUpd == old(lookupUpd)[1..]
    {
      var upd := lookupUpd[0];
      lookupUpd := lookupUpd[1..];
      dest, pktLen, session := upd.dest, upd.len, upd.session;
      if pktLen >= upd.size {
        table, freeDest := table[dest := CLEAR], freeDest + [dest];
      } else {
        table := table[dest := Entry(true, session, upd.size, pktLen)];
      }
      looked, lookupState := looked + 1, Req;
    }

    /** The lookup does not wait for a request, a destination or an update. */
    predicate CanLook()
      reads `lookupState, `lookupReq, `freeDest, `lookupUpd
    {
      match lookupState
      case Setup => true
      case Req => lookupReq != []
      case HitResp => true
      case MissResp => freeDest != []
      case Update => lookupUpd != []
    }

    /** The stream process does not wait for a response or a word. */
    predicate CanStream()
      reads `streamState, `lookupResp, `input
    {
      input != [] && (streamState == WaitStream ==> lookupResp != [])
    }

    /** What the lookup has still to do, in calls. */
    ghost function LookupWork(): int
      reads `lookupState, `counter, `lookupReq
    {
      3 * |lookupReq| + match lookupState
                        case Setup => DESTS + 1 - counter
                        case Req => 0
                        case HitResp => 1
                        case MissResp => 2
                        case Update => 1
    }

    method ClearNext()
      requires Valid() && lookupState == Setup
      modifies `lookupState, `table, `freeDest, `counter
      ensures Valid() && 0 <= LookupWork() < old(LookupWork())
    {
      SetUpStep(packets, LookupNow());
      SetUp();
    }

    method AskTable()
      requires Valid() && lookupState == Req && lookupReq != []
      modifies `lookupState, `mask, `session, `pktLen, `lookupReq
      ensures Valid() && 0 <= LookupWork() < old(LookupWork())
    {
      ReadStep(packets, LookupNow());
      ReadRequest();
    }

    method EnterMessage()
      requires Valid() && lookupState == Update && lookupUpd != []
      modifies `lookupState, `table, `freeDest, `dest, `session, `pktLen, `lookupUpd, `looked
      ensures Valid() && lookupState == Req && looked == old(looked) + 1
    {
      UpdateStep(packets, LookupNow(), Begun(StreamNow()), lookupUpd);
      TakeUpdate();
    }

    method AnswerHit()
      requires Valid() && lookupState == HitResp
      modifies `lookupState, `table, `freeDest, `dest, `lookupResp, `looked, `answered
      ensures Valid() && answered == old(answered) + 1 && lookupState == Req
    {
      ghost var l, s := LookupNow(), StreamNow();
      ghost var d := HitStep(packets, l, s, lookupUpd);
      RespondHit(d);
      assert StreamNow() == s.(resps := s.resps + [HitResponse(l, d)]);
    }

    method AnswerMiss()
      requires Valid() && lookupState == MissResp && freeDest != []
      modifies `lookupState, `freeDest, `dest, `lookupResp, `answered
      ensures Valid() && answered == old(answered) + 1 && lookupState == Update
    {
      ghost var l, s := LookupNow(), StreamNow();
      MissStep(packets, l, s, lookupUpd);
      RespondMiss();
      assert StreamNow() == s.(resps := s.resps + [MissResponse(l)]);
    }

    /** `session_dest_lookup`: one call. */
    method SessionDestLookup()
      requires Valid()
      modifies `lookupState, `table, `freeDest, `counter, `mask, `dest, `session, `pktLen, `lookupReq, `lookupResp, `lookupUpd, `looked, `answered
      ensures Valid()
      ensures if old(CanLook()) then 0 <= LookupWork() < old(LookupWork()) else unchanged(this)
    {
      match lookupState
      case Setup =>
        ClearNext();
      case Req =>
        if lookupReq != [] {
          AskTable();
        }
      case HitResp =>
        AnswerHit();
      case MissResp =>
        if freeDest != [] {
          AnswerMiss();
        }
      case Update =>
        if lookupUpd != [] {
          EnterMessage();
        }
    }

    /** `WAIT_STREAM`: the first word of a packet, whose response must be there. */
    method FirstWord()
      requires streamState == WaitStream && lookupResp != [] && input != [] && begun == 0
      modifies `streamState, `lookupResp, `lookupUpd, `resp, `input, `output, `through, `begun
      ensures StreamNow() == WordDone(old(StreamNow()).(resps := old(lookupResp)[1..]), old(lookupResp)[0])
      ensures var r := old(lookupResp)[0];
        lookupUpd == if r.hit then old(lookupUpd) else old(lookupUpd) + [Upd(r.dest, r.session, r.len, MessageSize(old(input)[0]))]
    {
      var word := input[0];
      resp, lookupResp, input := lookupResp[0], lookupResp[1..], input[1..];
      if !resp.hit {
        lookupUpd := lookupUpd + [Upd(resp.dest, resp.session, resp.len, MessageSize(word))];
      }
      output := output + [OutWord(word.data, word.keep, word.last && resp.isLast, resp.dest)];
      if word.last {
        through := through + 1;
      } else {
        begun, streamState := 1, Consume;
      }
    }

    /** `CONSUME`: one more word of the packet. */
    method NextWord()
      requires streamState == Consume && input != []
      modifies `streamState, `input, `output, `through, `begun
      ensures StreamNow() == WordDone(old(StreamNow()), resp)
    {
      var word := input[0];
      input := input[1..];
      output := output + [OutWord(word.data, word.keep, word.last && resp.isLast, resp.dest)];
      if word.last {
        through, begun, streamState := through + 1, 0, WaitStream;
      } else {
        begun := begun + 1;
      }
    }

    method PassFirst()
      requires Valid() && streamState == WaitStream && lookupResp != [] && input != []
      modifies `streamState, `lookupResp, `lookupUpd, `resp, `input, `output, `through, `begun
      ensures Valid() && input == old(input)[1..]
    {
      FirstStep(packets, lookupState == Update, looked, lookupUpd, answered, StreamNow());
      FirstWord();
    }

    method PassNext()
      requires Valid() && streamState == Consume && input != []
      modifies `streamState, `input, `output, `through, `begun
      ensures Valid() && input == old(input)[1..]
    {
      NextStep(packets, answered, StreamNow());
      NextWord();
    }

    /** `procStream`: one call. */
    method ProcStream()
      requires Valid()
      modifies `streamState, `lookupResp, `lookupUpd, `resp, `input, `output, `through, `begun
      ensures Valid()
      ensures if old(CanStream()) then input == old(input)[1..] else unchanged(this)
    {
      match streamState
      case WaitStream =>
        if lookupResp != [] && input != [] {
          PassFirst();
        }
      case Consume =>
        if input != [] {
          PassNext();
        }
    }

    /**
     Any interleaving of the two processes comes to an end, and has then written exactly the reference output, up to the
     first packet that begins a message while all destinations are taken: there the lookup waits for ever, since only
     packets behind that one could give a destination back. On the way the output is a front of this, by `WritesReference`.
     */
    method Run()
      requires Valid()
      modifies this
      ensures Valid() && output == Output(packets, Reach(packets, 0))
      ensures |output| == WordsBefore(packets, Reach(packets, 0)) && AreOutWords(packets, output, Reach(packets, 0))
      ensures forall d :: 0 <= d < 8 ==> Contents(OnDest(output, d)) == PacketsOn(packets, output, Reach(packets, 0), d)
      ensures Served(packets, |packets|) ==>
        output == Output(packets, |packets|) && input == [] && lookupReq == [] && lookupResp == [] && lookupUpd == []
    {
      WorkLeft();
      while CanLook() || CanStream()
        invariant Valid() && LookupWork() >= 0
        decreases LookupWork() + |input|
      {
        var lookupFirst: bool := *;
        if CanLook() && (lookupFirst || !CanStream()) {
          SessionDestLookup();
        } else {
          ProcStream();
        }
      }
      WritesReference();
      ReachesAllIff(packets);
      OutputLength(packets, Reach(packets, 0));
      forall d | 0 <= d < 8 ensures Contents(OnDest(output, d)) == PacketsOn(packets, output, Reach(packets, 0), d) {
        DestinationWords(packets, Reach(packets, 0), d);
      }
    }

    /** A miss waits if and only if its packet cannot be served. */
    lemma {:induction false} WaitsForDestination()
      requires Valid() && lookupState == MissResp
      ensures looked < |packets| && (CanLook() <==> CanServe(After(packets, looked), packets[looked]))
    {
      assert Unfold(5) && Unfold(9);
      ResponseFields(packets, looked);
    }

    /** The destination taken off the free list for a message that is not yet in the table. */
    ghost function Held(): seq<nat>
      requires Valid()
      reads this
    {
      if lookupState == Update then [ResponseTo(packets, looked).dest] else []
    }

    /**
     Once the table is set up, every destination is on the free list, held, or that of one valid entry: the free list and
     the one held are without repetition, the entries are of distinct sessions.
     */
    lemma {:induction false} DestinationsSplit()
      requires Valid() && lookupState != Setup
      ensures Sound(Table(table, Held() + freeDest))
    {
      assert Unfold(4) && Unfold(5) && Unfold(6) && Unfold(9);
      AfterIsSound(packets, looked);
    }

    lemma {:induction false} WorkLeft()
      requires Valid()
      ensures LookupWork() >= 0
    {
    }

    /** At every moment the output is a front of the reference output, and all of it once neither process can move. */
    lemma {:induction false} WritesReference()
      requires Valid()
      ensures output <= Output(packets, Reach(packets, 0)) && AreOutWords(packets, output, Reach(packets, 0))
      ensures !CanLook() && !CanStream() ==> output == Output(packets, Reach(packets, 0))
      ensures !CanLook() && !CanStream() && Reach(packets, 0) == |packets| ==> input == [] && lookupReq == [] && lookupResp == [] && lookupUpd == []
    {
      ReachIs(packets, 0, answered);
      if streamState == WaitStream {
        WaitingPrefix(packets, through, answered, Reach(packets, 0), input, output, lookupResp);
      } else {
        ConsumingPrefix(packets, through, begun, answered, Reach(packets, 0), input, output, lookupResp, resp);
      }
      if !CanLook() && !CanStream() {
        if lookupState == MissResp {
          WaitsForDestination();
        }
        AllThrough();
        ReachIs(packets, 0, looked);
      }
      WordsAreMarked();
      ServedToReach(packets, 0);
      FrontIsWords(packets, Reach(packets, 0), output);
    }

    lemma {:induction false} WordsAreMarked()
      requires Valid()
      ensures Marked(packets)
    {
      assert Unfold(7);
      forall k | 0 <= k < |packets| ensures MarkedPacket(packets[k]) {
        assert Framed(packets[k]);
      }
    }

    /** When neither process can move, all packets answered are through, and the next one, if any, cannot be served. */
    lemma {:induction false} AllThrough()
      requires Valid() && !CanLook() && !CanStream()
      ensures looked == answered && output == Output(packets, looked)
      ensures lookupState != MissResp ==> looked == |packets| && input == [] && lookupReq == [] && lookupResp == [] && lookupUpd == []
    {
      assert Unfold(1) && Unfold(3) && Unfold(4) && Unfold(5) && Unfold(6) && Unfold(9);
      if streamState == Consume {
        Next(packets, through, begun, answered, input, output, lookupResp, resp);
      }
      assert through < |packets| ==> input != [];
    }
  }

  lemma {:induction false} WaitingPrefix(ps: seq<Packet>, m: nat, n: nat, end: nat, input: seq<Word>, output: seq<OutWord>, resps: seq<Response>)
    requires Waiting(ps, m, n, input, output, resps) && n <= end <= |ps|
    ensures output <= Output(ps, end)
  {
    assert Unfold(1);
    OutputGrows(ps, m, end);
  }

  lemma {:induction false} ConsumingPrefix(ps: seq<Packet>, m: nat, b: nat, n: nat, end: nat, input: seq<Word>, output: seq<OutWord>, resps: seq<Response>, r: Response)
    requires Consuming(ps, m, b, n, input, output, resps, r) && n <= end <= |ps|
    ensures output <= Output(ps, end)
  {
    assert Unfold(2);
    PartPrefix(ps, m, b, end, r);
  }

  lemma {:induction false} PartPrefix(ps: seq<Packet>, m: nat, b: nat, end: nat, r: Response)
    requires NonEmpty(ps) && m < end <= |ps| && b <= |ps[m].words| && r == ResponseTo(ps, m)
    ensures Output(ps, m) + OutWords(ps[m].words[..b], r) <= Output(ps, end)
  {
    PacketPrefix(ps, m, b, r);
    OutputGrows(ps, m + 1, end);
    PrefixOfPrefix(Output(ps, m) + OutWords(ps[m].words[..b], r), Output(ps, m + 1), Output(ps, end));
  }

  lemma {:induction false} PrefixOfPrefix<A>(a: seq<A>, b: seq<A>, c: seq<A>)
    requires a <= b <= c
    ensures a <= c
  {
  }

  lemma {:induction false} PacketPrefix(ps: seq<Packet>, m: nat, b: nat, r: Response)
    requires NonEmpty(ps) && m < |ps| && b <= |ps[m].words| && r == ResponseTo(ps, m)
    ensures Output(ps, m) + OutWords(ps[m].words[..b], r) <= Output(ps, m + 1)
  {
    var done, part, whole := Output(ps, m), OutWords(ps[m].words[..b], r), OutWords(ps[m].words, r);
    assert whole[..b] == part;
    assert Output(ps, m + 1) == done + whole;
    assert (done + whole)[..|done| + b] == done + part;
  }

  lemma {:induction false} OutputGrows(ps: seq<Packet>, m: nat, n: nat)
    requires NonEmpty(ps) && m <= n <= |ps|
    ensures Output(ps, m) <= Output(ps, n)
  {
    if m < n {
      OutputGrows(ps, m, n - 1);
    }
  }
}
