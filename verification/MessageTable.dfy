/**
 The session table of the packet multiplexor, packet by packet. Packets of many sessions arrive interleaved on one stream;
 each message is to leave on one of eight destinations, and a destination carries one message at a time. The message size
 is in the first word of the message's first packet.
 */
module MessageTable {
  import opened Wrappers
  import opened Framing
  import TxHandler

  const DESTS := 8

  datatype Packet = Packet(session: nat, len: nat, words: seq<Word>)

  /** The size of the message a word is the first word of: header and payload, a 32-bit sum of two header fields. */
  function MessageSize(w: Word): nat {
    (w.data[1] + w.data[5]) % 0x1_0000_0000
  }

  /** In a header word of the packetizers that sum is made of the tag and a field they do not set; the length is not in it. */
  lemma {:induction false} SizeMissesLength(m: Message, junk: Data, keep: nat, last: bool)
    ensures MessageSize(Word(HeaderWord(m, junk), keep, last)) == (m.tag + junk[5]) % 0x1_0000_0000
    ensures forall length: nat :: MessageSize(Word(HeaderWord(m.(length := length), junk), keep, last)) == MessageSize(Word(HeaderWord(m, junk), keep, last))
  {
  }

  /** A message of 8 bytes with tag 3, 72 bytes with its header: with a cleared register behind it its size is read as 3. */
  lemma {:induction false} SizeMisread()
    ensures var zero := [0, 0, 0, 0, 0, 0, 0, 0, 0, 0, 0, 0, 0, 0, 0, 0];
      MessageSize(Word(HeaderWord(Message(8, 3, 0, 1), zero), WHOLE, false)) == 3 != 8 + TxHandler.WORD_BYTES
  {
  }

  datatype Entry = Entry(valid: bool, session: nat, total: nat, rcvd: nat)

  const CLEAR := Entry(false, 0, 0, 0)

  datatype Table = Table(entries: seq<Entry>, free: seq<nat>)

  const START := Table([CLEAR, CLEAR, CLEAR, CLEAR, CLEAR, CLEAR, CLEAR, CLEAR], [0, 1, 2, 3, 4, 5, 6, 7])

  /** What the lookup tells the stream process about a packet. */
  datatype Response = Response(hit: bool, isLast: bool, dest: nat, len: nat, session: nat)

  predicate Holds(es: seq<Entry>, d: nat, session: nat) {
    d < |es| && es[d].valid && es[d].session == session
  }

  function Find(es: seq<Entry>, session: nat, from: nat): (r: Option<nat>)
    ensures r.Some? ==> from <= r.value && Holds(es, r.value, session)
    ensures r.None? ==> forall d: nat :: from <= d ==> !Holds(es, d, session)
    decreases |es| - from
  {
    if from >= |es| then None else if Holds(es, from, session) then Some(from) else Find(es, session, from + 1)
  }

  /** Serving one packet. A packet of a new message that finds no destination free is not served. */
  function Serve(t: Table, p: Packet): (Table, Response)
    requires |t.entries| == DESTS && p.words != [] && forall k :: 0 <= k < |t.free| ==> t.free[k] < DESTS
  {
    match Find(t.entries, p.session, 0)
    case Some(d) =>
      var e := t.entries[d];
      if e.rcvd + p.len >= e.total then
        (Table(t.entries[d := CLEAR], t.free + [d]), Response(true, true, d, p.len, p.session))
      else
        (t.(entries := t.entries[d := e.(rcvd := e.rcvd + p.len)]), Response(true, false, d, p.len, p.session))
    case None =>
      if t.free == [] then (t, Response(false, false, 0, p.len, p.session)) else
      var d := t.free[0];
      var size := MessageSize(p.words[0]);
      (if p.len >= size then Table(t.entries[d := CLEAR], t.free[1..] + [d])
       else Table(t.entries[d := Entry(true, p.session, size, p.len)], t.free[1..]),
       Response(false, false, d, p.len, p.session))
  }

  predicate CanServe(t: Table, p: Packet) {
    Find(t.entries, p.session, 0).Some? || t.free != []
  }

  predicate Shaped(t: Table) {
    |t.entries| == DESTS && forall k :: 0 <= k < |t.free| ==> t.free[k] < DESTS
  }

  /** The destinations are split between the free list, without repetition, and the entries, of distinct sessions. */
  ghost predicate Sound(t: Table) {
    && Shaped(t)
    && (forall j, k :: 0 <= j < k < |t.free| ==> t.free[j] != t.free[k])
    && (forall d: nat :: d < DESTS ==> (d in t.free <==> !t.entries[d].valid))
    && (forall c: nat, d: nat :: c < d < DESTS && t.entries[c].valid && t.entries[d].valid ==> t.entries[c].session != t.entries[d].session)
    && (forall d: nat :: d < DESTS && t.entries[d].valid ==> t.entries[d].rcvd < t.entries[d].total)
  }

  lemma {:induction false} StartIsSound()
    ensures Sound(START)
  {
  }

  lemma {:induction false} Close(t: Table, d: nat)
    requires Sound(t) && d < DESTS && t.entries[d].valid
    ensures Sound(Table(t.entries[d := CLEAR], t.free + [d]))
  {
    assert d !in t.free;
    forall c: nat | c < DESTS ensures c in t.free + [d] <==> c in t.free || c == d {
    }
  }

  lemma {:induction false} FirstFree(t: Table)
    requires Sound(t) && t.free != []
    ensures t.free[0] < DESTS && !t.entries[t.free[0]].valid && t.free[0] !in t.free[1..]
    ensures forall c: nat :: c in t.free[1..] <==> c in t.free && c != t.free[0]
  {
    var d := t.free[0];
    assert d in t.free;
    forall c: nat ensures c in t.free[1..] <==> c in t.free && c != d {
      if c in t.free && c != d {
        var k :| 0 <= k < |t.free| && t.free[k] == c;
        assert t.free[1..][k - 1] == c;
      }
    }
  }

  lemma {:induction false} Reuse(t: Table)
    requires Sound(t) && t.free != []
    ensures Sound(Table(t.entries[t.free[0] := CLEAR], t.free[1..] + [t.free[0]]))
  {
    FirstFree(t);
    var f := t.free[1..] + [t.free[0]];
    forall c: nat | c < DESTS ensures c in f <==> c in t.free {
    }
  }

  lemma {:induction false} Open(t: Table, e: Entry)
    requires Sound(t) && t.free != [] && e.valid && e.rcvd < e.total && Find(t.entries, e.session, 0).None?
    ensures Sound(Table(t.entries[t.free[0] := e], t.free[1..]))
  {
    FirstFree(t);
    var es := t.entries[t.free[0] := e];
    forall c: nat, d: nat | c < d < DESTS && es[c].valid && es[d].valid ensures es[c].session != es[d].session {
      assert !Holds(t.entries, c, e.session) && !Holds(t.entries, d, e.session);
    }
  }

  lemma {:induction false} ServeKeepsSound(t: Table, p: Packet)
    requires Sound(t) && p.words != [] && CanServe(t, p)
    ensures Sound(Serve(t, p).0)
  {
    match Find(t.entries, p.session, 0) {
      case Some(d) =>
        if t.entries[d].rcvd + p.len >= t.entries[d].total {
          Close(t, d);
        }
      case None =>
        var size := MessageSize(p.words[0]);
        if p.len >= size {
          Reuse(t);
        } else {
          Open(t, Entry(true, p.session, size, p.len));
        }
    }
  }

  ghost predicate NonEmpty(ps: seq<Packet>) {
    forall k :: 0 <= k < |ps| ==> ps[k].words != []
  }

  /** The table after the first `n` packets, served one by one in the order of their arrival. */
  ghost function After(ps: seq<Packet>, n: nat): (t: Table)
    requires NonEmpty(ps) && n <= |ps|
    ensures Shaped(t)
  {
    if n == 0 then START else
      ServeShapes(After(ps, n - 1), ps[n - 1]);
      Serve(After(ps, n - 1), ps[n - 1]).0
  }

  lemma {:induction false} ServeShapes(t: Table, p: Packet)
    requires Shaped(t) && p.words != []
    ensures Shaped(Serve(t, p).0) && Serve(t, p).1.dest < DESTS
  {
  }

  /** What the lookup says about packet `k`. */
  ghost function ResponseTo(ps: seq<Packet>, k: nat): Response
    requires NonEmpty(ps) && k < |ps|
  {
    Serve(After(ps, k), ps[k]).1
  }

  /** None of the first `n` packets finds all destinations taken. */
  ghost predicate Served(ps: seq<Packet>, n: nat)
    requires NonEmpty(ps) && n <= |ps|
  {
    forall k: nat {:trigger CanServe(After(ps, k), ps[k])} :: k < n ==> CanServe(After(ps, k), ps[k])
  }

  /** How many packets are served before one finds all destinations taken, counting from `k`. */
  ghost function Reach(ps: seq<Packet>, k: nat): (n: nat)
    requires NonEmpty(ps) && k <= |ps|
    ensures k <= n <= |ps|
    decreases |ps| - k
  {
    if k == |ps| || !CanServe(After(ps, k), ps[k]) then k else Reach(ps, k + 1)
  }

  lemma {:induction false} ReachIs(ps: seq<Packet>, k: nat, n: nat)
    requires NonEmpty(ps) && k <= n <= |ps| && Served(ps, n)
    ensures n <= Reach(ps, k)
    ensures n == |ps| || !CanServe(After(ps, n), ps[n]) ==> n == Reach(ps, k)
    decreases |ps| - k
  {
    if k < n {
      assert CanServe(After(ps, k), ps[k]);
      ReachIs(ps, k + 1, n);
    }
  }

  lemma {:induction false} ServedToReach(ps: seq<Packet>, k: nat)
    requires NonEmpty(ps) && k <= |ps| && Served(ps, k)
    ensures Served(ps, Reach(ps, k))
    decreases |ps| - k
  {
    if k < |ps| && CanServe(After(ps, k), ps[k]) {
      ServedToReach(ps, k + 1);
    }
  }

  /** All packets are served if and only if none finds all destinations taken. */
  lemma {:induction false} ReachesAllIff(ps: seq<Packet>)
    requires NonEmpty(ps)
    ensures Reach(ps, 0) == |ps| <==> Served(ps, |ps|)
  {
    ServedToReach(ps, 0);
    if Served(ps, |ps|) {
      ReachIs(ps, 0, |ps|);
    }
  }

  lemma {:induction false} AfterIsSound(ps: seq<Packet>, n: nat)
    requires NonEmpty(ps) && n <= |ps| && Served(ps, n)
    ensures Sound(After(ps, n))
  {
    if n == 0 {
      StartIsSound();
    } else {
      AfterIsSound(ps, n - 1);
      assert CanServe(After(ps, n - 1), ps[n - 1]);
      ServeKeepsSound(After(ps, n - 1), ps[n - 1]);
    }
  }

  /** ---- What each session sees ---- */

  datatype Progress = Between | Within(size: nat, got: nat)

  function Onward(g: Progress, p: Packet): Progress
    requires p.words != []
  {
    match g
    case Between => if p.len >= MessageSize(p.words[0]) then Between else Within(MessageSize(p.words[0]), p.len)
    case Within(size, got) => if got + p.len >= size then Between else Within(size, got + p.len)
  }

  /** Where a session stands after the first `n` packets, judged by its own packets alone. */
  ghost function SessionAt(ps: seq<Packet>, n: nat, session: nat): Progress
    requires NonEmpty(ps) && n <= |ps|
  {
    if n == 0 then Between else
      var g := SessionAt(ps, n - 1, session);
      if ps[n - 1].session == session then Onward(g, ps[n - 1]) else g
  }

  ghost function EntryOf(es: seq<Entry>, session: nat): Progress {
    match Find(es, session, 0)
    case Some(d) => Within(es[d].total, es[d].rcvd)
    case None => Between
  }

  lemma {:induction false} OnlyEntry(t: Table, d: nat, session: nat)
    requires Sound(t) && d < DESTS && Holds(t.entries, d, session)
    ensures Find(t.entries, session, 0) == Some(d)
  {
    var c := Find(t.entries, session, 0).value;
    assert c == d;
  }

  lemma {:induction false} ServeOwn(t: Table, p: Packet)
    requires Sound(t) && p.words != [] && CanServe(t, p)
    ensures EntryOf(Serve(t, p).0.entries, p.session) == Onward(EntryOf(t.entries, p.session), p)
  {
    ServeKeepsSound(t, p);
    var u := Serve(t, p).0;
    var r := Find(u.entries, p.session, 0);
    match Find(t.entries, p.session, 0) {
      case Some(d) =>
        if Holds(u.entries, d, p.session) {
          OnlyEntry(u, d, p.session);
        } else if r.Some? {
          OnlyEntry(t, r.value, p.session);
          assert false;
        }
      case None =>
        FirstFree(t);
        if Holds(u.entries, t.free[0], p.session) {
          OnlyEntry(u, t.free[0], p.session);
        } else {
          assert r.Some? ==> Holds(t.entries, r.value, p.session);
        }
    }
  }

  lemma {:induction false} ServeOther(t: Table, p: Packet, session: nat)
    requires Sound(t) && p.words != [] && CanServe(t, p) && session != p.session
    ensures EntryOf(Serve(t, p).0.entries, session) == EntryOf(t.entries, session)
  {
    ServeKeepsSound(t, p);
    var u, hit := Serve(t, p).0, Find(t.entries, p.session, 0);
    if hit.None? { FirstFree(t); }
    var changed := if hit.Some? then hit.value else t.free[0];
    assert forall d: nat :: d < DESTS && d != changed ==> u.entries[d] == t.entries[d];
    assert !Holds(t.entries, changed, session) && !Holds(u.entries, changed, session);
    match Find(t.entries, session, 0) {
      case Some(c) => OnlyEntry(u, c, session);
      case None =>
        forall d: nat ensures !Holds(u.entries, d, session) {
          assert d < DESTS && d != changed ==> !Holds(t.entries, d, session);
        }
    }
  }

  lemma {:induction false} ServeSession(t: Table, p: Packet, session: nat)
    requires Sound(t) && p.words != [] && CanServe(t, p)
    ensures var g := EntryOf(t.entries, session);
      EntryOf(Serve(t, p).0.entries, session) == if p.session == session then Onward(g, p) else g
  {
    if p.session == session {
      ServeOwn(t, p);
    } else {
      ServeOther(t, p, session);
    }
  }

  /** Every session is treated as if it were alone: its table entry says what its own packets say. */
  lemma {:induction false} TableIsSessions(ps: seq<Packet>, n: nat, session: nat)
    requires NonEmpty(ps) && n <= |ps| && Served(ps, n)
    ensures EntryOf(After(ps, n).entries, session) == SessionAt(ps, n, session)
  {
    if n > 0 {
      TableIsSessions(ps, n - 1, session);
      AfterIsSound(ps, n - 1);
      assert CanServe(After(ps, n - 1), ps[n - 1]);
      ServeSession(After(ps, n - 1), ps[n - 1], session);
    }
  }

  /** A packet answered "last" is exactly one that ends a message its session had begun before. */
  lemma {:induction false} ResponseIsSessions(ps: seq<Packet>, k: nat)
    requires NonEmpty(ps) && k < |ps| && Served(ps, k)
    ensures var r, g := ResponseTo(ps, k), SessionAt(ps, k, ps[k].session);
      && (r.hit <==> g.Within?)
      && (r.isLast <==> g.Within? && Onward(g, ps[k]) == Between)
      && r.session == ps[k].session && r.len == ps[k].len
  {
    TableIsSessions(ps, k, ps[k].session);
  }

  /** ---- What each destination carries ---- */

  datatype Carriage = Idle | Carrying(session: nat, size: nat, got: nat) | Broken

  /** Reads the packets on one destination as whole messages of one session each, `isLast` on the end of the longer ones. */
  function Carry(c: Carriage, p: Packet, isLast: bool): Carriage
    requires p.words != []
  {
    match c
    case Idle =>
      if isLast then Broken
      else if p.len >= MessageSize(p.words[0]) then Idle
      else Carrying(p.session, MessageSize(p.words[0]), p.len)
    case Carrying(session, size, got) =>
      if p.session != session || isLast != (got + p.len >= size) then Broken
      else if isLast then Idle
      else Carrying(session, size, got + p.len)
    case Broken => Broken
  }

  ghost function Carried(ps: seq<Packet>, n: nat, d: nat): Carriage
    requires NonEmpty(ps) && n <= |ps|
  {
    if n == 0 then Idle else
      var c, r := Carried(ps, n - 1, d), ResponseTo(ps, n - 1);
      if r.dest == d then Carry(c, ps[n - 1], r.isLast) else c
  }

  function CarriageOf(e: Entry): Carriage {
    if e.valid then Carrying(e.session, e.total, e.rcvd) else Idle
  }

  lemma {:induction false} ServeCarries(t: Table, p: Packet, d: nat)
    requires Sound(t) && p.words != [] && CanServe(t, p) && d < DESTS
    ensures var (u, r) := Serve(t, p);
      CarriageOf(u.entries[d]) == (if r.dest == d then Carry(CarriageOf(t.entries[d]), p, r.isLast) else CarriageOf(t.entries[d]))
  {
    if t.free != [] {
      FirstFree(t);
    }
  }

  lemma {:induction false} CarriesOn(ps: seq<Packet>, n: nat, d: nat)
    requires NonEmpty(ps) && n < |ps| && d < DESTS && Served(ps, n + 1)
    requires Carried(ps, n, d) == CarriageOf(After(ps, n).entries[d])
    ensures Carried(ps, n + 1, d) == CarriageOf(After(ps, n + 1).entries[d])
  {
    AfterIsSound(ps, n);
    assert CanServe(After(ps, n), ps[n]);
    ServeCarries(After(ps, n), ps[n], d);
  }

  /** Every destination carries whole messages, one after the other, each of one session. */
  lemma {:induction false} DestinationsCarryMessages(ps: seq<Packet>, n: nat, d: nat)
    requires NonEmpty(ps) && n <= |ps| && Served(ps, n) && d < DESTS
    ensures Carried(ps, n, d) == CarriageOf(After(ps, n).entries[d]) && Carried(ps, n, d) != Broken
  {
    if n > 0 {
      DestinationsCarryMessages(ps, n - 1, d);
      CarriesOn(ps, n - 1, d);
    }
  }

  /** ---- When a packet has to wait ---- */

  function Unfinished(es: seq<Entry>, n: nat): set<nat>
    requires n <= |es|
  {
    if n == 0 then {} else Unfinished(es, n - 1) + if es[n - 1].valid then {es[n - 1].session} else {}
  }

  ghost predicate Distinct(es: seq<Entry>) {
    forall c, d :: 0 <= c < d < |es| && es[c].valid && es[d].valid ==> es[c].session != es[d].session
  }

  lemma {:induction false} NotYetUnfinished(es: seq<Entry>, n: nat, d: nat)
    requires n <= d < |es| && es[d].valid && Distinct(es)
    ensures es[d].session !in Unfinished(es, n)
  {
    if n > 0 {
      NotYetUnfinished(es, n - 1, d);
    }
  }

  lemma {:induction false} UnfinishedCount(es: seq<Entry>, n: nat)
    requires n <= |es| && Distinct(es)
    ensures |Unfinished(es, n)| <= n
    ensures |Unfinished(es, n)| == n <==> forall d :: 0 <= d < n ==> es[d].valid
  {
    if n > 0 {
      UnfinishedCount(es, n - 1);
      if es[n - 1].valid {
        NotYetUnfinished(es, n - 1, n - 1);
      }
    }
  }

  lemma {:induction false} UnfinishedAre(es: seq<Entry>, n: nat, session: nat)
    requires n <= |es|
    ensures session in Unfinished(es, n) <==> exists d :: 0 <= d < n && Holds(es, d, session)
  {
    if n > 0 {
      UnfinishedAre(es, n - 1, session);
      assert Holds(es, n - 1, session) ==> es[n - 1].valid;
    }
  }

  lemma {:induction false} TakenIff(t: Table, p: Packet)
    requires Sound(t)
    ensures !CanServe(t, p) <==> Find(t.entries, p.session, 0).None? && |Unfinished(t.entries, 8)| == 8
  {
    UnfinishedCount(t.entries, 8);
    if t.free != [] {
      assert t.free[0] in t.free;
    }
  }

  /**
   A packet waits for a destination exactly when it begins a message while eight sessions have one unfinished, judging
   each session by its own packets.
   */
  lemma {:induction false} WaitsIff(ps: seq<Packet>, k: nat) returns (unfinished: set<nat>)
    requires NonEmpty(ps) && k < |ps| && Served(ps, k)
    ensures forall session: nat :: session in unfinished <==> SessionAt(ps, k, session).Within?
    ensures |unfinished| <= 8
    ensures !CanServe(After(ps, k), ps[k]) <==> SessionAt(ps, k, ps[k].session) == Between && |unfinished| == 8
  {
    var t := After(ps, k);
    unfinished := Unfinished(t.entries, 8);
    AfterIsSound(ps, k);
    TakenIff(t, ps[k]);
    UnfinishedCount(t.entries, 8);
    TableIsSessions(ps, k, ps[k].session);
    forall session: nat ensures session in unfinished <==> SessionAt(ps, k, session).Within? {
      UnfinishedAre(t.entries, 8, session);
      TableIsSessions(ps, k, session);
    }
  }
}
