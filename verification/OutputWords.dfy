/**
 What the multiplexor writes, word by word: the output of serving the packets one by one, and what it is to a reader who
 sees the words and the packets only.
 */
module OutputWords {
  import opened Wrappers
  import opened Framing
  import opened MessageTable

  datatype OutWord = OutWord(data: Data, keep: nat, last: bool, dest: nat)

  /** A word under the response to its packet. */
  function OutOf(w: Word, r: Response): OutWord {
    OutWord(w.data, w.keep, w.last && r.isLast, r.dest)
  }

  function OutWords(ws: seq<Word>, r: Response): (o: seq<OutWord>)
    ensures |o| == |ws|
  {
    seq(|ws|, k requires 0 <= k < |ws| => OutOf(ws[k], r))
  }

  /** The output when each packet is served to its end before the next is looked at. */
  ghost function Output(ps: seq<Packet>, n: nat): seq<OutWord>
    requires NonEmpty(ps) && n <= |ps|
  {
    if n == 0 then [] else Output(ps, n - 1) + OutWords(ps[n - 1].words, ResponseTo(ps, n - 1))
  }

  /** Each packet's last word is marked, and no other. */
  ghost predicate Marked(ps: seq<Packet>) {
    forall k :: 0 <= k < |ps| ==> MarkedPacket(ps[k])
  }

  ghost predicate MarkedPacket(p: Packet) {
    forall j :: 0 <= j < |p.words| ==> (p.words[j].last <==> j == |p.words| - 1)
  }

  /** ---- The output as a reader sees it ---- */

  /** The words of the first `n` packets. */
  function WordsBefore(ps: seq<Packet>, n: nat): nat
    requires n <= |ps|
  {
    if n == 0 then 0 else WordsBefore(ps, n - 1) + |ps[n - 1].words|
  }

  lemma {:induction false} WordsGrow(ps: seq<Packet>, m: nat, n: nat)
    requires m < n <= |ps|
    ensures WordsBefore(ps, m) + |ps[m].words| <= WordsBefore(ps, n)
  {
    if m < n - 1 {
      WordsGrow(ps, m, n - 1);
    }
  }

  /** What destination `d` carries after `n` packets, read off the words: a packet is on the destination of its first word. */
  ghost function Reading(ps: seq<Packet>, out: seq<OutWord>, n: nat, d: nat): Carriage
    requires NonEmpty(ps) && n <= |ps| && WordsBefore(ps, n) <= |out|
  {
    if n == 0 then Idle else
      var c := Reading(ps, out, n - 1, d);
      if out[WordsBefore(ps, n - 1)].dest == d then Carry(c, ps[n - 1], out[WordsBefore(ps, n) - 1].last) else c
  }

  /**
   Word `j` of packet `k` has left as it came, on a destination that carries the unfinished message of its session, or
   nothing when the packet begins one, and where the whole packet goes; it is marked exactly if it is the packet's final
   word and the packet ends a message that an earlier packet of its session began.
   */
  ghost predicate IsOutWord(ps: seq<Packet>, out: seq<OutWord>, k: nat, j: nat)
    requires NonEmpty(ps) && k < |ps| && j < |ps[k].words| && WordsBefore(ps, k) + j < |out|
  {
    var o, w, session := out[WordsBefore(ps, k) + j], ps[k].words[j], ps[k].session;
    && o.data == w.data && o.keep == w.keep
    && o.dest < 8 && o.dest == out[WordsBefore(ps, k)].dest
    && match SessionAt(ps, k, session)
       case Within(size, got) =>
         Reading(ps, out, k, o.dest) == Carrying(session, size, got) && (o.last <==> j == |ps[k].words| - 1 && got + ps[k].len >= size)
       case Between => Reading(ps, out, k, o.dest) == Idle && !o.last
  }

  /** The words written so far are those of the first `n` packets, from the front. */
  ghost predicate AreOutWords(ps: seq<Packet>, out: seq<OutWord>, n: nat) {
    && NonEmpty(ps) && n <= |ps| && |out| <= WordsBefore(ps, n)
    && forall k: nat, j: nat :: k < n && j < |ps[k].words| && WordsBefore(ps, k) + j < |out| ==> IsOutWord(ps, out, k, j)
  }

  /** The output under any responses. */
  function Written(ps: seq<Packet>, rs: seq<Response>, n: nat): seq<OutWord>
    requires n <= |rs| && n <= |ps|
  {
    if n == 0 then [] else Written(ps, rs, n - 1) + OutWords(ps[n - 1].words, rs[n - 1])
  }

  ghost function ResponsesTo(ps: seq<Packet>, n: nat): seq<Response>
    requires NonEmpty(ps) && n <= |ps|
  {
    seq(n, k requires 0 <= k < n => ResponseTo(ps, k))
  }

  lemma {:induction false} OutputIsWritten(ps: seq<Packet>, n: nat, k: nat)
    requires NonEmpty(ps) && k <= n <= |ps|
    ensures Output(ps, k) == Written(ps, ResponsesTo(ps, n), k)
  {
    if k > 0 {
      OutputIsWritten(ps, n, k - 1);
      assert ResponsesTo(ps, n)[k - 1] == ResponseTo(ps, k - 1);
    }
  }

  lemma {:induction false} WrittenLength(ps: seq<Packet>, rs: seq<Response>, n: nat)
    requires n <= |rs| && n <= |ps|
    ensures |Written(ps, rs, n)| == WordsBefore(ps, n)
  {
    if n > 0 {
      WrittenLength(ps, rs, n - 1);
    }
  }

  /** Where the words of packet `k` stand in the output. */
  lemma {:induction false} WrittenAt(ps: seq<Packet>, rs: seq<Response>, n: nat, k: nat, j: nat)
    requires k < n <= |ps| && n <= |rs| && j < |ps[k].words|
    ensures |Written(ps, rs, n)| == WordsBefore(ps, n) && WordsBefore(ps, k) + j < WordsBefore(ps, n)
    ensures Written(ps, rs, n)[WordsBefore(ps, k) + j] == OutOf(ps[k].words[j], rs[k])
  {
    WrittenLength(ps, rs, n - 1);
    var before, here := Written(ps, rs, n - 1), OutWords(ps[n - 1].words, rs[n - 1]);
    if k == n - 1 {
      assert (before + here)[|before| + j] == here[j];
    } else {
      WrittenAt(ps, rs, n - 1, k, j);
    }
  }

  lemma {:induction false} OutputAt(ps: seq<Packet>, n: nat, k: nat, j: nat)
    requires NonEmpty(ps) && k < n <= |ps| && j < |ps[k].words|
    ensures |Output(ps, n)| == WordsBefore(ps, n) && WordsBefore(ps, k) + j < WordsBefore(ps, n)
    ensures Output(ps, n)[WordsBefore(ps, k) + j] == OutOf(ps[k].words[j], ResponseTo(ps, k))
  {
    OutputIsWritten(ps, n, n);
    WrittenAt(ps, ResponsesTo(ps, n), n, k, j);
  }

  lemma {:induction false} OutputLength(ps: seq<Packet>, n: nat)
    requires NonEmpty(ps) && n <= |ps|
    ensures |Output(ps, n)| == WordsBefore(ps, n)
  {
    OutputIsWritten(ps, n, n);
    WrittenLength(ps, ResponsesTo(ps, n), n);
  }

  /** Reading the words of a front of the output gives what the responses say. */
  lemma {:induction false} ReadingIsCarried(ps: seq<Packet>, n: nat, out: seq<OutWord>, k: nat, d: nat)
    requires NonEmpty(ps) && Marked(ps) && k <= n <= |ps| && out <= Output(ps, n) && WordsBefore(ps, k) <= |out|
    ensures Reading(ps, out, k, d) == Carried(ps, k, d)
  {
    if k > 0 {
      ReadingIsCarried(ps, n, out, k - 1, d);
      PacketEnds(ps, n, out, k - 1);
    }
  }

  /** A packet's first and last word carry destination and mark of its response. */
  lemma {:induction false} PacketEnds(ps: seq<Packet>, n: nat, out: seq<OutWord>, k: nat)
    requires NonEmpty(ps) && Marked(ps) && k < n <= |ps| && out <= Output(ps, n) && WordsBefore(ps, k + 1) <= |out|
    ensures out[WordsBefore(ps, k)].dest == ResponseTo(ps, k).dest && out[WordsBefore(ps, k + 1) - 1].last == ResponseTo(ps, k).isLast
  {
    var p, at := ps[k], WordsBefore(ps, k);
    assert WordsBefore(ps, k + 1) == at + |p.words|;
    OutputAt(ps, n, k, 0);
    OutputAt(ps, n, k, |p.words| - 1);
    assert MarkedPacket(p);
    assert out[at] == Output(ps, n)[at] && out[at + |p.words| - 1] == Output(ps, n)[at + |p.words| - 1];
  }

  /** A packet is answered with the destination that carries its session's unfinished message, or with an idle one. */
  lemma {:induction false} ResponseCarries(ps: seq<Packet>, k: nat)
    requires NonEmpty(ps) && k < |ps| && Served(ps, k + 1)
    ensures var r, session := ResponseTo(ps, k), ps[k].session;
      r.dest < 8 && match SessionAt(ps, k, session)
                    case Within(size, got) => Carried(ps, k, r.dest) == Carrying(session, size, got) && (r.isLast <==> got + ps[k].len >= size)
                    case Between => Carried(ps, k, r.dest) == Idle && !r.isLast
  {
    assert CanServe(After(ps, k), ps[k]);
    AfterIsSound(ps, k);
    TableIsSessions(ps, k, ps[k].session);
    ServeShapes(After(ps, k), ps[k]);
    var t, d := After(ps, k), ResponseTo(ps, k).dest;
    DestinationsCarryMessages(ps, k, d);
    if Find(t.entries, ps[k].session, 0).None? {
      FirstFree(t);
    }
  }

  lemma {:induction false} OutWordIs(ps: seq<Packet>, n: nat, out: seq<OutWord>, k: nat, j: nat)
    requires NonEmpty(ps) && Marked(ps) && k < n <= |ps| && Served(ps, n) && out <= Output(ps, n)
    requires j < |ps[k].words| && WordsBefore(ps, k) + j < |out|
    ensures IsOutWord(ps, out, k, j)
  {
    OutputAt(ps, n, k, j);
    OutputAt(ps, n, k, 0);
    ResponseCarries(ps, k);
    ReadingIsCarried(ps, n, out, k, ResponseTo(ps, k).dest);
    assert MarkedPacket(ps[k]);
  }

  /** Every front of the output of packets that are all served is made of their words. */
  lemma {:induction false} FrontIsWords(ps: seq<Packet>, n: nat, out: seq<OutWord>)
    requires NonEmpty(ps) && Marked(ps) && n <= |ps| && Served(ps, n) && out <= Output(ps, n)
    ensures AreOutWords(ps, out, n)
  {
    OutputLength(ps, n);
    forall k: nat, j: nat | k < n && j < |ps[k].words| && WordsBefore(ps, k) + j < |out| ensures IsOutWord(ps, out, k, j) {
      OutWordIs(ps, n, out, k, j);
    }
  }

  /** And no destination ever carries anything but whole messages, each of one session, the end of the longer ones marked. */
  lemma {:induction false} NothingBroken(ps: seq<Packet>, n: nat, k: nat, d: nat)
    requires NonEmpty(ps) && Marked(ps) && k <= n <= |ps| && Served(ps, n) && d < 8
    ensures |Output(ps, n)| == WordsBefore(ps, n) >= WordsBefore(ps, k) && Reading(ps, Output(ps, n), k, d) != Broken
  {
    OutputLength(ps, n);
    if k < n {
      WordsGrow(ps, k, n);
    }
    ReadingIsCarried(ps, n, Output(ps, n), k, d);
    DestinationsCarryMessages(ps, k, d);
  }

  /** ---- The words of one destination ---- */

  /** What is left of the output on destination `d`. */
  function OnDest(out: seq<OutWord>, d: nat): seq<OutWord> {
    if out == [] then [] else OnDest(out[..|out| - 1], d) + if out[|out| - 1].dest == d then [out[|out| - 1]] else []
  }

  function Contents(out: seq<OutWord>): (c: seq<(Data, nat)>)
    ensures |c| == |out|
  {
    seq(|out|, k requires 0 <= k < |out| => (out[k].data, out[k].keep))
  }

  function Payload(ws: seq<Word>): (c: seq<(Data, nat)>)
    ensures |c| == |ws|
  {
    seq(|ws|, k requires 0 <= k < |ws| => (ws[k].data, ws[k].keep))
  }

  /** The words of those of the first `n` packets whose first word leaves on `d`, one packet after the other. */
  ghost function PacketsOn(ps: seq<Packet>, out: seq<OutWord>, n: nat, d: nat): seq<(Data, nat)>
    requires NonEmpty(ps) && n <= |ps| && WordsBefore(ps, n) <= |out|
  {
    if n == 0 then [] else
      PacketsOn(ps, out, n - 1, d) + if out[WordsBefore(ps, n - 1)].dest == d then Payload(ps[n - 1].words) else []
  }

  lemma {:induction false} OnDestJoins(a: seq<OutWord>, b: seq<OutWord>, d: nat)
    ensures OnDest(a + b, d) == OnDest(a, d) + OnDest(b, d)
  {
    if b == [] {
      assert a + b == a;
    } else {
      OnDestJoins(a, b[..|b| - 1], d);
      assert (a + b)[..|a + b| - 1] == a + b[..|b| - 1];
    }
  }

  lemma {:induction false} OneDest(b: seq<OutWord>, d: nat, e: nat)
    requires forall k :: 0 <= k < |b| ==> b[k].dest == e
    ensures OnDest(b, d) == if e == d then b else []
  {
    if b != [] {
      OneDest(b[..|b| - 1], d, e);
      assert b == b[..|b| - 1] + [b[|b| - 1]];
    }
  }

  lemma {:induction false} PacketOnDest(p: Packet, r: Response, d: nat)
    ensures Contents(OnDest(OutWords(p.words, r), d)) == if r.dest == d then Payload(p.words) else []
  {
    var here := OutWords(p.words, r);
    OneDest(here, d, r.dest);
    assert Contents(here) == Payload(p.words);
  }

  lemma {:induction false} OneMorePacket(before: seq<OutWord>, p: Packet, r: Response, d: nat)
    ensures Contents(OnDest(before + OutWords(p.words, r), d))
         == Contents(OnDest(before, d)) + if r.dest == d then Payload(p.words) else []
  {
    OnDestJoins(before, OutWords(p.words, r), d);
    PacketOnDest(p, r, d);
    ContentsJoin(OnDest(before, d), OnDest(OutWords(p.words, r), d));
  }

  lemma {:induction false} ContentsJoin(a: seq<OutWord>, b: seq<OutWord>)
    ensures Contents(a + b) == Contents(a) + Contents(b)
  {
  }

  lemma {:induction false} SameFront(ps: seq<Packet>, a: seq<OutWord>, b: seq<OutWord>, n: nat, d: nat)
    requires NonEmpty(ps) && n <= |ps| && WordsBefore(ps, n) <= |a| && a <= b
    ensures PacketsOn(ps, a, n, d) == PacketsOn(ps, b, n, d)
  {
    if n > 0 {
      SameFront(ps, a, b, n - 1, d);
    }
  }

  lemma {:induction false} WrittenOnDest(ps: seq<Packet>, rs: seq<Response>, n: nat, d: nat)
    requires NonEmpty(ps) && n <= |ps| && n <= |rs|
    ensures |Written(ps, rs, n)| == WordsBefore(ps, n) && Contents(OnDest(Written(ps, rs, n), d)) == PacketsOn(ps, Written(ps, rs, n), n, d)
  {
    WrittenLength(ps, rs, n);
    if n > 0 {
      var before, here := Written(ps, rs, n - 1), OutWords(ps[n - 1].words, rs[n - 1]);
      WrittenOnDest(ps, rs, n - 1, d);
      OneMorePacket(before, ps[n - 1], rs[n - 1], d);
      WrittenAt(ps, rs, n, n - 1, 0);
      SameFront(ps, before, before + here, n - 1, d);
    }
  }

  /** Each destination is given, in order, exactly the words of the packets that belong on it. */
  lemma {:induction false} DestinationWords(ps: seq<Packet>, n: nat, d: nat)
    requires NonEmpty(ps) && n <= |ps|
    ensures |Output(ps, n)| == WordsBefore(ps, n) && Contents(OnDest(Output(ps, n), d)) == PacketsOn(ps, Output(ps, n), n, d)
  {
    OutputIsWritten(ps, n, n);
    WrittenOnDest(ps, ResponsesTo(ps, n), n, d);
  }
}
