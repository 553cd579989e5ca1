/**
 The TCP transmit handler: it splits the stream of words of a command into packets of at most `maxPkgWord` words, asks
 the stack for room before each packet, asks again as long as the stack refuses, and marks the last word of each packet.
 */
module TxHandler {
  import opened Segments
  import opened Unfolding

  const WORD_BYTES := 64
  const LENGTH_RANGE := 0x1_0000 // the length and session fields of a request have 16 bits

  datatype TxState = WaitCmd | WaitFirstData | CheckReq | WritePkg
  datatype TxCommand = TxCommand(session: nat, bytes: nat, maxPkgWord: nat)
  datatype Meta = Meta(session: nat, length: nat)
  datatype Status = Status(session: nat, length: nat, error: nat)

  /** A word on its way out: its data and byte mask, and whether it ends a packet. */
  datatype OutWord = OutWord(data: nat, last: bool)

  /** The words `bytes` bytes take up. */
  function Words(bytes: nat): nat {
    (bytes + 63) / 64
  }

  /** The words written for a packet of `length` bytes. The counter is compared after a word: for no bytes it goes round once. */
  function Span(length: nat): (n: nat)
    ensures n > 0
  {
    if length == 0 then WORD else Words(length)
  }

  function TotalWords(c: seq<nat>): nat {
    if c == [] then 0 else Span(c[0]) + TotalWords(c[1..])
  }

  lemma {:induction false} WordsOfFull(words: nat, rest: nat)
    ensures Words(words * 64 + rest) == words + Words(rest)
  {
  }

  /** Cutting on word boundaries costs no words: a command takes up as many words as its bytes. */
  lemma {:induction false} CutWords(bytes: nat, max: nat)
    requires max > 0
    ensures TotalWords(Cut(bytes, max * 64)) == Words(bytes)
    decreases bytes
  {
    if bytes > max * 64 {
      CutWords(bytes - max * 64, max);
      WordsOfFull(max, bytes - max * 64);
      assert Cut(bytes, max * 64)[1..] == Cut(bytes - max * 64, max * 64);
    } else if bytes > 0 {
      assert Cut(bytes, max * 64) == [bytes];
      assert [bytes][1..] == [];
    }
  }

  /** The words of one packet: the last one is marked. */
  function Packet(d: seq<nat>): (p: seq<OutWord>)
    ensures |p| == |d|
  {
    seq(|d|, k requires 0 <= k < |d| => OutWord(d[k], k == |d| - 1))
  }

  /** The words of packets of the given lengths. */
  function Framed(d: seq<nat>, c: seq<nat>): seq<OutWord>
    requires |d| == TotalWords(c)
  {
    if c == [] then [] else Packet(d[..Span(c[0])]) + Framed(d[Span(c[0])..], c[1..])
  }

  lemma {:induction false} FramedSnoc(d: seq<nat>, c: seq<nat>, e: seq<nat>, n: nat)
    requires |d| == TotalWords(c) && |e| == Span(n)
    ensures TotalWords(c + [n]) == |d| + |e|
    ensures Framed(d + e, c + [n]) == Framed(d, c) + Packet(e)
  {
    if c == [] {
      assert d + e == e && [n][1..] == [] && c + [n] == [n];
      assert e[..|e|] == e && e[|e|..] == [];
    } else {
      var k := Span(c[0]);
      FramedSnoc(d[k..], c[1..], e, n);
      Joined(Packet(d[..k]), Framed(d[k..], c[1..]), Packet(e));
      assert (c + [n])[1..] == c[1..] + [n];
      assert (d + e)[..k] == d[..k] && (d + e)[k..] == d[k..] + e;
    }
  }

  /** The packets of a command the handler can complete; no bytes at all make one empty packet. */
  function Plan(cmd: TxCommand): seq<nat> {
    if cmd.bytes == 0 then [0] else if cmd.maxPkgWord == 0 then [] else Cut(cmd.bytes, cmd.maxPkgWord * 64)
  }

  /** Commands with something to send, and packet lengths that fit their field. */
  predicate Servable(cmd: TxCommand) {
    0 < Min(cmd.bytes, cmd.maxPkgWord * 64) < LENGTH_RANGE
  }

  /** ---- What is asked for when the length field cuts packet lengths to 16 bits ---- */

  /** The length field of a request put when `sent` bytes have been granted. */
  function Asked(cmd: TxCommand, sent: nat): (length: nat)
    requires sent <= cmd.bytes
    ensures length < LENGTH_RANGE && sent + length <= cmd.bytes
  {
    Min(cmd.bytes - sent, cmd.maxPkgWord * 64) % LENGTH_RANGE
  }

  /** The bytes granted in the first `k` grants. */
  function SentAfter(cmd: TxCommand, k: nat): (sent: nat)
    ensures sent <= cmd.bytes
  {
    if k == 0 then 0 else SentAfter(cmd, k - 1) + Asked(cmd, SentAfter(cmd, k - 1))
  }

  function Grants(cmd: TxCommand, k: nat): (g: seq<nat>)
    ensures |g| == k
  {
    if k == 0 then [] else Grants(cmd, k - 1) + [Asked(cmd, SentAfter(cmd, k - 1))]
  }

  /** The handler stops asking after the k-th grant, and not before. */
  ghost predicate Stops(cmd: TxCommand, k: nat) {
    k > 0 && SentAfter(cmd, k) == cmd.bytes && Going(cmd, k)
  }

  ghost predicate Going(cmd: TxCommand, k: nat) {
    forall j :: 0 < j < k ==> SentAfter(cmd, j) < cmd.bytes
  }

  /** Where the first length does not fit its field, or is 0, more is left than any further request can ask for. */
  lemma {:induction false} NeverAll(cmd: TxCommand, k: nat)
    requires cmd.bytes > 0 && !Servable(cmd)
    ensures if cmd.maxPkgWord == 0 then SentAfter(cmd, k) == 0 else cmd.bytes - SentAfter(cmd, k) >= LENGTH_RANGE
  {
    if k > 0 {
      NeverAll(cmd, k - 1);
      var asked := Min(cmd.bytes - SentAfter(cmd, k - 1), cmd.maxPkgWord * 64);
      if cmd.maxPkgWord > 0 {
        LowPart(asked);
      }
    }
  }

  lemma {:induction false} LowPart(n: nat)
    requires n >= LENGTH_RANGE
    ensures n % LENGTH_RANGE <= n - LENGTH_RANGE
  {
  }

  lemma {:induction false} AsksForNext(cmd: TxCommand, sent: nat)
    requires Servable(cmd) && sent < cmd.bytes
    ensures 0 < Asked(cmd, sent) == Min(cmd.bytes - sent, cmd.maxPkgWord * 64)
  {
  }

  /** As long as a servable command is under way, what was granted and the full packets and rest to come are its plan. */
  lemma {:induction false} GrantsArePlan(cmd: TxCommand, k: nat)
    requires Servable(cmd) && Going(cmd, k)
    ensures Grants(cmd, k) + Cut(cmd.bytes - SentAfter(cmd, k), cmd.maxPkgWord * 64) == Plan(cmd)
  {
    if k > 0 {
      GrantsArePlan(cmd, k - 1);
      var sent, max := SentAfter(cmd, k - 1), cmd.maxPkgWord * 64;
      AsksForNext(cmd, sent);
      var next := Asked(cmd, sent);
      assert Cut(cmd.bytes - sent, max) == [next] + Cut(cmd.bytes - sent - next, max);
      Joined(Grants(cmd, k - 1), [next], Cut(cmd.bytes - sent - next, max));
    }
  }

  /** So many grants, each of a byte or more, are enough. */
  lemma {:induction false} Enough(cmd: TxCommand, k: nat) returns (n: nat)
    requires Servable(cmd) && Going(cmd, k + 1)
    ensures Stops(cmd, n)
    decreases cmd.bytes - SentAfter(cmd, k)
  {
    if k > 0 && SentAfter(cmd, k) == cmd.bytes {
      n := k;
    } else {
      AsksForNext(cmd, SentAfter(cmd, k));
      if SentAfter(cmd, k + 1) < cmd.bytes {
        n := Enough(cmd, k + 1);
      } else {
        n := k + 1;
      }
    }
  }

  /**
   The handler comes to the end of a command exactly if the command is empty, or its first packet is not and its length
   fits the 16-bit field; and then what it has been granted is the plan.
   */
  lemma {:induction false} StopsIff(cmd: TxCommand)
    ensures (exists k :: Stops(cmd, k)) <==>
      cmd.bytes == 0 || (cmd.maxPkgWord > 0 && (cmd.bytes < 0x1_0000 || cmd.maxPkgWord * 64 < 0x1_0000))
    ensures forall k :: Stops(cmd, k) ==> Grants(cmd, k) == Plan(cmd)
  {
    forall k | Stops(cmd, k) ensures (cmd.bytes == 0 || Servable(cmd)) && Grants(cmd, k) == Plan(cmd) {
      StopsWithPlan(cmd, k);
    }
    if cmd.bytes == 0 {
      assert SentAfter(cmd, 1) == 0;
      assert Stops(cmd, 1);
    } else if Servable(cmd) {
      var k := Enough(cmd, 0);
    }
  }

  lemma {:induction false} StopsWithPlan(cmd: TxCommand, k: nat)
    requires Stops(cmd, k)
    ensures (cmd.bytes == 0 || Servable(cmd)) && Grants(cmd, k) == Plan(cmd)
  {
    if cmd.bytes == 0 {
      assert SentAfter(cmd, 1) == 0;
      assert k == 1;
      assert Grants(cmd, 1) == [Asked(cmd, 0)];
    } else {
      if !Servable(cmd) {
        NeverAll(cmd, k);
      }
      GrantsArePlan(cmd, k);
      assert Grants(cmd, k) + [] == Grants(cmd, k);
    }
  }

  /** A packet of 64 KiB: the handler asks for nothing, and no word but the 2^32-th ends the packet. */
  lemma {:induction false} LargePacketStalls(k: nat)
    ensures var cmd := TxCommand(0, 0x1_0000, 1024); SentAfter(cmd, k) == 0 && Asked(cmd, SentAfter(cmd, k)) == 0 && !Stops(cmd, k)
    ensures Span(0) == 0x1_0000_0000
  {
    if k > 0 {
      LargePacketStalls(k - 1);
    }
  }

  /** A finished command and the words it sent. */
  datatype Sent = Sent(cmd: TxCommand, data: seq<nat>)

  ghost predicate Finished(s: Sent) {
    (s.cmd.bytes == 0 || Servable(s.cmd)) && |s.data| == TotalWords(Plan(s.cmd))
  }

  ghost predicate AllFinished(h: seq<Sent>) {
    forall u: nat {:trigger Unfold(u)} :: u == 2 && Unfold(u) ==> forall k :: 0 <= k < |h| ==> Finished(h[k])
  }

  /** What the stack has been given after some commands. */
  ghost function Output(h: seq<Sent>): seq<OutWord>
    requires AllFinished(h)
  {
    if h == [] then [] else
      var n := |h| - 1;
      assert Unfold(2) && Finished(h[n]);
      Output(h[..n]) + Framed(h[n].data, Plan(h[n].cmd))
  }

  /** The words they took from the input. */
  ghost function Input(h: seq<Sent>): seq<nat> {
    if h == [] then [] else Input(h[..|h| - 1]) + h[|h| - 1].data
  }

  ghost function Commands(h: seq<Sent>): seq<TxCommand> {
    seq(|h|, k requires 0 <= k < |h| => h[k].cmd)
  }

  /** The requests the stack grants for packets of the given lengths. */
  function Metas(cmd: TxCommand, c: seq<nat>): seq<Meta> {
    seq(|c|, k requires 0 <= k < |c| => Meta(cmd.session % 0x1_0000, c[k]))
  }

  ghost function GrantedIn(h: seq<Sent>): seq<Meta> {
    if h == [] then [] else GrantedIn(h[..|h| - 1]) + Metas(h[|h| - 1].cmd, Plan(h[|h| - 1].cmd))
  }

  lemma {:induction false} HistorySnoc(h: seq<Sent>, s: Sent)
    requires AllFinished(h) && Finished(s)
    ensures AllFinished(h + [s]) && GrantedIn(h + [s]) == GrantedIn(h) + Metas(s.cmd, Plan(s.cmd))
    ensures Output(h + [s]) == Output(h) + Framed(s.data, Plan(s.cmd))
    ensures Input(h + [s]) == Input(h) + s.data && Commands(h + [s]) == Commands(h) + [s.cmd]
  {
    assert Unfold(2);
    assert (h + [s])[..|h|] == h;
  }

  /** A packet under way: none of its words so far is its last. */
  function Begun(d: seq<nat>): (p: seq<OutWord>)
    ensures |p| == |d|
  {
    seq(|d|, k requires 0 <= k < |d| => OutWord(d[k], false))
  }

  lemma {:induction false} BegunGrows(d: seq<nat>, x: nat)
    ensures Begun(d) + [OutWord(x, false)] == Begun(d + [x])
    ensures Begun(d) + [OutWord(x, true)] == Packet(d + [x])
  {
  }

  /**
   Where a command stands: `accepted` packets are through, `length` bytes are granted and `part` of their words written,
   `sent` bytes are granted in all.
   */
  ghost predicate OnTrack(cmd: TxCommand, accepted: seq<nat>, data: seq<nat>, granted: seq<nat>, sent: nat) {
    |data| == TotalWords(accepted) && forall u: nat {:trigger Unfold(u)} :: u == 1 && Unfold(u) ==>
      accepted + granted == Grants(cmd, |accepted + granted|) && sent == SentAfter(cmd, |accepted + granted|) && Going(cmd, |accepted + granted|)
  }

  lemma {:induction false} Outset(cmd: TxCommand)
    ensures OnTrack(cmd, [], [], [], 0)
  {
  }

  /** The stack grants the next packet. */
  lemma {:induction false} Grant(cmd: TxCommand, accepted: seq<nat>, data: seq<nat>, sent: nat)
    requires OnTrack(cmd, accepted, data, [], sent) && (sent < cmd.bytes || accepted == [])
    ensures sent <= cmd.bytes && OnTrack(cmd, accepted, data, [Asked(cmd, sent)], sent + Asked(cmd, sent))
  {
    assert Unfold(1);
    assert accepted + [] == accepted;
  }

  lemma {:induction false} Joined<A>(a: seq<A>, b: seq<A>, c: seq<A>)
    ensures a + b + c == a + (b + c)
  {
  }

  lemma {:induction false} TakeWord(before: seq<nat>, data: seq<nat>, part: seq<nat>, input: seq<nat>)
    requires input != []
    ensures before + (data + part) + input == before + (data + (part + [input[0]])) + input[1..]
  {
    assert data + part + [input[0]] == data + (part + [input[0]]);
  }

  /** A granted packet has been written out. */
  lemma {:induction false} Through(cmd: TxCommand, accepted: seq<nat>, data: seq<nat>, length: nat, part: seq<nat>, sent: nat, base: seq<OutWord>)
    requires OnTrack(cmd, accepted, data, [length], sent) && |part| == Span(length)
    ensures OnTrack(cmd, accepted + [length], data + part, [], sent)
    ensures base + Framed(data + part, accepted + [length]) == base + Framed(data, accepted) + Packet(part)
  {
    assert Unfold(1);
    FramedSnoc(data, accepted, part, length);
    Joined(base, Framed(data, accepted), Packet(part));
    assert accepted + [length] + [] == accepted + [length];
  }

  lemma {:induction false} Complete(cmd: TxCommand, accepted: seq<nat>, data: seq<nat>, sent: nat)
    requires OnTrack(cmd, accepted, data, [], sent) && sent >= cmd.bytes && accepted != []
    ensures accepted == Plan(cmd) && Finished(Sent(cmd, data))
  {
    assert Unfold(1);
    assert accepted + [] == accepted;
    assert Stops(cmd, |accepted|);
    StopsWithPlan(cmd, |accepted|);
  }

  /** The words a list of commands calls for. */
  function Needed(q: seq<TxCommand>): nat {
    if q == [] then 0 else Words(q[0].bytes) + Needed(q[1..])
  }

  lemma {:induction false} NeededSplit(q: seq<TxCommand>, p: seq<TxCommand>)
    ensures Needed(q + p) == Needed(q) + Needed(p)
  {
    if q == [] {
      assert q + p == p;
    } else {
      NeededSplit(q[1..], p);
      assert (q + p)[1..] == q[1..] + p;
    }
  }

  lemma {:induction false} WordsSplit(c: seq<nat>, d: seq<nat>)
    ensures TotalWords(c + d) == TotalWords(c) + TotalWords(d)
  {
    if c == [] {
      assert c + d == d;
    } else {
      WordsSplit(c[1..], d);
      assert (c + d)[1..] == c[1..] + d;
    }
  }

  /** Finished commands have taken exactly the words they call for. */
  lemma {:induction false} InputNeeded(h: seq<Sent>)
    requires AllFinished(h) && AllServable(Commands(h))
    ensures |Input(h)| == Needed(Commands(h))
  {
    if h != [] {
      var n := |h| - 1;
      assert Unfold(2);
      var before, last := Commands(h[..n]), [h[n].cmd];
      assert Commands(h) == before + last == before + last + [];
      QueueServable(before, last, []);
      InputNeeded(h[..n]);
      assert Finished(h[n]) && Servable(last[0]) && last[1..] == [];
      CutWords(h[n].cmd.bytes, h[n].cmd.maxPkgWord);
      NeededSplit(before, last);
    }
  }

  /** A command that is not finished has not taken all its words. */
  lemma {:induction false} Unfinished(cmd: TxCommand, accepted: seq<nat>, data: seq<nat>, granted: seq<nat>, part: seq<nat>, sent: nat)
    requires Servable(cmd) && OnTrack(cmd, accepted, data, granted, sent)
    requires if granted == [] then part == [] && (sent < cmd.bytes || accepted == []) else |granted| == 1 && |part| < Span(granted[0])
    ensures |data + part| < Words(cmd.bytes)
  {
    var rest := UnfinishedPlan(cmd, accepted, data, granted, sent);
    CutWords(cmd.bytes, cmd.maxPkgWord);
    WordsSplit(accepted + granted, rest);
    WordsSplit(accepted, granted);
    if granted == [] {
      assert TotalWords(rest) > 0;
    } else {
      assert granted[1..] == [];
    }
  }

  lemma {:induction false} UnfinishedPlan(cmd: TxCommand, accepted: seq<nat>, data: seq<nat>, granted: seq<nat>, sent: nat) returns (rest: seq<nat>)
    requires Servable(cmd) && OnTrack(cmd, accepted, data, granted, sent)
    ensures accepted + granted + rest == Plan(cmd)
    ensures granted == [] && (sent < cmd.bytes || accepted == []) ==> rest != []
  {
    assert Unfold(1);
    rest := Cut(cmd.bytes - sent, cmd.maxPkgWord * 64);
    GrantsArePlan(cmd, |accepted + granted|);
  }

  lemma {:induction false} QueueServable(a: seq<TxCommand>, b: seq<TxCommand>, c: seq<TxCommand>)
    requires AllServable(a + b + c)
    ensures AllServable(a) && AllServable(b) && AllServable(c)
  {
    var q := a + b + c;
    assert forall k :: 0 <= k < |a| ==> q[k] == a[k];
    assert forall k :: 0 <= k < |b| ==> q[|a| + k] == b[k];
    assert forall k :: 0 <= k < |c| ==> q[|a| + |b| + k] == c[k];
  }

  ghost predicate AllServable(cmds: seq<TxCommand>) {
    forall k :: 0 <= k < |cmds| ==> Servable(cmds[k])
  }

  /** The request that is waiting for an answer, or whose answer is waiting to be read, asks for the next packet. */
  ghost predicate Asking(cmd: TxCommand, sent: nat, metas: seq<Meta>, statuses: seq<Status>) {
    sent <= cmd.bytes &&
    var m := Meta(cmd.session % LENGTH_RANGE, Asked(cmd, sent));
    || (metas == [m] && statuses == [])
    || (metas == [] && |statuses| == 1 && statuses[0].session == m.session && statuses[0].length == m.length && statuses[0].error != 1)
  }

  /** The registers hold the command under way. The session is read back from an answer, which has 16 bits of it. */
  ghost predicate Registers(cmd: TxCommand, sessionId: nat, expected: nat, maxPkgWord: nat) {
    sessionId % LENGTH_RANGE == cmd.session % LENGTH_RANGE && expected == cmd.bytes && maxPkgWord == cmd.maxPkgWord
  }

  /** Between packets of a command. */
  ghost predicate Between(cmd: TxCommand, accepted: seq<nat>, data: seq<nat>, sent: nat, output: seq<OutWord>, history: seq<Sent>) {
    forall u: nat {:trigger Unfold(u)} :: u == 3 && Unfold(u) ==>
      AllFinished(history) && OnTrack(cmd, accepted, data, [], sent) && output == Output(history) + Framed(data, accepted)
  }

  /** In a packet of a command, which has been granted `length` bytes. */
  ghost predicate Inside(cmd: TxCommand, accepted: seq<nat>, data: seq<nat>, length: nat, part: seq<nat>, sent: nat, output: seq<OutWord>, history: seq<Sent>) {
    length < LENGTH_RANGE && |part| < Span(length) && forall u: nat {:trigger Unfold(u)} :: u == 3 && Unfold(u) ==>
      && AllFinished(history) && OnTrack(cmd, accepted, data, [length], sent)
      && output == Output(history) + Framed(data, accepted) + Begun(part)
  }

  /** The last word of a packet has been written. */
  ghost predicate AtEnd(cmd: TxCommand, accepted: seq<nat>, data: seq<nat>, length: nat, part: seq<nat>, sent: nat, output: seq<OutWord>, history: seq<Sent>) {
    |part| == Span(length) && forall u: nat {:trigger Unfold(u)} :: u == 3 && Unfold(u) ==>
      && AllFinished(history) && OnTrack(cmd, accepted, data, [length], sent)
      && output == Output(history) + Framed(data, accepted) + Packet(part)
  }

  lemma {:induction false} BetweenFirst(cmd: TxCommand, history: seq<Sent>)
    requires AllFinished(history)
    ensures Between(cmd, [], [], 0, Output(history), history)
  {
    Outset(cmd);
    assert Output(history) + Framed([], []) == Output(history);
  }

  lemma {:induction false} BetweenAgain(cmd: TxCommand, accepted: seq<nat>, data: seq<nat>, length: nat, part: seq<nat>, sent: nat, output: seq<OutWord>,
                                        history: seq<Sent>)
    requires AtEnd(cmd, accepted, data, length, part, sent, output, history)
    ensures Between(cmd, accepted + [length], data + part, sent, output, history) && data + part + [] == data + part
  {
    assert Unfold(3);
    Through(cmd, accepted, data, length, part, sent, Output(history));
  }

  /** One word of a packet written. */
  lemma {:induction false} OneWord(cmd: TxCommand, accepted: seq<nat>, data: seq<nat>, length: nat, part: seq<nat>, sent: nat, output: seq<OutWord>,
                                   history: seq<Sent>, word: nat)
    requires Inside(cmd, accepted, data, length, part, sent, output, history)
    ensures var last := |part| + 1 == Span(length);
      if last then AtEnd(cmd, accepted, data, length, part + [word], sent, output + [OutWord(word, last)], history)
      else Inside(cmd, accepted, data, length, part + [word], sent, output + [OutWord(word, last)], history)
  {
    assert Unfold(3);
    BegunGrows(part, word);
    var base := Output(history) + Framed(data, accepted);
    var last := |part| + 1 == Span(length);
    Joined(base, Begun(part), [OutWord(word, last)]);
  }

  /** The counter, compared after a word, tells the last word of a packet. */
  lemma {:induction false} CountTells(length: nat, n: nat)
    requires length < LENGTH_RANGE && n < Span(length)
    ensures (n + 1) % WORD == Words(length) <==> n + 1 == Span(length)
    ensures n + 1 < Span(length) ==> (n + 1) % WORD == n + 1
  {
  }

  ghost function TakenBy(history: seq<Sent>, state: TxState, data: seq<nat>, part: seq<nat>): seq<nat> {
    if state == CheckReq || state == WritePkg then Input(history) + (data + part) else Input(history)
  }

  ghost function QueueOf(history: seq<Sent>, state: TxState, cmd: TxCommand, cmds: seq<TxCommand>): seq<TxCommand> {
    if state == WaitCmd then Commands(history) + cmds else Commands(history) + [cmd] + cmds
  }

  ghost function GrantsOf(history: seq<Sent>, state: TxState, cmd: TxCommand, accepted: seq<nat>, length: nat): seq<Meta> {
    match state
    case CheckReq => GrantedIn(history) + Metas(cmd, accepted)
    case WritePkg => GrantedIn(history) + Metas(cmd, accepted + [length])
    case _ => GrantedIn(history)
  }

  /** The stack has granted what the handler knows of, and what is in an answer that has not been read. */
  ghost predicate Granted(grants: seq<Meta>, history: seq<Sent>, state: TxState, cmd: TxCommand, accepted: seq<nat>, length: nat, statuses: seq<Status>) {
    forall u: nat {:trigger Unfold(u)} :: u == 4 && Unfold(u) ==>
      var known := GrantsOf(history, state, cmd, accepted, length);
      if statuses != [] && statuses[0].error == 0 then grants == known + [Meta(statuses[0].session, statuses[0].length)] else grants == known
  }

  lemma {:induction false} StartsEmpty(history: seq<Sent>, cmd: TxCommand, length: nat, grants: seq<Meta>, before: seq<nat>, statuses: seq<Status>)
    requires AllFinished(history) && Granted(grants, history, WaitFirstData, cmd, before, length, statuses)
    ensures Between(cmd, [], [], 0, Output(history), history)
    ensures Granted(grants, history, CheckReq, cmd, [], length, statuses)
    ensures TakenBy(history, CheckReq, [], []) == Input(history)
  {
    BetweenFirst(cmd, history);
    assert Metas(cmd, []) == [];
    assert GrantsOf(history, CheckReq, cmd, [], length) == GrantedIn(history);
    assert Unfold(4);
  }

  lemma {:induction false} OneGrantMore(history: seq<Sent>, cmd: TxCommand, accepted: seq<nat>, length: nat)
    ensures GrantsOf(history, CheckReq, cmd, accepted, 0) + [Meta(cmd.session % LENGTH_RANGE, length)]
         == GrantsOf(history, WritePkg, cmd, accepted, length) == GrantsOf(history, CheckReq, cmd, accepted + [length], 0)
  {
    Joined(GrantedIn(history), Metas(cmd, accepted), [Meta(cmd.session % LENGTH_RANGE, length)]);
    assert Metas(cmd, accepted + [length]) == Metas(cmd, accepted) + [Meta(cmd.session % LENGTH_RANGE, length)];
  }

  /** The packet granted is about to be written. */
  lemma {:induction false} InsideNext(cmd: TxCommand, accepted: seq<nat>, data: seq<nat>, sent: nat, output: seq<OutWord>, history: seq<Sent>)
    requires Between(cmd, accepted, data, sent, output, history) && sent <= cmd.bytes && (sent < cmd.bytes || accepted == [])
    ensures Inside(cmd, accepted, data, Asked(cmd, sent), [], sent + Asked(cmd, sent), output, history)
  {
    assert Unfold(3);
    Grant(cmd, accepted, data, sent);
    assert Begun([]) == [];
  }

  /** A command that is done joins the history. */
  lemma {:induction false} JoinsHistory(cmd: TxCommand, accepted: seq<nat>, data: seq<nat>, sent: nat, output: seq<OutWord>, history: seq<Sent>,
                                        cmds: seq<TxCommand>)
    requires Between(cmd, accepted, data, sent, output, history) && sent >= cmd.bytes && accepted != []
    ensures var h := history + [Sent(cmd, data)];
      && (forall grants, before, length ::
            Granted(grants, history, CheckReq, cmd, accepted, 0, []) ==> Granted(grants, h, WaitCmd, cmd, before, length, []))
      && AllFinished(h) && output == Output(h) && GrantedIn(h) == GrantsOf(history, CheckReq, cmd, accepted, 0)
      && Input(h) == Input(history) + data && Commands(h) + cmds == Commands(history) + [cmd] + cmds
  {
    assert Unfold(3);
    Complete(cmd, accepted, data, sent);
    HistorySnoc(history, Sent(cmd, data));
  }

  /** What has been asked for while a packet is written: the next one, if there is one. */
  ghost predicate AheadOf(cmd: TxCommand, sent: nat, metas: seq<Meta>, statuses: seq<Status>) {
    if sent < cmd.bytes then Asking(cmd, sent, metas, statuses) else metas == [] && statuses == []
  }

  class Handler {
    var state: TxState
    var sessionId: nat
    var expected: nat
    var maxPkgWord: nat
    var length: nat
    var currentPkgWord: nat
    var wordCnt: nat
    var sentByteCnt: nat

    var cmds: seq<TxCommand>
    var input: seq<nat>
    var metas: seq<Meta> // requests the stack has not answered
    var statuses: seq<Status> // answers not read
    var output: seq<OutWord>

    // Finished commands; the command under way, its packets that are through and the words it has taken.
    ghost var history: seq<Sent>
    ghost var cmd: TxCommand
    ghost var accepted: seq<nat>
    ghost var data: seq<nat>
    ghost var part: seq<nat>
    ghost var grants: seq<Meta> // the requests the stack has granted so far, oldest first

    ghost predicate Valid()
      reads this
    {
      && AllFinished(history) && Granted(grants, history, state, cmd, accepted, length, statuses) && (state != WritePkg ==> wordCnt == 0 && part == [])
      && (state == WaitCmd || Registers(cmd, sessionId, expected, maxPkgWord))
      && match state
         case WaitCmd => metas == [] && statuses == [] && sentByteCnt == 0 && output == Output(history)
         case WaitFirstData => metas == [] && statuses == [] && sentByteCnt == 0 && output == Output(history)
         case CheckReq =>
           && Asking(cmd, sentByteCnt, metas, statuses) && (sentByteCnt < cmd.bytes || accepted == [])
           && Between(cmd, accepted, data, sentByteCnt, output, history)
         case WritePkg =>
           && AheadOf(cmd, sentByteCnt, metas, statuses)
           && Inside(cmd, accepted, data, length, part, sentByteCnt, output, history)
           && currentPkgWord == Words(length) && wordCnt == |part|
    }

    /** The words taken from the input so far. */
    ghost function Taken(): seq<nat>
      reads `history, `state, `data, `part
    {
      TakenBy(history, state, data, part)
    }

    /** The commands finished, under way and to come. */
    ghost function Queue(): seq<TxCommand>
      reads `history, `state, `cmd, `cmds
    {
      QueueOf(history, state, cmd, cmds)
    }

    constructor (cmds: seq<TxCommand>, input: seq<nat>)
      ensures Valid() && Taken() == [] && history == [] && this.cmds == cmds && this.input == input && output == [] && grants == []
    {
      state, sessionId, expected, maxPkgWord, length := WaitCmd, 0, 0, 0, 0;
      currentPkgWord, wordCnt, sentByteCnt := 0, 0, 0;
      this.cmds, this.input, metas, statuses, output := cmds, input, [], [], [];
      history, cmd, accepted, data, part, grants := [], TxCommand(0, 0, 0), [], [], [], [];
    }

    /** How far the command under way is from its next word, in calls and answers. */
    ghost function Pace(): nat
      reads `state, `metas, `statuses
    {
      var waits := if statuses != [] && statuses[0].error != 0 then 2 else if metas != [] then 1 else 0;
      match state
      case WaitCmd => 0
      case WaitFirstData => 10
      case CheckReq => 7 + waits
      case WritePkg => 4 + waits
    }

    /** The stack answers the oldest request, echoing it: with room (0), or with any refusal but "torn down" (1). */
    method Answer(error: nat)
      requires Valid() && error != 1
      modifies `metas, `statuses, `grants
      ensures Valid() && Taken() == old(Taken()) && Queue() == old(Queue())
      ensures if old(metas) == [] then unchanged(this) else
        && old(metas) == [old(metas)[0]] && metas == [] && old(statuses) == [] && statuses == [Status(old(metas)[0].session, old(metas)[0].length, error)]
        && grants == old(grants) + if error == 0 then [old(metas)[0]] else []
      ensures old(metas) != [] && error == 0 ==> Pace() < old(Pace())
    {
      if metas != [] {
        if error == 0 {
          grants := grants + [metas[0]];
        }
        metas, statuses := metas[1..], statuses + [Status(metas[0].session, metas[0].length, error)];
      }
    }

    method WaitForCommand()
      requires Valid() && state == WaitCmd
      modifies `cmds, `sessionId, `expected, `maxPkgWord, `state, `cmd
      ensures Valid() && Taken() == old(Taken()) && Queue() == old(Queue())
      ensures if old(cmds) != [] then |cmds| < |old(cmds)| else unchanged(this)
    {
      if cmds != [] {
        assert Commands(history) + cmds == Commands(history) + [cmds[0]] + cmds[1..];
        cmd := cmds[0];
        sessionId, expected, maxPkgWord := cmds[0].session, cmds[0].bytes, cmds[0].maxPkgWord;
        cmds := cmds[1..];
        state := WaitFirstData;
      }
    }

    method RequestFirst()
      requires Registers(cmd, sessionId, expected, maxPkgWord) && metas == [] && statuses == []
      modifies `metas
      ensures Asking(cmd, 0, metas, statuses)
    {
      var len := if maxPkgWord * 64 > expected then expected else maxPkgWord * 64;
      metas := metas + [Meta(sessionId % LENGTH_RANGE, len % LENGTH_RANGE)];
    }

    /** The first packet has been asked for. */
    method FirstPacket()
      requires AllFinished(history) && wordCnt == 0 && part == [] && Registers(cmd, sessionId, expected, maxPkgWord)
      requires sentByteCnt == 0 && Asking(cmd, 0, metas, statuses) && output == Output(history)
      requires Granted(grants, history, WaitFirstData, cmd, accepted, length, statuses)
      modifies `state, `accepted, `data
      ensures Valid() && state == CheckReq && Taken() == Input(history) && Queue() == Commands(history) + [cmd] + cmds
    {
      StartsEmpty(history, cmd, length, grants, accepted, statuses);
      accepted, data := [], [];
      state := CheckReq;
    }

    /** The first word of a command has come. */
    method Start()
      requires Valid() && state == WaitFirstData
      modifies `metas, `state, `accepted, `data
      ensures Valid() && Taken() == old(Taken()) && Queue() == old(Queue()) && state == CheckReq && statuses == []
    {
      RequestFirst();
      FirstPacket();
    }

    method WaitForData()
      requires Valid() && state == WaitFirstData
      modifies `metas, `state, `accepted, `data
      ensures Valid() && Taken() == old(Taken()) && Queue() == old(Queue())
      ensures if input != [] then Pace() < old(Pace()) else unchanged(this)
    {
      if input != [] {
        Start();
      }
    }

    /** Asks for the next packet, if there is one. */
    method RequestNext()
      requires Registers(cmd, sessionId, expected, maxPkgWord) && metas == [] && statuses == [] && sentByteCnt <= cmd.bytes
      modifies `metas
      ensures AheadOf(cmd, sentByteCnt, metas, statuses) && (metas == [] || |metas| == 1)
    {
      if sentByteCnt < expected {
        var next := if sentByteCnt + maxPkgWord * 64 < expected then maxPkgWord * 64 else expected - sentByteCnt;
        metas := metas + [Meta(sessionId % LENGTH_RANGE, next % LENGTH_RANGE)];
      }
    }

    /** The stack has granted the packet asked for: the next one is asked for before this one is written. */
    method TakeGrant()
      requires AllFinished(history) && wordCnt == 0 && part == [] && (sentByteCnt < cmd.bytes || accepted == [])
      requires Registers(cmd, sessionId, expected, maxPkgWord) && metas == [] && statuses == []
      requires Between(cmd, accepted, data, sentByteCnt, output, history) && sentByteCnt <= cmd.bytes
      requires length == Asked(cmd, sentByteCnt) && currentPkgWord == Words(length)
      requires grants == GrantsOf(history, CheckReq, cmd, accepted, 0) + [Meta(cmd.session % LENGTH_RANGE, length)]
      modifies `sentByteCnt, `metas, `state
      ensures Valid() && state == WritePkg
    {
      InsideNext(cmd, accepted, data, sentByteCnt, output, history);
      OneGrantMore(history, cmd, accepted, length);
      sentByteCnt := sentByteCnt + length;
      RequestNext();
      state := WritePkg;
    }

    /** The stack has refused for now: the same packet is asked for again. */
    method AskAgain()
      requires AllFinished(history) && wordCnt == 0 && part == [] && state == CheckReq && metas == [] && statuses == []
      requires Registers(cmd, sessionId, expected, maxPkgWord) && Between(cmd, accepted, data, sentByteCnt, output, history)
      requires sentByteCnt <= cmd.bytes && (sentByteCnt < cmd.bytes || accepted == []) && length == Asked(cmd, sentByteCnt)
      requires grants == GrantsOf(history, CheckReq, cmd, accepted, 0)
      modifies `metas
      ensures Valid() && |metas| == 1
    {
      metas := metas + [Meta(sessionId % LENGTH_RANGE, length % LENGTH_RANGE)];
    }

    /** The answer to the request that is out: what it grants or refuses is what was asked for. */
    method TakeStatus() returns (error: nat)
      requires Asking(cmd, sentByteCnt, metas, statuses) && statuses != []
      modifies `statuses, `sessionId, `length, `currentPkgWord
      ensures statuses == [] && metas == [] && error == old(statuses)[0].error != 1 && sessionId == cmd.session % LENGTH_RANGE
      ensures length == Asked(cmd, sentByteCnt) && currentPkgWord == Words(length)
      ensures Granted(grants, history, CheckReq, cmd, accepted, 0, old(statuses)) ==>
        grants == GrantsOf(history, CheckReq, cmd, accepted, 0) + if error == 0 then [Meta(cmd.session % LENGTH_RANGE, length)] else []
    {
      assert Unfold(4);
      var status := statuses[0];
      statuses := statuses[1..];
      sessionId, length, currentPkgWord := status.session, status.length, (status.length + 63) / 64;
      error := status.error;
    }

    method CheckRequest()
      requires Valid() && state == CheckReq
      modifies `statuses, `sessionId, `length, `currentPkgWord, `sentByteCnt, `metas, `state
      ensures Valid() && Taken() == old(Taken()) && Queue() == old(Queue())
      ensures if old(statuses) != [] then Pace() < old(Pace()) else unchanged(this)
      ensures old(statuses) != [] ==> if old(statuses)[0].error == 0 then state == WritePkg else state == CheckReq && metas != []
    {
      if statuses != [] {
        var error := TakeStatus();
        if error == 0 {
          TakeGrant();
        } else if error != 1 {
          AskAgain();
        }
      }
    }

    /** The last packet of a command is through. */
    method EndCommand()
      requires wordCnt == 0 && part == [] && metas == [] && statuses == [] && accepted != []
      requires sentByteCnt >= cmd.bytes && Between(cmd, accepted, data, sentByteCnt, output, history)
      requires Granted(grants, history, CheckReq, cmd, accepted, 0, statuses)
      modifies `sentByteCnt, `currentPkgWord, `state, `history
      ensures Valid() && state == WaitCmd && history == old(history) + [Sent(cmd, data)]
      ensures Taken() == Input(old(history)) + data && Queue() == Commands(old(history)) + [cmd] + cmds
    {
      JoinsHistory(cmd, accepted, data, sentByteCnt, output, history, cmds);
      history := history + [Sent(cmd, data)];
      sentByteCnt, currentPkgWord := 0, 0;
      state := WaitCmd;
    }

    /** The packet under way is through. */
    method PacketThrough()
      requires AtEnd(cmd, accepted, data, length, part, sentByteCnt, output, history)
      requires Granted(grants, history, WritePkg, cmd, accepted, length, statuses)
      modifies `wordCnt, `accepted, `data, `part
      ensures wordCnt == 0 && part == [] && accepted != [] && data == old(data) + old(part)
      ensures Between(cmd, accepted, data, sentByteCnt, output, history) && Granted(grants, history, CheckReq, cmd, accepted, 0, statuses)
    {
      BetweenAgain(cmd, accepted, data, length, part, sentByteCnt, output, history);
      OneGrantMore(history, cmd, accepted, length);
      accepted, data, part := accepted + [length], data + part, [];
      wordCnt := 0;
    }

    /** The answer to the request for the next packet is to be read. */
    method NextPacket()
      requires AllFinished(history) && wordCnt == 0 && part == [] && Registers(cmd, sessionId, expected, maxPkgWord)
      requires sentByteCnt < cmd.bytes && Asking(cmd, sentByteCnt, metas, statuses)
      requires Between(cmd, accepted, data, sentByteCnt, output, history)
      requires Granted(grants, history, CheckReq, cmd, accepted, 0, statuses)
      modifies `state
      ensures Valid() && Taken() == Input(history) + data && Queue() == Commands(history) + [cmd] + cmds
    {
      state := CheckReq;
      assert data + part == data;
    }

    /** The last word of a packet has been written. */
    method EndPacket()
      requires AllFinished(history) && Registers(cmd, sessionId, expected, maxPkgWord) && AheadOf(cmd, sentByteCnt, metas, statuses)
      requires AtEnd(cmd, accepted, data, length, part, sentByteCnt, output, history)
      requires Granted(grants, history, WritePkg, cmd, accepted, length, statuses)
      modifies `wordCnt, `sentByteCnt, `currentPkgWord, `state, `history, `accepted, `data, `part
      ensures Valid() && Taken() == Input(old(history)) + (old(data) + old(part)) && Queue() == Commands(old(history)) + [cmd] + cmds
    {
      PacketThrough();
      if sentByteCnt >= expected {
        EndCommand();
      } else {
        NextPacket();
      }
    }

    /** One more word of the packet under way, marked if it is the last. */
    method PutWord()
      requires Valid() && state == WritePkg && input != []
      modifies `wordCnt, `input, `output, `part
      ensures part == old(part) + [old(input)[0]] && input == old(input)[1..] && Granted(grants, history, WritePkg, cmd, accepted, length, statuses)
      ensures if wordCnt == currentPkgWord then AtEnd(cmd, accepted, data, length, part, sentByteCnt, output, history)
        else wordCnt == |part| && Inside(cmd, accepted, data, length, part, sentByteCnt, output, history)
    {
      OneWord(cmd, accepted, data, length, part, sentByteCnt, output, history, input[0]);
      CountTells(length, wordCnt);
      var word := input[0];
      wordCnt, input := (wordCnt + 1) % WORD, input[1..];
      output := output + [OutWord(word, wordCnt == currentPkgWord)];
      part := part + [word];
    }

    method WriteWord()
      requires Valid() && state == WritePkg
      modifies `wordCnt, `input, `output, `sentByteCnt, `currentPkgWord, `state, `history, `accepted, `data, `part
      ensures Valid() && Taken() + input == old(Taken()) + old(input) && Queue() == old(Queue())
      ensures if old(input) != [] then |input| < |old(input)| else unchanged(this)
    {
      if input != [] {
        TakeWord(Input(history), data, part, input);
        assert Queue() == Commands(history) + [cmd] + cmds;
        PutWord();
        if wordCnt == currentPkgWord {
          EndPacket();
        }
      }
    }

    /** The next call does something. */
    predicate CanStep()
      reads `state, `cmds, `input, `statuses
    {
      match state
      case WaitCmd => cmds != []
      case WaitFirstData => input != []
      case CheckReq => statuses != []
      case WritePkg => input != []
    }

    /** `tcp_txHandler`: one call. */
    method Step()
      requires Valid()
      modifies this
      ensures Valid() && Taken() + input == old(Taken()) + old(input) && Queue() == old(Queue())
      ensures if old(CanStep())
        then |cmds| + |input| < |old(cmds)| + |old(input)| || (|cmds| + |input| == |old(cmds)| + |old(input)| && Pace() < old(Pace()))
        else unchanged(this)
    {
      match state
      case WaitCmd => WaitForCommand();
      case WaitFirstData => WaitForData();
      case CheckReq => CheckRequest();
      case WritePkg => WriteWord();
    }

    /** Unless everything is finished, words are still to come. */
    lemma {:induction false} WordsToCome()
      requires Valid() && AllServable(Queue()) && (state != WaitCmd || cmds != [])
      ensures |Taken()| < Needed(Queue())
    {
      var here := if state == WaitCmd then [] else [cmd];
      assert Commands(history) + here + cmds == Queue();
      QueueServable(Commands(history), here, cmds);
      InputNeeded(history);
      assert state != WaitCmd ==> Servable(here[0]);
      NeededSplit(Commands(history) + here, cmds);
      NeededSplit(Commands(history), here);
      assert Unfold(3);
      if state == CheckReq {
        Unfinished(cmd, accepted, data, [], part, sentByteCnt);
      } else if state == WritePkg {
        Unfinished(cmd, accepted, data, [length], part, sentByteCnt);
      }
    }

    /** The stack answers, refusing if `error` says so and `left` refusals are not used up. */
    method AnswerSome(error: nat, left: nat) returns (after: nat)
      requires Valid() && metas != []
      modifies `metas, `statuses, `grants
      ensures Valid() && Taken() == old(Taken()) && Queue() == old(Queue()) && metas == []
      ensures after < left || (after == left && Pace() < old(Pace()))
    {
      if error > 1 && left > 0 {
        Answer(error);
        after := left - 1;
      } else {
        Answer(0);
        after := left;
      }
    }

    /** A call of the handler or an answer of the stack, whichever is possible. */
    method Proceed(left: nat) returns (after: nat)
      requires Valid() && (CanStep() || metas != [])
      modifies this
      ensures Valid() && Taken() + input == old(Taken()) + old(input) && Queue() == old(Queue())
      ensures after < left || (after == left &&
        (|cmds| + |input| < |old(cmds)| + |old(input)| || (|cmds| + |input| == |old(cmds)| + |old(input)| && Pace() < old(Pace()))))
    {
      var answerFirst: bool := *;
      if metas != [] && (answerFirst || !CanStep()) {
        var error: nat := *;
        after := AnswerSome(error, left);
      } else {
        Step();
        after := left;
      }
    }

    /** When neither the handler nor the stack can go on, and the input was long enough, everything has been served. */
    lemma {:induction false} AllServed()
      requires Valid() && !CanStep() && metas == [] && AllServable(Queue()) && |Taken()| + |input| >= Needed(Queue())
      ensures state == WaitCmd && cmds == [] && output == Output(history) && Taken() == Input(history) && Queue() == Commands(history)
      ensures |Input(history)| == Needed(Commands(history)) && grants == GrantedIn(history)
    {
      if state != WaitCmd || cmds != [] {
        WordsToCome();
      }
      assert Commands(history) + [] == Commands(history);
      assert Unfold(4);
      InputNeeded(history);
    }

    /**
     Calls and answers of the stack in any order, with any finite number of refusals, until nothing can go on. The commands
     finished are the first ones, and each of them could be completed: a command whose packet length does not fit its
     field is never left again. When all commands are servable and the input holds their words, every command is served
     to its end: the words taken are the front of the input; the stack has granted, command by command, the full packets
     and the rest, and has been given exactly the words of that command in such packets.
     */
    method Serve(refusals: nat)
      requires Valid()
      modifies this
      ensures Valid() && !CanStep() && metas == [] && Taken() + input == old(Taken()) + old(input)
      ensures Commands(history) <= old(Queue()) && AllFinished(history)
      ensures old(AllServable(Queue()) && |Taken()| + |input| >= Needed(Queue())) ==>
        && state == WaitCmd && cmds == [] && Commands(history) == old(Queue()) && Input(history) + input == old(Taken()) + old(input)
        && output == Output(history) && grants == GrantedIn(history) && |Input(history)| == Needed(old(Queue()))
    {
      var left := refusals;
      while CanStep() || metas != []
        invariant Valid() && Taken() + input == old(Taken()) + old(input) && Queue() == old(Queue())
        decreases left, |cmds| + |input|, Pace()
      {
        left := Proceed(left);
      }
      assert |Taken() + input| == |old(Taken()) + old(input)|;
      FinishedFirst();
      if AllServable(Queue()) && |Taken()| + |input| >= Needed(Queue()) {
        AllServed();
      }
    }

    lemma {:induction false} FinishedFirst()
      requires Valid()
      ensures Commands(history) <= Queue() && AllFinished(history)
    {
    }
  }
}
