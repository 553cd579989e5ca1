/**
 The credit-limited TCP receive handler: a counter process, a request process and a consume process, joined by four
 small FIFOs and stepping in any order. Each read request the handler issues is answered, at some later time, by one
 packet; a request is outstanding until the last word of its packet has been passed on.
 */
module RxHandler {
  const FIFO_DEPTH := 2
  const MAX_IN_FLIGHT := 4

  datatype Notification = Notification(session: nat, length: nat)
  datatype ReadRequest = ReadRequest(session: nat, length: nat)
  datatype Word = Word(data: nat, last: bool)

  datatype RequestState = WaitNoti | CheckInFlight | BackOff | Request
  datatype ConsumeState = WaitPkg | Consume
  datatype Process = Counter | Requester | Consumer

  /** The packets in a stream of words: how many words end one. */
  function Ends(s: seq<Word>): nat {
    if s == [] then 0 else Ends(s[..|s| - 1]) + if s[|s| - 1].last then 1 else 0
  }

  lemma {:induction false} EndsSnoc(s: seq<Word>, w: Word)
    ensures Ends(s + [w]) == Ends(s) + if w.last then 1 else 0
  {
    assert (s + [w])[..|s|] == s;
  }

  lemma {:induction false} EndsSplit(s: seq<Word>, t: seq<Word>)
    ensures Ends(s + t) == Ends(s) + Ends(t)
  {
    if t == [] {
      assert s + t == s;
    } else {
      var n := |t| - 1;
      assert s + t == (s + t[..n]) + [t[n]];
      assert t == t[..n] + [t[n]];
      EndsSplit(s, t[..n]);
      EndsSnoc(s + t[..n], t[n]);
      EndsSnoc(t[..n], t[n]);
    }
  }

  /** The stream stops inside a packet. */
  predicate Partial(s: seq<Word>) {
    s != [] && !s[|s| - 1].last
  }

  /** The read requests a list of notifications calls for: one for each that announces data. */
  function Wanted(s: seq<Notification>): seq<ReadRequest> {
    if s == [] then [] else
      var n := s[|s| - 1];
      Wanted(s[..|s| - 1]) + if n.length != 0 then [ReadRequest(n.session, n.length)] else []
  }

  lemma {:induction false} WantedNext(s: seq<Notification>, t: seq<Notification>)
    requires t != []
    ensures Wanted(s + [t[0]]) == Wanted(s) + if t[0].length != 0 then [ReadRequest(t[0].session, t[0].length)] else []
    ensures s + [t[0]] + t[1..] == s + t
  {
    assert (s + [t[0]])[..|s|] == s;
  }

  lemma {:induction false} WantedSplit(s: seq<Notification>, t: seq<Notification>)
    ensures Wanted(s + t) == Wanted(s) + Wanted(t)
  {
    if t == [] {
      assert s + t == s;
    } else {
      var n := |t| - 1;
      WantedSplit(s, t[..n]);
      assert (s + t)[..|s + t| - 1] == s + t[..n];
    }
  }

  /** One word passed on: the stream as a whole is the same. */
  lemma {:induction false} PassOn(output: seq<Word>, input: seq<Word>)
    requires input != []
    ensures output + [input[0]] + input[1..] == output + input
    ensures Ends(output + [input[0]]) == Ends(output) + if input[0].last then 1 else 0
    ensures Partial(output + [input[0]]) <==> !input[0].last
  {
    EndsSnoc(output, input[0]);
  }

  lemma {:induction false} Regroup(delivered: seq<Word>, words: seq<Word>, n: nat)
    requires n <= |words|
    ensures delivered + words[..n] + words[n..] == delivered + words
  {
    assert words[..n] + words[n..] == words;
  }

  /** One word more from the network. */
  lemma {:induction false} TakeIn(output: seq<Word>, input: seq<Word>, delivered: seq<Word>, w: Word)
    requires output + input == delivered
    ensures output + (input + [w]) == delivered + [w]
    ensures Ends(delivered + [w]) == Ends(delivered) + if w.last then 1 else 0
    ensures Partial(delivered + [w]) <==> !w.last
  {
    EndsSnoc(delivered, w);
  }

  /** When the network has finished the packets it began, words waiting behind a whole packet end one. */
  lemma {:induction false} PacketWaits(output: seq<Word>, input: seq<Word>)
    requires !Partial(output + input)
    ensures Ends(output + input) == Ends(output) + Ends(input)
    ensures input != [] ==> Ends(input) > 0
  {
    EndsSplit(output, input);
    if input != [] {
      assert (output + input)[|output + input| - 1] == input[|input| - 1];
    }
  }

  /**
   The counter, corrected by what is still in the FIFOs, is the number of outstanding requests; and an answer on its way,
   or acted on, does not understate it.
   */
  ghost predicate Credits(inflightCnt: nat, incr: nat, decr: nat, outstanding: int, state: RequestState, cntReq: nat, cntRsp: seq<nat>) {
    && inflightCnt + incr - decr == outstanding <= MAX_IN_FLIGHT
    && incr <= 1 && decr <= FIFO_DEPTH
    && cntReq + |cntRsp| == (if state == CheckInFlight then 1 else 0)
    && (cntRsp != [] ==> incr == 0 && outstanding <= cntRsp[0])
    && (state == Request ==> incr == 0 && outstanding < MAX_IN_FLIGHT)
  }

  /**
   What has been passed on and what is still to come are what the network delivered, which begins a packet, or announces
   one, only for a request.
   */
  ghost predicate Through(output: seq<Word>, input: seq<Word>, delivered: seq<Word>, consumed: nat, announced: nat, requests: nat) {
    && output + input == delivered && Ends(output) == consumed && announced <= requests
    && Ends(delivered) + (if Partial(delivered) then 1 else 0) <= requests
  }

  /** A metadata word has been taken for every packet passed on and for the one being passed on. */
  ghost predicate Paired(state: ConsumeState, output: seq<Word>, metas: nat, announced: nat) {
    && (state == Consume <==> Partial(output))
    && announced == metas + Ends(output) + (if state == Consume then 1 else 0)
  }

  /** Every notification of data has led to one request, in order. */
  ghost predicate Asked(requests: seq<ReadRequest>, seen: seq<Notification>, state: RequestState, notifications: seq<Notification>) {
    requests == Wanted(seen) && (state == Request || state == CheckInFlight ==> notifications != [])
  }

  class Handler {
    // The counter process and the FIFOs between the processes.
    var inflightCnt: nat
    var cntReq: nat
    var cntRsp: seq<nat>
    var incr: nat
    var decr: nat

    // The request process.
    var requestState: RequestState
    var counter: nat
    var notifications: seq<Notification>
    var requests: seq<ReadRequest>

    // The consume process.
    var consumeState: ConsumeState
    var metas: nat
    var input: seq<Word>
    var output: seq<Word>

    // Everything the network has delivered: words, and one metadata word for each packet.
    var delivered: seq<Word>
    var announced: nat

    ghost var consumed: nat
    ghost var seen: seq<Notification>

    /** Requests issued and not yet consumed. */
    ghost function Outstanding(): int
      reads `requests, `consumed
    {
      |requests| - consumed
    }

    ghost predicate Valid()
      reads this
    {
      && Credits(inflightCnt, incr, decr, |requests| - consumed, requestState, cntReq, cntRsp) && counter <= 5
      && Through(output, input, delivered, consumed, announced, |requests|)
      && Paired(consumeState, output, metas, announced)
      && Asked(requests, seen, requestState, notifications)
    }

    constructor (notifications: seq<Notification>)
      ensures Valid() && this.notifications == notifications && requests == [] && output == []
    {
      inflightCnt, cntReq, cntRsp, incr, decr := 0, 0, [], 0, 0;
      requestState, counter, this.notifications, requests := WaitNoti, 0, notifications, [];
      consumeState, metas, input, output := WaitPkg, 0, [], [];
      delivered, announced, consumed, seen := [], 0, 0, [];
    }

    /** The counter process has something to do: the questions wait for the increments, and these for the decrements. */
    predicate CanCount()
      reads `inflightCnt, `decr, `incr, `cntReq
    {
      (decr > 0 && inflightCnt > 0) || incr > 0 || cntReq > 0
    }

    /** `inflightReadHandler`: decrements first, then increments, then questions. The counter never goes below zero. */
    method InflightReadHandler()
      requires Valid()
      modifies `inflightCnt, `decr, `incr, `cntReq, `cntRsp
      ensures Valid()
      ensures old(CanCount()) || unchanged(this)
      ensures if old(decr > 0 && inflightCnt > 0)
        then inflightCnt == old(inflightCnt) - 1 && decr == old(decr) - 1 && unchanged(`incr, `cntReq, `cntRsp)
        else if old(incr) > 0
        then inflightCnt == old(inflightCnt) + 1 && incr == old(incr) - 1 && unchanged(`decr, `cntReq, `cntRsp)
        else unchanged(`inflightCnt, `decr, `incr) && (old(cntReq) > 0 ==> cntReq == 0 && cntRsp == [inflightCnt])
    {
      if decr > 0 && inflightCnt > 0 {
        decr := decr - 1;
        inflightCnt := inflightCnt - 1;
      } else if incr > 0 {
        incr := incr - 1;
        inflightCnt := inflightCnt + 1;
      } else if cntReq > 0 {
        cntReq := cntReq - 1;
        cntRsp := cntRsp + [inflightCnt];
      }
    }

    /** The last state of `requestFSM`: a notification that announces data becomes a request. */
    method IssueRequest()
      requires requestState == Request && notifications != []
      modifies `requestState, `notifications, `requests, `incr, `seen
      ensures requestState == WaitNoti && notifications == old(notifications)[1..] && seen == old(seen) + [old(notifications)[0]]
      ensures var n := old(notifications)[0];
        if n.length != 0 then requests == old(requests) + [ReadRequest(n.session, n.length)] && incr == old(incr) + 1
        else requests == old(requests) && incr == old(incr)
    {
      var n := notifications[0];
      notifications, seen := notifications[1..], seen + [n];
      if n.length != 0 {
        requests := requests + [ReadRequest(n.session, n.length)];
        incr := incr + 1;
      }
      requestState := WaitNoti;
    }

    method GoOn()
      requires Valid() && requestState == Request
      modifies `requestState, `notifications, `requests, `incr, `seen
      ensures Valid() && requestState == WaitNoti && old(notifications) != [] && notifications == old(notifications)[1..]
      ensures seen == old(seen) + [old(notifications)[0]] && seen + notifications == old(seen) + old(notifications)
    {
      WantedNext(seen, notifications);
      IssueRequest();
    }

    predicate CanRequest()
      reads `requestState, `notifications, `cntRsp
    {
      match requestState
      case WaitNoti => notifications != []
      case CheckInFlight => cntRsp != []
      case BackOff => true
      case Request => true
    }

    /** `requestFSM`: asks for the count, and goes on to issue a request only on an answer below four. */
    method RequestFsm()
      requires Valid()
      modifies `requestState, `counter, `cntReq, `cntRsp, `notifications, `requests, `incr, `seen
      ensures Valid() && seen + notifications == old(seen) + old(notifications)
      ensures old(CanRequest()) || unchanged(this)
      ensures old(requestState) == WaitNoti && old(notifications) != [] ==> requestState == CheckInFlight && cntReq == old(cntReq) + 1
      ensures old(requestState) == CheckInFlight && old(cntRsp) != [] ==>
        requestState == (if old(cntRsp)[0] < 4 then Request else BackOff) && cntRsp == old(cntRsp)[1..]
      ensures old(requestState) == BackOff && old(counter) == 5 ==> requestState == WaitNoti && counter == 0
      ensures old(requestState) == BackOff && old(counter) != 5 ==> requestState == BackOff && counter == old(counter) + 1
      ensures old(requestState) == Request ==>
        requestState == WaitNoti && old(notifications) != [] && notifications == old(notifications)[1..] && seen == old(seen) + [old(notifications)[0]]
      ensures old(requestState) != WaitNoti ==> unchanged(`cntReq)
      ensures old(requestState) != CheckInFlight ==> unchanged(`cntRsp)
      ensures old(requestState) != BackOff ==> unchanged(`counter)
      ensures old(requestState) != Request ==> unchanged(`notifications, `requests, `incr, `seen)
    {
      match requestState
      case WaitNoti =>
        if notifications != [] {
          cntReq := cntReq + 1;
          requestState := CheckInFlight;
        }
      case CheckInFlight =>
        if cntRsp != [] {
          requestState := if cntRsp[0] < MAX_IN_FLIGHT then Request else BackOff;
          cntRsp := cntRsp[1..];
        }
      case BackOff =>
        if counter == 5 {
          counter := 0;
          requestState := WaitNoti;
        } else {
          counter := counter + 1;
        }
      case Request =>
        GoOn();
    }

    /** A word is there and, if it is the last of its packet, there is room in the FIFO of returned credits. */
    predicate CanConsume()
      reads `consumeState, `metas, `input, `decr
    {
      input != [] && (input[0].last ==> decr < FIFO_DEPTH) && (consumeState == WaitPkg ==> metas > 0)
    }

    /** `consumeFSM`; a write to a full FIFO waits, so the step does not happen. */
    method ConsumeFsm()
      requires Valid()
      modifies `consumeState, `metas, `input, `output, `decr, `consumed
      ensures Valid()
      ensures if old(CanConsume())
        then output == old(output) + [old(input)[0]] && input == old(input)[1..]
          && metas == old(metas) - (if old(consumeState) == WaitPkg then 1 else 0)
          && decr == old(decr) + (if old(input)[0].last then 1 else 0)
        else unchanged(this)
    {
      if CanConsume() {
        var word := input[0];
        PassOn(output, input);
        if consumeState == WaitPkg {
          metas := metas - 1;
        }
        output, input := output + [word], input[1..];
        if word.last {
          decr, consumed := decr + 1, consumed + 1;
          consumeState := WaitPkg;
        } else {
          consumeState := Consume;
        }
      }
    }

    /** The network delivers one word: of the packet it is in, or the first of the answer to a request. */
    method Deliver(word: Word)
      requires Valid() && (Partial(delivered) || Ends(delivered) < |requests|)
      modifies `input, `delivered
      ensures Valid() && delivered == old(delivered) + [word]
    {
      TakeIn(output, input, delivered, word);
      input, delivered := input + [word], delivered + [word];
    }

    /** The network announces the answer to a request, before, between or after the words of the packet. */
    method Announce()
      requires Valid() && announced < |requests|
      modifies `metas, `announced
      ensures Valid() && announced == old(announced) + 1
    {
      metas, announced := metas + 1, announced + 1;
    }

    /**
     The processes never wait for one another for good: when the network has finished and announced the packets it began
     and none of the processes can move, every notification has led to its request, and every word has been passed on.
     */
    lemma {:induction false} NoDeadlock()
      requires Valid() && !Partial(delivered) && announced == Ends(delivered)
      requires !CanCount() && !CanRequest() && !CanConsume()
      ensures output == delivered && notifications == [] && requests == Wanted(seen)
      ensures Outstanding() == inflightCnt == |requests| - Ends(delivered)
    {
      Bounds();
      PacketWaits(output, input);
      assert output + [] == output;
    }

    /** At most four requests are outstanding, and what has been passed on is the front of what was delivered. */
    lemma {:induction false} Bounds()
      requires Valid()
      ensures 0 <= Outstanding() <= 4 && incr <= 1 && decr <= 2 && output <= delivered
    {
      EndsSplit(output, input);
      assert delivered[..|output|] == output;
    }

    /** A call of one of the three processes, which does something if it can. */
    method ProcessStep(p: Process)
      requires Valid()
      modifies `inflightCnt, `decr, `incr, `cntReq, `cntRsp, `requestState, `counter, `notifications, `requests, `seen,
               `consumeState, `metas, `input, `output, `consumed
      ensures Valid() && seen + notifications == old(seen) + old(notifications)
      ensures p == Counter && old(CanCount()) ==> decr + incr + cntReq == old(decr + incr + cntReq) - 1
      ensures p == Requester && old(CanRequest()) ==> requestState != old(requestState) || counter == old(counter) + 1
      ensures p == Consumer && old(CanConsume()) ==> input == old(input)[1..]
    {
      match p
      case Counter => InflightReadHandler();
      case Requester => RequestFsm();
      case Consumer => ConsumeFsm();
    }

    /** The network announces a packet or delivers the next of its words, if a request allows it. */
    method NetworkStep(words: seq<Word>, next: nat, announce: bool) returns (after: nat)
      requires Valid() && next < |words|
      modifies `metas, `input, `delivered, `announced
      ensures Valid() && next <= after <= |words| && delivered == old(delivered) + words[next..after]
      ensures announce ==> announced == old(announced) + if old(announced) < |requests| then 1 else 0
      ensures !announce ==> after == next + if old(Partial(delivered) || Ends(delivered) < |requests|) then 1 else 0
    {
      after := next;
      if announce {
        if announced < |requests| {
          Announce();
        }
      } else if Partial(delivered) || Ends(delivered) < |requests| {
        Deliver(words[next]);
        after := next + 1;
      }
    }

    /** Any interleaving of the three processes and the network, broken off anywhere. */
    method Interleave(words: seq<Word>) returns (next: nat)
      requires Valid()
      modifies this
      ensures Valid() && 0 <= Outstanding() <= 4 && next <= |words| && output <= delivered == old(delivered) + words[..next]
      ensures seen + notifications == old(seen) + old(notifications) && requests == Wanted(seen)
    {
      var steps: nat := *;
      next := 0;
      while steps > 0
        invariant Valid() && seen + notifications == old(seen) + old(notifications)
        invariant next <= |words| && delivered == old(delivered) + words[..next]
      {
        if * {
          var p: Process := *;
          ProcessStep(p);
        } else if next < |words| {
          var before, announce: bool := next, *;
          next := NetworkStep(words, next, announce);
          assert words[..before] + words[before..next] == words[..next];
        }
        steps := steps - 1;
      }
      Bounds();
    }

    /** How far the request process is from its next request, if the counts it is told from now on are below four. */
    ghost function Rank(): nat
      requires counter <= 5
      reads `requestState, `counter, `cntReq, `cntRsp
    {
      match requestState
      case Request => 0
      case CheckInFlight => if cntReq > 0 then 2 else if cntRsp != [] && cntRsp[0] < 4 then 1 else 10
      case WaitNoti => 3
      case BackOff => 9 - counter
    }

    /** The network has answered all requests. */
    ghost predicate Answered()
      reads `delivered, `requests, `announced
    {
      !Partial(delivered) && announced == Ends(delivered) == |requests|
    }

    /** Then, when no word and no credit is on its way, the count is zero. */
    lemma {:induction false} CountsZero()
      requires Valid() && Answered() && !CanConsume() && incr == 0 && (decr == 0 || inflightCnt == 0)
      ensures inflightCnt == 0 == decr && input == []
    {
      Bounds();
      PacketWaits(output, input);
    }

    /** A network with one packet for each notification of data, some words of which it has delivered, can go on or is done. */
    lemma {:induction false} NetworkDone(all: seq<Word>, rest: seq<Word>)
      requires Valid() && Supplied(all, rest)
      ensures |requests| <= Ends(all)
      ensures announced == |requests| && (rest == [] || (!Partial(delivered) && Ends(delivered) >= |requests|)) ==> Answered()
      ensures Answered() && notifications == [] ==> rest == []
    {
      WantedSplit(seen, notifications);
      EndsSplit(delivered, rest);
      assert rest == [] ==> all == delivered;
      if rest != [] {
        assert all[|all| - 1] == rest[|rest| - 1];
      }
      assert notifications == [] ==> seen + notifications == seen;
    }

    /** The network has one packet for each notification of data, and `rest` is what it has not delivered. */
    ghost predicate Supplied(all: seq<Word>, rest: seq<Word>)
      reads `delivered, `seen, `notifications
    {
      all == delivered + rest && !Partial(all) && Ends(all) == |Wanted(seen + notifications)|
    }

    /** The network goes on if it can. */
    method NetworkMoves(ghost all: seq<Word>, rest: seq<Word>) returns (after: seq<Word>, moved: bool)
      requires Valid() && Supplied(all, rest)
      modifies `metas, `input, `delivered, `announced
      ensures Valid() && Supplied(all, after)
      ensures if moved then |after| - announced < |rest| - old(announced) else unchanged(this) && after == rest && Answered()
    {
      NetworkDone(all, rest);
      after, moved := rest, true;
      if announced < |requests| {
        Announce();
      } else if rest != [] && (Partial(delivered) || Ends(delivered) < |requests|) {
        Deliver(rest[0]);
        after := rest[1..];
      } else {
        moved := false;
      }
    }

    /** Fewer notifications, or as many and fewer words, or as many and fewer credits on their way, or a lower rank. */
    ghost predicate Onward(notis: nat, words: nat, credits: nat, rank: nat)
      requires counter <= 5
      reads `notifications, `input, `decr, `incr, `requestState, `counter, `cntReq, `cntRsp
    {
      || |notifications| < notis
      || (|notifications| == notis && |input| < words)
      || (|notifications| == notis && |input| == words && decr + incr < credits)
      || (|notifications| == notis && |input| == words && decr + incr == credits && Rank() < rank)
    }

    /** The counter moves: a credit fewer is on its way, or a question is answered, with zero. */
    method Count()
      requires Valid() && Answered() && !CanConsume() && CanCount()
      modifies `inflightCnt, `decr, `incr, `cntReq, `cntRsp
      ensures Valid() && Onward(old(|notifications|), old(|input|), old(decr + incr), old(Rank()))
    {
      if !(decr > 0 && inflightCnt > 0) && incr == 0 {
        CountsZero();
      }
      InflightReadHandler();
    }

    /** The request process moves: to its next state, or to the next notification. */
    method Ask()
      requires Valid() && CanRequest() && !CanCount()
      modifies `requestState, `counter, `cntReq, `cntRsp, `notifications, `requests, `incr, `seen
      ensures Valid() && seen + notifications == old(seen) + old(notifications)
      ensures Onward(old(|notifications|), old(|input|), old(decr + incr), old(Rank()))
    {
      RequestFsm();
    }

    /** Some process goes on if it can: the one that passes words on, else the counter, else the one that asks. */
    method ProcessMoves() returns (moved: bool)
      requires Valid() && Answered()
      modifies `inflightCnt, `decr, `incr, `cntReq, `cntRsp, `requestState, `counter, `notifications, `requests, `seen,
               `consumeState, `metas, `input, `output, `consumed
      ensures Valid() && seen + notifications == old(seen) + old(notifications)
      ensures if moved then Onward(old(|notifications|), old(|input|), old(decr + incr), old(Rank()))
        else Answered() && !CanCount() && !CanRequest() && !CanConsume()
    {
      moved := true;
      if CanConsume() {
        ConsumeFsm();
      } else if CanCount() {
        Count();
      } else if CanRequest() {
        Ask();
      } else {
        moved := false;
      }
    }

    /** The network and the processes go on until none of them can. */
    method Settle(ghost all: seq<Word>, rest: seq<Word>)
      requires Valid() && Supplied(all, rest)
      modifies this
      ensures Valid() && Answered() && !CanCount() && !CanRequest() && !CanConsume()
      ensures all == delivered && seen + notifications == old(seen) + old(notifications)
    {
      NetworkDone(all, rest);
      var left, moved := rest, true;
      while moved
        invariant Valid() && Supplied(all, left) && seen + notifications == old(seen) + old(notifications)
        invariant announced <= Ends(all)
        invariant !moved ==> Answered() && !CanCount() && !CanRequest() && !CanConsume()
        decreases moved, |notifications|, |left| + Ends(all) - announced, |input|, decr + incr, Rank()
      {
        left, moved := NetworkMoves(all, left);
        NetworkDone(all, left);
        if !moved {
          moved := ProcessMoves();
          NetworkDone(all, left);
        }
      }
      NetworkDone(all, left);
      NoDeadlock();
      assert delivered + [] == delivered;
    }

    /**
     Any interleaving can be carried on to the point where nothing can move. If the network has one packet for each
     notification of data, then all of them have been asked for and passed on, word by word, and no credit is missing.
     */
    method Run(words: seq<Word>)
      requires Valid() && !Partial(delivered + words) && Ends(delivered + words) == |Wanted(seen + notifications)|
      modifies this
      ensures Valid() && !CanCount() && !CanRequest() && !CanConsume()
      ensures output == delivered == old(delivered) + words
      ensures notifications == [] && requests == Wanted(old(seen) + old(notifications)) && inflightCnt == 0 == Outstanding()
    {
      ghost var all := delivered + words;
      var next := Interleave(words);
      Regroup(old(delivered), words, next);
      Settle(all, words[next..]);
      NoDeadlock();
      assert seen == old(seen) + old(notifications) by {
        assert seen + [] == seen;
      }
    }
  }
}
