/**
 The tags the firmware puts on the commands of its four DMA channels. Tags have four bits and wrap around, so with a
 long window the same tag is out several times; what keeps completions apart is that each channel serves its commands
 in order. The module says which commands a channel holds while a list of transfers is in flight.
 */
module DmaTags {
  import opened Elementwise
  import opened Moves

  const CHANNELS := 4 // DMA0_RX, DMA1_RX, DMA1_TX, DMA2_RX: the order in which tags are given out
  const DMA1_TX := 2
  const TAG_RANGE := 16

  datatype Command = Command(len: nat, address: Source, tag: nat)

  function AddressOn(m: Move, c: nat): Source {
    if c == 0 then Memory(m.op0) else if c == 1 then m.op1 else if c == DMA1_TX then Memory(m.tx) else Memory(0)
  }

  /** The channels a data path uses. */
  function Used(path: Path): (u: seq<bool>)
    ensures |u| == CHANNELS
  {
    [path.reduce, true, path.store, false]
  }

  /** The tag counter after the first `c` channels of one transfer. */
  function TagUpTo(tag: nat, used: seq<bool>, c: nat): nat
    requires c <= |used|
  {
    if c == 0 then tag
    else if used[c - 1] then (TagUpTo(tag, used, c - 1) + 1) % TAG_RANGE
    else TagUpTo(tag, used, c - 1)
  }

  /** The tag counter after `n` transfers. */
  function TagAfter(tag: nat, used: seq<bool>, n: nat): nat
    decreases n
  {
    if n == 0 then tag else TagAfter(TagUpTo(tag, used, |used|), used, n - 1)
  }

  /** What channel `c` has been told and has not been asked about, for the transfers in flight. */
  function Commands(flying: seq<Move>, used: seq<bool>, tag: nat, c: nat): seq<Command>
    requires c < |used|
  {
    if flying == [] then [] else
      (if used[c] then [Command(flying[0].len, AddressOn(flying[0], c), TagUpTo(tag, used, c + 1))] else [])
      + Commands(flying[1..], used, TagUpTo(tag, used, |used|), c)
  }

  lemma {:induction false} TagAfterOneMore(tag: nat, used: seq<bool>, n: nat)
    ensures TagAfter(tag, used, n + 1) == TagUpTo(TagAfter(tag, used, n), used, |used|)
    decreases n
  {
    if n > 0 {
      TagAfterOneMore(TagUpTo(tag, used, |used|), used, n - 1);
    }
  }

  lemma {:induction false} OneMore(flying: seq<Move>, used: seq<bool>, tag: nat, c: nat, m: Move)
    requires c < |used|
    ensures Commands(flying + [m], used, tag, c) == Commands(flying, used, tag, c)
      + if used[c] then [Command(m.len, AddressOn(m, c), TagUpTo(TagAfter(tag, used, |flying|), used, c + 1))] else []
  {
    if flying == [] {
      assert (flying + [m])[1..] == [];
    } else {
      OneMore(flying[1..], used, TagUpTo(tag, used, |used|), c, m);
      assert (flying + [m])[1..] == flying[1..] + [m];
    }
  }

  function One(b: bool): nat {
    if b then 1 else 0
  }

  /** A transfer takes one tag for each channel it uses, in the order of the channels. */
  lemma {:induction false} TagsOfOne(tag: nat, path: Path)
    ensures var used := Used(path);
      && (path.reduce ==> TagUpTo(tag, used, 1) == (tag + 1) % 16)
      && TagUpTo(tag, used, 2) == (tag + One(path.reduce) + 1) % 16
      && (path.store ==> TagUpTo(tag, used, 3) == (tag + One(path.reduce) + 2) % 16)
      && TagUpTo(tag, used, |used|) == (tag + One(path.reduce) + 1 + One(path.store)) % 16
  {
    var used, n := Used(path), One(path.reduce);
    TagUpToNext(tag, used, 0);
    TagUpToNext(tag, used, 1);
    TagUpToNext(tag, used, 2);
    TagUpToNext(tag, used, 3);
    NextTag(tag, n);
    NextTag(tag, n + 1);
  }

  lemma {:induction false} TagUpToNext(tag: nat, used: seq<bool>, c: nat)
    requires c < |used|
    ensures TagUpTo(tag, used, 0) == tag
    ensures TagUpTo(tag, used, c + 1) == if used[c] then (TagUpTo(tag, used, c) + 1) % 16 else TagUpTo(tag, used, c)
  {
  }

  lemma {:induction false} NextTag(tag: nat, n: nat)
    ensures ((tag + n) % 16 + 1) % 16 == (tag + n + 1) % 16
  {
  }

  /**
   One more transfer adds a command at the end of each channel in use, with the next tag: to DMA0 one to read operand 0, if
   the path reduces; to DMA1 one to read operand 1, and one to write the result, if the path stores it.
   */
  lemma {:induction false} CommandsSnoc(flying: seq<Move>, path: Path, tag: nat, m: Move)
    ensures var used, t, both := Used(path), TagAfter(tag, Used(path), |flying|), flying + [m];
      && Commands(both, used, tag, 0) == Commands(flying, used, tag, 0) + (if path.reduce then [Command(m.len, Memory(m.op0), (t + 1) % 16)] else [])
      && Commands(both, used, tag, 1) == Commands(flying, used, tag, 1) + [Command(m.len, m.op1, (t + One(path.reduce) + 1) % 16)]
      && Commands(both, used, tag, 2) == Commands(flying, used, tag, 2)
         + (if path.store then [Command(m.len, Memory(m.tx), (t + One(path.reduce) + 2) % 16)] else [])
      && Commands(both, used, tag, 3) == Commands(flying, used, tag, 3)
      && TagAfter(tag, used, |both|) == (t + One(path.reduce) + 1 + One(path.store)) % 16
  {
    var used := Used(path);
    OneMore(flying, used, tag, 0, m);
    OneMore(flying, used, tag, 1, m);
    OneMore(flying, used, tag, 2, m);
    OneMore(flying, used, tag, 3, m);
    TagsOfOne(TagAfter(tag, used, |flying|), path);
    TagAfterOneMore(tag, used, |flying|);
  }

  lemma {:induction false} CommandAt(flying: seq<Move>, used: seq<bool>, tag: nat, c: nat, k: nat)
    requires c < |used| && used[c] && k < |flying|
    ensures var q := Commands(flying, used, tag, c);
      k < |q| && q[k].len == flying[k].len && q[k].address == AddressOn(flying[k], c)
  {
    if k > 0 {
      CommandAt(flying[1..], used, TagUpTo(tag, used, |used|), c, k - 1);
    }
  }

  /** The DMA has a command in each channel that a `k`-th transfer along the path needs, of one length. */
  predicate HasCommands(queues: seq<seq<Command>>, path: Path, k: nat) {
    && |queues| == CHANNELS && k < |queues[1]|
    && (path.reduce ==> k < |queues[0]| && queues[0][k].address.Memory? && queues[0][k].len == queues[1][k].len)
    && (path.store ==> k < |queues[2]| && queues[2][k].address.Memory? && queues[2][k].len == queues[1][k].len)
  }

  /** The transfer that these commands make up: DMA0 reads operand 0, DMA1 reads operand 1 and writes the result. */
  function Told(queues: seq<seq<Command>>, path: Path, k: nat): Move
    requires HasCommands(queues, path, k)
  {
    Move(queues[1][k].len, if path.reduce then queues[0][k].address.at else 0, queues[1][k].address,
         if path.store then queues[2][k].address.at else 0)
  }

  /** Two transfers that differ at most in an address the path does not use. */
  ghost predicate Alike(m: Move, n: Move, path: Path) {
    m.len == n.len && m.op1 == n.op1 && (path.reduce ==> m.op0 == n.op0) && (path.store ==> m.tx == n.tx)
  }

  lemma {:induction false} AlikeEffect(s: Store, a: Arith, path: Path, m: Move, n: Move)
    requires Alike(m, n, path) && Fits(m, path, |s.mem|)
    ensures Fits(n, path, |s.mem|) && Effect(s, a, path, n) == Effect(s, a, path, m)
  {
  }

  /** The commands of the `k`-th transfer in flight tell the DMA to carry out just that transfer. */
  lemma {:induction false} ToldIs(flying: seq<Move>, path: Path, tag: nat, queues: seq<seq<Command>>, k: nat)
    requires |queues| == CHANNELS && k < |flying| && forall c :: 0 <= c < CHANNELS ==> queues[c] == Commands(flying, Used(path), tag, c)
    ensures HasCommands(queues, path, k) && Alike(flying[k], Told(queues, path, k), path)
  {
    if path.reduce {
      CommandAt(flying, Used(path), tag, 0, k);
    }
    CommandAt(flying, Used(path), tag, 1, k);
    if path.store {
      CommandAt(flying, Used(path), tag, 2, k);
    }
  }
}
