/** Cutting a buffer into transfers of at most `T` bytes. */
module Segments {
  import opened RingIndex

  type Byte = b: nat | b < 256

  const WORD := 0x1_0000_0000 // lengths and counters have 32 bits

  function Min(a: nat, b: nat): nat {
    if a < b then a else b
  }

  /** The lengths of the segments of a buffer of `len` bytes, first to last. */
  function Cut(len: nat, T: nat): (c: seq<nat>)
    requires T > 0
    ensures forall k :: 0 <= k < |c| ==> 0 < c[k] <= T
  {
    if len == 0 then [] else [Min(len, T)] + Cut(len - Min(len, T), T)
  }

  /** The segments themselves. */
  function Slices(data: seq<Byte>, T: nat): (c: seq<seq<Byte>>)
    requires T > 0
  {
    if data == [] then [] else
      var n := Min(|data|, T);
      [data[..n]] + Slices(data[n..], T)
  }

  function Flatten(c: seq<seq<Byte>>): seq<Byte> {
    if c == [] then [] else c[0] + Flatten(c[1..])
  }

  function Lengths(c: seq<seq<Byte>>): seq<nat> {
    seq(|c|, k requires 0 <= k < |c| => |c[k]|)
  }

  lemma {:induction false} FlattenSnoc(c: seq<seq<Byte>>, x: seq<Byte>)
    ensures Flatten(c + [x]) == Flatten(c) + x
  {
    if c != [] {
      FlattenSnoc(c[1..], x);
      assert (c + [x])[1..] == c[1..] + [x];
    } else {
      assert (c + [x])[1..] == [];
    }
  }

  /** Cutting loses nothing: the segments put end to end are the buffer, and have the advertised lengths. */
  lemma {:induction false} SlicesRoundTrip(data: seq<Byte>, T: nat)
    requires T > 0
    ensures Flatten(Slices(data, T)) == data
    ensures Lengths(Slices(data, T)) == Cut(|data|, T)
  {
    if data != [] {
      var n := Min(|data|, T);
      SlicesRoundTrip(data[n..], T);
      assert Slices(data, T)[1..] == Slices(data[n..], T);
      assert Lengths(Slices(data, T)) == [n] + Lengths(Slices(data[n..], T));
    }
  }

  /** Every segment but the last is full. */
  lemma {:induction false} FullButLast(len: nat, T: nat, k: nat)
    requires T > 0 && k + 1 < |Cut(len, T)|
    ensures Cut(len, T)[k] == T
  {
    if k > 0 {
      FullButLast(len - Min(len, T), T, k - 1);
    }
  }

  function Total(c: seq<nat>): nat {
    if c == [] then 0 else c[0] + Total(c[1..])
  }

  lemma {:induction false} CutTotal(len: nat, T: nat)
    requires T > 0
    ensures Total(Cut(len, T)) == len
  {
    if len > 0 {
      CutTotal(len - Min(len, T), T);
    }
  }

  /** Taking one full segment away. */
  lemma {:induction false} OneLess(len: nat, T: nat)
    requires 0 < T <= len
    ensures len / T > 0 && (len - T) / T == len / T - 1 && (len - T) % T == len % T
  {
    var q := len / T;
    assert (q - 1) * T == q * T - T;
    Quotient(len - T, T, q - 1);
    MultipleSign(q, T);
  }

  /** Writing `data` into memory at `addr`. */
  function Overwrite(mem: seq<Byte>, addr: nat, data: seq<Byte>): (m: seq<Byte>)
    requires addr + |data| <= |mem|
    ensures |m| == |mem|
  {
    mem[..addr] + data + mem[addr + |data|..]
  }

  /** Byte `k` of the memory afterwards. */
  lemma {:induction false} OverwriteAt(mem: seq<Byte>, addr: nat, data: seq<Byte>, k: nat)
    requires addr + |data| <= |mem| && k < |mem|
    ensures Overwrite(mem, addr, data)[k] == if addr <= k < addr + |data| then data[k - addr] else mem[k]
  {
  }

  lemma {:induction false} OverwriteTwice(mem: seq<Byte>, addr: nat, a: seq<Byte>, b: seq<Byte>)
    requires addr + |a| + |b| <= |mem|
    ensures Overwrite(Overwrite(mem, addr, a), addr + |a|, b) == Overwrite(mem, addr, a + b)
  {
  }
}
