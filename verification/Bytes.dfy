/** Bytes, byte strings and the machine arithmetic the other modules share. */
module Bytes {

  newtype Byte = b: int | 0 <= b < 0x100

  type Content = seq<Byte>

  function Min(a: int, b: int): int {
    if a <= b then a else b
  }

  function Max(a: int, b: int): int {
    if a <= b then b else a
  }

  /** `n` zero bytes, what a growing vector or a sparse file is filled with. */
  function Zeros(n: nat): Content {
    seq(n, _ => 0)
  }

  /** The content cut or zero-extended to exactly `n` bytes. */
  function Resize(c: Content, n: nat): Content {
    if n <= |c| then c[..n] else c + Zeros(n - |c|)
  }

  /** All chunks glued together in order. */
  function Concat<T>(chunks: seq<seq<T>>): seq<T> {
    if chunks == [] then [] else chunks[0] + Concat(chunks[1..])
  }

  lemma {:induction false} ConcatSnoc<T>(chunks: seq<seq<T>>, last: seq<T>)
    ensures Concat(chunks + [last]) == Concat(chunks) + last
  {
    if chunks == [] {
      assert Concat([last]) == last + Concat([]);
    } else {
      assert (chunks + [last])[1..] == chunks[1..] + [last];
      ConcatSnoc(chunks[1..], last);
    }
  }

  function Sum(sizes: seq<nat>): nat {
    if sizes == [] then 0 else Sum(sizes[..|sizes| - 1]) + sizes[|sizes| - 1]
  }

  lemma SumSnoc(sizes: seq<nat>, i: nat)
    requires i < |sizes|
    ensures Sum(sizes[..i + 1]) == Sum(sizes[..i]) + sizes[i]
  {
    assert sizes[..i + 1][..i] == sizes[..i];
  }

  lemma {:induction false} SumConcat(a: seq<nat>, b: seq<nat>)
    ensures Sum(a + b) == Sum(a) + Sum(b)
  {
    if b == [] {
      assert a + b == a;
    } else {
      assert (a + b)[..|a + b| - 1] == a + b[..|b| - 1];
      SumConcat(a, b[..|b| - 1]);
    }
  }

  /** A value as it comes out of a `size_t` computation. */
  function U64(n: int): nat {
    n % 0x1_0000_0000_0000_0000
  }

  /** A value cast to a 32-bit two's-complement `int`. */
  function Int32(n: int): int {
    (n + 0x8000_0000) % 0x1_0000_0000 - 0x8000_0000
  }
}
