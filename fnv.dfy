/** The 64-bit FNV-1a hash of Go's hash/fnv package (New64a, Write, Sum64). */
module Fnv {
  import opened Utf8

  const OffsetBasis: bv64 := 0xcbf29ce484222325
  const Prime: bv64 := 0x100000001b3

  /** One FNV-1a round: xor the byte in, then multiply by the prime modulo 2^64. */
  function Step(h: bv64, b: byte): bv64 {
    (h ^ (b as bv64)) * Prime
  }

  /** The state after writing the bytes of s, one at a time, into a hasher in state h. */
  function FoldFrom(h: bv64, s: Bytes): bv64
    decreases |s|
  {
    if s == [] then h else FoldFrom(Step(h, s[0]), s[1..])
  }

  /** Go's uint64. */
  type uint64 = x: int | 0 <= x < 0x1_0000_0000_0000_0000

  /** Sum64 of a fresh hasher that was given the bytes of s. */
  function Sum64(s: Bytes): uint64 {
    FoldFrom(OffsetBasis, s) as int
  }

  /** The state after a sequence of Write calls, one per chunk. */
  function WriteAll(h: bv64, chunks: seq<Bytes>): bv64
    decreases |chunks|
  {
    if chunks == [] then h else WriteAll(FoldFrom(h, chunks[0]), chunks[1..])
  }

  function Concat(chunks: seq<Bytes>): (r: Bytes)
    ensures chunks == [] ==> r == []
    decreases |chunks|
  {
    if chunks == [] then [] else chunks[0] + Concat(chunks[1..])
  }

  /** Writing a + b is the same as writing a and then b. */
  lemma {:induction false} FoldAppend(h: bv64, a: Bytes, b: Bytes)
    ensures FoldFrom(h, a + b) == FoldFrom(FoldFrom(h, a), b)
    decreases |a|
  {
    if a == [] {
      assert a + b == b;
    } else {
      assert (a + b)[0] == a[0];
      assert (a + b)[1..] == a[1..] + b;
      FoldAppend(Step(h, a[0]), a[1..], b);
    }
  }

  /** A hasher keeps no record of where one Write ended and the next began. */
  lemma {:induction false} WriteAllIsFoldOfConcat(h: bv64, chunks: seq<Bytes>)
    ensures WriteAll(h, chunks) == FoldFrom(h, Concat(chunks))
    decreases |chunks|
  {
    if chunks != [] {
      WriteAllIsFoldOfConcat(FoldFrom(h, chunks[0]), chunks[1..]);
      FoldAppend(h, chunks[0], Concat(chunks[1..]));
    }
  }

  lemma WriteAllOne(h: bv64, c: Bytes)
    ensures WriteAll(h, [c]) == FoldFrom(h, c)
  {
    assert [c][1..] == [];
    assert WriteAll(FoldFrom(h, c), []) == FoldFrom(h, c);
  }

  /** Writing the UTF-8 encodings of strings one after another hashes their concatenation. */
  lemma WriteStrings2(a: string, b: string)
    ensures WriteAll(OffsetBasis, [Encode(a), Encode(b)]) == FoldFrom(OffsetBasis, Encode(a + b))
  {
    var chunks := [Encode(a), Encode(b)];
    assert chunks[1..] == [Encode(b)];
    WriteAllOne(FoldFrom(OffsetBasis, Encode(a)), Encode(b));
    assert WriteAll(OffsetBasis, chunks) == FoldFrom(FoldFrom(OffsetBasis, Encode(a)), Encode(b));
    FoldAppend(OffsetBasis, Encode(a), Encode(b));
    EncodeAppend(a, b);
  }

  lemma WriteStrings3(a: string, b: string, c: string)
    ensures WriteAll(OffsetBasis, [Encode(a), Encode(b), Encode(c)]) == FoldFrom(OffsetBasis, Encode(a + b + c))
  {
    var chunks := [Encode(a), Encode(b), Encode(c)];
    assert chunks[1..] == [Encode(b), Encode(c)];
    var h := FoldFrom(OffsetBasis, Encode(a));
    assert WriteAll(OffsetBasis, chunks) == WriteAll(h, [Encode(b), Encode(c)]);
    assert [Encode(b), Encode(c)][1..] == [Encode(c)];
    WriteAllOne(FoldFrom(h, Encode(b)), Encode(c));
    assert WriteAll(h, [Encode(b), Encode(c)]) == FoldFrom(FoldFrom(h, Encode(b)), Encode(c));
    FoldAppend(OffsetBasis, Encode(a), Encode(b));
    EncodeAppend(a, b);
    FoldAppend(OffsetBasis, Encode(a + b), Encode(c));
    EncodeAppend(a + b, c);
  }
}
