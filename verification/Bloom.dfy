/** The bloom filter of an index file (storage-units/src/utils/bloom.rs and bitmap.rs). */
module Bloom {
  import opened Bytes
  import opened Powers

  // ----- bits of a byte

  /** Bit k of a number. */
  predicate BitOf(b: nat, k: nat) {
    if k == 0 then b % 2 == 1 else BitOf(b / 2, k - 1)
  }

  /** The number with bit k set. */
  function WithBit(b: nat, k: nat): (r: nat) {
    if k == 0 then (if b % 2 == 1 then b else b + 1) else 2 * WithBit(b / 2, k - 1) + b % 2
  }

  lemma {:induction false} WithBitBound(b: nat, k: nat, n: nat)
    requires b < Pow2(n) && k < n
    ensures WithBit(b, k) < Pow2(n)
  {
    var half := Pow2(n - 1);
    assert Pow2(n) == 2 * half;
    LastBit(b, half);
    if k > 0 {
      WithBitBound(b / 2, k - 1, n - 1);
      Twice(WithBit(b / 2, k - 1), b % 2, half);
    }
  }

  lemma {:induction false} LastBit(b: nat, half: nat)
    requires b < 2 * half
    ensures b / 2 < half && (b % 2 == 0 ==> b + 1 < 2 * half)
  {
  }

  lemma {:induction false} Twice(w: nat, bit: nat, half: nat)
    requires w < half && bit < 2
    ensures 2 * w + bit < 2 * half
  {
  }

  /** Setting a bit sets that bit and leaves the others. */
  lemma {:induction false} WithBitBits(b: nat, k: nat, j: nat)
    ensures BitOf(WithBit(b, k), j) <==> j == k || BitOf(b, j)
  {
    if k > 0 && j > 0 {
      WithBitBits(b / 2, k - 1, j - 1);
    }
  }

  function SetBitInByte(b: Byte, k: nat): (r: Byte)
    requires k < 8
  {
    Pow2Eight(0);
    WithBitBound(b, k, 8);
    WithBit(b, k)
  }

  // ----- bits of a byte string

  predicate GetBit(data: seq<Byte>, bit: nat)
    requires bit < 8 * |data|
  {
    BitOf(data[bit / 8], bit % 8)
  }

  function SetBit(data: seq<Byte>, bit: nat): (r: seq<Byte>)
    requires bit < 8 * |data|
    ensures |r| == |data|
  {
    data[bit / 8 := SetBitInByte(data[bit / 8], bit % 8)]
  }

  lemma {:induction false} SetBitGet(data: seq<Byte>, bit: nat, other: nat)
    requires bit < 8 * |data| && other < 8 * |data|
    ensures GetBit(SetBit(data, bit), other) <==> other == bit || GetBit(data, other)
  {
    if other / 8 == bit / 8 {
      WithBitBits(data[bit / 8], bit % 8, other % 8);
    }
  }

  // ----- the three positions of a content

  const U64: nat := 0x1_0000_0000_0000_0000
  const FNV_PRIME: nat := 0x100_0000_01b3
  const FNV_OFFSET_BASIS: nat := 0xcbf2_9ce4_8422_2325

  /** Exclusive or, bit by bit. */
  function Xor(a: nat, b: nat): (r: nat) {
    if a == 0 then b else 2 * Xor(a / 2, b / 2) + (a + b) % 2
  }

  /** The first hash: multiply in 64 bits, then combine with the next byte. */
  function Fnv1(content: seq<Byte>): (h: nat) {
    if content == [] then FNV_OFFSET_BASIS
    else Xor((Fnv1(content[..|content| - 1]) * FNV_PRIME) % U64, content[|content| - 1])
  }

  /** The second hash, which starts again at every byte. */
  function Restarted(content: seq<Byte>): (h: nat) {
    if content == [] then FNV_OFFSET_BASIS else (content[|content| - 1] * FNV_PRIME) % U64
  }

  method HashContent(content: seq<Byte>) returns (hash: nat, hash2: nat)
    ensures hash == Fnv1(content) && hash2 == Restarted(content)
  {
    hash, hash2 := FNV_OFFSET_BASIS, FNV_OFFSET_BASIS;
    for i := 0 to |content|
      invariant hash == Fnv1(content[..i]) && hash2 == Restarted(content[..i])
    {
      assert content[..i + 1][..i] == content[..i];
      hash := (hash * FNV_PRIME) % U64;
      hash := Xor(hash, content[i]);
      hash2 := content[i];
      hash2 := (hash2 * FNV_PRIME) % U64;
    }
    assert content[..|content|] == content;
  }

  datatype Positions = Positions(first: nat, second: nat, third: nat)

  function Addr3(max: nat, content: seq<Byte>): (p: Positions)
    requires max > 0
    ensures p.first < max && p.second < max && p.third < max
  {
    var f1, f2 := Fnv1(content), Restarted(content);
    Positions(f1 % max, f2 % max, (Xor(f1, f2) / 0x1_0000_0000) % max)
  }

  /** The second position depends on the last byte only: contents that end alike share it. */
  lemma {:induction false} SecondPositionIsLastByte(max: nat, a: seq<Byte>, b: seq<Byte>, last: Byte)
    requires max > 0
    ensures Addr3(max, a + [last]).second == Addr3(max, b + [last]).second
  {
  }

  // ----- the filter

  function Insert(bitmap: seq<Byte>, content: seq<Byte>): (r: seq<Byte>)
    requires bitmap != []
    ensures |r| == |bitmap|
  {
    var p := Addr3(8 * |bitmap|, content);
    SetBit(SetBit(SetBit(bitmap, p.first), p.second), p.third)
  }

  predicate IsSet(bitmap: seq<Byte>, content: seq<Byte>)
    requires bitmap != []
  {
    var p := Addr3(8 * |bitmap|, content);
    GetBit(bitmap, p.first) && GetBit(bitmap, p.second) && GetBit(bitmap, p.third)
  }

  lemma {:induction false} InsertBits(bitmap: seq<Byte>, content: seq<Byte>, bit: nat)
    requires bitmap != [] && bit < 8 * |bitmap|
    ensures var p := Addr3(8 * |bitmap|, content);
            GetBit(Insert(bitmap, content), bit) <==> bit in {p.first, p.second, p.third} || GetBit(bitmap, bit)
  {
    var p := Addr3(8 * |bitmap|, content);
    var one := SetBit(bitmap, p.first);
    var two := SetBit(one, p.second);
    SetBitGet(bitmap, p.first, bit);
    SetBitGet(one, p.second, bit);
    SetBitGet(two, p.third, bit);
  }

  /** What was inserted is found, and nothing is lost by inserting more. */
  lemma {:induction false} InsertKeeps(bitmap: seq<Byte>, content: seq<Byte>, other: seq<Byte>)
    requires bitmap != []
    ensures IsSet(Insert(bitmap, content), content)
    ensures IsSet(bitmap, other) ==> IsSet(Insert(bitmap, content), other)
  {
    var p, q := Addr3(8 * |bitmap|, content), Addr3(8 * |bitmap|, other);
    InsertBits(bitmap, content, p.first);
    InsertBits(bitmap, content, p.second);
    InsertBits(bitmap, content, p.third);
    InsertBits(bitmap, content, q.first);
    InsertBits(bitmap, content, q.second);
    InsertBits(bitmap, content, q.third);
  }

  /** The bits are set in place, one after the other. */
  method Set(bitmap: array<Byte>, content: seq<Byte>)
    requires bitmap.Length > 0
    modifies bitmap
    ensures bitmap[..] == Insert(old(bitmap[..]), content)
  {
    var p := Addr3(bitmap.Length * 8, content);
    SetBitTo(bitmap, p.first);
    SetBitTo(bitmap, p.second);
    SetBitTo(bitmap, p.third);
  }

  method SetBitTo(data: array<Byte>, bit: nat)
    requires bit < 8 * data.Length
    modifies data
    ensures data[..] == SetBit(old(data[..]), bit)
  {
    data[bit / 8] := SetBitInByte(data[bit / 8], bit % 8);
  }

  function Zeroed(n: nat): (s: seq<Byte>)
    ensures |s| == n
  {
    seq(n, _ => 0)
  }

  /** The filter of a list of contents. */
  function FilterOf(size: nat, contents: seq<seq<Byte>>): (r: seq<Byte>)
    requires size > 0
    ensures |r| == size
  {
    if contents == [] then Zeroed(size)
    else Insert(FilterOf(size, contents[..|contents| - 1]), contents[|contents| - 1])
  }

  lemma {:induction false} StillFound(before: seq<Byte>, after: seq<Byte>, last: seq<Byte>, content: seq<Byte>)
    requires before != [] && after == Insert(before, last) && (content == last || IsSet(before, content))
    ensures IsSet(after, content)
  {
    InsertKeeps(before, last, content);
  }

  /** There are no false negatives: everything in the list is found. */
  lemma {:induction false} FilterFinds(size: nat, contents: seq<seq<Byte>>, i: nat)
    requires size > 0 && i < |contents|
    ensures IsSet(FilterOf(size, contents), contents[i])
  {
    var n, content := |contents| - 1, contents[i];
    var before := FilterOf(size, contents[..n]);
    assert content == contents[n] || IsSet(before, content) by {
      if i < n {
        assert contents[..n][i] == content;
        FilterFinds(size, contents[..n], i);
      }
    }
    StillFound(before, FilterOf(size, contents), contents[n], content);
  }

  method BuildFilter(size: nat, contents: seq<seq<Byte>>) returns (r: seq<Byte>)
    requires size > 0
    ensures r == FilterOf(size, contents)
  {
    var bitmap := new Byte[size](_ => 0);
    assert bitmap[..] == Zeroed(size);
    for i := 0 to |contents|
      invariant bitmap[..] == FilterOf(size, contents[..i])
    {
      assert contents[..i + 1][..i] == contents[..i];
      Set(bitmap, contents[i]);
    }
    assert contents[..|contents|] == contents;
    r := bitmap[..];
  }
}
