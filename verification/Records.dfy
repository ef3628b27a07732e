/** Fixed-size numbers and length-prefixed records (storage-units/src/utils/serialize.rs, utils/magic.rs). */
module Records {
  import opened Wrappers
  import opened Bytes

  type Size = n: nat | n < 0x1_0000_0000

  type Offset = n: nat | n < 0x1_0000_0000_0000_0000

  // ----- big-endian numbers

  function WriteBe(v: nat, n: nat): (s: seq<Byte>)
    ensures |s| == n
  {
    if n == 0 then [] else WriteBe(v / 256, n - 1) + [v % 256]
  }

  function ReadBe(s: seq<Byte>): (v: nat) {
    if s == [] then 0 else 256 * ReadBe(s[..|s| - 1]) + s[|s| - 1]
  }

  lemma {:induction false} BeRoundTrip(v: nat, n: nat)
    requires v < Pow256(n)
    ensures ReadBe(WriteBe(v, n)) == v
  {
    if n == 0 {
      assert Pow256(0) == 1;
    } else {
      Pow256Next(n - 1);
      BeRoundTrip(v / 256, n - 1);
      assert WriteBe(v, n)[..n - 1] == WriteBe(v / 256, n - 1);
    }
  }

  lemma {:induction false} SizeRoundTrip(v: Size)
    ensures ReadBe(WriteBe(v, 4)) == v
  {
    SmallPowers();
    BeRoundTrip(v, 4);
  }

  lemma {:induction false} OffsetRoundTrip(v: Offset)
    ensures ReadBe(WriteBe(v, 8)) == v
  {
    SmallPowers();
    BeRoundTrip(v, 8);
  }

  lemma {:induction false} ReadBeBound(s: seq<Byte>)
    ensures ReadBe(s) < Pow256(|s|)
  {
    if s == [] {
      assert Pow256(0) == 1;
    } else {
      Pow256Next(|s| - 1);
      ReadBeBound(s[..|s| - 1]);
    }
  }

  lemma {:induction false} SmallPowers()
    ensures Pow256(4) == 0x1_0000_0000 && Pow256(8) == 0x1_0000_0000_0000_0000
  {
    assert Pow256(0) == 1;
    Pow256Next(0);
    Pow256Next(1);
    Pow256Next(2);
    Pow256Next(3);
    Pow256Add(4, 4);
  }

  function ReadSize(s: seq<Byte>): (v: Size)
    requires |s| == 4
    ensures v == ReadBe(s)
  {
    ReadBeBound(s);
    SmallPowers();
    ReadBe(s)
  }

  function ReadOffset(s: seq<Byte>): (v: Offset)
    requires |s| == 8
    ensures v == ReadBe(s)
  {
    ReadBeBound(s);
    SmallPowers();
    ReadBe(s)
  }

  // ----- one record

  function PadSize(len: nat): (n: nat)
    ensures n < 4 && (len + n) % 4 == 0
  {
    if len % 4 != 0 then 4 - len % 4 else 0
  }

  function Zeros(n: nat): (s: seq<Byte>)
    ensures |s| == n
  {
    seq(n, _ => 0)
  }

  /** The bytes that are written for a block: its length, its content and the padding to four bytes. */
  function Record(block: seq<Byte>): (s: seq<Byte>)
    ensures |s| == 4 + |block| + PadSize(|block|)
  {
    WriteBe(|block|, 4) + block + Zeros(PadSize(|block|))
  }

  datatype ReadError = UnexpectedEof | Oversized

  /** What reading one record from the front of the remaining bytes gives; blocks of `limit` bytes are refused. */
  function Parse(s: seq<Byte>, limit: nat): (r: Result<seq<Byte>, ReadError>) {
    if |s| < 4 then Err(UnexpectedEof)
    else
      var sz := ReadBe(s[..4]);
      if sz >= limit then Err(Oversized)
      else if |s| < 4 + sz + PadSize(sz) then Err(UnexpectedEof)
      else Ok(s[4..4 + sz])
  }

  /** A record followed by anything is read back, unless its block is over the limit. */
  lemma {:induction false} ParseRecord(block: seq<Byte>, rest: seq<Byte>, limit: nat)
    requires |block| < 0x1_0000_0000
    ensures Parse(Record(block) + rest, limit) == if |block| < limit then Ok(block) else Err(Oversized)
  {
    var s := Record(block) + rest;
    assert s[..4] == WriteBe(|block|, 4);
    SizeRoundTrip(|block|);
    assert s[4..4 + |block|] == block;
  }

  /** A record cut anywhere is never read as a block. */
  lemma {:induction false} ParseCutRecord(block: seq<Byte>, cut: nat, limit: nat)
    requires |block| < limit <= 0x1_0000_0000 && cut < |Record(block)|
    ensures Parse(Record(block)[..cut], limit) == Err(UnexpectedEof)
  {
    var s := Record(block)[..cut];
    if cut >= 4 {
      assert s[..4] == WriteBe(|block|, 4);
      SizeRoundTrip(|block|);
    }
  }

  // ----- a file of records

  function Concat(blocks: seq<seq<Byte>>): (s: seq<Byte>) {
    if blocks == [] then [] else Record(blocks[0]) + Concat(blocks[1..])
  }

  lemma {:induction false} ConcatAppend(blocks: seq<seq<Byte>>, block: seq<Byte>)
    ensures Concat(blocks + [block]) == Concat(blocks) + Record(block)
  {
    if blocks == [] {
      assert [block][1..] == [];
      assert Concat([]) == [];
      assert Concat([block]) == Record(block) + Concat([]);
      assert blocks + [block] == [block];
    } else {
      assert (blocks + [block])[1..] == blocks[1..] + [block];
      ConcatAppend(blocks[1..], block);
    }
  }

  lemma {:induction false} ConcatSplit(blocks: seq<seq<Byte>>, i: nat)
    requires i <= |blocks|
    ensures Concat(blocks) == Concat(blocks[..i]) + Concat(blocks[i..])
  {
    if i == 0 {
      assert blocks[0..] == blocks;
    } else {
      ConcatSplit(blocks[1..], i - 1);
      assert blocks[1..][..i - 1] == blocks[..i][1..];
      assert blocks[1..][i - 1..] == blocks[i..];
    }
  }

  /** How many whole records the first `cut` bytes hold. */
  function Whole(blocks: seq<seq<Byte>>, cut: nat): (m: nat)
    ensures m <= |blocks|
  {
    if blocks == [] || cut < |Record(blocks[0])| then 0
    else 1 + Whole(blocks[1..], cut - |Record(blocks[0])|)
  }

  /** It is the greatest number of leading records that fit. */
  lemma {:induction false} WholeIsGreatest(blocks: seq<seq<Byte>>, cut: nat, m: nat)
    requires m <= |blocks|
    ensures |Concat(blocks[..m])| <= cut <==> m <= Whole(blocks, cut)
    decreases |blocks|
  {
    if m > 0 {
      assert blocks[..m][1..] == blocks[1..][..m - 1];
      if cut >= |Record(blocks[0])| {
        WholeIsGreatest(blocks[1..], cut - |Record(blocks[0])|, m - 1);
      }
    }
  }

  /** Reading record after record until one is not complete. */
  function ReadAll(s: seq<Byte>, limit: nat): (r: seq<seq<Byte>>)
    decreases |s|
  {
    match Parse(s, limit)
    case Err(_) => []
    case Ok(block) => [block] + ReadAll(s[|Record(block)|..], limit)
  }

  predicate Below(blocks: seq<seq<Byte>>, limit: nat) {
    forall i :: 0 <= i < |blocks| ==> |blocks[i]| < limit
  }

  lemma {:induction false} ReadAllRecord(block: seq<Byte>, rest: seq<Byte>, limit: nat)
    requires |block| < limit <= 0x1_0000_0000
    ensures ReadAll(Record(block) + rest, limit) == [block] + ReadAll(rest, limit)
  {
    ParseRecord(block, rest, limit);
    assert (Record(block) + rest)[|Record(block)|..] == rest;
  }

  lemma {:induction false} CutConcat(blocks: seq<seq<Byte>>, cut: nat)
    requires blocks != [] && cut <= |Concat(blocks)|
    ensures cut < |Record(blocks[0])| ==> Concat(blocks)[..cut] == Record(blocks[0])[..cut]
    ensures cut >= |Record(blocks[0])| ==>
              Concat(blocks)[..cut] == Record(blocks[0]) + Concat(blocks[1..])[..cut - |Record(blocks[0])|]
  {
  }

  /** A file cut at any byte reads as the records that are wholly within it, and nothing else. */
  lemma {:induction false} CutFileReadsPrefix(blocks: seq<seq<Byte>>, cut: nat, limit: nat)
    requires Below(blocks, limit) && limit <= 0x1_0000_0000 && cut <= |Concat(blocks)|
    ensures ReadAll(Concat(blocks)[..cut], limit) == blocks[..Whole(blocks, cut)]
    decreases |blocks|
  {
    if blocks != [] {
      CutConcat(blocks, cut);
      var size := |Record(blocks[0])|;
      if cut < size {
        ParseCutRecord(blocks[0], cut, limit);
      } else {
        ReadAllRecord(blocks[0], Concat(blocks[1..])[..cut - size], limit);
        CutFileReadsPrefix(blocks[1..], cut - size, limit);
        PrefixCons(blocks, Whole(blocks[1..], cut - size));
      }
    }
  }

  lemma {:induction false} PrefixCons(blocks: seq<seq<Byte>>, m: nat)
    requires m < |blocks|
    ensures blocks[..m + 1] == [blocks[0]] + blocks[1..][..m]
  {
  }
}
