/** Sorting, counting and first occurrences of the entries of an index. */
module Entries {
  import opened Bytes
  import opened Records

  type Hash = s: seq<Byte> | |s| == 32 witness seq(32, _ => 0)

  datatype Entry = Entry(hash: Hash, offset: Offset)

  // ----- the order of hashes

  predicate LexLeq(a: seq<Byte>, b: seq<Byte>) {
    a == [] || (b != [] && (a[0] < b[0] || (a[0] == b[0] && LexLeq(a[1..], b[1..]))))
  }

  lemma {:induction false} LexTotal(a: seq<Byte>, b: seq<Byte>)
    ensures LexLeq(a, b) || LexLeq(b, a)
  {
    if a != [] && b != [] && a[0] == b[0] {
      LexTotal(a[1..], b[1..]);
    }
  }

  lemma {:induction false} LexTransitive(a: seq<Byte>, b: seq<Byte>, c: seq<Byte>)
    requires LexLeq(a, b) && LexLeq(b, c)
    ensures LexLeq(a, c)
  {
    if a != [] && a[0] == b[0] == c[0] {
      LexTransitive(a[1..], b[1..], c[1..]);
    }
  }

  // ----- the stable sort of the entries by hash

  ghost predicate Sorted(s: seq<Entry>) {
    forall i, j :: 0 <= i < j < |s| ==> LexLeq(s[i].hash, s[j].hash)
  }

  /** Before the first entry that is not smaller. */
  function Insert(e: Entry, s: seq<Entry>): (r: seq<Entry>) {
    if s == [] then [e]
    else if LexLeq(e.hash, s[0].hash) then [e] + s
    else [s[0]] + Insert(e, s[1..])
  }

  function StableSort(s: seq<Entry>): (r: seq<Entry>) {
    if s == [] then [] else Insert(s[0], StableSort(s[1..]))
  }

  ghost predicate AllAbove(x: Hash, s: seq<Entry>) {
    forall i :: 0 <= i < |s| ==> LexLeq(x, s[i].hash)
  }

  lemma {:induction false} InsertAbove(x: Hash, e: Entry, s: seq<Entry>)
    requires AllAbove(x, s) && LexLeq(x, e.hash)
    ensures AllAbove(x, Insert(e, s))
  {
    if s != [] && !LexLeq(e.hash, s[0].hash) {
      InsertAbove(x, e, s[1..]);
    }
  }

  lemma {:induction false} SortedCons(e: Entry, s: seq<Entry>)
    requires Sorted(s) && AllAbove(e.hash, s)
    ensures Sorted([e] + s)
  {
  }

  lemma {:induction false} InsertSorted(e: Entry, s: seq<Entry>)
    requires Sorted(s)
    ensures Sorted(Insert(e, s))
  {
    if s != [] {
      if LexLeq(e.hash, s[0].hash) {
        forall i | 0 <= i < |s| ensures LexLeq(e.hash, s[i].hash) {
          if i > 0 {
            LexTransitive(e.hash, s[0].hash, s[i].hash);
          }
        }
        SortedCons(e, s);
      } else {
        LexTotal(e.hash, s[0].hash);
        InsertSorted(e, s[1..]);
        InsertAbove(s[0].hash, e, s[1..]);
        SortedCons(s[0], Insert(e, s[1..]));
      }
    }
  }

  lemma {:induction false} SortSorted(s: seq<Entry>)
    ensures Sorted(StableSort(s))
  {
    if s != [] {
      SortSorted(s[1..]);
      InsertSorted(s[0], StableSort(s[1..]));
    }
  }

  /** The offsets recorded for a hash, in order. */
  function OffsetsFor(s: seq<Entry>, h: Hash): (r: seq<Offset>) {
    if s == [] then []
    else if s[0].hash == h then [s[0].offset] + OffsetsFor(s[1..], h)
    else OffsetsFor(s[1..], h)
  }

  lemma {:induction false} InsertOffsets(e: Entry, s: seq<Entry>, h: Hash)
    ensures OffsetsFor(Insert(e, s), h) == OffsetsFor([e] + s, h)
  {
    assert ([e] + s)[1..] == s;
    if s != [] && !LexLeq(e.hash, s[0].hash) {
      InsertOffsets(e, s[1..], h);
      assert ([e] + s[1..])[1..] == s[1..];
      assert Insert(e, s)[1..] == Insert(e, s[1..]);
      if e.hash == h && s[0].hash == h {
        LexTotal(e.hash, e.hash);
      }
    }
  }

  /** Sorting neither loses nor adds an entry, nor reorders those of one hash. */
  lemma {:induction false} SortOffsets(s: seq<Entry>, h: Hash)
    ensures OffsetsFor(StableSort(s), h) == OffsetsFor(s, h)
  {
    if s != [] {
      SortOffsets(s[1..], h);
      var t := StableSort(s[1..]);
      InsertOffsets(s[0], t, h);
      assert ([s[0]] + t)[1..] == t;
    }
  }

  // ----- how many entries have a first byte up to some value

  function CountUpTo(s: seq<Entry>, c: int): (n: nat)
    ensures n <= |s|
  {
    if s == [] then 0 else (if s[0].hash[0] <= c then 1 else 0) + CountUpTo(s[1..], c)
  }

  lemma {:induction false} InsertCount(e: Entry, s: seq<Entry>, c: int)
    ensures |Insert(e, s)| == |s| + 1 && CountUpTo(Insert(e, s), c) == CountUpTo([e] + s, c)
  {
    assert ([e] + s)[1..] == s;
    if s != [] && !LexLeq(e.hash, s[0].hash) {
      InsertCount(e, s[1..], c);
      assert ([e] + s[1..])[1..] == s[1..];
      assert Insert(e, s)[1..] == Insert(e, s[1..]);
    }
  }

  lemma {:induction false} SortCount(s: seq<Entry>, c: int)
    ensures |StableSort(s)| == |s| && CountUpTo(StableSort(s), c) == CountUpTo(s, c)
  {
    if s != [] {
      SortCount(s[1..], c);
      var t := StableSort(s[1..]);
      InsertCount(s[0], t, c);
      assert ([s[0]] + t)[1..] == t;
    }
  }

  lemma {:induction false} CountAppend(s: seq<Entry>, e: Entry, c: int)
    ensures CountUpTo(s + [e], c) == CountUpTo(s, c) + if e.hash[0] <= c then 1 else 0
  {
    if s == [] {
      assert s + [e] == [e];
      assert [e][1..] == [];
    } else {
      assert (s + [e])[1..] == s[1..] + [e];
      CountAppend(s[1..], e, c);
    }
  }

  lemma {:induction false} CountNone(s: seq<Entry>, c: int)
    requires forall i :: 0 <= i < |s| ==> s[i].hash[0] > c
    ensures CountUpTo(s, c) == 0
  {
    if s != [] {
      CountNone(s[1..], c);
    }
  }

  lemma {:induction false} CountAll(s: seq<Entry>, c: int)
    requires c >= 255
    ensures CountUpTo(s, c) == |s|
  {
    if s != [] {
      CountAll(s[1..], c);
    }
  }

  /** Among sorted entries, those with a first byte up to c come first. */
  lemma {:induction false} CountSplits(s: seq<Entry>, c: int, j: nat)
    requires Sorted(s) && j < |s|
    ensures j < CountUpTo(s, c) <==> s[j].hash[0] <= c
  {
    if s[0].hash[0] <= c {
      if j > 0 {
        CountSplits(s[1..], c, j - 1);
      }
    } else {
      forall i | 0 <= i < |s| ensures s[i].hash[0] > c {
        assert i > 0 ==> LexLeq(s[0].hash, s[i].hash);
      }
      CountNone(s, c);
    }
  }

  // ----- the first entry of a hash

  ghost predicate IsFirst(s: seq<Entry>, h: Hash, j: nat) {
    j < |s| && s[j].hash == h && forall i :: 0 <= i < j ==> s[i].hash != h
  }

  lemma {:induction false} FirstOffset(s: seq<Entry>, h: Hash, j: nat)
    requires IsFirst(s, h, j)
    ensures OffsetsFor(s, h) != [] && OffsetsFor(s, h)[0] == s[j].offset
  {
    if j > 0 {
      assert s[0].hash != h;
      FirstOffset(s[1..], h, j - 1);
    }
  }

  lemma {:induction false} NoOffset(s: seq<Entry>, h: Hash)
    requires forall i :: 0 <= i < |s| ==> s[i].hash != h
    ensures OffsetsFor(s, h) == []
  {
    if s != [] {
      NoOffset(s[1..], h);
    }
  }
}

/** The bytes of an index file, and where its tables are. */
module IndexLayout {
  import opened Bytes
  import opened Records
  import opened Header
  import opened Entries

  const FILE_TYPE: Size := 0x494e4458
  const VERSION: Size := 1

  // ----- tables of fixed-size cells

  ghost predicate Cells(list: seq<seq<Byte>>, n: nat) {
    forall i :: 0 <= i < |list| ==> |list[i]| == n
  }

  function Flat(list: seq<seq<Byte>>): (s: seq<Byte>) {
    if list == [] then [] else list[0] + Flat(list[1..])
  }

  lemma {:induction false} FlatAppend(list: seq<seq<Byte>>, x: seq<Byte>)
    ensures Flat(list + [x]) == Flat(list) + x
  {
    if list == [] {
      assert list + [x] == [x];
      assert [x][1..] == [];
    } else {
      assert (list + [x])[1..] == list[1..] + [x];
      FlatAppend(list[1..], x);
    }
  }

  lemma {:induction false} FlatLength(list: seq<seq<Byte>>, n: nat)
    requires Cells(list, n)
    ensures |Flat(list)| == |list| * n
  {
    if list != [] {
      FlatLength(list[1..], n);
      Distribute(|list| - 1, 1, n);
    }
  }

  /** Cell j of a table of n-byte cells starts at byte k. */
  lemma {:induction false} FlatAt(list: seq<seq<Byte>>, n: nat, j: nat, k: nat)
    requires Cells(list, n) && j < |list| && k == j * n
    ensures k + n <= |Flat(list)| && Flat(list)[k..k + n] == list[j]
  {
    if j == 0 {
      assert Flat(list)[..n] == list[0];
    } else {
      Distribute(j - 1, 1, n);
      FlatAt(list[1..], n, j - 1, k - n);
      ShiftSlice(list[0], Flat(list[1..]), k - n, n);
    }
  }

  lemma {:induction false} ShiftSlice(a: seq<Byte>, b: seq<Byte>, from: nat, n: nat)
    requires from + n <= |b|
    ensures (a + b)[|a| + from..|a| + from + n] == b[from..from + n]
  {
  }

  // ----- the parts of the file

  function FanoutCells(fanout: seq<Size>): (list: seq<seq<Byte>>) {
    seq(|fanout|, i requires 0 <= i < |fanout| => WriteBe(fanout[i], 4))
  }

  function HashCells(sorted: seq<Entry>): (list: seq<seq<Byte>>) {
    seq(|sorted|, i requires 0 <= i < |sorted| => sorted[i].hash)
  }

  function OffsetCells(sorted: seq<Entry>): (list: seq<seq<Byte>>) {
    seq(|sorted|, i requires 0 <= i < |sorted| => WriteBe(sorted[i].offset, 8))
  }

  /** The part after the file header: bloom size, zero padding and fanout. */
  function HeadBytes(bloomSize: Size, fanout: seq<Size>): (s: seq<Byte>) {
    WriteBe(bloomSize, 4) + WriteBe(0, 4) + Flat(FanoutCells(fanout))
  }

  /** Everything before the table of hashes. */
  function FrontBytes(bloom: seq<Byte>, fanout: seq<Size>): (s: seq<Byte>)
    requires |bloom| < 0x1_0000_0000
  {
    HeaderBytes(FILE_TYPE, VERSION) + HeadBytes(|bloom|, fanout) + bloom
  }

  function IndexBytes(bloom: seq<Byte>, fanout: seq<Size>, sorted: seq<Entry>): (s: seq<Byte>)
    requires |bloom| < 0x1_0000_0000
  {
    FrontBytes(bloom, fanout) + Flat(HashCells(sorted)) + Flat(OffsetCells(sorted))
  }

  function OffsetHashes(bloomSize: nat): (n: nat) {
    16 + 8 + 1024 + bloomSize
  }

  function OffsetOffsets(bloomSize: nat, hashes: nat): (n: nat) {
    OffsetHashes(bloomSize) + 32 * hashes
  }

  lemma {:induction false} HeadLength(bloomSize: Size, fanout: seq<Size>)
    requires |fanout| == 256
    ensures |HeadBytes(bloomSize, fanout)| == 1032
  {
    FlatLength(FanoutCells(fanout), 4);
  }

  lemma {:induction false} SliceInside(a: seq<Byte>, b: seq<Byte>, c: seq<Byte>, from: nat, n: nat)
    requires from + n <= |b|
    ensures |a| + from + n <= |a + b + c| && (a + b + c)[|a| + from..|a| + from + n] == b[from..from + n]
  {
  }

  lemma {:induction false} FrontLength(bloom: seq<Byte>, fanout: seq<Size>)
    requires |bloom| < 0x1_0000_0000 && |fanout| == 256
    ensures |FrontBytes(bloom, fanout)| == OffsetHashes(|bloom|)
  {
    HeadLength(|bloom|, fanout);
  }

  /** Cell j of a table inside a file. */
  lemma {:induction false} CellAt(data: seq<Byte>, front: seq<Byte>, cells: seq<seq<Byte>>, rest: seq<Byte>, n: nat,
                                  j: nat, k: nat)
    requires data == front + Flat(cells) + rest && Cells(cells, n) && j < |cells| && k == j * n
    ensures |front| + k + n <= |data| && data[|front| + k..|front| + k + n] == cells[j]
  {
    FlatAt(cells, n, j, k);
    SliceInside(front, Flat(cells), rest, k, n);
  }

  ghost predicate HashCell(data: seq<Byte>, at: nat, h: Hash) {
    at + 32 <= |data| && data[at..at + 32] == h
  }

  ghost predicate OffsetCell(data: seq<Byte>, at: nat, offset: Offset) {
    at + 8 <= |data| && ReadBe(data[at..at + 8]) == offset
  }

  /** The hashes and the offsets of the entries are where the reader looks for them. */
  ghost predicate HashTable(data: seq<Byte>, base: nat, s: seq<Entry>) {
    forall j :: 0 <= j < |s| ==> HashCell(data, base + 32 * j, s[j].hash)
  }

  ghost predicate OffsetTable(data: seq<Byte>, base: nat, s: seq<Entry>) {
    forall j :: 0 <= j < |s| ==> OffsetCell(data, base + 8 * j, s[j].offset)
  }

  lemma {:induction false} HashesWritten(data: seq<Byte>, front: seq<Byte>, s: seq<Entry>, rest: seq<Byte>)
    requires data == front + Flat(HashCells(s)) + rest
    ensures HashTable(data, |front|, s)
  {
    forall j | 0 <= j < |s| ensures HashCell(data, |front| + 32 * j, s[j].hash) {
      CellAt(data, front, HashCells(s), rest, 32, j, 32 * j);
    }
  }

  lemma {:induction false} OffsetsWritten(data: seq<Byte>, front: seq<Byte>, s: seq<Entry>)
    requires data == front + Flat(OffsetCells(s))
    ensures OffsetTable(data, |front|, s)
  {
    assert data == front + Flat(OffsetCells(s)) + [];
    forall j | 0 <= j < |s| ensures OffsetCell(data, |front| + 8 * j, s[j].offset) {
      CellAt(data, front, OffsetCells(s), [], 8, j, 8 * j);
      OffsetRoundTrip(s[j].offset);
    }
  }

  lemma {:induction false} TablesAfter(data: seq<Byte>, front: seq<Byte>, s: seq<Entry>)
    requires data == front + Flat(HashCells(s)) + Flat(OffsetCells(s))
    ensures HashTable(data, |front|, s) && OffsetTable(data, |front| + 32 * |s|, s)
  {
    FlatLength(HashCells(s), 32);
    HashesWritten(data, front, s, Flat(OffsetCells(s)));
    OffsetsWritten(data, front + Flat(HashCells(s)), s);
  }

  lemma {:induction false} TablesWritten(data: seq<Byte>, bloom: seq<Byte>, fanout: seq<Size>, sorted: seq<Entry>)
    requires |bloom| < 0x1_0000_0000 && |fanout| == 256 && data == IndexBytes(bloom, fanout, sorted)
    ensures HashTable(data, OffsetHashes(|bloom|), sorted)
    ensures OffsetTable(data, OffsetOffsets(|bloom|, |sorted|), sorted)
  {
    FrontLength(bloom, fanout);
    TablesAfter(data, FrontBytes(bloom, fanout), sorted);
  }
}

/** Writing and searching index files (storage-units/src/indexfile.rs). */
module IndexFile {
  import opened Wrappers
  import opened Bytes
  import opened Records
  import opened Files
  import opened Header
  import opened Entries
  import opened IndexLayout
  import Bloom

  function DefaultBloomSize(entries: nat): (n: Size) {
    if entries < 0x1000 then 4096
    else if entries < 0x5000 then 8192
    else if entries < 0x22000 then 16384
    else 32768
  }

  function Zip(hashes: seq<Hash>, offsets: seq<Offset>): (s: seq<Entry>)
    requires |hashes| == |offsets|
  {
    seq(|hashes|, i requires 0 <= i < |hashes| => Entry(hashes[i], offsets[i]))
  }

  /** The cumulative counts by first byte. */
  ghost predicate IsFanout(fanout: seq<Size>, entries: seq<Entry>) {
    |fanout| == 256 && forall c :: 0 <= c < 256 ==> fanout[c] == CountUpTo(entries, c)
  }

  datatype Window = Window(start: nat, nb: int)

  datatype Lookup = Lookup(bloomSize: Size, fanout: seq<Size>, bloom: seq<Byte>) {

    /** The window of the entries whose hash starts with a byte. */
    function GetIndexerByHier(hier: Byte): (w: Window)
      requires |fanout| == 256
    {
      if hier == 0 then Window(0, fanout[0])
      else
        var start: int, end: int := fanout[hier - 1], fanout[hier];
        Window(start, end - start)
    }

    /** No entry of the hash is possible: its window is empty, or the filter does not have it. */
    predicate Excludes(blk: Hash)
      requires |fanout| == 256 && bloom != []
    {
      GetIndexerByHier(blk[0]).nb == 0 || !Bloom.IsSet(bloom, blk)
    }

    function GetTotal(): (n: nat)
      requires |fanout| == 256
    {
      fanout[255]
    }
  }

  /** An entry of the sorted table is inside the window of a byte exactly when its hash starts with that byte. */
  lemma {:induction false} WindowHolds(lookup: Lookup, entries: seq<Entry>, hier: Byte, j: nat)
    requires IsFanout(lookup.fanout, entries) && j < |entries|
    ensures var w := lookup.GetIndexerByHier(hier);
            && |StableSort(entries)| == |entries|
            && (w.start <= j < w.start + w.nb <==> StableSort(entries)[j].hash[0] == hier)
  {
    var sorted := StableSort(entries);
    SortSorted(entries);
    SortCount(entries, hier);
    SortCount(entries, hier - 1);
    CountSplits(sorted, hier, j);
    CountSplits(sorted, hier - 1, j);
    if hier == 0 {
      CountNone(entries, -1);
    }
  }

  lemma {:induction false} CountMonotone(s: seq<Entry>, c: int, d: int)
    requires c <= d
    ensures CountUpTo(s, c) <= CountUpTo(s, d)
  {
    if s != [] {
      CountMonotone(s[1..], c, d);
    }
  }

  lemma {:induction false} WindowInside(lookup: Lookup, entries: seq<Entry>, hier: Byte)
    requires IsFanout(lookup.fanout, entries)
    ensures var w := lookup.GetIndexerByHier(hier);
            0 <= w.nb && w.start + w.nb <= |entries|
  {
    CountMonotone(entries, hier - 1, hier);
  }

  // ----- counting

  /** Number of entries whose hash starts with a byte. */
  function CountAt(s: seq<Entry>, c: Byte): (n: int) {
    CountUpTo(s, c) - CountUpTo(s, c - 1)
  }

  lemma {:induction false} CountAtMost(s: seq<Entry>, c: int)
    ensures CountUpTo(s, c) <= |s|
  {
    if s != [] {
      CountAtMost(s[1..], c);
    }
  }

  lemma {:induction false} CountStep(s: seq<Entry>, i: nat, c: Byte)
    requires i < |s|
    ensures CountAt(s[..i + 1], c) == CountAt(s[..i], c) + if s[i].hash[0] == c then 1 else 0
  {
    assert s[..i + 1] == s[..i] + [s[i]];
    CountAppend(s[..i], s[i], c);
    CountAppend(s[..i], s[i], c - 1);
  }

  /** The counts by first byte. */
  method CountByFirstByte(hashes: seq<Hash>, ghost entries: seq<Entry>) returns (abs: seq<nat>)
    requires |entries| == |hashes| && forall i :: 0 <= i < |hashes| ==> entries[i].hash == hashes[i]
    ensures |abs| == 256 && forall c: Byte :: abs[c] == CountAt(entries, c)
  {
    var counts := new int[256](_ => 0);
    for i := 0 to |hashes|
      invariant forall c: Byte :: counts[c] == CountAt(entries[..i], c)
    {
      var ofs := hashes[i][0];
      forall c: Byte ensures CountAt(entries[..i + 1], c) == CountAt(entries[..i], c) + if c == ofs then 1 else 0 {
        CountStep(entries, i, c);
      }
      counts[ofs] := counts[ofs] + 1;
    }
    assert entries[..|hashes|] == entries;
    forall c: Byte ensures counts[c] >= 0 {
      CountMonotone(entries, c - 1, c);
    }
    abs := seq(256, c requires 0 <= c < 256 reads counts => counts[c]);
  }

  /** The cumulative counts by first byte, cut to 32 bits. */
  ghost predicate IsCutFanout(fanout: seq<Size>, entries: seq<Entry>) {
    |fanout| == 256 && forall c :: 0 <= c < 256 ==> fanout[c] == CountUpTo(entries, c) % 0x1_0000_0000
  }

  lemma {:induction false} NothingCut(fanout: seq<Size>, entries: seq<Entry>)
    requires IsCutFanout(fanout, entries) && |entries| < 0x1_0000_0000
    ensures IsFanout(fanout, entries)
  {
    forall c | 0 <= c < 256 ensures fanout[c] == CountUpTo(entries, c) {
      CountAtMost(entries, c);
    }
  }

  /**
   The two loops that count hashes by first byte and sum the counts up. From 2^32 hashes on the 32-bit sum overflows:
   a build with overflow checks panics, a build that wraps around cuts the counts.
   */
  method ComputeFanout(hashes: seq<Hash>, ghost entries: seq<Entry>, wraps: bool) returns (r: Option<seq<Size>>)
    requires |entries| == |hashes| && forall i :: 0 <= i < |hashes| ==> entries[i].hash == hashes[i]
    ensures r.None? <==> !wraps && |hashes| >= 0x1_0000_0000
    ensures r.Some? ==> IsCutFanout(r.value, entries)
    ensures r.Some? && |hashes| < 0x1_0000_0000 ==> IsFanout(r.value, entries)
  {
    var abs := CountByFirstByte(hashes, entries);
    r := SumCounts(abs, entries, wraps);
    if r.Some? && |hashes| < 0x1_0000_0000 {
      NothingCut(r.value, entries);
    }
  }

  /** The sum of the counts up to a byte, cut to 32 bits; without wrap-around nothing has been cut. */
  ghost predicate CutSum(sum: nat, count: nat, wraps: bool) {
    sum == count % 0x1_0000_0000 && (!wraps ==> sum == count)
  }

  lemma {:induction false} CutSumNext(sum: nat, count: nat, more: nat, wraps: bool)
    requires CutSum(sum, count, wraps) && (wraps || sum + more < 0x1_0000_0000)
    ensures CutSum((sum + more) % 0x1_0000_0000, count + more, wraps)
  {
  }

  method SumCounts(abs: seq<nat>, ghost entries: seq<Entry>, wraps: bool) returns (r: Option<seq<Size>>)
    requires |abs| == 256 && forall c: Byte :: abs[c] == CountAt(entries, c)
    ensures r.None? <==> !wraps && |entries| >= 0x1_0000_0000
    ensures r.Some? ==> IsCutFanout(r.value, entries)
  {
    var fanout: seq<Size>, sum: Size := [], 0;
    CountNone(entries, -1);
    for c := 0 to 256
      invariant CutSum(sum, CountUpTo(entries, c - 1), wraps) && |fanout| == c
      invariant forall d :: 0 <= d < c ==> fanout[d] == CountUpTo(entries, d) % 0x1_0000_0000
    {
      assert CountUpTo(entries, c - 1) + abs[c] == CountUpTo(entries, c);
      CountAtMost(entries, c);
      if !wraps && sum + abs[c] >= 0x1_0000_0000 {
        return None;
      }
      CutSumNext(sum, CountUpTo(entries, c - 1), abs[c], wraps);
      sum := (sum + abs[c]) % 0x1_0000_0000;
      fanout := fanout + [sum];
    }
    CountAll(entries, 255);
    return Some(fanout);
  }

  // ----- writing

  class Index {
    var hashes: seq<Hash>
    var offsets: seq<Offset>

    constructor ()
      ensures hashes == [] && offsets == []
    {
      hashes, offsets := [], [];
    }

    method Append(hash: Hash, offset: Offset)
      modifies this
      ensures hashes == old(hashes) + [hash] && offsets == old(offsets) + [offset]
    {
      hashes := hashes + [hash];
      offsets := offsets + [offset];
    }

    /** The entries as they were appended. */
    ghost function Entries(): (s: seq<Entry>)
      requires |hashes| == |offsets|
      reads this
    {
      Zip(hashes, offsets)
    }

    /**
     The file holds the entries sorted by hash, with their fanout and a bloom filter of the hashes. With 2^32 entries
     or more the counts overflow: a build with overflow checks panics after the header has been written, a build that
     wraps around writes counts that are cut.
     */
    method WriteToTmpfile(tmpfile: Handle, wraps: bool) returns (r: Option<Lookup>)
      requires |hashes| == |offsets| && tmpfile.data == []
      modifies tmpfile
      ensures r.None? <==> !wraps && |hashes| >= 0x1_0000_0000
      ensures r.None? ==> tmpfile.data == HeaderBytes(FILE_TYPE, VERSION)
      ensures r.Some? && |hashes| < 0x1_0000_0000 ==> IsLookup(r.value, hashes, offsets)
      ensures r.Some? ==> |r.value.bloom| < 0x1_0000_0000 && IsCutFanout(r.value.fanout, Entries())
      ensures r.Some? ==> tmpfile.data == IndexBytes(r.value.bloom, r.value.fanout, StableSort(Entries()))
    {
      WriteHeader(tmpfile, FILE_TYPE, VERSION);
      assert tmpfile.data == HeaderBytes(FILE_TYPE, VERSION);
      var bloomSize := DefaultBloomSize(|hashes|);
      var entries := Zip(hashes, offsets);
      var fanout := ComputeFanout(hashes, entries, wraps);
      if fanout.None? {
        return None;
      }
      var bloom := BuildBloom(bloomSize, hashes, entries);
      WriteFront(tmpfile, bloom, fanout.value);
      var sorted := StableSort(entries);
      WriteHashes(tmpfile, sorted);
      WriteOffsets(tmpfile, sorted);
      return Some(Lookup(bloomSize, fanout.value, bloom));
    }
  }

  /** The filter finds the hash of every entry. */
  ghost predicate Covers(bloom: seq<Byte>, entries: seq<Entry>) {
    bloom != [] && forall i :: 0 <= i < |entries| ==> Bloom.IsSet(bloom, entries[i].hash)
  }

  /** The lookup that belongs to an index with these entries. */
  ghost predicate IsLookup(lookup: Lookup, hashes: seq<Hash>, offsets: seq<Offset>) {
    && |hashes| == |offsets| && lookup.bloomSize == |lookup.bloom|
    && IsFanout(lookup.fanout, Zip(hashes, offsets)) && Covers(lookup.bloom, Zip(hashes, offsets))
  }

  method BuildBloom(size: Size, hashes: seq<Hash>, ghost entries: seq<Entry>) returns (bloom: seq<Byte>)
    requires size > 0 && |entries| == |hashes| && forall i :: 0 <= i < |hashes| ==> entries[i].hash == hashes[i]
    ensures |bloom| == size && Covers(bloom, entries)
  {
    bloom := Bloom.BuildFilter(size, hashes);
    forall i | 0 <= i < |entries| ensures Bloom.IsSet(bloom, entries[i].hash) {
      Bloom.FilterFinds(size, hashes, i);
    }
  }

  method WriteFront(tmpfile: Handle, bloom: seq<Byte>, fanout: seq<Size>)
    requires tmpfile.data == HeaderBytes(FILE_TYPE, VERSION) && |bloom| < 0x1_0000_0000 && |fanout| == 256
    modifies tmpfile
    ensures tmpfile.data == FrontBytes(bloom, fanout)
  {
    var hdr := HeadBuffer(|bloom|, fanout);
    tmpfile.WriteAll(hdr);
    tmpfile.WriteAll(bloom);
  }

  /** A table written cell by cell. */
  lemma {:induction false} NextCell(front: seq<Byte>, cells: seq<seq<Byte>>, i: nat, done: seq<Byte>)
    requires i < |cells| && done == front + Flat(cells[..i])
    ensures done + cells[i] == front + Flat(cells[..i + 1])
  {
    assert cells[..i + 1] == cells[..i] + [cells[i]];
    FlatAppend(cells[..i], cells[i]);
  }

  /** The big-endian numbers written into the header buffer at their offsets. */
  method HeadBuffer(bloomSize: Size, fanout: seq<Size>) returns (hdr: seq<Byte>)
    requires |fanout| == 256
    ensures hdr == HeadBytes(bloomSize, fanout)
  {
    var buf := new Byte[1032](_ => 0);
    WriteSizeAt(buf, 0, bloomSize);
    WriteSizeAt(buf, 4, 0);
    ghost var cells := FanoutCells(fanout);
    ghost var front := WriteBe(bloomSize, 4) + WriteBe(0, 4);
    ghost var done := buf[..8];
    assert done == front + Flat(cells[..0]);
    for i := 0 to 256
      invariant buf[..8 + 4 * i] == done == front + Flat(cells[..i])
    {
      NextCell(front, cells, i, done);
      WriteSizeAt(buf, 8 + i * 4, fanout[i]);
      done := done + cells[i];
    }
    hdr := buf[..];
    assert cells[..256] == cells && buf[..1032] == hdr;
  }

  method WriteSizeAt(buf: array<Byte>, ofs: nat, v: Size)
    requires ofs + 4 <= buf.Length
    modifies buf
    ensures buf[..ofs] == old(buf[..ofs]) && buf[ofs..ofs + 4] == WriteBe(v, 4) && buf[ofs + 4..] == old(buf[ofs + 4..])
    ensures buf[..ofs + 4] == old(buf[..ofs]) + WriteBe(v, 4)
  {
    var s := WriteBe(v, 4);
    buf[ofs] := s[0];
    buf[ofs + 1] := s[1];
    buf[ofs + 2] := s[2];
    buf[ofs + 3] := s[3];
    assert buf[ofs..ofs + 4] == s;
  }

  method WriteHashes(f: Handle, sorted: seq<Entry>)
    modifies f
    ensures f.data == old(f.data) + Flat(HashCells(sorted))
  {
    ghost var cells := HashCells(sorted);
    for i := 0 to |sorted|
      invariant f.data == old(f.data) + Flat(cells[..i])
    {
      NextCell(old(f.data), cells, i, f.data);
      f.WriteAll(sorted[i].hash);
    }
    assert cells[..|sorted|] == cells;
  }

  method WriteOffsets(f: Handle, sorted: seq<Entry>)
    modifies f
    ensures f.data == old(f.data) + Flat(OffsetCells(sorted))
  {
    ghost var cells := OffsetCells(sorted);
    for i := 0 to |sorted|
      invariant f.data == old(f.data) + Flat(cells[..i])
    {
      NextCell(old(f.data), cells, i, f.data);
      f.WriteAll(WriteBe(sorted[i].offset, 8));
    }
    assert cells[..|sorted|] == cells;
  }

  // ----- reading

  lemma {:induction false} FrontIsFirst(bloom: seq<Byte>, fanout: seq<Size>, sorted: seq<Entry>, rest: seq<Byte>)
    requires |bloom| < 0x1_0000_0000 && rest == Flat(HashCells(sorted)) + Flat(OffsetCells(sorted))
    ensures IndexBytes(bloom, fanout, sorted) ==
            HeaderBytes(FILE_TYPE, VERSION) + (HeadBytes(|bloom|, fanout) + (bloom + rest))
  {
  }

  datatype IndexError = HeaderErr(header: HeaderError) | IndexEof

  function ParsedFanout(hdr: seq<Byte>, n: nat): (fanout: seq<Size>)
    requires |hdr| == 1032 && n <= 256
    ensures |fanout| == n
  {
    if n == 0 then [] else ParsedFanout(hdr, n - 1) + [ReadSize(hdr[8 + (n - 1) * 4..8 + n * 4])]
  }

  /** What reading the front of a file comes to, for any file. */
  function ParsedLookup(data: seq<Byte>): (r: Result<Lookup, IndexError>) {
    match CheckedHeader(data, FILE_TYPE, VERSION, VERSION)
    case Err(e) => Err(HeaderErr(e))
    case Ok(_) => ParsedHead(data[16..])
  }

  function ParsedHead(rest: seq<Byte>): (r: Result<Lookup, IndexError>) {
    if |rest| < 1032 then Err(IndexEof)
    else
      var bloomSize := ReadSize(rest[..4]);
      if |rest| < 1032 + bloomSize then Err(IndexEof)
      else Ok(Lookup(bloomSize, ParsedFanout(rest[..1032], 256), rest[1032..1032 + bloomSize]))
  }

  /** The count for byte j is at its place in the header. */
  ghost predicate CountAtPlace(hdr: seq<Byte>, fanout: seq<Size>, j: nat)
    requires |hdr| == 1032 && |fanout| == 256 && j < 256
  {
    ReadSize(hdr[8 + j * 4..8 + (j + 1) * 4]) == fanout[j]
  }

  lemma {:induction false} FanoutReadsBack(hdr: seq<Byte>, fanout: seq<Size>, n: nat)
    requires |hdr| == 1032 && |fanout| == 256 && n <= 256
    requires forall j {:trigger CountAtPlace(hdr, fanout, j)} :: 0 <= j < n ==> CountAtPlace(hdr, fanout, j)
    ensures ParsedFanout(hdr, n) == fanout[..n]
  {
    if n > 0 {
      FanoutReadsBack(hdr, fanout, n - 1);
      assert CountAtPlace(hdr, fanout, n - 1);
      assert fanout[..n] == fanout[..n - 1] + [fanout[n - 1]];
    }
  }

  lemma {:induction false} CountReadsBack(hdr: seq<Byte>, bloomSize: Size, fanout: seq<Size>, j: nat)
    requires |fanout| == 256 && hdr == HeadBytes(bloomSize, fanout) && |hdr| == 1032 && j < 256
    ensures hdr[8 + j * 4..8 + (j + 1) * 4] == WriteBe(fanout[j], 4)
    ensures CountAtPlace(hdr, fanout, j)
  {
    var front := WriteBe(bloomSize, 4) + WriteBe(0, 4);
    assert hdr == front + Flat(FanoutCells(fanout)) + [];
    CellAt(hdr, front, FanoutCells(fanout), [], 4, j, j * 4);
    SizeRoundTrip(fanout[j]);
  }

  lemma {:induction false} HeadReadsBack(bloom: seq<Byte>, fanout: seq<Size>, rest: seq<Byte>)
    requires |bloom| < 0x1_0000_0000 && |fanout| == 256
    ensures ParsedHead(HeadBytes(|bloom|, fanout) + (bloom + rest)) == Ok(Lookup(|bloom|, fanout, bloom))
  {
    var head := HeadBytes(|bloom|, fanout);
    var all := head + (bloom + rest);
    HeadLength(|bloom|, fanout);
    SizeRoundTrip(|bloom|);
    assert all[..4] == WriteBe(|bloom|, 4);
    assert all[..1032] == head && all[1032..1032 + |bloom|] == bloom;
    forall j | 0 <= j < 256 ensures CountAtPlace(head, fanout, j) {
      CountReadsBack(head, |bloom|, fanout, j);
    }
    FanoutReadsBack(head, fanout, 256);
    assert fanout[..256] == fanout;
  }

  /** A written index is read back as the lookup that was written. */
  lemma {:induction false} LookupReadsBack(bloom: seq<Byte>, fanout: seq<Size>, sorted: seq<Entry>)
    requires |bloom| < 0x1_0000_0000 && |fanout| == 256
    ensures ParsedLookup(IndexBytes(bloom, fanout, sorted)) == Ok(Lookup(|bloom|, fanout, bloom))
  {
    var data, rest := IndexBytes(bloom, fanout, sorted), Flat(HashCells(sorted)) + Flat(OffsetCells(sorted));
    FrontIsFirst(bloom, fanout, sorted, rest);
    HeaderReadsBack(data, data[16..], FILE_TYPE, VERSION, FILE_TYPE, VERSION, VERSION);
    HeadReadsBack(bloom, fanout, rest);
    assert data[16..] == HeadBytes(|bloom|, fanout) + (bloom + rest);
  }

  /** Reads the front of a file, whatever the file holds. */
  method ReadFromFile(f: Handle) returns (r: Result<Lookup, IndexError>)
    requires f.pos == 0
    modifies f`pos
    ensures r == ParsedLookup(f.data)
  {
    var version := CheckHeader(f, FILE_TYPE, VERSION, VERSION);
    if version.Err? {
      return Err(HeaderErr(version.error));
    }
    assert f.Rest() == f.data[16..];
    r := ReadLookup(f);
  }

  method ReadLookup(f: Handle) returns (r: Result<Lookup, IndexError>)
    modifies f`pos
    ensures r == ParsedHead(old(f.Rest()))
  {
    ghost var rest := f.Rest();
    var hdr := f.ReadExact(1032);
    if hdr.None? {
      return Err(IndexEof);
    }
    assert rest[..1032][..4] == rest[..4];
    var bloomSize := ReadSize(hdr.value[..4]);
    var fanout := ReadFanout(hdr.value);
    var filter := f.ReadExact(bloomSize);
    if filter.None? {
      return Err(IndexEof);
    }
    assert filter.value == rest[1032..1032 + bloomSize];
    return Ok(Lookup(bloomSize, fanout, filter.value));
  }

  method ReadFanout(hdr: seq<Byte>) returns (fanout: seq<Size>)
    requires |hdr| == 1032
    ensures fanout == ParsedFanout(hdr, 256)
  {
    fanout := [];
    for i := 0 to 256
      invariant fanout == ParsedFanout(hdr, i)
    {
      var ofs := 8 + i * 4;
      fanout := fanout + [ReadSize(hdr[ofs..ofs + 4])];
    }
  }

  ghost predicate Absent(s: seq<Entry>, h: Hash, from: nat, to: nat) {
    from <= to <= |s| && forall j :: from <= j < to ==> s[j].hash != h
  }

  /** The outcome of a search: the first entry of the hash in the window, or none if there is none. */
  ghost predicate FirstInWindow(s: seq<Entry>, h: Hash, start: nat, nb: nat, r: Option<nat>) {
    match r
    case Some(at) => start <= at < start + nb && Absent(s, h, start, at) && at < |s| && s[at].hash == h
    case None => Absent(s, h, start, start + nb)
  }

  class Reader {
    const lookup: Lookup
    const handle: Handle

    constructor (lookup: Lookup, handle: Handle)
      ensures this.lookup == lookup && this.handle == handle
    {
      this.lookup, this.handle := lookup, handle;
    }

    /** The file is the index of the entries. */
    ghost predicate Holds(entries: seq<Entry>)
      reads handle`data
    {
      && lookup.bloomSize == |lookup.bloom|
      && IsFanout(lookup.fanout, entries) && Covers(lookup.bloom, entries)
      && handle.data == IndexBytes(lookup.bloom, lookup.fanout, StableSort(entries))
    }

    /** The position of a hash in the file. */
    function HashPos(at: nat): (n: nat) {
      OffsetHashes(lookup.bloomSize) + 32 * at
    }

    method ReadHash(ghost at: nat, ghost s: seq<Entry>) returns (h: Hash)
      requires HashTable(handle.data, HashPos(0), s) && at < |s| && handle.pos == HashPos(at)
      modifies handle`pos
      ensures h == s[at].hash && handle.pos == HashPos(at + 1)
    {
      ghost var data, pos := handle.data, handle.pos;
      assert HashCell(data, pos, s[at].hash);
      var buf := handle.ReadExact(32);
      assert data[pos..][..32] == data[pos..pos + 32];
      h := buf.value;
    }

    /** The first position in the window whose hash is the one looked for. */
    method Search(blk: Hash, start: nat, nb: nat, ghost s: seq<Entry>) returns (r: Option<nat>)
      requires HashTable(handle.data, HashPos(0), s) && start + nb <= |s|
      modifies handle`pos
      ensures FirstInWindow(s, blk, start, nb, r)
    {
      if nb == 0 {
        return None;
      }
      handle.Seek(OffsetHashes(lookup.bloomSize) + start * 32);
      if nb == 1 {
        var hash := ReadHash(start, s);
        return if hash == blk then Some(start) else None;
      }
      if nb == 2 {
        r := SearchTwo(blk, start, s);
      } else {
        r := SearchMany(blk, start, nb, s);
      }
    }

    method SearchTwo(blk: Hash, start: nat, ghost s: seq<Entry>) returns (r: Option<nat>)
      requires HashTable(handle.data, HashPos(0), s) && start + 2 <= |s| && handle.pos == HashPos(start)
      modifies handle`pos
      ensures FirstInWindow(s, blk, start, 2, r)
    {
      var hash := ReadHash(start, s);
      var hash2 := ReadHash(start + 1, s);
      return if hash == blk then Some(start) else if hash2 == blk then Some(start + 1) else None;
    }

    method SearchMany(blk: Hash, start: nat, nb: nat, ghost s: seq<Entry>) returns (r: Option<nat>)
      requires HashTable(handle.data, HashPos(0), s) && start + nb <= |s| && handle.pos == HashPos(start)
      modifies handle`pos
      ensures FirstInWindow(s, blk, start, nb, r)
    {
      var at := start;
      while at < start + nb
        invariant start <= at <= start + nb && handle.pos == HashPos(at) && Absent(s, blk, start, at)
      {
        var hash := ReadHash(at, s);
        if hash == blk {
          return Some(at);
        }
        at := at + 1;
      }
      return None;
    }

    /** The offset in the cell of an entry. */
    method ResolveIndexOffset(at: nat, ghost s: seq<Entry>) returns (offset: Offset)
      requires |lookup.fanout| == 256 && lookup.GetTotal() == |s| && at < |s|
      requires OffsetTable(handle.data, OffsetOffsets(lookup.bloomSize, |s|), s)
      modifies handle`pos
      ensures offset == s[at].offset
    {
      var total := lookup.GetTotal();
      var ofs := OffsetOffsets(lookup.bloomSize, total) + 8 * at;
      handle.Seek(ofs);
      ghost var data := handle.data;
      assert OffsetCell(data, ofs, s[at].offset);
      var buf := handle.ReadExact(8);
      assert data[ofs..][..8] == data[ofs..ofs + 8];
      offset := ReadOffset(buf.value);
    }

    /** A search of the window of the first byte, for a hash that is not excluded. */
    method SearchWindow(blk: Hash, ghost entries: seq<Entry>) returns (at: Option<nat>)
      requires Holds(entries)
      modifies handle`pos
      ensures Located(entries, blk, at)
    {
      ghost var sorted := StableSort(entries);
      SortCount(entries, 255);
      CountAll(entries, 255);
      var w := lookup.GetIndexerByHier(blk[0]);
      WindowInside(lookup, entries, blk[0]);
      TablesWritten(handle.data, lookup.bloom, lookup.fanout, sorted);
      at := Search(blk, w.start, w.nb, sorted);
      SearchIsComplete(lookup, entries, blk, at);
    }

    /** The offset of an entry of the sorted table. */
    method OffsetOf(at: nat, ghost entries: seq<Entry>) returns (offset: Offset)
      requires Holds(entries) && at < |StableSort(entries)|
      modifies handle`pos
      ensures offset == StableSort(entries)[at].offset
    {
      ghost var sorted := StableSort(entries);
      SortCount(entries, 255);
      CountAll(entries, 255);
      TablesWritten(handle.data, lookup.bloom, lookup.fanout, sorted);
      offset := ResolveIndexOffset(at, sorted);
    }

    /**
     Fanout, bloom filter, search and offset table together give the first offset appended for a hash, if there is
     any. The file is searched only when the window is not empty and the filter may hold the hash.
     */
    method Locate(blk: Hash, ghost entries: seq<Entry>) returns (r: Option<Offset>)
      requires Holds(entries)
      modifies handle`pos
      ensures r == FirstFor(entries, blk)
    {
      if lookup.Excludes(blk) {
        ExcludedIsAbsent(lookup, entries, blk);
        return None;
      }
      var at := SearchWindow(blk, entries);
      if at.None? {
        return None;
      }
      var offset := OffsetOf(at.value, entries);
      return Some(offset);
    }
  }

  /** The position in the sorted table of the first entry appended for a hash, or none when there is none. */
  ghost predicate Located(entries: seq<Entry>, blk: Hash, at: Option<nat>) {
    match at
    case None => FirstFor(entries, blk) == None
    case Some(i) =>
      i < |StableSort(entries)| && FirstFor(entries, blk) == Some(StableSort(entries)[i].offset)
  }

  /** What the lookup excludes was never appended. */
  lemma {:induction false} ExcludedIsAbsent(lookup: Lookup, entries: seq<Entry>, blk: Hash)
    requires IsFanout(lookup.fanout, entries) && Covers(lookup.bloom, entries) && lookup.Excludes(blk)
    ensures FirstFor(entries, blk) == None
  {
    if lookup.GetIndexerByHier(blk[0]).nb == 0 {
      SortCount(entries, 255);
      WindowInside(lookup, entries, blk[0]);
      SearchIsComplete(lookup, entries, blk, None);
    } else {
      NoOffset(entries, blk);
    }
  }

  function FirstFor(entries: seq<Entry>, h: Hash): (r: Option<Offset>) {
    if OffsetsFor(entries, h) == [] then None else Some(OffsetsFor(entries, h)[0])
  }

  /** The window of its first byte holds every entry of a hash, so a search of the window misses none. */
  lemma {:induction false} SearchIsComplete(lookup: Lookup, entries: seq<Entry>, blk: Hash, at: Option<nat>)
    requires IsFanout(lookup.fanout, entries) && |StableSort(entries)| == |entries|
    requires var w := lookup.GetIndexerByHier(blk[0]);
             0 <= w.nb && w.start + w.nb <= |entries| && FirstInWindow(StableSort(entries), blk, w.start, w.nb, at)
    ensures FirstFor(entries, blk) == if at.None? then None else Some(StableSort(entries)[at.value].offset)
  {
    var sorted := StableSort(entries);
    var w := lookup.GetIndexerByHier(blk[0]);
    SortOffsets(entries, blk);
    forall j | 0 <= j < |sorted| && sorted[j].hash == blk ensures w.start <= j < w.start + w.nb {
      WindowHolds(lookup, entries, blk[0], j);
    }
    if at.None? {
      NoOffset(sorted, blk);
    } else {
      FirstOffset(sorted, blk, at.value);
    }
  }

  // ----- listing the hashes of an index

  /** Cells of 32 bytes from a position on. */
  function CellsFrom(data: seq<Byte>, at: nat, n: nat): (cells: seq<seq<Byte>>)
    requires at + 32 * n <= |data|
    ensures |cells| == n && forall i :: 0 <= i < n ==> cells[i] == data[at + 32 * i..at + 32 * i + 32]
  {
    if n == 0 then [] else CellsFrom(data, at, n - 1) + [data[at + 32 * (n - 1)..at + 32 * n]]
  }

  /** Where the listing starts: the size of the header without its first 16 bytes. */
  const DUMP_START: nat := 1032

  /** Reads the lookup, then as many hashes as it counts; none for a panic at the end of the file. */
  method DumpFile(f: Handle) returns (r: Result<(Lookup, Option<seq<seq<Byte>>>), IndexError>)
    requires f.pos == 0
    modifies f`pos
    ensures ParsedLookup(f.data).Err? ==> r == Err(ParsedLookup(f.data).error)
    ensures ParsedLookup(f.data).Ok? ==>
              var lookup := ParsedLookup(f.data).value;
              r == Ok((lookup, if DUMP_START + 32 * lookup.GetTotal() <= |f.data|
                               then Some(CellsFrom(f.data, DUMP_START, lookup.GetTotal())) else None))
  {
    var parsed := ReadFromFile(f);
    if parsed.Err? {
      return Err(parsed.error);
    }
    var total := parsed.value.GetTotal();
    f.Seek(DUMP_START);
    var cells := ReadCells(f, DUMP_START, total);
    return Ok((parsed.value, cells));
  }

  method ReadCells(f: Handle, at: nat, n: nat) returns (r: Option<seq<seq<Byte>>>)
    requires f.pos == at <= |f.data|
    modifies f`pos
    ensures r == if at + 32 * n <= |f.data| then Some(CellsFrom(f.data, at, n)) else None
  {
    var cells: seq<seq<Byte>> := [];
    for i := 0 to n
      invariant f.pos == at + 32 * i <= |f.data| && cells == CellsFrom(f.data, at, i)
    {
      ghost var pos := f.pos;
      var buf := f.ReadExact(32);
      if buf.None? {
        return None;
      }
      assert f.data[pos..][..32] == f.data[pos..pos + 32];
      cells := cells + [buf.value];
    }
    return Some(cells);
  }

  /** Equal cells come from equal bytes. */
  lemma {:induction false} CellsDetermine(data: seq<Byte>, a: nat, b: nat, n: nat)
    requires a + 32 * n <= |data| && b + 32 * n <= |data|
    ensures CellsFrom(data, a, n) == CellsFrom(data, b, n) <==> data[a..a + 32 * n] == data[b..b + 32 * n]
  {
    if n > 0 {
      var m := 32 * (n - 1);
      var x, y := data[a + m..a + m + 32], data[b + m..b + m + 32];
      CellsDetermine(data, a, b, n - 1);
      SplitLast(data, a, n);
      SplitLast(data, b, n);
      EqualParts(data[a..a + m], x, data[b..b + m], y);
      EqualParts(CellsFrom(data, a, n - 1), [x], CellsFrom(data, b, n - 1), [y]);
    }
  }

  lemma {:induction false} EqualParts<T>(a: seq<T>, x: seq<T>, b: seq<T>, y: seq<T>)
    requires |a| == |b|
    ensures a + x == b + y <==> a == b && x == y
  {
    if a + x == b + y {
      assert a == (a + x)[..|a|] && b == (b + y)[..|a|];
      assert x == (a + x)[|a|..] && y == (b + y)[|a|..];
    }
  }

  lemma {:induction false} SplitLast(data: seq<Byte>, a: nat, n: nat)
    requires n > 0 && a + 32 * n <= |data|
    ensures var m := 32 * (n - 1);
            data[a..a + 32 * n] == data[a..a + m] + data[a + m..a + m + 32]
  {
  }

  /** The hashes of a written index are the cells of its hash table. */
  lemma {:induction false} HashesAreCells(data: seq<Byte>, at: nat, s: seq<Entry>, n: nat)
    requires HashTable(data, at, s) && n <= |s| && at + 32 * n <= |data|
    ensures CellsFrom(data, at, n) == HashCells(s[..n])
  {
    var cells, hashes := CellsFrom(data, at, n), HashCells(s[..n]);
    forall i | 0 <= i < n ensures cells[i] == hashes[i] {
      assert HashCell(data, at + 32 * i, s[i].hash);
    }
  }

  /**
   The listing of a written index gives its hashes exactly when the bytes from the last four counts on happen to be
   those of the hash table.
   */
  lemma {:induction false} DumpIsRightIff(data: seq<Byte>, bloom: seq<Byte>, fanout: seq<Size>, s: seq<Entry>)
    requires |bloom| < 0x1_0000_0000 && |fanout| == 256 && data == IndexBytes(bloom, fanout, s)
    ensures var n, at := |s|, OffsetHashes(|bloom|);
            && at + 32 * n <= |data|
            && (CellsFrom(data, DUMP_START, n) == HashCells(s) <==>
                  data[DUMP_START..DUMP_START + 32 * n] == data[at..at + 32 * n])
  {
    var n, at := |s|, OffsetHashes(|bloom|);
    FrontLength(bloom, fanout);
    FlatLength(HashCells(s), 32);
    TablesWritten(data, bloom, fanout, s);
    HashesAreCells(data, at, s, n);
    assert s[..n] == s;
    CellsDetermine(data, DUMP_START, at, n);
  }

  /** So it is wrong for every index whose least hash does not start with the count of all entries up to byte 252. */
  lemma {:induction false} DumpIsWrong(data: seq<Byte>, bloom: seq<Byte>, fanout: seq<Size>, s: seq<Entry>)
    requires |bloom| < 0x1_0000_0000 && |fanout| == 256 && data == IndexBytes(bloom, fanout, s)
    requires s != [] && s[0].hash[..4] != WriteBe(fanout[252], 4)
    ensures DUMP_START + 32 * |s| <= |data| && CellsFrom(data, DUMP_START, |s|) != HashCells(s)
  {
    DumpIsRightIff(data, bloom, fanout, s);
    CountAt1032(data, bloom, fanout, s);
    assert CellsFrom(data, DUMP_START, |s|)[0][..4] == data[DUMP_START..DUMP_START + 4];
  }

  /** At the start of the listing the file has the count for byte 252. */
  lemma {:induction false} CountAt1032(data: seq<Byte>, bloom: seq<Byte>, fanout: seq<Size>, s: seq<Entry>)
    requires |bloom| < 0x1_0000_0000 && |fanout| == 256 && data == IndexBytes(bloom, fanout, s)
    ensures DUMP_START + 4 <= |data| && data[DUMP_START..DUMP_START + 4] == WriteBe(fanout[252], 4)
  {
    var rest, head := Flat(HashCells(s)) + Flat(OffsetCells(s)), HeadBytes(|bloom|, fanout);
    FrontIsFirst(bloom, fanout, s, rest);
    HeadLength(|bloom|, fanout);
    CountInHead(|bloom|, fanout);
    AfterHeader(HeaderBytes(FILE_TYPE, VERSION), head, bloom + rest, 1016, 4);
  }

  lemma {:induction false} CountInHead(bloomSize: Size, fanout: seq<Size>)
    requires |fanout| == 256 && |HeadBytes(bloomSize, fanout)| == 1032
    ensures HeadBytes(bloomSize, fanout)[1016..1020] == WriteBe(fanout[252], 4)
  {
    CountReadsBack(HeadBytes(bloomSize, fanout), bloomSize, fanout, 252);
  }

  lemma {:induction false} AfterHeader(a: seq<Byte>, b: seq<Byte>, c: seq<Byte>, from: nat, n: nat)
    requires from + n <= |b|
    ensures |a| + from + n <= |a + (b + c)|
    ensures (a + (b + c))[|a| + from..|a| + from + n] == b[from..from + n]
  {
  }
}
