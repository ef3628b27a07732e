/** Pack files (storage-units/src/packfile.rs). */
module PackFile {
  import opened Wrappers
  import opened Bytes
  import opened Records
  import opened Files
  import opened Header
  import opened Entries
  import IndexFile

  const FILE_TYPE: Size := 0x5041434b
  const VERSION: Size := 1

  /** Blocks of this size are refused by the reader, though not by the writer. */
  const MAX_BLOCK: nat := 20_000_000

  function PackBytes(blocks: seq<seq<Byte>>): (s: seq<Byte>) {
    HeaderBytes(FILE_TYPE, VERSION) + Concat(blocks)
  }

  /** Where a block starts in the file. */
  function BlockOffset(blocks: seq<seq<Byte>>, i: nat): (n: nat)
    requires i <= |blocks|
  {
    HEADER_SIZE + |Concat(blocks[..i])|
  }

  function From(data: seq<Byte>, ofs: nat): (s: seq<Byte>) {
    if ofs <= |data| then data[ofs..] else []
  }

  /** From the offset of a block on, the file holds the records of that block and of those after it. */
  lemma {:induction false} RestAtOffset(blocks: seq<seq<Byte>>, i: nat)
    requires i <= |blocks|
    ensures From(PackBytes(blocks), BlockOffset(blocks, i)) == Concat(blocks[i..])
  {
    ConcatSplit(blocks, i);
    DropTwo(HeaderBytes(FILE_TYPE, VERSION), Concat(blocks[..i]), Concat(blocks[i..]));
  }

  lemma {:induction false} DropTwo(a: seq<Byte>, b: seq<Byte>, c: seq<Byte>)
    ensures (a + (b + c))[|a| + |b|..] == c
  {
  }

  lemma {:induction false} Regroup(a: seq<Byte>, b: seq<Byte>, c: seq<Byte>)
    ensures (a + b) + c == a + (b + c)
  {
  }

  /** The offset of a block is read back as that block if and only if the block is below the limit. */
  lemma {:induction false} BlockAtItsOffset(blocks: seq<seq<Byte>>, i: nat)
    requires i < |blocks| && |blocks[i]| < 0x1_0000_0000
    ensures Parse(From(PackBytes(blocks), BlockOffset(blocks, i)), MAX_BLOCK) ==
            if |blocks[i]| < MAX_BLOCK then Ok(blocks[i]) else Err(Oversized)
  {
    RestAtOffset(blocks, i);
    ParseRecord(blocks[i], Concat(blocks[i + 1..]), MAX_BLOCK);
    assert blocks[i..][1..] == blocks[i + 1..];
  }

  // ----- reading

  /** A number of bytes, and the padding after them. */
  method ReadPadded(f: Handle, sz: nat) returns (r: Option<seq<Byte>>)
    modifies f`pos
    ensures r == if sz + PadSize(sz) <= |old(f.Rest())| then Some(old(f.Rest())[..sz]) else None
    ensures r.Some? ==> f.Rest() == old(f.Rest())[sz + PadSize(sz)..] && f.pos == old(f.pos) + sz + PadSize(sz)
    ensures r.None? ==> f.Rest() == []
  {
    var v := f.ReadExact(sz);
    if v.None? {
      return None;
    }
    if sz % 4 != 0 {
      var align := f.ReadExact(4 - sz % 4);
      if align.None? {
        return None;
      }
    }
    return v;
  }

  /** One record from the handle. */
  method ReadNextBlock(f: Handle) returns (r: Result<seq<Byte>, ReadError>)
    modifies f`pos
    ensures r == Parse(old(f.Rest()), MAX_BLOCK)
    ensures r.Ok? ==> f.Rest() == old(f.Rest())[|Record(r.value)|..] && f.pos == old(f.pos) + |Record(r.value)|
    ensures r == Err(UnexpectedEof) ==> f.Rest() == []
  {
    ghost var s := f.Rest();
    var buf := f.ReadExact(4);
    if buf.None? {
      return Err(UnexpectedEof);
    }
    var sz: Size := ReadSize(buf.value);
    assert buf.value == s[..4];
    if sz >= 20_000_000 {
      return Err(Oversized);
    }
    var v := ReadPadded(f, sz);
    if v.None? {
      return Err(UnexpectedEof);
    }
    assert v.value == s[4..4 + sz];
    return Ok(v.value);
  }

  /** The end of the file inside or before a record is not an error. */
  method ReadNextBlockOrEof(f: Handle) returns (r: Result<Option<seq<Byte>>, ReadError>)
    modifies f`pos
    ensures Parse(old(f.Rest()), MAX_BLOCK).Ok? ==>
              && r == Ok(Some(Parse(old(f.Rest()), MAX_BLOCK).value))
              && f.Rest() == old(f.Rest())[|Record(r.value.value)|..]
              && f.pos == old(f.pos) + |Record(r.value.value)|
    ensures Parse(old(f.Rest()), MAX_BLOCK) == Err(UnexpectedEof) ==> r == Ok(None) && f.Rest() == []
    ensures Parse(old(f.Rest()), MAX_BLOCK) == Err(Oversized) ==> r == Err(Oversized)
  {
    var block := ReadNextBlock(f);
    match block
    case Ok(data) => return Ok(Some(data));
    case Err(UnexpectedEof) => return Ok(None);
    case Err(e) => return Err(e);
  }

  /** The contents fed to the hash of a pack: the blocks without lengths or padding. */
  function Contents(blocks: seq<seq<Byte>>): (s: seq<Byte>) {
    if blocks == [] then [] else Contents(blocks[..|blocks| - 1]) + blocks[|blocks| - 1]
  }

  lemma {:induction false} ContentsAppend(blocks: seq<seq<Byte>>, block: seq<Byte>)
    ensures Contents(blocks + [block]) == Contents(blocks) + block
  {
    assert (blocks + [block])[..|blocks|] == blocks;
  }

  class Reader {
    const handle: Handle
    var pos: nat
    var hashed: seq<Byte>

    /** The blocks read so far. */
    ghost var seen: seq<seq<Byte>>

    constructor (handle: Handle)
      requires handle.pos == HEADER_SIZE
      ensures this.handle == handle && Valid() && seen == []
    {
      this.handle, pos, hashed, seen := handle, 0, [], [];
    }

    /** The position counts from the end of the header. */
    ghost predicate Valid()
      reads this, handle
    {
      && handle.pos == HEADER_SIZE + pos
      && pos == |Concat(seen)|
      && hashed == Contents(seen)
    }

    method NextBlock() returns (r: Result<Option<seq<Byte>>, ReadError>)
      requires Valid()
      modifies this, handle`pos
      ensures Parse(old(handle.Rest()), MAX_BLOCK).Ok? ==>
                && Valid()
                && r == Ok(Some(Parse(old(handle.Rest()), MAX_BLOCK).value))
                && seen == old(seen) + [r.value.value]
                && handle.Rest() == old(handle.Rest())[|Record(r.value.value)|..]
      ensures Parse(old(handle.Rest()), MAX_BLOCK) == Err(UnexpectedEof) ==>
                r == Ok(None) && handle.Rest() == [] && seen == old(seen) && hashed == old(hashed)
      ensures Parse(old(handle.Rest()), MAX_BLOCK) == Err(Oversized) ==> r == Err(Oversized)
    {
      var data := ReadNextBlockOrEof(handle);
      if data.Err? || data.value.None? {
        return data;
      }
      var block := data.value.value;
      ContentsAppend(seen, block);
      ConcatAppend(seen, block);
      hashed := hashed + block;
      pos := pos + 4 + Align4(|block|);
      seen := seen + [block];
      return data;
    }
  }

  function Align4(p: nat): (n: nat)
    ensures n == p + PadSize(p)
  {
    var r := p % 4;
    if r == 0 then p else p + (4 - r)
  }

  /** No record on the way is over the limit. */
  ghost predicate NoOversized(s: seq<Byte>)
    decreases |s|
  {
    match Parse(s, MAX_BLOCK)
    case Err(e) => e == UnexpectedEof
    case Ok(block) => NoOversized(s[|Record(block)|..])
  }

  /** What has been read and what is still to be read make up the whole. */
  ghost predicate Reading(read: seq<seq<Byte>>, rest: seq<Byte>, s: seq<Byte>) {
    && read + ReadAll(rest, MAX_BLOCK) == ReadAll(s, MAX_BLOCK)
    && (NoOversized(s) <==> NoOversized(rest))
  }

  lemma {:induction false} ReadingNext(read: seq<seq<Byte>>, rest: seq<Byte>, s: seq<Byte>, block: seq<Byte>)
    requires Reading(read, rest, s) && Parse(rest, MAX_BLOCK) == Ok(block)
    ensures Reading(read + [block], rest[|Record(block)|..], s)
  {
    var tail := ReadAll(rest[|Record(block)|..], MAX_BLOCK);
    assert read + ([block] + tail) == (read + [block]) + tail;
  }

  lemma {:induction false} ReadingDone(read: seq<seq<Byte>>, rest: seq<Byte>, s: seq<Byte>)
    requires Reading(read, rest, s) && Parse(rest, MAX_BLOCK).Err?
    ensures read == ReadAll(s, MAX_BLOCK)
    ensures NoOversized(s) <==> Parse(rest, MAX_BLOCK) == Err(UnexpectedEof)
  {
  }

  /** Reading a pack to its end, as its callers do; a record over the limit stops the program. */
  method ReadPack(reader: Reader) returns (r: Result<seq<seq<Byte>>, ReadError>)
    requires reader.Valid() && reader.seen == []
    modifies reader, reader.handle`pos
    ensures r.Ok? <==> NoOversized(old(reader.handle.Rest()))
    ensures r.Ok? ==> r.value == ReadAll(old(reader.handle.Rest()), MAX_BLOCK) && reader.hashed == Contents(r.value)
  {
    ghost var s := reader.handle.Rest();
    ghost var rest := s;
    var read: seq<seq<Byte>> := [];
    while true
      invariant reader.Valid() && reader.seen == read && reader.handle.Rest() == rest && Reading(read, rest, s)
      decreases |rest|
    {
      var next := reader.NextBlock();
      if next.Err? {
        ReadingDone(read, rest, s);
        return Err(next.error);
      }
      if next.value.None? {
        ReadingDone(read, rest, s);
        return Ok(read);
      }
      var block := next.value.value;
      ReadingNext(read, rest, s, block);
      read := read + [block];
      rest := rest[|Record(block)|..];
    }
  }

  lemma {:induction false} CutPackRest(blocks: seq<seq<Byte>>, cut: nat)
    requires HEADER_SIZE <= cut <= |PackBytes(blocks)|
    ensures PackBytes(blocks)[..cut][HEADER_SIZE..] == Concat(blocks)[..cut - HEADER_SIZE]
  {
  }

  /** A pack cut at any byte after its header reads as the blocks wholly within it. */
  lemma {:induction false} CutPackReadsPrefix(blocks: seq<seq<Byte>>, cut: nat, rest: seq<Byte>)
    requires Below(blocks, MAX_BLOCK) && HEADER_SIZE <= cut <= |PackBytes(blocks)|
    requires rest == PackBytes(blocks)[..cut][HEADER_SIZE..]
    ensures NoOversized(rest)
    ensures ReadAll(rest, MAX_BLOCK) == blocks[..Whole(blocks, cut - HEADER_SIZE)]
  {
    CutPackRest(blocks, cut);
    CutRecordsReadPrefix(blocks, cut - HEADER_SIZE, rest);
  }

  lemma {:induction false} CutRecordsReadPrefix(blocks: seq<seq<Byte>>, cut: nat, rest: seq<Byte>)
    requires Below(blocks, MAX_BLOCK) && cut <= |Concat(blocks)| && rest == Concat(blocks)[..cut]
    ensures NoOversized(rest)
    ensures ReadAll(rest, MAX_BLOCK) == blocks[..Whole(blocks, cut)]
  {
    CutFileReadsPrefix(blocks, cut, MAX_BLOCK);
    NeverOversized(blocks, cut);
  }

  lemma {:induction false} NeverOversized(blocks: seq<seq<Byte>>, cut: nat)
    requires Below(blocks, MAX_BLOCK) && cut <= |Concat(blocks)|
    ensures NoOversized(Concat(blocks)[..cut])
    decreases |blocks|
  {
    if blocks != [] {
      CutConcat(blocks, cut);
      var size := |Record(blocks[0])|;
      if cut < size {
        ParseCutRecord(blocks[0], cut, MAX_BLOCK);
      } else {
        var rest := Concat(blocks[1..])[..cut - size];
        ParseRecord(blocks[0], rest, MAX_BLOCK);
        assert (Record(blocks[0]) + rest)[size..] == rest;
        NeverOversized(blocks[1..], cut - size);
      }
    }
  }

  class Seeker {
    const handle: Handle

    constructor (handle: Handle)
      ensures this.handle == handle
    {
      this.handle := handle;
    }

    /** The record that starts at the offset, whatever was read before. */
    method BlockAtOffset(ofs: Offset) returns (r: Result<seq<Byte>, ReadError>)
      modifies handle`pos
      ensures r == Parse(From(handle.data, ofs), MAX_BLOCK)
    {
      handle.Seek(ofs);
      r := ReadNextBlock(handle);
    }
  }

  // ----- writing

  datatype WriteError = InvalidInput | OffsetTooLarge | TooManyEntries

  class Writer {
    const tmpfile: Handle
    const index: IndexFile.Index
    var nbBlobs: nat
    var pos: Offset
    var hashed: seq<Byte>

    /** The blocks appended so far. */
    ghost var blocks: seq<seq<Byte>>

    constructor (tmpfile: Handle)
      requires tmpfile.data == []
      modifies tmpfile
      ensures Valid() && fresh(index) && this.tmpfile == tmpfile && blocks == [] && index.hashes == []
    {
      this.tmpfile := tmpfile;
      index := new IndexFile.Index();
      pos, nbBlobs, hashed, blocks := HEADER_SIZE, 0, [], [];
      new;
      WriteHeader(tmpfile, FILE_TYPE, VERSION);
    }

    /** The file holds the records of the blocks; the index holds the offset of each, in order of appending. */
    ghost predicate Valid()
      reads this, tmpfile, index
    {
      && IsPack(tmpfile.data, blocks, pos, hashed)
      && |index.hashes| == nbBlobs
      && OffsetsOf(blocks, index.offsets, nbBlobs)
    }

    /** Only a block too long for its length field is refused; the offset recorded is where the block starts. */
    method Append(hash: Hash, block: seq<Byte>) returns (r: Result<(), WriteError>)
      requires Valid()
      modifies this, tmpfile, index
      ensures r == Err(InvalidInput) <==> |block| >= 0x1_0000_0000
      ensures r == Err(InvalidInput) ==> Valid() && blocks == old(blocks) && index.hashes == old(index.hashes)
      ensures r != Err(TooManyEntries)
      ensures r == Err(OffsetTooLarge) ==> old(pos) + |Record(block)| >= 0x1_0000_0000_0000_0000
      ensures r.Ok? ==> Valid() && blocks == old(blocks) + [block] && index.hashes == old(index.hashes) + [hash]
    {
      var prefixed := WriteLengthPrefixed(tmpfile, block);
      if prefixed.Err? {
        return Err(prefixed.error);
      }
      var written := prefixed.value;
      hashed := hashed + block;
      index.Append(hash, pos);
      OffsetsAppend(blocks, block, old(index.offsets), pos);
      PackAppend(old(tmpfile.data), blocks, pos, old(hashed), block);
      blocks := blocks + [block];
      if pos + written >= 0x1_0000_0000_0000_0000 {
        return Err(OffsetTooLarge);
      }
      pos := pos + written;
      nbBlobs := nbBlobs + 1;
      return Ok(());
    }
  }

  ghost predicate IsPack(data: seq<Byte>, blocks: seq<seq<Byte>>, pos: nat, hashed: seq<Byte>) {
    data == PackBytes(blocks) && pos == |data| && hashed == Contents(blocks)
  }

  lemma {:induction false} PackAppend(data: seq<Byte>, blocks: seq<seq<Byte>>, pos: nat, hashed: seq<Byte>,
                                      block: seq<Byte>)
    requires IsPack(data, blocks, pos, hashed)
    ensures IsPack(data + Record(block), blocks + [block], pos + |Record(block)|, hashed + block)
  {
    ConcatAppend(blocks, block);
    ContentsAppend(blocks, block);
    Regroup(HeaderBytes(FILE_TYPE, VERSION), Concat(blocks), Record(block));
  }

  ghost predicate OffsetsOf(blocks: seq<seq<Byte>>, offsets: seq<Offset>, n: nat) {
    |blocks| == |offsets| == n && forall i :: 0 <= i < |offsets| ==> offsets[i] == BlockOffset(blocks, i)
  }

  lemma {:induction false} OffsetsAppend(blocks: seq<seq<Byte>>, block: seq<Byte>, offsets: seq<Offset>, pos: Offset)
    requires OffsetsOf(blocks, offsets, |blocks|) && pos == |PackBytes(blocks)|
    ensures OffsetsOf(blocks + [block], offsets + [pos], |blocks| + 1)
  {
    assert forall i :: 0 <= i <= |blocks| ==> (blocks + [block])[..i] == blocks[..i];
    assert blocks[..|blocks|] == blocks;
  }

  /** Writes the record of a block and returns how many bytes that took; a length that does not fit is refused. */
  method WriteLengthPrefixed(f: Handle, data: seq<Byte>) returns (r: Result<nat, WriteError>)
    modifies f
    ensures r == if |data| < 0x1_0000_0000 then Ok(|Record(data)|) else Err(InvalidInput)
    ensures f.data == if r.Ok? then old(f.data) + Record(data) else old(f.data)
  {
    if |data| >= 0x1_0000_0000 {
      return Err(InvalidInput);
    }
    var len: Size := |data|;
    f.WriteAll(WriteBe(len, 4));
    f.WriteAll(data);
    var padBytes := 0;
    if len % 4 != 0 {
      padBytes := 4 - len % 4;
      f.WriteAll(Zeros(padBytes));
    } else {
      assert Zeros(PadSize(len)) == [];
    }
    assert f.data == old(f.data) + Record(data);
    return Ok(4 + len + padBytes);
  }

  // ----- a pack with its index

  /** The position of the first append of a hash. */
  function FirstAppend(hashes: seq<Hash>, h: Hash): (r: Option<nat>)
    ensures r.None? <==> h !in hashes
    ensures r.Some? ==> r.value < |hashes| && hashes[r.value] == h && h !in hashes[..r.value]
  {
    if hashes == [] then None
    else if hashes[0] == h then Some(0)
    else
      match FirstAppend(hashes[1..], h)
      case None => None
      case Some(i) => assert hashes[..i + 1] == [hashes[0]] + hashes[1..][..i]; Some(i + 1)
  }

  /** The index, searched for a hash, gives the offset of its first append. */
  lemma {:induction false} FirstOfAppends(hashes: seq<Hash>, offsets: seq<Offset>, h: Hash)
    requires |hashes| == |offsets|
    ensures IndexFile.FirstFor(IndexFile.Zip(hashes, offsets), h) ==
            match FirstAppend(hashes, h) case None => None case Some(i) => Some(offsets[i])
  {
    var s := IndexFile.Zip(hashes, offsets);
    match FirstAppend(hashes, h)
    case None =>
      NoOffset(s, h);
    case Some(i) =>
      forall k | 0 <= k < i ensures s[k].hash != h {
        assert hashes[k] == hashes[..i][k];
      }
      FirstOffset(s, h, i);
  }
}

/** Append-only files (storage-units/src/append.rs): records without a header and without a size limit. */
module AppendFile {
  import opened Wrappers
  import opened Bytes
  import opened Records
  import opened Files
  import PackFile

  /** No length that fits in the size field is refused. */
  const NO_LIMIT: nat := 0x1_0000_0000

  class Writer {
    const file: Handle

    constructor (file: Handle)
      ensures this.file == file
    {
      this.file := file;
    }

    /** Appends the record of the bytes; an empty string leaves no trace. */
    method AppendBytes(bytes: seq<Byte>) returns (r: Result<(), PackFile.WriteError>)
      modifies file
      ensures r.Ok? <==> |bytes| < 0x1_0000_0000
      ensures r.Err? ==> file.data == old(file.data)
      ensures r.Ok? ==> forall blocks :: old(file.data) == Concat(blocks) ==>
                file.data == Concat(if bytes == [] then blocks else blocks + [bytes])
    {
      if bytes == [] {
        return Ok(());
      }
      var written := PackFile.WriteLengthPrefixed(file, bytes);
      if written.Err? {
        return Err(written.error);
      }
      forall blocks | old(file.data) == Concat(blocks) ensures file.data == Concat(blocks + [bytes]) {
        ConcatAppend(blocks, bytes);
      }
      return Ok(());
    }
  }

  class Reader {
    const file: Handle

    constructor (file: Handle)
      ensures this.file == file
    {
      this.file := file;
    }

    method ReadBlockRawNext() returns (r: Result<seq<Byte>, ReadError>)
      modifies file`pos
      ensures r == Parse(old(file.Rest()), NO_LIMIT)
      ensures r.Ok? ==> file.Rest() == old(file.Rest())[|Record(r.value)|..]
      ensures r.Err? ==> r.error == UnexpectedEof && file.Rest() == []
    {
      ghost var s := file.Rest();
      var buf := file.ReadExact(4);
      if buf.None? {
        return Err(UnexpectedEof);
      }
      var sz: Size := ReadSize(buf.value);
      assert buf.value == s[..4];
      var v := PackFile.ReadPadded(file, sz);
      if v.None? {
        return Err(UnexpectedEof);
      }
      assert v.value == s[4..4 + sz];
      return Ok(v.value);
    }

    /** The next entry, or nothing at the end of the file. */
    method Next() returns (r: Option<seq<Byte>>)
      modifies file`pos
      ensures r == match Parse(old(file.Rest()), NO_LIMIT) case Ok(block) => Some(block) case Err(_) => None
      ensures r.Some? ==> file.Rest() == old(file.Rest())[|Record(r.value)|..]
      ensures r.None? ==> file.Rest() == []
    {
      var block := ReadBlockRawNext();
      match block
      case Ok(b) => return Some(b);
      case Err(_) => return None;
    }
  }

  lemma {:induction false} ReadAllNext(read: seq<seq<Byte>>, rest: seq<Byte>, block: seq<Byte>)
    requires Parse(rest, NO_LIMIT) == Ok(block)
    ensures (read + [block]) + ReadAll(rest[|Record(block)|..], NO_LIMIT) == read + ReadAll(rest, NO_LIMIT)
  {
    var tail := ReadAll(rest[|Record(block)|..], NO_LIMIT);
    assert read + ([block] + tail) == (read + [block]) + tail;
  }

  lemma {:induction false} NothingMore(read: seq<seq<Byte>>, rest: seq<Byte>)
    requires Parse(rest, NO_LIMIT).Err?
    ensures read + ReadAll(rest, NO_LIMIT) == read
  {
  }

  /** Reading an append file to its end. */
  method ReadEntries(reader: Reader) returns (read: seq<seq<Byte>>)
    modifies reader.file`pos
    ensures read == ReadAll(old(reader.file.Rest()), NO_LIMIT)
  {
    ghost var rest := reader.file.Rest();
    ghost var all := ReadAll(rest, NO_LIMIT);
    read := [];
    while true
      invariant reader.file.Rest() == rest && read + ReadAll(rest, NO_LIMIT) == all
      decreases |rest|
    {
      var next := reader.Next();
      if next.None? {
        NothingMore(read, rest);
        return;
      }
      ReadAllNext(read, rest, next.value);
      read := read + [next.value];
      rest := rest[|Record(next.value)|..];
    }
  }

  /** An append file cut at any byte reads as the entries wholly written, in order. */
  lemma {:induction false} CutAppendFileReadsPrefix(blocks: seq<seq<Byte>>, cut: nat)
    requires Below(blocks, NO_LIMIT) && cut <= |Concat(blocks)|
    ensures ReadAll(Concat(blocks)[..cut], NO_LIMIT) == blocks[..Whole(blocks, cut)]
  {
    CutFileReadsPrefix(blocks, cut, NO_LIMIT);
  }
}
