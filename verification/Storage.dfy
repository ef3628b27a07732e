/** The storage of blocks (storage/src/lib.rs): packs with their indexes, searched in order, and loose blocks. */
module Storage {
  import opened Wrappers
  import opened Bytes
  import opened Records
  import opened Files
  import opened Header
  import opened Entries
  import opened PackFile
  import IndexFile
  import IndexLayout

  const BLOB_TYPE: Size := 0x424c4f42
  const BLOB_VERSION: Size := 1

  datatype StorageError = BlockNotFound | HeaderErr(header: HeaderError) | PackErr(pack: ReadError)

  /** A pack: the lookup in memory, and its two files. */
  datatype Pack = Pack(lookup: IndexFile.Lookup, index: seq<Byte>, pack: seq<Byte>)

  /** What a pack was made from: the blocks in order of appending, with their hashes and where they start. */
  datatype Appended = Appended(hashes: seq<Hash>, offsets: seq<Offset>, blocks: seq<seq<Byte>>)

  ghost predicate Holds(p: Pack, c: Appended) {
    && IndexFile.IsLookup(p.lookup, c.hashes, c.offsets)
    && p.index == IndexLayout.IndexBytes(p.lookup.bloom, p.lookup.fanout,
                                         StableSort(IndexFile.Zip(c.hashes, c.offsets)))
    && p.pack == PackBytes(c.blocks)
    && OffsetsOf(c.blocks, c.offsets, |c.hashes|)
    && Below(c.blocks, 0x1_0000_0000)
  }

  // ----- making a pack

  /** Append the blocks in order, then write the index. */
  method MakePack(hashes: seq<Hash>, blocks: seq<seq<Byte>>) returns (r: Result<Pack, WriteError>, ghost c: Appended)
    requires |hashes| == |blocks|
    ensures r == Err(TooManyEntries) ==> |hashes| >= 0x1_0000_0000
    ensures r == Err(InvalidInput) ==> !Below(blocks, 0x1_0000_0000)
    ensures r.Ok? ==> c.hashes == hashes && c.blocks == blocks && Holds(r.value, c)
  {
    var tmpfile := new Handle([]);
    var writer := new Writer(tmpfile);
    c := Appended([], [], []);
    for i := 0 to |blocks|
      invariant fresh(writer) && fresh(writer.tmpfile) && fresh(writer.index) && writer.Valid()
      invariant writer.blocks == blocks[..i] && writer.index.hashes == hashes[..i] && Below(blocks[..i], 0x1_0000_0000)
    {
      var appended := writer.Append(hashes[i], blocks[i]);
      if appended.Err? {
        assert appended.error == InvalidInput ==> !(|blocks[i]| < 0x1_0000_0000);
        return Err(appended.error), c;
      }
      assert blocks[..i + 1] == blocks[..i] + [blocks[i]] && hashes[..i + 1] == hashes[..i] + [hashes[i]];
    }
    assert blocks[..|blocks|] == blocks && hashes[..|hashes|] == hashes;
    var idxfile := new Handle([]);
    var lookup := writer.index.WriteToTmpfile(idxfile, false);
    if lookup.None? {
      return Err(TooManyEntries), c;
    }
    c := Appended(hashes, writer.index.offsets, blocks);
    r := Ok(Pack(lookup.value, idxfile.data, writer.tmpfile.data));
  }

  // ----- finding a block

  /** What a pack answers for a hash: the first block appended for it, or an error when that is too large to read. */
  ghost function InPack(c: Appended, hash: Hash): (r: Option<Result<seq<Byte>, StorageError>>)
    requires |c.hashes| == |c.blocks|
  {
    match FirstAppend(c.hashes, hash)
    case None => None
    case Some(i) => Some(if |c.blocks[i]| < MAX_BLOCK then Ok(c.blocks[i]) else Err(PackErr(Oversized)))
  }

  /** The index file of a pack, opened again: its front is read and gives the lookup that is in memory. */
  method OpenIndex(p: Pack, ghost c: Appended) returns (idx: IndexFile.Reader)
    requires Holds(p, c)
    ensures fresh(idx) && fresh(idx.handle) && idx.Holds(IndexFile.Zip(c.hashes, c.offsets))
  {
    var file := new Handle(p.index);
    var front := IndexFile.ReadFromFile(file);
    IndexFile.LookupReadsBack(p.lookup.bloom, p.lookup.fanout, StableSort(IndexFile.Zip(c.hashes, c.offsets)));
    assert front == Ok(p.lookup);
    idx := new IndexFile.Reader(front.value, file);
  }

  /**
   Where a pack has a hash: the lookup in memory, then the index file. The position found is resolved after the index
   file has been opened a second time.
   */
  method LocatePacked(p: Pack, hash: Hash, ghost c: Appended) returns (r: Option<Offset>)
    requires Holds(p, c)
    ensures r == IndexFile.FirstFor(IndexFile.Zip(c.hashes, c.offsets), hash)
  {
    ghost var entries := IndexFile.Zip(c.hashes, c.offsets);
    if p.lookup.Excludes(hash) {
      IndexFile.ExcludedIsAbsent(p.lookup, entries, hash);
      return None;
    }
    var idx := OpenIndex(p, c);
    var at := idx.SearchWindow(hash, entries);
    if at.None? {
      return None;
    }
    var again := OpenIndex(p, c);
    var offset := again.OffsetOf(at.value, entries);
    return Some(offset);
  }

  /** Through the lookup and the index file, then the pack file. */
  method ReadPacked(p: Pack, hash: Hash, ghost c: Appended) returns (r: Option<Result<seq<Byte>, StorageError>>)
    requires Holds(p, c)
    ensures r == InPack(c, hash)
  {
    FirstOfAppends(c.hashes, c.offsets, hash);
    var at := LocatePacked(p, hash, c);
    if at.None? {
      return None;
    }
    var handle := new Handle(p.pack);
    var header := CheckHeader(handle, FILE_TYPE, VERSION, VERSION);
    HeaderReadsBack(p.pack, Concat(c.blocks), FILE_TYPE, VERSION, FILE_TYPE, VERSION, VERSION);
    var seeker := new Seeker(handle);
    var block := seeker.BlockAtOffset(at.value);
    BlockAtItsOffset(c.blocks, FirstAppend(c.hashes, hash).value);
    return Some(if block.Ok? then Ok(block.value) else Err(PackErr(block.error)));
  }

  /** What the packs answer: the first one that has the hash decides. */
  ghost function InPacks(cs: seq<Appended>, hash: Hash): (r: Option<Result<seq<Byte>, StorageError>>)
    requires forall i :: 0 <= i < |cs| ==> |cs[i].hashes| == |cs[i].blocks|
  {
    if cs == [] then None
    else if InPack(cs[0], hash).Some? then InPack(cs[0], hash)
    else InPacks(cs[1..], hash)
  }

  /** A hash has an answer exactly when it was appended to some pack. */
  lemma {:induction false} InPacksIff(cs: seq<Appended>, hash: Hash)
    requires forall i :: 0 <= i < |cs| ==> |cs[i].hashes| == |cs[i].blocks|
    ensures InPacks(cs, hash).Some? <==> exists i :: 0 <= i < |cs| && hash in cs[i].hashes
  {
    if cs != [] {
      InPacksIff(cs[1..], hash);
      assert forall i :: 1 <= i < |cs| ==> cs[i] == cs[1..][i - 1];
      assert (exists i :: 0 <= i < |cs| && hash in cs[i].hashes) <==>
             hash in cs[0].hashes || exists i :: 0 <= i < |cs[1..]| && hash in cs[1..][i].hashes;
    }
  }

  /** What a loose block reads as. */
  function Loose(blob: seq<Byte>): (r: Result<seq<Byte>, StorageError>) {
    match CheckedHeader(blob, BLOB_TYPE, BLOB_VERSION, BLOB_VERSION)
    case Err(e) => Err(HeaderErr(e))
    case Ok(_) => Ok(blob[HEADER_SIZE..])
  }

  function BlobBytes(block: seq<Byte>): (s: seq<Byte>) {
    HeaderBytes(BLOB_TYPE, BLOB_VERSION) + block
  }

  lemma {:induction false} LooseRoundTrip(block: seq<Byte>)
    ensures Loose(BlobBytes(block)) == Ok(block)
  {
    HeaderReadsBack(BlobBytes(block), block, BLOB_TYPE, BLOB_VERSION, BLOB_TYPE, BLOB_VERSION, BLOB_VERSION);
  }

  ghost predicate AllHold(packs: seq<Pack>, contents: seq<Appended>) {
    |packs| == |contents| && forall i :: 0 <= i < |packs| ==> Holds(packs[i], contents[i])
  }

  lemma {:induction false} AllHoldInsert(packs: seq<Pack>, contents: seq<Appended>, at: nat, p: Pack, c: Appended)
    requires AllHold(packs, contents) && Holds(p, c) && at <= |packs|
    ensures AllHold(packs[..at] + [p] + packs[at..], contents[..at] + [c] + contents[at..])
  {
    var ps, cs := packs[..at] + [p] + packs[at..], contents[..at] + [c] + contents[at..];
    forall i | 0 <= i < |ps| ensures Holds(ps[i], cs[i]) {
      if i < at {
        assert ps[i] == packs[i] && cs[i] == contents[i];
      } else if i > at {
        assert ps[i] == packs[i - 1] && cs[i] == contents[i - 1];
      }
    }
  }

  class Storage {
    var packs: seq<Pack>
    var blobs: map<Hash, seq<Byte>>

    /** What the packs hold. */
    ghost var contents: seq<Appended>

    ghost predicate Valid()
      reads this
    {
      AllHold(packs, contents)
    }

    constructor ()
      ensures Valid() && packs == [] && blobs == map[] && contents == []
    {
      packs, blobs, contents := [], map[], [];
    }

    /** A new pack takes its place in the order of the pack hashes. */
    method AddPack(at: nat, p: Pack, ghost c: Appended)
      requires Valid() && Holds(p, c) && at <= |packs|
      modifies this`packs, this`contents
      ensures Valid()
      ensures packs == old(packs[..at] + [p] + packs[at..])
      ensures contents == old(contents[..at]) + [c] + old(contents[at..])
    {
      AllHoldInsert(packs, contents, at, p, c);
      packs, contents := packs[..at] + [p] + packs[at..], contents[..at] + [c] + contents[at..];
    }

    method WriteBlob(hash: Hash, block: seq<Byte>)
      requires Valid()
      modifies this`blobs
      ensures Valid() && blobs == old(blobs)[hash := BlobBytes(block)]
    {
      var tmpfile := new Handle([]);
      WriteHeader(tmpfile, BLOB_TYPE, BLOB_VERSION);
      tmpfile.WriteAll(block);
      assert tmpfile.data == BlobBytes(block);
      blobs := blobs[hash := tmpfile.data];
    }

    method ReadBlob(hash: Hash) returns (r: Result<seq<Byte>, StorageError>)
      requires hash in blobs
      ensures r == Loose(blobs[hash])
    {
      var file := new Handle(blobs[hash]);
      var header := CheckHeader(file, BLOB_TYPE, BLOB_VERSION, BLOB_VERSION);
      if header.Err? {
        return Err(HeaderErr(header.error));
      }
      return Ok(file.data[HEADER_SIZE..]);
    }

    /** The first block appended for the hash in the first pack that has it, else the loose block, else an error. */
    method ReadBlock(hash: Hash) returns (r: Result<seq<Byte>, StorageError>)
      requires Valid()
      ensures r == match InPacks(contents, hash)
                   case Some(found) => found
                   case None => if hash in blobs then Loose(blobs[hash]) else Err(BlockNotFound)
    {
      for i := 0 to |packs|
        invariant InPacks(contents[i..], hash) == InPacks(contents, hash)
      {
        var found := ReadPacked(packs[i], hash, contents[i]);
        assert contents[i..][0] == contents[i] && contents[i..][1..] == contents[i + 1..];
        if found.Some? {
          return found.value;
        }
      }
      if hash in blobs {
        r := ReadBlob(hash);
      } else {
        r := Err(BlockNotFound);
      }
    }
  }

  /** A block in no pack that is written loose is read back; one that was packed is still answered by its pack. */
  method WriteThenRead(s: Storage, hash: Hash, block: seq<Byte>) returns (r: Result<seq<Byte>, StorageError>)
    requires s.Valid()
    modifies s`blobs
    ensures InPacks(s.contents, hash).None? ==> r == Ok(block)
    ensures InPacks(s.contents, hash).Some? ==> r == InPacks(s.contents, hash).value
  {
    s.WriteBlob(hash, block);
    r := s.ReadBlock(hash);
    LooseRoundTrip(block);
  }
}
