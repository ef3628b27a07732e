/** A file handle: the bytes of the file and the position of the next read. */
module Files {
  import opened Wrappers
  import opened Bytes

  class Handle {
    var data: seq<Byte>
    var pos: nat

    constructor (data: seq<Byte>)
      ensures this.data == data && pos == 0
    {
      this.data, pos := data, 0;
    }

    /** The bytes from the position to the end. */
    ghost function Rest(): (s: seq<Byte>)
      reads this
    {
      if pos <= |data| then data[pos..] else []
    }

    /** Reads exactly n bytes, or nothing when the file ends before. */
    method ReadExact(n: nat) returns (r: Option<seq<Byte>>)
      modifies this`pos
      ensures r == if n <= |old(Rest())| then Some(old(Rest())[..n]) else None
      ensures n <= |old(Rest())| ==> Rest() == old(Rest())[n..] && (n == 0 || pos == old(pos) + n)
      ensures n > |old(Rest())| ==> Rest() == []
      ensures n == 0 ==> pos == old(pos)
    {
      if n == 0 {
        return Some([]);
      }
      if pos + n <= |data| {
        assert data[pos..pos + n] == data[pos..][..n];
        r := Some(data[pos..pos + n]);
        pos := pos + n;
      } else {
        r := None;
        pos := if pos < |data| then |data| else pos;
      }
    }

    method Seek(to: nat)
      modifies this`pos
      ensures pos == to
    {
      pos := to;
    }

    method WriteAll(bytes: seq<Byte>)
      modifies this
      ensures data == old(data) + bytes && pos == |data|
    {
      data := data + bytes;
      pos := |data|;
    }
  }
}

/** The 16 bytes at the start of a pack or index file (storage-units/src/utils/magic.rs). */
module Header {
  import opened Wrappers
  import opened Bytes
  import opened Records
  import opened Files

  const HEADER_SIZE: nat := 16
  const MAGIC: seq<Byte> := [0xfe, 0x43, 0x41, 0x52, 0x44, 0x41, 0x4e, 0x4f]

  datatype HeaderError = HeaderEof | MissingMagic | WrongFileType(expected: Size, found: Size)
                       | VersionTooOld(least: Size, found: Size) | VersionTooNew(greatest: Size, found: Size)

  function HeaderBytes(fileType: Size, version: Size): (s: seq<Byte>)
    ensures |s| == HEADER_SIZE
  {
    MAGIC + WriteBe(fileType, 4) + WriteBe(version, 4)
  }

  method WriteHeader(f: Handle, fileType: Size, version: Size)
    modifies f
    ensures f.data == old(f.data) + HeaderBytes(fileType, version)
  {
    f.WriteAll(MAGIC + WriteBe(fileType, 4) + WriteBe(version, 4));
  }

  /** What a check of the first bytes of a file comes to. */
  function CheckedHeader(data: seq<Byte>, expected: Size, least: Size, greatest: Size): (r: Result<Size, HeaderError>) {
    if |data| < HEADER_SIZE then Err(HeaderEof)
    else if data[..8] != MAGIC then Err(MissingMagic)
    else
      var fileType, version := ReadSize(data[8..12]), ReadSize(data[12..16]);
      if fileType != expected then Err(WrongFileType(expected, fileType))
      else if version < least then Err(VersionTooOld(least, version))
      else if version > greatest then Err(VersionTooNew(greatest, version))
      else Ok(version)
  }

  /** A written header is accepted exactly for its type and a version in the range. */
  lemma {:induction false} HeaderReadsBack(data: seq<Byte>, rest: seq<Byte>, fileType: Size, version: Size,
                                           expected: Size, least: Size, greatest: Size)
    requires data == HeaderBytes(fileType, version) + rest
    ensures CheckedHeader(data, expected, least, greatest) ==
            if fileType != expected then Err(WrongFileType(expected, fileType))
            else if version < least then Err(VersionTooOld(least, version))
            else if version > greatest then Err(VersionTooNew(greatest, version))
            else Ok(version)
  {
    var hdr := HeaderBytes(fileType, version);
    HeaderFields(fileType, version);
    assert data[..8] == hdr[..8] && data[8..12] == hdr[8..12] && data[12..16] == hdr[12..16];
  }

  method CheckHeader(f: Handle, expected: Size, least: Size, greatest: Size) returns (r: Result<Size, HeaderError>)
    requires f.pos == 0
    modifies f`pos
    ensures r == CheckedHeader(f.data, expected, least, greatest)
    ensures r.Ok? ==> f.pos == HEADER_SIZE
  {
    var buf := f.ReadExact(16);
    if buf.None? {
      return Err(HeaderEof);
    }
    var hdr := buf.value;
    assert hdr == f.data[..16];
    assert f.data[..8] == hdr[..8] && f.data[8..12] == hdr[8..12] && f.data[12..16] == hdr[12..16];
    if hdr[..8] != MAGIC {
      return Err(MissingMagic);
    }
    var fileType := ReadSize(hdr[8..12]);
    var version := ReadSize(hdr[12..16]);
    if fileType != expected {
      return Err(WrongFileType(expected, fileType));
    }
    if version < least {
      return Err(VersionTooOld(least, version));
    }
    if version > greatest {
      return Err(VersionTooNew(greatest, version));
    }
    return Ok(version);
  }

  lemma {:induction false} HeaderFields(fileType: Size, version: Size)
    ensures var hdr := HeaderBytes(fileType, version);
            hdr[..8] == MAGIC && ReadBe(hdr[8..12]) == fileType && ReadBe(hdr[12..16]) == version
  {
    var hdr := HeaderBytes(fileType, version);
    assert hdr[8..12] == WriteBe(fileType, 4);
    assert hdr[12..16] == WriteBe(version, 4);
    SizeRoundTrip(fileType);
    SizeRoundTrip(version);
  }
}
