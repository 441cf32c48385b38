// A decoder for the PNG files the print encoder may write, taken from the standards:
// the chunk layout, the zlib container and stored blocks are checked byte for byte.
// It is the reference against which the encoder is proved.

module PngDecoder {
  import opened Bytes
  import opened Wrappers
  import opened Pixels
  import opened PngEncoder
  import Adler
  import Crc

  datatype Chunk = Chunk(kind: seq<Byte>, data: seq<Byte>)
  datatype Image = Image(width: nat, height: nat, rgba: seq<Byte>)

  /** Section 2.1 of RFC 2083: four-byte lengths and dimensions stop at 2^31 - 1. */
  const MAX_FIELD := 0x7FFF_FFFF

  /** The first chunk and what follows it (section 3.2 of RFC 2083). */
  function TakeChunk(s: seq<Byte>): (r: Option<(Chunk, seq<Byte>)>)
    ensures r.Some? ==> |r.value.1| < |s|
  {
    if |s| < 12 then None else
      var len := FromBe32(s[..4]);
      if len > MAX_FIELD || |s| < 12 + len then None else
        var kind, data, crc := s[4..8], s[8..8 + len], s[8 + len..12 + len];
        if Crc.Intact(kind + data, crc) then Some((Chunk(kind, data), s[12 + len..])) else None
  }

  function AllChunks(s: seq<Byte>): Option<seq<Chunk>>
    decreases |s|
  {
    if s == [] then Some([]) else
      match TakeChunk(s)
      case None => None
      case Some((first, rest)) =>
        match AllChunks(rest)
        case None => None
        case Some(more) => Some([first] + more)
  }

  /** The joined data of the image chunks; any other chunk between header and end is refused. */
  function ImageData(chunks: seq<Chunk>): Option<seq<Byte>> {
    if chunks == [] then Some([])
    else if chunks[0].kind != IDAT then None
    else
      match ImageData(chunks[1..])
      case None => None
      case Some(more) => Some(chunks[0].data + more)
  }

  /** Stored blocks up to the final one, and the bytes after it (section 3.2.4 of RFC 1951). */
  function Inflate(s: seq<Byte>): Option<(seq<Byte>, seq<Byte>)>
    decreases |s|
  {
    if |s| < 5 || s[0] / 2 % 4 != 0 then None else
      var len, complement := FromLe16(s[1..3]), FromLe16(s[3..5]);
      if len + complement != 0xFFFF || |s| < 5 + len then None else
        var data, rest := s[5..5 + len], s[5 + len..];
        if s[0] % 2 == 1 then Some((data, rest)) else
          match Inflate(rest)
          case None => None
          case Some((more, after)) => Some((data + more, after))
  }

  /** Section 2.2 of RFC 1950: deflate, window at most 32K, header check, no dictionary, Adler-32. */
  function Uncompress(z: seq<Byte>): Option<seq<Byte>> {
    if |z| < 6 || z[0] % 16 != 8 || z[0] / 16 > 7 || (z[0] as int * 256 + z[1] as int) % 31 != 0 || z[1] / 32 % 2 != 0
      then None else
      match Inflate(z[2..])
      case None => None
      case Some((data, trailer)) => if trailer == Be32(Adler.Checksum(data)) then Some(data) else None
  }

  /** Rows of filter type 0 only (section 6.1 of RFC 2083); the other filters are never written. */
  function Unfilter(raw: seq<Byte>, rowBytes: nat, rows: nat): Option<seq<Byte>> {
    if rows == 0 then if raw == [] then Some([]) else None
    else if |raw| < rowBytes + 1 || raw[0] != 0 then None
    else
      match Unfilter(raw[rowBytes + 1..], rowBytes, rows - 1)
      case None => None
      case Some(more) => Some(raw[1..rowBytes + 1] + more)
  }

  function DecodeChunks(chunks: seq<Chunk>): Option<Image> {
    var n := |chunks|;
    if n < 3 || chunks[0].kind != IHDR || chunks[n - 1] != Chunk(IEND, []) then None else
      var header := chunks[0].data;
      // Section 4.1.1 of RFC 2083: eight bits a sample, RGBA, no interlace.
      if |header| != 13 || header[8..] != [8, 6, 0, 0, 0] then None else
        var width, height := FromBe32(header[..4]), FromBe32(header[4..8]);
        if !(0 < width <= MAX_FIELD && 0 < height <= MAX_FIELD) then None else
          match ImageData(chunks[1..n - 1])
          case None => None
          case Some(z) =>
            match Uncompress(z)
            case None => None
            case Some(raw) =>
              match Unfilter(raw, width * 4, height)
              case None => None
              case Some(rgba) => Some(Image(width, height, rgba))
  }

  function Decode(png: seq<Byte>): Option<Image> {
    if |png| < 8 || png[..8] != SIGNATURE then None else
      match AllChunks(png[8..])
      case None => None
      case Some(chunks) => DecodeChunks(chunks)
  }

  // Each layer read back

  lemma TakeWrittenChunk(kind: seq<Byte>, data: seq<Byte>, rest: seq<Byte>)
    requires |kind| == 4 && |data| <= MAX_FIELD
    ensures TakeChunk(PngChunk(kind, data) + rest) == Some((Chunk(kind, data), rest))
  {
    hide Crc.ToBytes, Crc.Checksum, Crc.Intact, Be32, FromBe32;
    var crc := Crc.ToBytes(Crc.Checksum(kind + data));
    Crc.IntactIff(kind + data, crc);
    var head := Be32(|data|);
    var s := PngChunk(kind, data) + rest;
    assert s == head + kind + data + crc + rest;
    ChunkFields(head, kind, data, crc, rest);
  }

  /** The fields of a chunk are where their lengths say. */
  lemma ChunkFields(head: seq<Byte>, kind: seq<Byte>, data: seq<Byte>, crc: seq<Byte>, rest: seq<Byte>)
    requires |head| == |kind| == |crc| == 4
    ensures var s := head + kind + data + crc + rest;
            && |s| == 12 + |data| + |rest|
            && s[..4] == head && s[4..8] == kind && s[8..8 + |data|] == data
            && s[8 + |data|..12 + |data|] == crc && s[12 + |data|..] == rest
  {
    var (n, s) := (|data|, head + kind + data + crc + rest);
    assert s[..4] == head;
    assert s[4..8] == kind;
    assert s[8..8 + n] == data;
    assert s[8 + n..12 + n] == crc;
    assert s[12 + n..] == rest;
  }

  lemma TakeStoredBlock(data: seq<Byte>, last: bool, rest: seq<Byte>)
    requires |data| <= MAX_DEFLATE_BLOCK
    ensures Inflate(StoredBlock(data, last) + rest)
         == if last then Some((data, rest))
            else match Inflate(rest)
                 case None => None
                 case Some((more, after)) => Some((data + more, after))
  {
    var s := StoredBlock(data, last) + rest;
    hide Le16, FromLe16;
    assert s[0] == if last then 1 else 0;
    assert s[1..3] == Le16(|data|);
    assert s[3..5] == Le16(0xFFFF - |data|);
    assert s[5..5 + |data|] == data;
    assert s[5 + |data|..] == rest;
  }

  lemma {:induction false} InflateStoredBlocks(raw: seq<Byte>, rest: seq<Byte>)
    requires raw != []
    ensures Inflate(StoredBlocks(raw) + rest) == Some((raw, rest))
  {
    hide StoredBlock, Inflate;
    if |raw| <= MAX_DEFLATE_BLOCK {
      TakeStoredBlock(raw, true, rest);
    } else {
      var first, others := raw[..MAX_DEFLATE_BLOCK], raw[MAX_DEFLATE_BLOCK..];
      var more := StoredBlocks(others) + rest;
      assert StoredBlocks(raw) + rest == StoredBlock(first, false) + more;
      TakeStoredBlock(first, false, more);
      InflateStoredBlocks(others, rest);
      assert raw == first + others;
    }
  }

  lemma UncompressZlibStream(raw: seq<Byte>)
    requires raw != []
    ensures Uncompress(ZlibStream(raw)) == Some(raw)
  {
    hide Inflate, StoredBlocks, Be32, Adler.Checksum;
    var z := ZlibStream(raw);
    var trailer := Be32(Adler.Checksum(raw));
    assert z[2..] == StoredBlocks(raw) + trailer;
    InflateStoredBlocks(raw, trailer);
  }

  lemma {:induction false} UnfilterScanLines(p: seq<Byte>, rowBytes: nat, rows: nat)
    requires |p| == rows * rowBytes && rowBytes % 4 == 0
    ensures Unfilter(ScanLines(p, rowBytes, rows), rowBytes, rows) == Some(Swapped(p))
  {
    hide Swapped;
    if rows > 0 {
      RowsSplit(rows, rowBytes);
      var head, tail := p[..rowBytes], p[rowBytes..];
      assert p == head + tail;
      SwappedConcat(head, tail);
      UnfilterScanLines(tail, rowBytes, rows - 1);
      var raw := ScanLines(p, rowBytes, rows);
      assert raw == [0] + Swapped(head) + ScanLines(tail, rowBytes, rows - 1);
      assert raw[1..rowBytes + 1] == Swapped(head);
      assert raw[rowBytes + 1..] == ScanLines(tail, rowBytes, rows - 1);
    } else {
      SwappedNothing();
    }
  }

  lemma SwappedNothing()
    ensures Swapped([]) == []
  {}

  /** The number of bytes of stored blocks: five for every started block of 65535. */
  lemma {:induction false} StoredBlocksLength(raw: seq<Byte>)
    ensures |StoredBlocks(raw)| == |raw| + 5 * ((|raw| + 65534) / 65535)
  {
    if |raw| > MAX_DEFLATE_BLOCK {
      StoredBlocksLength(raw[MAX_DEFLATE_BLOCK..]);
    }
  }

  function ZlibLength(width: nat, height: nat): nat {
    var raw := height * (width * 4 + 1);
    raw + 5 * ((raw + 65534) / 65535) + 6
  }

  lemma ZlibStreamLength(page: PrintPage)
    requires page.Valid()
    ensures |ZlibStream(ScanLines(page.bgra, page.width * 4, page.height))| == ZlibLength(page.width, page.height)
  {
    StoredBlocksLength(ScanLines(page.bgra, page.width * 4, page.height));
  }
}
