// What the print encoder is for: the file it writes is read back as the page it was given.

module PngRoundTrip {
  import opened Bytes
  import opened Wrappers
  import opened Limits
  import opened Pixels
  import opened PngEncoder
  import opened PngDecoder
  import Crc
  import Adler

  /** Every length and dimension of the page fits the four-byte fields of the format. */
  predicate FitsFormat(page: PrintPage) {
    page.width <= MAX_FIELD && page.height <= MAX_FIELD && ZlibLength(page.width, page.height) <= MAX_FIELD
  }

  function Stream(page: PrintPage): seq<Byte>
    requires page.Valid()
  {
    ZlibStream(ScanLines(page.bgra, page.width * 4, page.height))
  }

  function WrittenChunks(page: PrintPage): seq<Chunk>
    requires page.Valid()
  {
    [Chunk(IHDR, HeaderData(page.width, page.height)), Chunk(IDAT, Stream(page)), Chunk(IEND, [])]
  }

  lemma AllWrittenChunks(page: PrintPage)
    requires page.Valid() && |Stream(page)| <= MAX_FIELD
    ensures AllChunks(Encoded(page)[8..]) == Some(WrittenChunks(page))
  {
    hide PngChunk, TakeChunk, ZlibStream, ScanLines, HeaderData;
    var header, z := HeaderData(page.width, page.height), Stream(page);
    HeaderLength(page);
    var third := PngChunk(IEND, []);
    var second := PngChunk(IDAT, z) + third;
    var first := PngChunk(IHDR, header) + second;
    assert Encoded(page)[8..] == first;
    assert third + [] == third;
    TakeWrittenChunk(IEND, [], []);
    TakeWrittenChunk(IDAT, z, third);
    TakeWrittenChunk(IHDR, header, second);
    ChunksAfter(IEND, [], [], third);
    ChunksAfter(IDAT, z, third, second);
    ChunksAfter(IHDR, header, second, first);
    assert AllChunks(first).value == WrittenChunks(page);
  }

  lemma HeaderLength(page: PrintPage)
    requires page.Valid()
    ensures |HeaderData(page.width, page.height)| == 13
  {}

  lemma ChunksAfter(kind: seq<Byte>, data: seq<Byte>, rest: seq<Byte>, s: seq<Byte>)
    requires s != [] && TakeChunk(s) == Some((Chunk(kind, data), rest)) && AllChunks(rest).Some?
    ensures AllChunks(s) == Some([Chunk(kind, data)] + AllChunks(rest).value)
  {}

  lemma DecodeWrittenChunks(page: PrintPage)
    requires page.Valid()
    ensures DecodeChunks(WrittenChunks(page))
         == if page.width <= MAX_FIELD && page.height <= MAX_FIELD
            then Some(Image(page.width, page.height, Swapped(page.bgra))) else None
  {
    hide ZlibStream, ScanLines, HeaderData, Swapped, FromBe32, Uncompress, Unfilter, ImageData;
    var chunks := WrittenChunks(page);
    ReadHeader(page.width, page.height);
    assert chunks[1..2] == [Chunk(IDAT, Stream(page))];
    OneImageChunk(Stream(page));
    StreamIsReadBack(page);
  }

  lemma StreamIsReadBack(page: PrintPage)
    requires page.Valid()
    ensures Uncompress(Stream(page)).Some?
    ensures Unfilter(Uncompress(Stream(page)).value, page.width * 4, page.height) == Some(Swapped(page.bgra))
  {
    hide ZlibStream, ScanLines, Swapped, Uncompress, Unfilter;
    var raw := ScanLines(page.bgra, page.width * 4, page.height);
    RowsSplit(page.height, page.width * 4 + 1);
    UncompressZlibStream(raw);
    UnfilterScanLines(page.bgra, page.width * 4, page.height);
  }

  lemma OneImageChunk(z: seq<Byte>)
    ensures ImageData([Chunk(IDAT, z)]) == Some(z)
  {
    assert ImageData([Chunk(IDAT, z)][1..]) == Some([]);
    assert z + [] == z;
  }

  lemma ReadHeader(width: nat, height: nat)
    requires width < 0x1_0000_0000 && height < 0x1_0000_0000
    ensures var h := HeaderData(width, height);
            |h| == 13 && h[8..] == [8, 6, 0, 0, 0] && FromBe32(h[..4]) == width && FromBe32(h[4..8]) == height
  {
    hide FromBe32;
    var h := HeaderData(width, height);
    assert h[..4] == Be32(width);
    assert h[4..8] == Be32(height);
  }

  /**
   * The decoder reads a written file exactly when the page fits the format, and then it finds
   * the dimensions and the pixels of the page, in RGBA order.
   */
  lemma RoundTrip(page: PrintPage)
    requires page.Valid()
    ensures Decode(Encoded(page))
         == if FitsFormat(page) then Some(Image(page.width, page.height, Swapped(page.bgra))) else None
  {
    hide Swapped, ScanLines, ZlibStream, DecodeChunks, AllChunks, Encoded;
    SignatureFirst(page);
    ZlibStreamLength(page);
    if |Stream(page)| <= MAX_FIELD {
      AllWrittenChunks(page);
      DecodeWrittenChunks(page);
    } else {
      LongStreamIsRefused(page);
    }
  }

  lemma SignatureFirst(page: PrintPage)
    requires page.Valid()
    ensures |Encoded(page)| >= 8 && Encoded(page)[..8] == SIGNATURE
  {
    hide PngChunk, ScanLines, ZlibStream, HeaderData;
  }

  /** A stream the length field cannot hold makes the image chunk unreadable. */
  lemma LongStreamIsRefused(page: PrintPage)
    requires page.Valid() && |Stream(page)| > MAX_FIELD
    ensures AllChunks(Encoded(page)[8..]) == None
  {
    hide ZlibStream, ScanLines, HeaderData, PngChunk, TakeChunk;
    var header, z := HeaderData(page.width, page.height), Stream(page);
    HeaderLength(page);
    var tail := PngChunk(IDAT, z) + PngChunk(IEND, []);
    TakeWrittenChunk(IHDR, header, tail);
    assert Encoded(page)[8..] == PngChunk(IHDR, header) + tail;
    LongChunkIsRefused(IDAT, z, PngChunk(IEND, []));
    assert AllChunks(tail) == None;
  }

  lemma LongChunkIsRefused(kind: seq<Byte>, data: seq<Byte>, rest: seq<Byte>)
    requires |data| > MAX_FIELD
    ensures TakeChunk(PngChunk(kind, data) + rest) == None
    ensures PngChunk(kind, data) + rest != []
  {
    hide Crc.ToBytes, Crc.Checksum, Crc.Intact, Be32, FromBe32;
    var s := PngChunk(kind, data) + rest;
    assert s[..4] == Be32(ChunkLength(data));
    assert FromBe32(s[..4]) > MAX_FIELD;
  }

  /** Below the print limit no field of the file saturates. */
  lemma PrintLimitFits(page: PrintPage)
    requires page.Valid() && |page.bgra| <= MAX_PRINT_BITMAP_BYTES
    ensures FitsFormat(page) && page.height * (page.width * 4 + 1) < USIZE_LIMIT
  {
    var rowBytes := page.width * 4;
    assert page.height * rowBytes >= page.height * 4 by { Grows(page.height, 4, rowBytes); }
    assert page.height * rowBytes >= rowBytes by { RowsSplit(page.height, rowBytes); }
    assert page.height * (rowBytes + 1) == page.height * rowBytes + page.height;
  }

  lemma Grows(k: nat, a: nat, b: nat)
    requires a <= b
    ensures k * a <= k * b
  {}

  /** Any RGBA page within the print limit survives the swap, the encoder and the decoder. */
  lemma PrintedPageIsReadBack(page: PrintPage, rgba: seq<Byte>)
    requires page.Valid() && page.bgra == Swapped(rgba) && |rgba| <= MAX_PRINT_BITMAP_BYTES
    ensures Decode(Encoded(page)) == Some(Image(page.width, page.height, rgba))
  {
    SwappedTwice(rgba);
    hide Swapped, Decode, Encoded, FitsFormat;
    PrintLimitFits(page);
    RoundTrip(page);
  }

  /** The page step of a print job: swap in place, validate, encode. */
  method EncodeRgba(width: nat, height: nat, pixels: array<Byte>) returns (r: Result<seq<Byte>, PrintError>)
    requires width < 0x1_0000_0000 && height < 0x1_0000_0000
    requires pixels.Length <= MAX_PRINT_BITMAP_BYTES
    modifies pixels
    ensures pixels[..] == Swapped(old(pixels[..]))
    ensures r.Success? <==> width > 0 && height > 0 && pixels.Length == height * (width * 4)
    ensures r.Success? ==> Decode(r.value) == Some(Image(width, height, old(pixels[..])))
  {
    hide Swapped, Decode, Encoded;
    RgbaToBgra(pixels);
    match NewPage(width, height, pixels[..]) {
      case Failure(e) =>
        r := Failure(e);
      case Success(page) =>
        PrintLimitFits(page);
        PrintedPageIsReadBack(page, old(pixels[..]));
        r := EncodePrintPage(page);
    }
  }

  /** A chunk whose data was changed within 32 consecutive bits is refused. */
  lemma DamagedChunkIsRefused(kind: seq<Byte>, data: seq<Byte>, damaged: seq<Byte>, start: nat, rest: seq<Byte>)
    requires |kind| == 4 && |data| == |damaged| <= MAX_FIELD && data != damaged
    requires Crc.BurstApart(Crc.MessageBits(data), Crc.MessageBits(damaged), start)
    ensures TakeChunk(Be32(|data|) + kind + damaged + Crc.ToBytes(Crc.Checksum(kind + data)) + rest) == None
  {
    var n := |data|;
    var crc := Crc.ToBytes(Crc.Checksum(kind + data));
    var s := Be32(n) + kind + damaged + crc + rest;
    DamageShowsInChecksum(kind, data, damaged, start);
    hide Crc.ToBytes, Crc.Checksum, Crc.Intact, Crc.MessageBits, Crc.BurstApart, Be32, FromBe32;
    ChunkFields(Be32(n), kind, damaged, crc, rest);
    assert |s| == 12 + n + |rest|;
  }

  lemma DamageShowsInChecksum(kind: seq<Byte>, data: seq<Byte>, damaged: seq<Byte>, start: nat)
    requires |data| == |damaged| && data != damaged
    requires Crc.BurstApart(Crc.MessageBits(data), Crc.MessageBits(damaged), start)
    ensures !Crc.Intact(kind + damaged, Crc.ToBytes(Crc.Checksum(kind + data)))
  {
    hide Crc.ToBytes, Crc.Checksum, Crc.MessageBits, Crc.Intact;
    Crc.MessageBitsConcat(kind, data);
    Crc.MessageBitsConcat(kind, damaged);
    assert data == (kind + data)[|kind|..] && damaged == (kind + damaged)[|kind|..];
    Crc.BurstIsDetected(kind + data, kind + damaged, start + |Crc.MessageBits(kind)|);
    Crc.IntactIff(kind + damaged, Crc.ToBytes(Crc.Checksum(kind + data)));
    if Crc.ToBytes(Crc.Checksum(kind + damaged)) == Crc.ToBytes(Crc.Checksum(kind + data)) {
      Crc.ToBytesIsInjective(Crc.Checksum(kind + damaged), Crc.Checksum(kind + data));
    }
  }

  // Check values

  /** The chunk that ends every PNG file, byte for byte. */
  lemma EndChunk()
    ensures PngChunk(IEND, []) == [0, 0, 0, 0, 0x49, 0x45, 0x4E, 0x44, 0xAE, 0x42, 0x60, 0x82]
  {
    hide Crc.Checksum, Crc.ToBytes;
    Crc.ChecksumOfIend();
    Crc.BytesOfIend();
    assert Be32(0) == [0, 0, 0, 0];
    hide Be32;
    OneChunk(IEND, [], [0x49, 0x45, 0x4E, 0x44]);
  }

  /** Kind and data of the first two chunks of the file of one opaque pixel: blue 1, green 2 and red 3. */
  const ONE_PIXEL_HEADER: seq<Byte> := [0x49, 0x48, 0x44, 0x52, 0, 0, 0, 1, 0, 0, 0, 1, 8, 6, 0, 0, 0]
  const ONE_PIXEL_IMAGE: seq<Byte> :=
    [0x49, 0x44, 0x41, 0x54, 0x78, 0x01, 1, 5, 0, 0xFA, 0xFF, 0, 3, 2, 1, 0xFF, 1, 0x18, 1, 6]

  /** The file of this pixel, byte for byte but for the checksums of its first two chunks. */
  lemma OnePixelFile()
    ensures Encoded(PrintPage(1, 1, [1, 2, 3, 0xFF]))
         == [0x89, 0x50, 0x4E, 0x47, 0x0D, 0x0A, 0x1A, 0x0A]
            + ([0, 0, 0, 13] + ONE_PIXEL_HEADER + Crc.ToBytes(Crc.Checksum(ONE_PIXEL_HEADER)))
            + ([0, 0, 0, 16] + ONE_PIXEL_IMAGE + Crc.ToBytes(Crc.Checksum(ONE_PIXEL_IMAGE)))
            + [0, 0, 0, 0, 0x49, 0x45, 0x4E, 0x44, 0xAE, 0x42, 0x60, 0x82]
  {
    hide ZlibStream, ScanLines, PngChunk, HeaderData, Crc.ToBytes, Crc.Checksum;
    OnePixelHeaderChunk();
    OnePixelImageChunk();
    EndChunk();
    OnePixelImage();
  }

  lemma OnePixelHeaderChunk()
    ensures PngChunk(IHDR, HeaderData(1, 1))
         == [0, 0, 0, 13] + ONE_PIXEL_HEADER + Crc.ToBytes(Crc.Checksum(ONE_PIXEL_HEADER))
  {
    hide Crc.ToBytes, Crc.Checksum;
    var data := [0, 0, 0, 1, 0, 0, 0, 1, 8, 6, 0, 0, 0];
    assert Be32(1) == [0, 0, 0, 1] && Be32(13) == [0, 0, 0, 13];
    hide Be32;
    assert HeaderData(1, 1) == data;
    hide HeaderData;
    OneChunk(IHDR, data, ONE_PIXEL_HEADER);
  }

  lemma OnePixelImageChunk()
    ensures PngChunk(IDAT, ZlibStream([0, 3, 2, 1, 0xFF]))
         == [0, 0, 0, 16] + ONE_PIXEL_IMAGE + Crc.ToBytes(Crc.Checksum(ONE_PIXEL_IMAGE))
  {
    hide Crc.ToBytes, Crc.Checksum, ZlibStream;
    OnePixelImage();
    assert Be32(16) == [0, 0, 0, 16];
    hide Be32;
    OneChunk(IDAT, ZlibStream([0, 3, 2, 1, 0xFF]), ONE_PIXEL_IMAGE);
  }

  lemma OneChunk(kind: seq<Byte>, data: seq<Byte>, both: seq<Byte>)
    requires kind + data == both && |data| < 100
    ensures PngChunk(kind, data) == Be32(|data|) + both + Crc.ToBytes(Crc.Checksum(both))
  {
    hide Crc.ToBytes, Crc.Checksum, Be32;
    assert Be32(|data|) + kind + data == Be32(|data|) + both;
  }

  lemma OnePixelImage()
    ensures ScanLines([1, 2, 3, 0xFF], 4, 1) == [0, 3, 2, 1, 0xFF]
    ensures ZlibStream([0, 3, 2, 1, 0xFF]) == [0x78, 0x01, 1, 5, 0, 0xFA, 0xFF, 0, 3, 2, 1, 0xFF, 1, 0x18, 1, 6]
  {
    var (pixel, raw) := ([1, 2, 3, 0xFF], [0, 3, 2, 1, 0xFF]);
    assert pixel[..4] == pixel && pixel[4..] == [];
    assert Swapped(pixel) == [3, 2, 1, 0xFF];
    assert ScanLines(pixel, 4, 1) == [0] + Swapped(pixel[..4]) + ScanLines(pixel[4..], 4, 0);
    AdlerOfRow();
    assert StoredBlocks(raw) == StoredBlock(raw, true);
    assert Le16(5) == [5, 0] && Le16(0xFFFA) == [0xFA, 0xFF];
    assert Be32(0x0118_0106) == [1, 0x18, 1, 6];
    hide Adler.Checksum, Swapped, ScanLines, StoredBlocks, Le16, Be32;
  }

  lemma AdlerOfRow()
    ensures Adler.Checksum([0, 3, 2, 1, 0xFF]) == 0x0118_0106
  {
    Adler.SumsGrow([], 0);
    Adler.SumsGrow([0], 3);
    Adler.SumsGrow([0, 3], 2);
    Adler.SumsGrow([0, 3, 2], 1);
    Adler.SumsGrow([0, 3, 2, 1], 0xFF);
    assert [] + [0] == [0] && [0] + [3] == [0, 3] && [0, 3] + [2] == [0, 3, 2];
    assert [0, 3, 2] + [1] == [0, 3, 2, 1] && [0, 3, 2, 1] + [0xFF] == [0, 3, 2, 1, 0xFF];
  }
}
