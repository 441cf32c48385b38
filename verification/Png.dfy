// The print encoder: a tightly packed BGRA page written as a PNG file with stored
// deflate blocks, and a decoder written from the standards to read it back.

/** Red and blue exchanged in every four-byte pixel. */
module Pixels {
  import opened Bytes

  /** Whole pixels only: a remainder of fewer than four bytes is kept. */
  function Swapped(p: seq<Byte>): (q: seq<Byte>)
    ensures |q| == |p|
  {
    if |p| < 4 then p else [p[2], p[1], p[0], p[3]] + Swapped(p[4..])
  }

  lemma {:induction false} SwappedTwice(p: seq<Byte>)
    ensures Swapped(Swapped(p)) == p
  {
    if |p| >= 4 {
      var q := Swapped(p);
      assert q[4..] == Swapped(p[4..]);
      SwappedTwice(p[4..]);
    }
  }

  lemma {:induction false} SwappedConcat(p: seq<Byte>, q: seq<Byte>)
    requires |p| % 4 == 0
    ensures Swapped(p + q) == Swapped(p) + Swapped(q)
  {
    if p == [] {
      assert p + q == q;
    } else {
      assert (p + q)[4..] == p[4..] + q;
      SwappedConcat(p[4..], q);
    }
  }

  /** `rgba_to_bgra`: the swap in place, one whole pixel at a time. */
  method RgbaToBgra(pixels: array<Byte>)
    modifies pixels
    ensures pixels[..] == Swapped(old(pixels[..]))
  {
    ghost var was := pixels[..];
    var at := 0;
    assert Swapped(was[..0]) == [];
    while at + 4 <= pixels.Length
      invariant 0 <= at <= pixels.Length && at % 4 == 0
      invariant pixels[..] == Swapped(was[..at]) + was[at..]
    {
      ghost var before := pixels[..];
      pixels[at], pixels[at + 2] := pixels[at + 2], pixels[at];
      assert pixels[..] == before[at := before[at + 2]][at + 2 := before[at]] by { hide Swapped; }
      SwapOnePixel(was, at, before, pixels[..]);
      at := at + 4;
    }
    assert was == was[..at] + was[at..];
    SwappedConcat(was[..at], was[at..]);
  }

  lemma SwapOnePixel(was: seq<Byte>, at: nat, before: seq<Byte>, after: seq<Byte>)
    requires at + 4 <= |was| && at % 4 == 0
    requires before == Swapped(was[..at]) + was[at..]
    requires after == before[at := before[at + 2]][at + 2 := before[at]]
    ensures after == Swapped(was[..at + 4]) + was[at + 4..]
  {
    var pixel := was[at..at + 4];
    assert was[..at + 4] == was[..at] + pixel;
    SwappedConcat(was[..at], pixel);
    SwappedPixel(pixel);
    var swapped := [pixel[2], pixel[1], pixel[0], pixel[3]];
    hide Swapped;
    var done := Swapped(was[..at]);
    assert |done| == at;
    assert before[at] == was[at] && before[at + 2] == was[at + 2];
    assert forall i | at <= i < |was| :: before[i] == was[i];
    assert after == done + swapped + was[at + 4..];
  }

  lemma SwappedPixel(pixel: seq<Byte>)
    requires |pixel| == 4
    ensures Swapped(pixel) == [pixel[2], pixel[1], pixel[0], pixel[3]]
  {
    assert Swapped(pixel[4..]) == [];
  }
}

module PngEncoder {
  import opened Bytes
  import opened Wrappers
  import opened Pixels
  import Adler
  import Crc

  datatype PrintError = InvalidPage

  /** A validated raster page: four bytes a pixel, no zero dimension. */
  datatype PrintPage = PrintPage(width: nat, height: nat, bgra: seq<Byte>) {
    predicate Valid() {
      && 0 < width < 0x1_0000_0000
      && 0 < height < 0x1_0000_0000
      && |bgra| == height * (width * 4)
    }
  }

  /** `PrintPage::new`. */
  function NewPage(width: nat, height: nat, bgra: seq<Byte>): (r: Result<PrintPage, PrintError>)
    requires width < 0x1_0000_0000 && height < 0x1_0000_0000
    ensures r.Success? <==> PrintPage(width, height, bgra).Valid()
    ensures r.Success? ==> r.value == PrintPage(width, height, bgra)
  {
    if width == 0 || height == 0 || |bgra| != height * (width * 4) then Failure(InvalidPage)
    else Success(PrintPage(width, height, bgra))
  }

  // Scan lines

  /** Every row preceded by the filter byte 0 and with its pixels in RGBA order. */
  function ScanLines(p: seq<Byte>, rowBytes: nat, rows: nat): (raw: seq<Byte>)
    requires |p| == rows * rowBytes
    ensures |raw| == rows * (rowBytes + 1)
  {
    if rows == 0 then [] else
      RowsSplit(rows, rowBytes);
      RowsSplit(rows, rowBytes + 1);
      [0] + Swapped(p[..rowBytes]) + ScanLines(p[rowBytes..], rowBytes, rows - 1)
  }

  lemma RowsSplit(rows: nat, rowBytes: nat)
    requires rows > 0
    ensures rows * rowBytes == (rows - 1) * rowBytes + rowBytes
    ensures rows * rowBytes >= rowBytes
  {}

  lemma {:induction false} ScanLinesAppend(p: seq<Byte>, row: seq<Byte>, rowBytes: nat, rows: nat)
    requires |p| == rows * rowBytes && |row| == rowBytes
    ensures |p + row| == (rows + 1) * rowBytes
    ensures ScanLines(p + row, rowBytes, rows + 1) == ScanLines(p, rowBytes, rows) + [0] + Swapped(row)
  {
    hide Swapped, ScanLines;
    RowsSplit(rows + 1, rowBytes);
    if rows == 0 {
      ScanLinesFront(row, [], rowBytes, 1);
      NoScanLines(rowBytes);
      assert p + row == row + [] == row;
    } else {
      RowsSplit(rows, rowBytes);
      var head, tail := p[..rowBytes], p[rowBytes..];
      ScanLinesAppend(tail, row, rowBytes, rows - 1);
      assert p == head + tail;
      assert p + row == head + (tail + row);
      ScanLinesFront(head, tail, rowBytes, rows);
      ScanLinesFront(head, tail + row, rowBytes, rows + 1);
    }
  }

  lemma NoScanLines(rowBytes: nat)
    ensures ScanLines([], rowBytes, 0) == []
  {}

  lemma ScanLinesFront(head: seq<Byte>, tail: seq<Byte>, rowBytes: nat, rows: nat)
    requires rows > 0 && |head| == rowBytes && |head + tail| == rows * rowBytes
    ensures |tail| == (rows - 1) * rowBytes
    ensures ScanLines(head + tail, rowBytes, rows) == [0] + Swapped(head) + ScanLines(tail, rowBytes, rows - 1)
  {
    RowsSplit(rows, rowBytes);
    assert (head + tail)[..rowBytes] == head;
    assert (head + tail)[rowBytes..] == tail;
  }

  method FilterRow(raw: seq<Byte>, rowBgra: seq<Byte>) returns (longer: seq<Byte>)
    requires |rowBgra| % 4 == 0
    ensures longer == raw + [0] + Swapped(rowBgra)
  {
    longer := raw + [0];
    for k := 0 to |rowBgra| / 4
      invariant longer == raw + [0] + Swapped(rowBgra[..4 * k])
    {
      var at := 4 * k;
      var pixel := rowBgra[at..at + 4];
      assert rowBgra[..at + 4] == rowBgra[..at] + pixel;
      SwappedConcat(rowBgra[..at], pixel);
      SwappedPixel(pixel);
      hide Swapped;
      longer := longer + [pixel[2]];
      longer := longer + [pixel[1]];
      longer := longer + [pixel[0]];
      longer := longer + [pixel[3]];
    }
    assert rowBgra[..|rowBgra|] == rowBgra;
  }

  method FilterRows(page: PrintPage) returns (raw: seq<Byte>)
    requires page.Valid()
    ensures raw == ScanLines(page.bgra, page.width * 4, page.height)
  {
    hide Swapped;
    var rowBytes := page.width * 4;
    raw := [];
    var rowStart := 0;
    for row := 0 to page.height
      invariant rowStart == row * rowBytes <= |page.bgra|
      invariant raw == ScanLines(page.bgra[..rowStart], rowBytes, row)
    {
      RowFits(row, page.height, rowBytes);
      var rowEnd := rowStart + rowBytes;
      var rowBgra := page.bgra[rowStart..rowEnd];
      raw := FilterRow(raw, rowBgra);
      assert page.bgra[..rowEnd] == page.bgra[..rowStart] + rowBgra;
      ScanLinesAppend(page.bgra[..rowStart], rowBgra, rowBytes, row);
      rowStart := rowEnd;
    }
    assert page.bgra[..rowStart] == page.bgra;
  }

  lemma RowFits(row: nat, rows: nat, rowBytes: nat)
    requires row < rows
    ensures row * rowBytes + rowBytes == (row + 1) * rowBytes <= rows * rowBytes
  {
    assert rows * rowBytes == (row + 1) * rowBytes + (rows - row - 1) * rowBytes;
  }

  // Stored deflate blocks (section 3.2.4 of RFC 1951)

  const MAX_DEFLATE_BLOCK := 65535

  function StoredBlock(data: seq<Byte>, last: bool): seq<Byte>
    requires |data| <= MAX_DEFLATE_BLOCK
  {
    [if last then 1 else 0] + Le16(|data|) + Le16(0xFFFF - |data|) + data
  }

  function StoredBlocks(raw: seq<Byte>): seq<Byte> {
    if raw == [] then []
    else if |raw| <= MAX_DEFLATE_BLOCK then StoredBlock(raw, true)
    else StoredBlock(raw[..MAX_DEFLATE_BLOCK], false) + StoredBlocks(raw[MAX_DEFLATE_BLOCK..])
  }

  /** The zlib stream around the scan lines (section 2.2 of RFC 1950). */
  function ZlibStream(raw: seq<Byte>): seq<Byte> {
    [0x78, 0x01] + StoredBlocks(raw) + Be32(Adler.Checksum(raw))
  }

  /** One turn of the loop: header byte, length, complement and data of the next block. */
  method AppendBlock(zlib: seq<Byte>, raw: seq<Byte>, offset: nat) returns (longer: seq<Byte>, next: nat)
    requires offset < |raw|
    ensures offset < next <= |raw|
    ensures longer + StoredBlocks(raw[next..]) == zlib + StoredBlocks(raw[offset..])
  {
    var remaining := |raw| - offset;
    var chunkLen := if remaining <= MAX_DEFLATE_BLOCK then remaining else MAX_DEFLATE_BLOCK;
    var isLast := offset + chunkLen == |raw|;
    var rest := raw[offset..];
    var data := raw[offset..offset + chunkLen];
    assert data == rest[..chunkLen];
    assert raw[offset + chunkLen..] == rest[chunkLen..];
    if isLast {
      assert rest[..chunkLen] == rest;
      assert StoredBlocks(rest[chunkLen..]) == [];
    }
    assert StoredBlocks(rest) == StoredBlock(data, isLast) + StoredBlocks(rest[chunkLen..]);
    hide StoredBlocks;
    longer := zlib + [if isLast then 1 else 0];
    longer := longer + Le16(chunkLen);
    longer := longer + Le16(0xFFFF - chunkLen);
    longer := longer + data;
    assert longer == zlib + StoredBlock(data, isLast);
    next := offset + chunkLen;
  }

  method Compress(raw: seq<Byte>) returns (zlib: seq<Byte>)
    ensures zlib == ZlibStream(raw)
  {
    var adler := Adler.Adler32(raw);
    zlib := [0x78];
    zlib := zlib + [0x01];
    var offset := 0;
    assert raw[0..] == raw;
    while offset < |raw|
      invariant offset <= |raw|
      invariant zlib + StoredBlocks(raw[offset..]) == [0x78, 0x01] + StoredBlocks(raw)
      decreases |raw| - offset
    {
      zlib, offset := AppendBlock(zlib, raw, offset);
    }
    assert StoredBlocks(raw[offset..]) == [];
    zlib := zlib + Be32(adler);
  }

  // Chunks (section 3.2 of RFC 2083)

  const SIGNATURE: seq<Byte> := [0x89, 0x50, 0x4E, 0x47, 0x0D, 0x0A, 0x1A, 0x0A]
  const IHDR: seq<Byte> := [0x49, 0x48, 0x44, 0x52]
  const IDAT: seq<Byte> := [0x49, 0x44, 0x41, 0x54]
  const IEND: seq<Byte> := [0x49, 0x45, 0x4E, 0x44]

  /** A length above 32 bits is written as the largest one. */
  function ChunkLength(data: seq<Byte>): (len: nat)
    ensures len < 0x1_0000_0000
  {
    if |data| < 0x1_0000_0000 then |data| else 0xFFFF_FFFF
  }

  function PngChunk(kind: seq<Byte>, data: seq<Byte>): seq<Byte> {
    Be32(ChunkLength(data)) + kind + data + Crc.ToBytes(Crc.Checksum(kind + data))
  }

  method WritePngChunk(out: seq<Byte>, kind: seq<Byte>, data: seq<Byte>) returns (res: seq<Byte>)
    ensures res == out + PngChunk(kind, data)
  {
    hide Crc.ToBytes;
    res := out + Be32(ChunkLength(data));
    res := res + kind;
    res := res + data;
    var crcInput := kind;
    crcInput := crcInput + data;
    var crc := Crc.Crc32(crcInput);
    res := res + Crc.ToBytes(crc);
  }

  function HeaderData(width: nat, height: nat): seq<Byte>
    requires width < 0x1_0000_0000 && height < 0x1_0000_0000
  {
    Be32(width) + Be32(height) + [8, 6, 0, 0, 0]
  }

  /** The file for a page. */
  function Encoded(page: PrintPage): seq<Byte>
    requires page.Valid()
  {
    SIGNATURE
    + PngChunk(IHDR, HeaderData(page.width, page.height))
    + PngChunk(IDAT, ZlibStream(ScanLines(page.bgra, page.width * 4, page.height)))
    + PngChunk(IEND, [])
  }

  const USIZE_LIMIT := 0x1_0000_0000_0000_0000

  /** `encode_print_page_to_png` on a machine with 64-bit sizes. */
  method EncodePrintPage(page: PrintPage) returns (r: Result<seq<Byte>, PrintError>)
    requires page.Valid()
    ensures r == if page.height * (page.width * 4 + 1) < USIZE_LIMIT then Success(Encoded(page))
              else Failure(InvalidPage)
  {
    var rowBytes := page.width * 4;
    var filteredRowLen := rowBytes + 1;
    assert filteredRowLen < USIZE_LIMIT;
    var totalFilteredLen := page.height * filteredRowLen;
    if totalFilteredLen >= USIZE_LIMIT {
      return Failure(InvalidPage);
    }
    var rawFiltered := FilterRows(page);
    var zlibData := Compress(rawFiltered);
    var png := SIGNATURE;
    var ihdrData := Be32(page.width);
    ihdrData := ihdrData + Be32(page.height);
    ihdrData := ihdrData + [8];
    ihdrData := ihdrData + [6];
    ihdrData := ihdrData + [0];
    ihdrData := ihdrData + [0];
    ihdrData := ihdrData + [0];
    assert ihdrData == HeaderData(page.width, page.height);
    png := WritePngChunk(png, IHDR, ihdrData);
    png := WritePngChunk(png, IDAT, zlibData);
    png := WritePngChunk(png, IEND, []);
    return Success(png);
  }
}
