// RGBA bitmaps and their colour inversion, eight bytes at a time.

module Bitmap {
  /** `RawBitmap`: four bytes for each pixel. */
  datatype RawBitmap = RawBitmap(width: nat, height: nat, pixels: seq<bv8>) {
    predicate Valid() {
      width > 0 && height > 0 && |pixels| == width * height * 4
    }
  }

  function Flip(b: bv8): bv8 {
    b ^ 0xFF
  }

  /** Alpha, and the bytes of an incomplete last pixel. */
  predicate LeftAlone(at: nat, length: nat) {
    at % 4 == 3 || at / 4 >= length / 4
  }

  /** What inversion makes of the byte at a position. */
  function InvertedByte(b: bv8, at: nat, length: nat): bv8 {
    if LeftAlone(at, length) then b else Flip(b)
  }

  /** The bytes of the inverted pixels, one by one. */
  function Inverted(p: seq<bv8>): (q: seq<bv8>)
    ensures |q| == |p|
  {
    seq(|p|, i requires 0 <= i < |p| => InvertedByte(p[i], i, |p|))
  }

  /** The whole pixel at a position: red, green and blue complemented, alpha as it was. */
  predicate PixelInverted(p: seq<bv8>, q: seq<bv8>, at: nat)
    requires at + 4 <= |p| == |q|
  {
    q[at] == !p[at] && q[at + 1] == !p[at + 1] && q[at + 2] == !p[at + 2] && q[at + 3] == p[at + 3]
  }

  /** Every whole pixel is inverted, and the bytes of an incomplete last one stay. */
  predicate IsInverse(p: seq<bv8>, q: seq<bv8>) {
    && |p| == |q|
    && (forall at :: 0 <= at && at % 4 == 0 && at + 4 <= |p| ==> PixelInverted(p, q, at))
    && (forall i :: |p| / 4 * 4 <= i < |p| ==> q[i] == p[i])
  }

  lemma FlipIsComplement(b: bv8)
    ensures Flip(b) == !b
  {}

  /** The inversion byte by byte is the one pixel by pixel. */
  lemma InvertedIsInverse(p: seq<bv8>)
    ensures IsInverse(p, Inverted(p))
  {
    hide Flip;
    var q := Inverted(p);
    forall at | 0 <= at && at % 4 == 0 && at + 4 <= |p| ensures PixelInverted(p, q, at) {
      WholePixel(at, |p|);
      FlipIsComplement(p[at]);
      FlipIsComplement(p[at + 1]);
      FlipIsComplement(p[at + 2]);
    }
    forall i | |p| / 4 * 4 <= i < |p| ensures q[i] == p[i] {
      assert LeftAlone(i, |p|);
    }
  }

  lemma WholePixel(at: nat, length: nat)
    requires at % 4 == 0 && at + 4 <= length
    ensures !LeftAlone(at, length) && !LeftAlone(at + 1, length) && !LeftAlone(at + 2, length)
    ensures LeftAlone(at + 3, length)
  {
    var k := at / 4;
    assert at == 4 * k && length / 4 >= k + 1;
  }

  /** The byte order of the machine. */
  datatype Order = Little | Big

  type Word = bv64

  function XorWords(a: Word, b: Word): Word {
    a ^ b
  }

  function Combine(low: bv8, b1: bv8, b2: bv8, b3: bv8, b4: bv8, b5: bv8, b6: bv8, high: bv8): Word {
    (low as Word) | ((b1 as Word) << 8) | ((b2 as Word) << 16) | ((b3 as Word) << 24)
    | ((b4 as Word) << 32) | ((b5 as Word) << 40) | ((b6 as Word) << 48) | ((high as Word) << 56)
  }

  /** `u64::from_ne_bytes`. */
  function FromBytes(order: Order, b: seq<bv8>): Word
    requires |b| == 8
  {
    match order
    case Little => Combine(b[0], b[1], b[2], b[3], b[4], b[5], b[6], b[7])
    case Big => Combine(b[7], b[6], b[5], b[4], b[3], b[2], b[1], b[0])
  }

  /** `u64::to_ne_bytes`. */
  function ToBytes(order: Order, w: Word): (b: seq<bv8>)
    ensures |b| == 8
  {
    var b := [(w & 0xFF) as bv8, ((w >> 8) & 0xFF) as bv8, ((w >> 16) & 0xFF) as bv8, ((w >> 24) & 0xFF) as bv8,
              ((w >> 32) & 0xFF) as bv8, ((w >> 40) & 0xFF) as bv8, ((w >> 48) & 0xFF) as bv8, (w >> 56) as bv8];
    match order
    case Little => b
    case Big => [b[7], b[6], b[5], b[4], b[3], b[2], b[1], b[0]]
  }

  const MASK_BYTES: seq<bv8> := [0xFF, 0xFF, 0xFF, 0x00, 0xFF, 0xFF, 0xFF, 0x00]

  lemma LittleMask(b: seq<bv8>)
    requires |b| == 8
    ensures ToBytes(Little, XorWords(FromBytes(Little, b), FromBytes(Little, MASK_BYTES)))
         == [Flip(b[0]), Flip(b[1]), Flip(b[2]), b[3], Flip(b[4]), Flip(b[5]), Flip(b[6]), b[7]]
  {}

  lemma BigMask(b: seq<bv8>)
    requires |b| == 8
    ensures ToBytes(Big, XorWords(FromBytes(Big, b), FromBytes(Big, MASK_BYTES)))
         == [Flip(b[0]), Flip(b[1]), Flip(b[2]), b[3], Flip(b[4]), Flip(b[5]), Flip(b[6]), b[7]]
  {}

  /** On either byte order the word operation inverts two pixels. */
  lemma MaskInvertsTwoPixels(order: Order, b: seq<bv8>)
    requires |b| == 8
    ensures ToBytes(order, XorWords(FromBytes(order, b), FromBytes(order, MASK_BYTES))) == Inverted(b)
  {
    LittleMask(b);
    BigMask(b);
    hide FromBytes, ToBytes, XorWords, Flip;
    var masked := [Flip(b[0]), Flip(b[1]), Flip(b[2]), b[3], Flip(b[4]), Flip(b[5]), Flip(b[6]), b[7]];
    assert Inverted(b) == masked;
  }

  /** One word of the buffer: read, masked and written back. */
  method InvertWord(order: Order, pixels: array<bv8>, at: nat)
    requires at + 8 <= pixels.Length
    modifies pixels
    ensures pixels[..] == old(pixels[..at]) + Inverted(old(pixels[at..at + 8])) + old(pixels[at + 8..])
  {
    hide FromBytes, ToBytes, XorWords, Flip, Inverted;
    var bytes := pixels[at..at + 8];
    var word := FromBytes(order, bytes);
    var changed := ToBytes(order, XorWords(word, FromBytes(order, MASK_BYTES)));
    MaskInvertsTwoPixels(order, bytes);
    forall i | 0 <= i < 8 {
      pixels[at + i] := changed[i];
    }
  }

  /** The pixel left over after the words, if any. */
  method InvertLeftOver(pixels: array<bv8>, rest: nat)
    requires rest == pixels.Length / 8 * 8
    modifies pixels
    ensures pixels[..] == old(pixels[..rest]) + Inverted(old(pixels[rest..]))
  {
    hide Flip;
    if rest + 4 <= pixels.Length {
      pixels[rest] := Flip(pixels[rest]);
      pixels[rest + 1] := Flip(pixels[rest + 1]);
      pixels[rest + 2] := Flip(pixels[rest + 2]);
    }
  }

  /** `invert_rgb`: whole words first, then the pixel that may be left over. */
  method InvertRgb(order: Order, pixels: array<bv8>)
    modifies pixels
    ensures pixels[..] == Inverted(old(pixels[..]))
    ensures IsInverse(old(pixels[..]), pixels[..])
  {
    InvertedIsInverse(pixels[..]);
    hide Inverted, IsInverse;
    ghost var was := pixels[..];
    var words := pixels.Length / 8;
    for k := 0 to words
      invariant pixels[..] == Inverted(was)[..8 * k] + was[8 * k..]
    {
      ghost var before := pixels[..];
      InvertWord(order, pixels, 8 * k);
      WordDone(was, 8 * k, before, pixels[..]);
    }
    InvertLeftOver(pixels, 8 * words);
    LeftOverDone(was, 8 * words);
  }

  lemma WordDone(was: seq<bv8>, at: nat, before: seq<bv8>, after: seq<bv8>)
    requires at % 8 == 0 && at + 8 <= |was|
    requires before == Inverted(was)[..at] + was[at..]
    requires after == before[..at] + Inverted(before[at..at + 8]) + before[at + 8..]
    ensures after == Inverted(was)[..at + 8] + was[at + 8..]
  {
    TwoPixelsDone(was, at);
    hide Inverted;
    assert before[..at] == Inverted(was)[..at];
    assert before[at..] == was[at..];
    assert before[at..at + 8] == was[at..][..8] == was[at..at + 8];
    assert before[at + 8..] == was[at..][8..] == was[at + 8..];
  }

  lemma LeftOverDone(was: seq<bv8>, rest: nat)
    requires rest == |was| / 8 * 8
    ensures Inverted(was) == Inverted(was)[..rest] + Inverted(was[rest..])
  {
    hide Flip;
    var tail := was[rest..];
    forall i | rest <= i < |was| ensures Inverted(was)[i] == Inverted(tail)[i - rest] {
      assert tail[i - rest] == was[i];
      PlaceInPixel(was[i], i - rest, rest, |tail|);
    }
  }

  /** Whole pixels before a buffer do not matter. */
  lemma PlaceInPixel(b: bv8, at: nat, offset: nat, length: nat)
    requires offset % 8 == 0
    ensures InvertedByte(b, at + offset, length + offset) == InvertedByte(b, at, length)
  {
    SamePlace(at, offset, length);
    hide Flip, LeftAlone;
  }

  lemma SamePlace(at: nat, offset: nat, length: nat)
    requires offset % 8 == 0
    ensures LeftAlone(at + offset, length + offset) == LeftAlone(at, length)
  {}

  /** Two whole pixels at an even pixel position invert as in the whole buffer. */
  lemma TwoPixelsDone(was: seq<bv8>, at: nat)
    requires at % 8 == 0 && at + 8 <= |was|
    ensures Inverted(was)[..at + 8] == Inverted(was)[..at] + Inverted(was[at..at + 8])
  {
    hide Flip;
    var bytes := was[at..at + 8];
    forall i | 0 <= i < 8 ensures Inverted(was)[at + i] == Inverted(bytes)[i] {
      assert bytes[i] == was[at + i];
      PlaceInWord(was[at + i], i, at, |was|);
    }
  }

  lemma PlaceInWord(b: bv8, i: nat, at: nat, length: nat)
    requires at % 8 == 0 && i < 8 && at + 8 <= length
    ensures InvertedByte(b, at + i, length) == InvertedByte(b, i, 8)
  {
    SamePlaceInWord(i, at, length);
    hide Flip, LeftAlone;
  }

  lemma SamePlaceInWord(i: nat, at: nat, length: nat)
    requires at % 8 == 0 && i < 8 && at + 8 <= length
    ensures LeftAlone(at + i, length) == LeftAlone(i, 8)
  {
    var k := at / 8;
    assert at == 8 * k;
    assert (at + i) / 4 == 2 * k + i / 4;
    assert length / 4 >= 2 * k + 2;
  }

  lemma XorTwice(b: bv8)
    ensures Flip(Flip(b)) == b
  {}

  /** Inverting twice gives the pixels back. */
  lemma InvertedTwice(p: seq<bv8>)
    ensures Inverted(Inverted(p)) == p
  {
    hide Flip;
    forall i | 0 <= i < |p| ensures Inverted(Inverted(p))[i] == p[i] {
      XorTwice(p[i]);
    }
  }

  function InvertedBitmap(b: RawBitmap): RawBitmap {
    b.(pixels := Inverted(b.pixels))
  }
}
