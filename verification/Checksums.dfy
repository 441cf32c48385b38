// The two checksums of the print encoder: Adler-32 (section 8.2 of RFC 1950) and
// CRC-32 (section 3.4 of RFC 2083), each as the loop the encoder runs, a reference
// definition taken from the standard, and the proof that they agree.

/** Bytes and the big-endian / little-endian fields of the PNG and zlib formats. */
module Bytes {
  type Byte = b: int | 0 <= b < 0x100

  /** The four bytes of a 32-bit value, most significant first (`to_be_bytes`). */
  function Be32(n: nat): (s: seq<Byte>)
    requires n < 0x1_0000_0000
    ensures |s| == 4 && FromBe32(s) == n
  {
    var a := n / 0x100;
    var b := a / 0x100;
    [b / 0x100, b % 0x100, a % 0x100, n % 0x100]
  }

  function FromBe32(s: seq<Byte>): nat
    requires |s| == 4
  {
    s[0] as int * 0x100_0000 + s[1] as int * 0x1_0000 + s[2] as int * 0x100 + s[3] as int
  }

  /** The two bytes of a 16-bit value, least significant first (`to_le_bytes`). */
  function Le16(n: nat): (s: seq<Byte>)
    requires n < 0x1_0000
    ensures |s| == 2 && FromLe16(s) == n
  {
    [n % 0x100, n / 0x100]
  }

  function FromLe16(s: seq<Byte>): nat
    requires |s| == 2
  {
    s[0] as int + s[1] as int * 0x100
  }
}

module Adler {
  import opened Bytes

  const MODULUS := 65521

  /** One plus the sum of all bytes, over the unbounded integers. */
  function PlainSum(data: seq<Byte>): nat {
    if data == [] then 1 else PlainSum(data[..|data| - 1]) + data[|data| - 1]
  }

  /** The sum of the plain sums of all non-empty prefixes. */
  function SumOfSums(data: seq<Byte>): nat {
    if data == [] then 0 else SumOfSums(data[..|data| - 1]) + PlainSum(data)
  }

  /** The checksum as section 8.2 of RFC 1950 defines it. */
  function Checksum(data: seq<Byte>): (sum: nat)
    ensures sum < 0x1_0000_0000
  {
    SumOfSums(data) % MODULUS * 0x1_0000 + PlainSum(data) % MODULUS
  }

  lemma SumsGrow(data: seq<Byte>, byte: Byte)
    ensures PlainSum(data + [byte]) == PlainSum(data) + byte
    ensures SumOfSums(data + [byte]) == SumOfSums(data) + PlainSum(data) + byte
  {
    assert (data + [byte])[..|data|] == data;
  }

  lemma ReduceFirst(sum: nat, more: nat)
    ensures (sum % MODULUS + more) % MODULUS == (sum + more) % MODULUS
    ensures (sum % MODULUS + more % MODULUS) % MODULUS == (sum + more) % MODULUS
  {}

  method Adler32(data: seq<Byte>) returns (sum: nat)
    ensures sum == Checksum(data)
  {
    var s1, s2 := 1, 0;
    for i := 0 to |data|
      invariant s1 == PlainSum(data[..i]) % MODULUS
      invariant s2 == SumOfSums(data[..i]) % MODULUS
    {
      assert data[..i + 1][..i] == data[..i];
      ReduceFirst(PlainSum(data[..i]), data[i]);
      ReduceFirst(SumOfSums(data[..i]), PlainSum(data[..i + 1]));
      // Neither addition leaves the 32-bit range before it is reduced.
      assert s1 + data[i] as int < 0x1_0000_0000;
      s1 := (s1 + data[i] as int) % MODULUS;
      assert s2 + s1 < 0x1_0000_0000;
      s2 := (s2 + s1) % MODULUS;
    }
    assert data[..|data|] == data;
    return s2 * 0x1_0000 + s1;
  }

  /** Two inputs of equal length that differ in exactly one byte have different checksums. */
  lemma SingleByteChangeIsDetected(data: seq<Byte>, at: nat, value: Byte)
    requires at < |data| && data[at] != value
    ensures Checksum(data) != Checksum(data[at := value])
  {
    PlainSumAfterUpdate(data, at, value);
    var before, after := PlainSum(data), PlainSum(data[at := value]);
    assert before % MODULUS != after % MODULUS;
  }

  lemma {:induction false} PlainSumAfterUpdate(data: seq<Byte>, at: nat, value: Byte)
    requires at < |data|
    ensures PlainSum(data[at := value]) == PlainSum(data) + value - data[at]
  {
    var n := |data| - 1;
    var changed := data[at := value];
    if at < n {
      assert changed[..n] == data[..n][at := value];
      PlainSumAfterUpdate(data[..n], at, value);
    } else {
      assert changed[..n] == data[..n];
    }
  }
}

module Crc {
  import opened Bytes

  const POLYNOMIAL_REFLECTED: bv32 := 0xEDB8_8320

  function Xor(a: bv32, b: bv32): bv32 {
    a ^ b
  }

  /** One shift of the reflected register. */
  function BitStep(crc: bv32): bv32 {
    if crc & 1 != 0 then (crc >> 1) ^ POLYNOMIAL_REFLECTED else crc >> 1
  }

  function BitSteps(crc: bv32, count: nat): bv32 {
    if count == 0 then crc else BitStep(BitSteps(crc, count - 1))
  }

  /** The lowest `digits` binary digits of a number. */
  function Binary(value: nat, digits: nat): bv32 {
    if digits == 0 then 0 else Append(Binary(value / 2, digits - 1), value % 2 == 1)
  }

  function Append(x: bv32, digit: bool): bv32 {
    (x << 1) | (if digit then 1 else 0)
  }

  /** A byte widened to the register (`u32::from`). */
  function Word(byte: Byte): bv32 {
    Binary(byte, 8)
  }

  /** The register after one byte was added to it. */
  function ByteStep(crc: bv32, byte: Byte): bv32 {
    BitSteps(Xor(crc, Word(byte)), 8)
  }

  function Register(data: seq<Byte>): bv32 {
    if data == [] then 0xFFFF_FFFF else ByteStep(Register(data[..|data| - 1]), data[|data| - 1])
  }

  function Checksum(data: seq<Byte>): bv32 {
    !Register(data)
  }

  /** The loop body of the inner loop. */
  method ShiftOnce(crc: bv32) returns (next: bv32)
    ensures next == BitStep(crc)
  {
    if crc & 1 != 0 {
      next := (crc >> 1) ^ POLYNOMIAL_REFLECTED;
    } else {
      next := crc >> 1;
    }
  }

  method Crc32(data: seq<Byte>) returns (sum: bv32)
    ensures sum == Checksum(data)
  {
    hide BitStep, Xor, Word;
    var crc: bv32 := 0xFFFF_FFFF;
    for i := 0 to |data|
      invariant crc == Register(data[..i])
    {
      assert data[..i + 1][..i] == data[..i];
      crc := Xor(crc, Word(data[i]));
      ghost var start := crc;
      for k := 0 to 8
        invariant crc == BitSteps(start, k)
      {
        crc := ShiftOnce(crc);
      }
    }
    assert data[..|data|] == data;
    return !crc;
  }

  predicate Odd(w: bv32) {
    w & 1 != 0
  }

  function Half(w: bv32): bv32 {
    w >> 1
  }

  function ShiftedRight(w: bv32, count: nat): bv32 {
    if count == 0 then w else Half(ShiftedRight(w, count - 1))
  }

  /** The number that the lowest `digits` binary digits of the register stand for. */
  function Number(w: bv32, digits: nat): nat
    decreases digits
  {
    if digits == 0 then 0 else 2 * Number(Half(w), digits - 1) + if Odd(w) then 1 else 0
  }

  function Octet(w: bv32): Byte {
    OctetFits(w);
    Number(w, 8)
  }

  function Power(n: nat): nat {
    if n == 0 then 1 else 2 * Power(n - 1)
  }

  lemma {:induction false} NumberFits(w: bv32, digits: nat)
    ensures Number(w, digits) < Power(digits)
    decreases digits
  {
    hide Odd, Half;
    if digits > 0 {
      NumberFits(Half(w), digits - 1);
    }
  }

  lemma OctetFits(w: bv32)
    ensures Number(w, 8) < 0x100
  {
    NumberFits(w, 8);
    assert Power(2) == 4;
    assert Power(4) == 16;
    assert Power(6) == 64;
    hide Number;
  }

  /** The four bytes of the checksum, most significant first (`to_be_bytes`). */
  function ToBytes(crc: bv32): (s: seq<Byte>)
    ensures |s| == 4
  {
    [Octet(ShiftedRight(crc, 24)), Octet(ShiftedRight(crc, 16)), Octet(ShiftedRight(crc, 8)), Octet(crc)]
  }

  // The register is linear over exclusive or

  lemma BitStepIsLinear(a: bv32, b: bv32)
    ensures BitStep(Xor(a, b)) == Xor(BitStep(a), BitStep(b))
  {
    hide BitStep, Xor;
    if a & 1 == 0 {
      if b & 1 == 0 { LinearEvenEven(a, b); } else { LinearEvenOdd(a, b); }
    } else {
      if b & 1 == 0 {
        LinearEvenOdd(b, a);
        XorCommutes(a, b);
        XorCommutes(BitStep(a), BitStep(b));
      } else { LinearOddOdd(a, b); }
    }
  }

  lemma LinearEvenEven(a: bv32, b: bv32)
    requires a & 1 == 0 && b & 1 == 0
    ensures BitStep(Xor(a, b)) == Xor(BitStep(a), BitStep(b))
  {}

  lemma LinearEvenOdd(a: bv32, b: bv32)
    requires a & 1 == 0 && b & 1 != 0
    ensures BitStep(Xor(a, b)) == Xor(BitStep(a), BitStep(b))
  {}

  lemma LinearOddOdd(a: bv32, b: bv32)
    requires a & 1 != 0 && b & 1 != 0
    ensures BitStep(Xor(a, b)) == Xor(BitStep(a), BitStep(b))
  {}

  lemma {:induction false} BitStepsAreLinear(a: bv32, b: bv32, count: nat)
    ensures BitSteps(Xor(a, b), count) == Xor(BitSteps(a, count), BitSteps(b, count))
  {
    hide BitStep, Xor;
    if count > 0 {
      BitStepsAreLinear(a, b, count - 1);
      BitStepIsLinear(BitSteps(a, count - 1), BitSteps(b, count - 1));
    }
  }

  // The register step is a bijection

  lemma XorIsZero(a: bv32, b: bv32)
    ensures Xor(a, b) == 0 <==> a == b
  {
    XorWithItself(a);
    XorUndo(a, b);
    ZeroXor(b);
    hide Xor;
  }

  lemma XorWithItself(a: bv32)
    ensures Xor(a, a) == 0
  {}

  lemma XorCommutes(a: bv32, b: bv32)
    ensures Xor(a, b) == Xor(b, a)
  {}

  lemma XorAssociates(a: bv32, b: bv32, c: bv32)
    ensures Xor(Xor(a, b), c) == Xor(a, Xor(b, c))
  {}

  lemma XorRegroups(a: bv32, b: bv32, c: bv32, d: bv32)
    ensures Xor(Xor(a, b), Xor(c, d)) == Xor(Xor(a, c), Xor(b, d))
  {
    hide Xor;
    XorAssociates(a, b, Xor(c, d));
    XorAssociates(b, c, d);
    XorCommutes(b, c);
    XorAssociates(c, b, d);
    XorAssociates(a, c, Xor(b, d));
  }

  lemma {:induction false} OnlyZeroShiftsToZero(crc: bv32, count: nat)
    requires BitSteps(crc, count) == 0
    ensures crc == 0
  {
    if count > 0 {
      assert BitSteps(crc, count - 1) == 0;
      OnlyZeroShiftsToZero(crc, count - 1);
    }
  }

  /** The difference of two registers steps on the difference of the bytes alone. */
  lemma DifferenceStep(r: bv32, s: bv32, x: Byte, y: Byte)
    ensures Xor(ByteStep(r, x), ByteStep(s, y)) == BitSteps(Xor(Xor(r, s), Xor(Word(x), Word(y))), 8)
  {
    hide BitStep, BitSteps, Xor, Word;
    BitStepsAreLinear(Xor(r, Word(x)), Xor(s, Word(y)), 8);
    XorRegroups(r, Word(x), s, Word(y));
  }

  /** For a fixed byte the register step is injective, hence a bijection on registers. */
  lemma ByteStepIsInjective(r: bv32, s: bv32, byte: Byte)
    requires ByteStep(r, byte) == ByteStep(s, byte)
    ensures r == s
  {
    DifferenceStep(r, s, byte, byte);
    XorIsZero(Word(byte), Word(byte));
    XorWithZero(Xor(r, s));
    hide BitStep, BitSteps, Xor, Word;
    XorIsZero(ByteStep(r, byte), ByteStep(s, byte));
    OnlyZeroShiftsToZero(Xor(r, s), 8);
    XorIsZero(r, s);
  }

  lemma XorWithZero(a: bv32)
    ensures Xor(a, 0) == a
  {}

  // Binary digits

  /** The largest value of `digits` binary digits. */
  function Ones(digits: nat): bv32 {
    if digits == 0 then 0 else Append(Ones(digits - 1), true)
  }

  lemma OnesFit(digits: nat)
    requires digits <= 8
    ensures Ones(digits) <= 0xFF
  {
    assert Ones(1) == 0x01;
    assert Ones(2) == 0x03;
    assert Ones(3) == 0x07;
    assert Ones(4) == 0x0F;
    assert Ones(5) == 0x1F;
    assert Ones(6) == 0x3F;
    assert Ones(7) == 0x7F;
    assert Ones(8) == 0xFF;
  }

  lemma AppendGrows(x: bv32, m: bv32, digit: bool)
    requires x <= m <= 0xFF
    ensures Append(x, digit) <= Append(m, true)
  {}

  lemma AppendSplits(x: bv32, digit: bool)
    requires x <= 0xFF
    ensures Append(x, digit) >> 1 == x
    ensures Append(x, digit) & 1 == if digit then 1 else 0
  {}

  lemma {:induction false} BinaryFits(value: nat, digits: nat)
    requires digits <= 8
    ensures Binary(value, digits) <= Ones(digits) <= 0xFF
  {
    hide Append;
    OnesFit(digits);
    if digits > 0 {
      BinaryFits(value / 2, digits - 1);
      AppendGrows(Binary(value / 2, digits - 1), Ones(digits - 1), value % 2 == 1);
    }
  }

  /** `value` halved `count` times. */
  function Halved(value: nat, count: nat): nat {
    if count == 0 then value else Halved(value, count - 1) / 2
  }

  lemma ByteHalvesOut(x: Byte)
    ensures Halved(x, 8) == 0
  {
    assert Halved(x, 1) < 0x80;
    assert Halved(x, 2) < 0x40;
    assert Halved(x, 3) < 0x20;
    assert Halved(x, 4) < 0x10;
    assert Halved(x, 5) < 0x08;
    assert Halved(x, 6) < 0x04;
    assert Halved(x, 7) < 0x02;
  }

  lemma XorUndo(a: bv32, b: bv32)
    ensures Xor(Xor(a, b), b) == a
  {}

  lemma ZeroXor(e: bv32)
    ensures Xor(0, e) == e
  {}

  lemma DoubleComplement(a: bv32)
    ensures !!a == a
  {}

  // The polynomial form of section 3.4 of RFC 2083

  const POLYNOMIAL: bv32 := 0x04C1_1DB7

  /** One bit of the message divided by the polynomial, highest power first. */
  function PolynomialStep(remainder: bv32, bit: bool): bv32 {
    if (remainder & 0x8000_0000 != 0) != bit then (remainder << 1) ^ POLYNOMIAL else remainder << 1
  }

  /** The remainder of the message bits, from a register of all ones. */
  function PolynomialRemainder(bits: seq<bool>): bv32 {
    if bits == [] then 0xFFFF_FFFF
    else PolynomialStep(PolynomialRemainder(bits[..|bits| - 1]), bits[|bits| - 1])
  }

  /** The bit of weight two to the `index`. */
  function BitAt(byte: Byte, index: nat): bool {
    Halved(byte, index) % 2 == 1
  }

  /** Shifting the widened byte right drops its lowest digits. */
  lemma {:induction false} ShiftHalves(byte: Byte, count: nat)
    requires count <= 8
    ensures ShiftedRight(Word(byte), count) == Binary(Halved(byte, count), 8 - count)
  {
    hide Binary, Append, Half;
    if count == 0 {
      assert Word(byte) == Binary(byte, 8);
    } else {
      ShiftHalves(byte, count - 1);
      HalvesOnce(Halved(byte, count - 1), 9 - count);
    }
  }

  lemma HalvesOnce(value: nat, digits: nat)
    requires 0 < digits <= 8
    ensures Half(Binary(value, digits)) == Binary(value / 2, digits - 1)
    ensures Binary(value, digits) & 1 == if value % 2 == 1 then 1 else 0
  {
    BinaryFits(value / 2, digits - 1);
    AppendSplits(Binary(value / 2, digits - 1), value % 2 == 1);
    hide Append, Ones;
  }

  lemma ShiftedLowBit(byte: Byte, index: nat)
    requires index < 8
    ensures ShiftedRight(Word(byte), index) & 1 == if BitAt(byte, index) then 1 else 0
  {
    hide Binary, Word, Half;
    ShiftHalves(byte, index);
    HalvesOnce(Halved(byte, index), 8 - index);
  }

  /** The first `count` bits of a byte, least significant first. */
  function LowBits(byte: Byte, count: nat): seq<bool> {
    seq(count, i requires 0 <= i => BitAt(byte, i))
  }

  /** Every byte of the data from its least to its most significant bit. */
  function MessageBits(data: seq<Byte>): seq<bool> {
    if data == [] then [] else MessageBits(data[..|data| - 1]) + LowBits(data[|data| - 1], 8)
  }

  /** The 32 bits in reverse order. */
  function Reflect(x: bv32): bv32 {
    var a := ((x >> 1) & 0x5555_5555) | ((x & 0x5555_5555) << 1);
    var b := ((a >> 2) & 0x3333_3333) | ((a & 0x3333_3333) << 2);
    var c := ((b >> 4) & 0x0F0F_0F0F) | ((b & 0x0F0F_0F0F) << 4);
    var d := ((c >> 8) & 0x00FF_00FF) | ((c & 0x00FF_00FF) << 8);
    (d >> 16) | (d << 16)
  }

  lemma ReflectKeepsEnds(crc: bv32)
    ensures (Reflect(crc) & 0x8000_0000 != 0) <==> (crc & 1 != 0)
    ensures Reflect(crc ^ 1) == Reflect(crc) ^ 0x8000_0000
  {}

  lemma ReflectShift(crc: bv32)
    ensures Reflect(crc >> 1) == Reflect(crc) << 1
  {}

  lemma ReflectPolynomial(crc: bv32)
    ensures Reflect(crc ^ POLYNOMIAL_REFLECTED) == Reflect(crc) ^ POLYNOMIAL
  {}

  lemma ReflectOnes()
    ensures Reflect(0xFFFF_FFFF) == 0xFFFF_FFFF
  {}

  lemma ReflectedShift(crc: bv32)
    ensures Reflect(BitStep(crc)) == PolynomialStep(Reflect(crc), false)
  {
    ReflectKeepsEnds(crc);
    ReflectShift(crc);
    ReflectPolynomial(crc >> 1);
    hide Reflect;
  }

  lemma TopBitStandsForTheInput(r: bv32)
    ensures PolynomialStep(r ^ 0x8000_0000, false) == PolynomialStep(r, true)
  {}

  /** One shift of the reflected register is one division step of the polynomial form. */
  lemma ReflectedStep(crc: bv32, bit: bool)
    ensures Reflect(BitStep(Xor(crc, if bit then 1 else 0))) == PolynomialStep(Reflect(crc), bit)
  {
    hide Reflect, BitStep, PolynomialStep, Xor;
    if bit {
      XorWithOne(crc);
      ReflectKeepsEnds(crc);
      ReflectedShift(crc ^ 1);
      TopBitStandsForTheInput(Reflect(crc));
    } else {
      XorWithZero(crc);
      ReflectedShift(crc);
    }
  }

  lemma XorWithOne(crc: bv32)
    ensures Xor(crc, 1) == crc ^ 1
  {}

  /** The register fed with the lowest `count` bits of a byte, one at a time. */
  function FedBitwise(crc: bv32, byte: Byte, count: nat): bv32 {
    if count == 0 then crc
    else BitStep(Xor(FedBitwise(crc, byte, count - 1), if BitAt(byte, count - 1) then 1 else 0))
  }

  lemma EvenPartShifts(x: bv32, w: bv32)
    ensures BitStep(Xor(x, w)) == Xor(BitStep(Xor(x, if w & 1 != 0 then 1 else 0)), Half(w))
  {
    var bit := if w & 1 != 0 then 1 else 0;
    var even := Xor(w, bit);
    EvenPart(w);
    XorAssociates(x, bit, even);
    XorCommutes(bit, even);
    XorUndo(w, bit);
    BitStepIsLinear(Xor(x, bit), even);
    hide BitStep, Xor, Half;
  }

  lemma EvenPart(w: bv32)
    ensures BitStep(Xor(w, if w & 1 != 0 then 1 else 0)) == Half(w)
  {
    if w & 1 != 0 { ClearLowBit(w); } else { XorWithZero(w); }
  }

  lemma ClearLowBit(w: bv32)
    requires w & 1 != 0
    ensures BitStep(w ^ 1) == w >> 1
  {}

  /** Adding a whole byte and shifting `count` times leaves the bits not yet shifted in place. */
  lemma {:induction false} BytewiseIsBitwise(crc: bv32, byte: Byte, count: nat)
    requires count <= 8
    ensures BitSteps(Xor(crc, Word(byte)), count)
         == Xor(FedBitwise(crc, byte, count), ShiftedRight(Word(byte), count))
  {
    hide BitStep, Xor, Word, Half;
    if count > 0 {
      BytewiseIsBitwise(crc, byte, count - 1);
      ShiftedLowBit(byte, count - 1);
      EvenPartShifts(FedBitwise(crc, byte, count - 1), ShiftedRight(Word(byte), count - 1));
    }
  }

  lemma ByteShiftsOut(byte: Byte)
    ensures ShiftedRight(Word(byte), 8) == 0
  {
    BinaryFits(byte, 8);
    ShiftEight(Word(byte));
  }

  lemma ShiftEight(w: bv32)
    requires w < 0x100
    ensures ShiftedRight(w, 8) == 0
  {
    assert ShiftedRight(w, 1) == w >> 1;
    assert ShiftedRight(w, 2) == w >> 2;
    assert ShiftedRight(w, 3) == w >> 3;
    assert ShiftedRight(w, 4) == w >> 4;
    assert ShiftedRight(w, 5) == w >> 5;
    assert ShiftedRight(w, 6) == w >> 6;
    assert ShiftedRight(w, 7) == w >> 7;
  }

  lemma ByteStepIsBitwise(crc: bv32, byte: Byte)
    ensures ByteStep(crc, byte) == FedBitwise(crc, byte, 8)
  {
    hide BitStep, Xor, Word;
    BytewiseIsBitwise(crc, byte, 8);
    ByteShiftsOut(byte);
    XorWithZero(FedBitwise(crc, byte, 8));
  }

  lemma {:induction false} FedBitsDivide(crc: bv32, prefix: seq<bool>, byte: Byte, count: nat)
    requires Reflect(crc) == PolynomialRemainder(prefix)
    ensures Reflect(FedBitwise(crc, byte, count)) == PolynomialRemainder(prefix + LowBits(byte, count))
  {
    hide BitStep, Xor, Word, Reflect, PolynomialStep, BitAt;
    var bits := prefix + LowBits(byte, count);
    if count == 0 {
      assert bits == prefix;
    } else {
      FedBitsDivide(crc, prefix, byte, count - 1);
      assert bits[..|bits| - 1] == prefix + LowBits(byte, count - 1);
      ReflectedStep(FedBitwise(crc, byte, count - 1), BitAt(byte, count - 1));
    }
  }

  /**
   * The loop computes the checksum of section 3.4 of RFC 2083: the bit-reversed remainder of
   * the message bits, each byte taken from its least significant bit.
   */
  lemma {:induction false} RegisterIsPolynomialRemainder(data: seq<Byte>)
    ensures Reflect(Register(data)) == PolynomialRemainder(MessageBits(data))
  {
    if data == [] {
      ReflectOnes();
    } else {
      hide BitStep, Xor, Word, Reflect, PolynomialStep, BitAt;
      var n := |data| - 1;
      RegisterIsPolynomialRemainder(data[..n]);
      ByteStepIsBitwise(Register(data[..n]), data[n]);
      FedBitsDivide(Register(data[..n]), MessageBits(data[..n]), data[n], 8);
    }
  }

  // Bursts of up to 32 bits are detected

  /** The lowest `count` bits are clear. */
  predicate LowClear(w: bv32, count: nat)
    decreases count
  {
    count == 0 || (!Odd(w) && LowClear(Half(w), count - 1))
  }

  function Union(v: bv32, w: bv32): bv32 {
    v | w
  }

  lemma {:induction false} ZeroIsClear(count: nat)
    ensures LowClear(0, count)
  {
    if count > 0 {
      ZeroIsClear(count - 1);
    }
  }

  lemma {:induction false} ClearWithFewer(w: bv32, count: nat, fewer: nat)
    requires LowClear(w, count) && fewer <= count
    ensures LowClear(w, fewer)
    decreases count
  {
    hide Odd, Half;
    if fewer > 0 {
      ClearWithFewer(Half(w), count - 1, fewer - 1);
    }
  }

  lemma {:induction false} ClearTogether(v: bv32, w: bv32, count: nat)
    requires LowClear(v, count) && LowClear(w, count)
    ensures LowClear(Union(v, w), count)
    decreases count
  {
    hide Odd, Half, Union;
    if count > 0 {
      ShiftedTogether(v, w);
      ClearTogether(Half(v), Half(w), count - 1);
    }
  }

  lemma ShiftedTogether(v: bv32, w: bv32)
    ensures Half(Union(v, w)) == Union(Half(v), Half(w))
    ensures !Odd(v) && !Odd(w) ==> !Odd(Union(v, w))
  {
    HalvedTogether(v, w, Half(v), Half(w), Union(v, w));
    OddTogether(v, w, Union(v, w));
    hide Odd;
  }

  lemma HalvedTogether(v: bv32, w: bv32, halfV: bv32, halfW: bv32, union: bv32)
    requires halfV == v >> 1 && halfW == w >> 1 && union == v | w
    ensures union >> 1 == halfV | halfW
  {}

  lemma OddTogether(v: bv32, w: bv32, union: bv32)
    requires union == v | w
    ensures !Odd(v) && !Odd(w) ==> !Odd(union)
  {}

  lemma FourMoreClear(w: bv32, count: nat)
    requires w & 0xF == 0 && LowClear(w >> 4, count)
    ensures LowClear(w, count + 4)
  {
    FourShifts(w);
    hide Odd, Half;
    assert LowClear(w >> 3, count + 1);
    assert LowClear(w >> 2, count + 2);
    assert LowClear(w >> 1, count + 3);
  }

  lemma FourShifts(w: bv32)
    requires w & 0xF == 0
    ensures !Odd(w) && !Odd(w >> 1) && !Odd(w >> 2) && !Odd(w >> 3)
    ensures Half(w) == w >> 1 && Half(w >> 1) == w >> 2 && Half(w >> 2) == w >> 3 && Half(w >> 3) == w >> 4
  {}

  lemma TopIsHigh()
    ensures LowClear(0x8000_0000, 31)
  {
    assert LowClear(2, 1);
    assert LowClear(4, 2);
    assert LowClear(8, 3);
    hide LowClear;
    FourMoreClear(0x80, 3);
    FourMoreClear(0x800, 7);
    FourMoreClear(0x8000, 11);
    FourMoreClear(0x8_0000, 15);
    FourMoreClear(0x80_0000, 19);
    FourMoreClear(0x800_0000, 23);
    FourMoreClear(0x8000_0000, 27);
  }

  lemma ShiftedBack(w: bv32)
    ensures w == Union(Half(w << 1), w & 0x8000_0000)
    ensures w & 0x8000_0000 == 0 || w & 0x8000_0000 == 0x8000_0000
  {}

  /** A register whose shift to the left is clear below is clear one bit less. */
  lemma ClearBeforeShift(w: bv32, count: nat)
    requires 0 < count <= 32 && LowClear(w << 1, count)
    ensures LowClear(w, count - 1)
  {
    ShiftedBack(w);
    TopIsHigh();
    ClearWithFewer(0x8000_0000, 31, count - 1);
    ZeroIsClear(count - 1);
    hide Odd, Half, Union;
    ClearTogether(Half(w << 1), w & 0x8000_0000, count - 1);
  }

  predicate Feeds(remainder: bv32, bit: bool) {
    (remainder & 0x8000_0000 != 0) != bit
  }

  /** The difference of two remainders steps like a remainder, on the difference of the bits. */
  lemma RemainderDifference(r: bv32, s: bv32, x: bool, y: bool)
    ensures Xor(PolynomialStep(r, x), PolynomialStep(s, y))
         == if Feeds(r, x) == Feeds(s, y) then Xor(r, s) << 1 else Xor(Xor(r, s) << 1, POLYNOMIAL)
  {
    var (a, b) := (r << 1, s << 1);
    ShiftedDifference(r, s);
    CancelledDifference(a, b);
    StepForm(r, x);
    StepForm(s, y);
    hide PolynomialStep, Feeds, Xor;
  }

  lemma StepForm(r: bv32, x: bool)
    ensures PolynomialStep(r, x) == if Feeds(r, x) then Xor(r << 1, POLYNOMIAL) else r << 1
  {}

  lemma ShiftedDifference(r: bv32, s: bv32)
    ensures Xor(r << 1, s << 1) == Xor(r, s) << 1
  {
    ShiftedBits(r, s, r << 1, s << 1, Xor(r, s));
  }

  lemma ShiftedBits(r: bv32, s: bv32, twiceR: bv32, twiceS: bv32, difference: bv32)
    requires twiceR == r << 1 && twiceS == s << 1 && difference == r ^ s
    ensures twiceR ^ twiceS == difference << 1
  {}

  lemma CancelledDifference(r: bv32, s: bv32)
    ensures Xor(Xor(r, POLYNOMIAL), Xor(s, POLYNOMIAL)) == Xor(r, s)
    ensures Xor(Xor(r, POLYNOMIAL), s) == Xor(Xor(r, s), POLYNOMIAL)
    ensures Xor(r, Xor(s, POLYNOMIAL)) == Xor(Xor(r, s), POLYNOMIAL)
  {
    hide Xor;
    XorRegroups(r, POLYNOMIAL, s, POLYNOMIAL);
    XorWithItself(POLYNOMIAL);
    XorWithZero(Xor(r, s));
    XorAssociates(r, s, POLYNOMIAL);
    XorAssociates(r, POLYNOMIAL, s);
    XorCommutes(POLYNOMIAL, s);
  }

  lemma FeedIsOdd(d: bv32)
    ensures Xor(d << 1, POLYNOMIAL) & 1 == 1
  {}

  /**
   * A difference that is clear below after a step was so before it, one bit less, and the bits fed in cannot
   * differ alone.
   */
  lemma StepBack(r: bv32, s: bv32, x: bool, y: bool, count: nat)
    requires 0 < count <= 32 && LowClear(Xor(PolynomialStep(r, x), PolynomialStep(s, y)), count)
    ensures LowClear(Xor(r, s), count - 1)
    ensures r == s ==> x == y
  {
    RemainderDifference(r, s, x, y);
    FeedIsOdd(Xor(r, s));
    hide PolynomialStep, Xor;
    ClearBeforeShift(Xor(r, s), count);
  }

  /** Messages that agree before the window and differ by a remainder clear in all bits since are equal. */
  lemma {:induction false} ClearDifferenceMeansEqual(p: seq<bool>, q: seq<bool>, start: nat)
    requires start <= |p| == |q| <= start + 32 && p[..start] == q[..start]
    requires LowClear(Xor(PolynomialRemainder(p), PolynomialRemainder(q)), |p| - start)
    ensures p == q
  {
    hide PolynomialStep, LowClear, Xor;
    if |p| > start {
      var n := |p| - 1;
      StepBack(PolynomialRemainder(p[..n]), PolynomialRemainder(q[..n]), p[n], q[n], |p| - start);
      assert p[..n][..start] == q[..n][..start];
      ClearDifferenceMeansEqual(p[..n], q[..n], start);
    }
  }

  lemma StepIsInjective(r: bv32, s: bv32, bit: bool)
    requires PolynomialStep(r, bit) == PolynomialStep(s, bit)
    ensures r == s
  {
    XorWithItself(PolynomialStep(r, bit));
    RemainderDifference(r, s, bit, bit);
    FeedIsOdd(Xor(r, s));
    assert Feeds(r, bit) == Feeds(s, bit) && Xor(r, s) << 1 == 0;
    hide PolynomialStep, Xor;
    SameTop(r, s);
  }

  lemma SameTop(r: bv32, s: bv32)
    requires Xor(r, s) << 1 == 0 && (r & 0x8000_0000 != 0) == (s & 0x8000_0000 != 0)
    ensures r == s
  {}

  /** Equal remainders after a common suffix were equal before it. */
  lemma {:induction false} SuffixCancels(p: seq<bool>, q: seq<bool>, cut: nat)
    requires cut <= |p| == |q| && p[cut..] == q[cut..] && PolynomialRemainder(p) == PolynomialRemainder(q)
    ensures PolynomialRemainder(p[..cut]) == PolynomialRemainder(q[..cut])
  {
    hide PolynomialStep;
    if cut == |p| {
      assert p[..cut] == p && q[..cut] == q;
    } else {
      var n := |p| - 1;
      assert p[n] == p[cut..][n - cut] == q[cut..][n - cut] == q[n];
      StepIsInjective(PolynomialRemainder(p[..n]), PolynomialRemainder(q[..n]), p[n]);
      assert p[..n][cut..] == p[cut..][..n - cut] && q[..n][cut..] == q[cut..][..n - cut];
      SuffixCancels(p[..n], q[..n], cut);
      assert p[..n][..cut] == p[..cut] && q[..n][..cut] == q[..cut];
    }
  }

  /** Equally long messages that differ in 32 consecutive bits at most. */
  predicate BurstApart(p: seq<bool>, q: seq<bool>, start: nat) {
    |p| == |q| && forall i :: 0 <= i < |p| && !(start <= i < start + 32) ==> p[i] == q[i]
  }

  lemma BurstOfBits(p: seq<bool>, q: seq<bool>, start: nat)
    requires BurstApart(p, q, start) && PolynomialRemainder(p) == PolynomialRemainder(q)
    ensures p == q
  {
    hide PolynomialStep, PolynomialRemainder;
    var first := if start <= |p| then start else |p|;
    var cut := if start + 32 <= |p| then start + 32 else |p|;
    assert p[cut..] == q[cut..] && p[..cut][..first] == q[..cut][..first];
    SuffixCancels(p, q, cut);
    XorWithItself(PolynomialRemainder(p[..cut]));
    ZeroIsClear(cut - first);
    ClearDifferenceMeansEqual(p[..cut], q[..cut], first);
    assert p == p[..cut] + p[cut..] && q == q[..cut] + q[cut..];
  }

  // The bits determine the bytes

  lemma {:induction false} SameHalved(x: Byte, y: Byte, index: nat)
    requires index <= 8 && forall i :: index <= i < 8 ==> BitAt(x, i) == BitAt(y, i)
    ensures Halved(x, index) == Halved(y, index)
    decreases 8 - index
  {
    if index < 8 {
      SameHalved(x, y, index + 1);
      assert BitAt(x, index) == BitAt(y, index);
    } else {
      ByteHalvesOut(x);
      ByteHalvesOut(y);
    }
  }

  lemma {:induction false} MessageBitsAreDistinct(a: seq<Byte>, b: seq<Byte>)
    requires |a| == |b| && MessageBits(a) == MessageBits(b)
    ensures a == b
  {
    hide BitAt;
    if a != [] {
      var n := |a| - 1;
      var (p, q) := (LowBits(a[n], 8), LowBits(b[n], 8));
      LastBits(MessageBits(a[..n]), p, MessageBits(b[..n]), q);
      MessageBitsAreDistinct(a[..n], b[..n]);
      forall i | 0 <= i < 8 ensures BitAt(a[n], i) == BitAt(b[n], i) {
        assert p[i] == q[i];
      }
      SameHalved(a[n], b[n], 0);
    }
  }

  lemma LastBits(p: seq<bool>, pLast: seq<bool>, q: seq<bool>, qLast: seq<bool>)
    requires p + pLast == q + qLast && |pLast| == |qLast|
    ensures p == q && pLast == qLast
  {
    assert |p| == |q|;
    assert p == (p + pLast)[..|p|] && q == (q + qLast)[..|q|];
    assert pLast == (p + pLast)[|p|..] && qLast == (q + qLast)[|q|..];
  }

  lemma {:induction false} MessageBitsConcat(a: seq<Byte>, b: seq<Byte>)
    ensures MessageBits(a + b) == MessageBits(a) + MessageBits(b)
  {
    hide BitAt;
    if b == [] {
      assert a + b == a;
    } else {
      var n := |b| - 1;
      assert (a + b)[..|a| + n] == a + b[..n];
      MessageBitsConcat(a, b[..n]);
    }
  }

  /**
   * Two different inputs of equal length whose bits agree outside 32 consecutive bits have different
   * checksums, wherever the bits begin.
   */
  lemma BurstIsDetected(a: seq<Byte>, b: seq<Byte>, start: nat)
    requires |a| == |b| && a != b && BurstApart(MessageBits(a), MessageBits(b), start)
    ensures Checksum(a) != Checksum(b)
  {
    hide Reflect, Register, PolynomialRemainder, MessageBits, BurstApart;
    if Checksum(a) == Checksum(b) {
      DoubleComplement(Register(a));
      DoubleComplement(Register(b));
      RegisterIsPolynomialRemainder(a);
      RegisterIsPolynomialRemainder(b);
      BurstOfBits(MessageBits(a), MessageBits(b), start);
      MessageBitsAreDistinct(a, b);
    }
  }

  // The residue of a message that carries its checksum

  /** The remainder of every message that is followed by its checksum, in the order of the register. */
  const RESIDUE: bv32 := 0xC704_DD7B

  /** The receiver's check: message and field, the field's last byte first, leave the residue. */
  predicate Intact(message: seq<Byte>, field: seq<Byte>)
    requires |field| == 4
  {
    PolynomialRemainder(MessageBits(message + LastByteFirst(field))) == RESIDUE
  }

  function LastByteFirst(field: seq<Byte>): seq<Byte>
    requires |field| == 4
  {
    [field[3], field[2], field[1], field[0]]
  }

  /** The bits of a register from the lowest to the highest. */
  function RegisterBits(w: bv32): seq<bool> {
    seq(32, i requires 0 <= i => Odd(ShiftedRight(w, i)))
  }

  lemma {:induction false} ShiftedMore(w: bv32, a: nat, b: nat)
    ensures ShiftedRight(ShiftedRight(w, a), b) == ShiftedRight(w, a + b)
  {
    hide Half;
    if b > 0 {
      ShiftedMore(w, a, b - 1);
    }
  }

  lemma {:induction false} NumberHalved(w: bv32, digits: nat, index: nat)
    requires index <= digits
    ensures Halved(Number(w, digits), index) == Number(ShiftedRight(w, index), digits - index)
  {
    hide Odd, Half;
    if index > 0 {
      NumberHalved(w, digits, index - 1);
    }
  }

  lemma OctetBits(w: bv32, index: nat)
    requires index < 8
    ensures BitAt(Octet(w), index) == Odd(ShiftedRight(w, index))
  {
    hide Odd, Half;
    NumberHalved(w, 8, index);
  }

  /** The bytes of a checksum, last byte first, are the bits of the register in their order. */
  lemma FieldBits(w: bv32)
    ensures MessageBits(LastByteFirst(ToBytes(w))) == RegisterBits(w)
  {
    var field := LastByteFirst(ToBytes(w));
    var (a, b, c, d) := (field[0], field[1], field[2], field[3]);
    assert a == Octet(w) && b == Octet(ShiftedRight(w, 8));
    assert c == Octet(ShiftedRight(w, 16)) && d == Octet(ShiftedRight(w, 24));
    hide *;
    FourBytes(field);
    NotShifted(w);
    OctetInRegister(w, 0);
    OctetInRegister(w, 8);
    OctetInRegister(w, 16);
    OctetInRegister(w, 24);
    FourParts(LowBits(a, 8), LowBits(b, 8), LowBits(c, 8), LowBits(d, 8), RegisterBits(w));
  }

  lemma FourParts(a: seq<bool>, b: seq<bool>, c: seq<bool>, d: seq<bool>, bits: seq<bool>)
    requires |bits| == 32 && a == bits[0..8] && b == bits[8..16] && c == bits[16..24] && d == bits[24..32]
    ensures a + b + c + d == bits
  {}

  lemma NotShifted(w: bv32)
    ensures ShiftedRight(w, 0) == w
  {}

  lemma OctetInRegister(w: bv32, from: nat)
    requires from <= 24
    ensures |RegisterBits(w)| == 32
    ensures LowBits(Octet(ShiftedRight(w, from)), 8) == RegisterBits(w)[from..from + 8]
  {
    hide Odd, Half, ShiftedRight, BitAt, Octet;
    var (low, part) := (LowBits(Octet(ShiftedRight(w, from)), 8), RegisterBits(w)[from..from + 8]);
    forall i | 0 <= i < 8 ensures low[i] == part[i] {
      OctetBits(ShiftedRight(w, from), i);
      ShiftedMore(w, from, i);
    }
  }

  lemma FourBytes(field: seq<Byte>)
    requires |field| == 4
    ensures MessageBits(field) == LowBits(field[0], 8) + LowBits(field[1], 8) + LowBits(field[2], 8)
              + LowBits(field[3], 8)
  {
    hide LowBits;
    assert field[..3][..2] == field[..2] && field[..2][..1] == field[..1];
    assert MessageBits(field[..1][..0]) == [];
    assert MessageBits(field[..1]) == LowBits(field[0], 8);
    assert MessageBits(field[..2]) == LowBits(field[0], 8) + LowBits(field[1], 8);
    assert MessageBits(field[..3]) == LowBits(field[0], 8) + LowBits(field[1], 8) + LowBits(field[2], 8);
  }

  predicate Top(w: bv32) {
    w & 0x8000_0000 != 0
  }

  function Twice(w: bv32): bv32 {
    w << 1
  }

  function ShiftedLeft(w: bv32, count: nat): bv32 {
    if count == 0 then w else Twice(ShiftedLeft(w, count - 1))
  }

  /** The remainder of `count` one bits, from a register of zeros. */
  function OneBits(count: nat): bv32 {
    if count == 0 then 0 else PolynomialStep(OneBits(count - 1), true)
  }

  lemma ReflectHalf(w: bv32)
    ensures Reflect(Half(w)) == Twice(Reflect(w))
    ensures Top(Reflect(w)) <==> Odd(w)
  {
    ReflectShift(w);
    ReflectKeepsEnds(w);
    hide Reflect;
  }

  lemma {:induction false} ReflectShifted(w: bv32, count: nat)
    ensures Reflect(ShiftedRight(w, count)) == ShiftedLeft(Reflect(w), count)
  {
    hide Reflect, Half, Twice, Odd, Top;
    if count > 0 {
      ReflectShifted(w, count - 1);
      ReflectHalf(ShiftedRight(w, count - 1));
    }
  }

  lemma TopOfXor(a: bv32, b: bv32)
    ensures Top(Xor(a, b)) <==> Top(a) != Top(b)
  {}

  function Complement(w: bv32): bv32 {
    !w
  }

  /** The lowest `count` bits are all different. */
  predicate Opposite(v: bv32, w: bv32, count: nat)
    decreases count
  {
    count == 0 || (Odd(v) != Odd(w) && Opposite(Half(v), Half(w), count - 1))
  }

  lemma OppositeHalf(v: bv32, w: bv32)
    ensures Complement(Xor(Half(v), Half(w))) == Union(Half(Complement(Xor(v, w))), 0x8000_0000)
    ensures !Odd(Complement(Xor(v, w))) <==> Odd(v) != Odd(w)
  {}

  lemma {:induction false} ClearMeansOpposite(v: bv32, w: bv32, count: nat)
    requires count <= 32 && LowClear(Complement(Xor(v, w)), count)
    ensures Opposite(v, w, count)
    decreases count
  {
    hide Odd, Half, Complement, Xor, Union;
    OppositeHalf(v, w);
    if count > 0 {
      TopIsHigh();
      ClearWithFewer(0x8000_0000, 31, count - 1);
      ClearTogether(Half(Complement(Xor(v, w))), 0x8000_0000, count - 1);
      ClearMeansOpposite(Half(v), Half(w), count - 1);
    }
  }

  lemma ComplementIsOpposite(w: bv32)
    ensures Opposite(Complement(w), w, 32)
  {
    assert Complement(Xor(Complement(w), w)) == 0;
    ZeroIsClear(32);
    hide Complement, Xor;
    ClearMeansOpposite(Complement(w), w, 32);
  }

  lemma {:induction false} OppositeAt(v: bv32, w: bv32, count: nat, index: nat)
    requires index < count && Opposite(v, w, count)
    ensures Odd(ShiftedRight(v, index)) != Odd(ShiftedRight(w, index))
    decreases count
  {
    hide Odd, Half;
    if index > 0 {
      OppositeAt(Half(v), Half(w), count - 1, index - 1);
      ShiftedMore(v, 1, index - 1);
      ShiftedMore(w, 1, index - 1);
      assert ShiftedRight(v, 1) == Half(ShiftedRight(v, 0)) && ShiftedRight(w, 1) == Half(ShiftedRight(w, 0));
    }
  }

  /** A bit of the checksum is fed in against the same bit of the register: what is left does not depend on it. */
  lemma CheckBitFeeds(remainder: bv32, ones: bv32, left: bv32, bit: bool)
    requires Xor(remainder, ones) == left && bit == !Top(left)
    ensures Xor(PolynomialStep(remainder, bit), PolynomialStep(ones, true)) == Twice(left)
  {
    hide *;
    TopOfXor(remainder, ones);
    FeedsIff(remainder, bit);
    FeedsIff(ones, true);
    SameFeeds(remainder, ones, bit, true);
  }

  lemma FeedsIff(remainder: bv32, bit: bool)
    ensures Feeds(remainder, bit) <==> Top(remainder) != bit
  {}

  lemma SameFeeds(r: bv32, s: bv32, x: bool, y: bool)
    requires Feeds(r, x) == Feeds(s, y)
    ensures Xor(PolynomialStep(r, x), PolynomialStep(s, y)) == Twice(Xor(r, s))
  {
    hide PolynomialStep, Xor, Feeds;
    RemainderDifference(r, s, x, y);
  }

  lemma {:induction false} CheckBitsShiftOut(bits: seq<bool>, register: bv32, check: seq<bool>, count: nat)
    requires PolynomialRemainder(bits) == Reflect(register) && count <= |check| == 32
    requires forall i :: 0 <= i < 32 ==> check[i] == !Odd(ShiftedRight(register, i))
    ensures Xor(PolynomialRemainder(bits + check[..count]), OneBits(count)) == ShiftedLeft(Reflect(register), count)
  {
    hide Reflect, Xor, Odd, Half, Twice, Top, PolynomialStep, ShiftedRight;
    if count == 0 {
      assert bits + check[..0] == bits;
      XorWithZero(Reflect(register));
    } else {
      CheckBitsShiftOut(bits, register, check, count - 1);
      var (longer, before) := (bits + check[..count], bits + check[..count - 1]);
      assert longer[..|longer| - 1] == before && longer[|longer| - 1] == check[count - 1];
      ReflectShifted(register, count - 1);
      ReflectHalf(ShiftedRight(register, count - 1));
      CheckBitFeeds(PolynomialRemainder(before), OneBits(count - 1), ShiftedLeft(Reflect(register), count - 1),
        check[count - 1]);
    }
  }

  lemma EightHalves(w: bv32)
    ensures ShiftedRight(w, 8) == w >> 8
  {
    assert ShiftedRight(w, 1) == w >> 1;
    assert ShiftedRight(w, 2) == w >> 2;
    assert ShiftedRight(w, 3) == w >> 3;
    assert ShiftedRight(w, 4) == w >> 4;
    assert ShiftedRight(w, 5) == w >> 5;
    assert ShiftedRight(w, 6) == w >> 6;
    assert ShiftedRight(w, 7) == w >> 7;
  }

  lemma AllShiftedOut(w: bv32)
    ensures ShiftedRight(w, 32) == 0
  {
    hide *;
    ShiftedMore(w, 8, 8);
    ShiftedMore(w, 16, 8);
    ShiftedMore(w, 24, 8);
    var (a, b, c) := (ShiftedRight(w, 8), ShiftedRight(w, 16), ShiftedRight(w, 24));
    EightHalves(w);
    EightHalves(a);
    EightHalves(b);
    EightHalves(c);
    FourBytesOut(w, a, b, c);
  }

  lemma FourBytesOut(w: bv32, a: bv32, b: bv32, c: bv32)
    requires a == w >> 8 && b == a >> 8 && c == b >> 8
    ensures c >> 8 == 0
  {}

  lemma ThirtyTwoOneBits()
    ensures OneBits(32) == RESIDUE
  {
    assert OneBits(1) == 0x04C1_1DB7;
    assert OneBits(2) == 0x0D43_26D9;
    assert OneBits(3) == 0x1E47_5005;
    assert OneBits(4) == 0x384F_BDBD;
    assert OneBits(5) == 0x745E_66CD;
    assert OneBits(6) == 0xEC7D_D02D;
    assert OneBits(7) == 0xD8FB_A05A;
    assert OneBits(8) == 0xB1F7_40B4;
    assert OneBits(9) == 0x63EE_8168;
    assert OneBits(10) == 0xC31C_1F67;
    assert OneBits(11) == 0x8638_3ECE;
    assert OneBits(12) == 0x0C70_7D9C;
    assert OneBits(13) == 0x1C21_E68F;
    assert OneBits(14) == 0x3C82_D0A9;
    assert OneBits(15) == 0x7DC4_BCE5;
    assert OneBits(16) == 0xFF48_647D;
    assert OneBits(17) == 0xFE90_C8FA;
    assert OneBits(18) == 0xFD21_91F4;
    assert OneBits(19) == 0xFA43_23E8;
    assert OneBits(20) == 0xF486_47D0;
    assert OneBits(21) == 0xE90C_8FA0;
    assert OneBits(22) == 0xD219_1F40;
    assert OneBits(23) == 0xA432_3E80;
    assert OneBits(24) == 0x4864_7D00;
    assert OneBits(25) == 0x9409_E7B7;
    assert OneBits(26) == 0x2813_CF6E;
    assert OneBits(27) == 0x54E6_836B;
    assert OneBits(28) == 0xAD0C_1B61;
    assert OneBits(29) == 0x5A18_36C2;
    assert OneBits(30) == 0xB0F1_7033;
    assert OneBits(31) == 0x61E2_E066;
  }

  /**
   * The residue law: a message followed by its checksum, as the bits of the register in their order, leaves
   * the same remainder whatever the message is.
   */
  lemma ChecksumLeavesResidue(data: seq<Byte>)
    ensures PolynomialRemainder(MessageBits(data) + RegisterBits(Checksum(data))) == RESIDUE
  {
    hide Reflect, Xor, Odd, Half, ShiftedRight, ShiftedLeft, PolynomialRemainder, Register, MessageBits;
    var (register, bits, check) := (Register(data), MessageBits(data), RegisterBits(Checksum(data)));
    RegisterIsPolynomialRemainder(data);
    ComplementIsOpposite(register);
    assert Checksum(data) == Complement(register);
    hide Complement;
    forall i | 0 <= i < 32 ensures check[i] == !Odd(ShiftedRight(register, i)) {
      OppositeAt(Complement(register), register, 32, i);
    }
    CheckBitsShiftOut(bits, register, check, 32);
    assert check[..32] == check;
    AllShiftedOut(register);
    ReflectShifted(register, 32);
    ReflectZero();
    ThirtyTwoOneBits();
    XorIsZero(PolynomialRemainder(bits + check), RESIDUE);
  }

  lemma ReflectZero()
    ensures Reflect(0) == 0
  {}

  /** A message is intact exactly with its own checksum as the field. */
  lemma IntactIff(message: seq<Byte>, field: seq<Byte>)
    requires |field| == 4
    ensures Intact(message, field) <==> field == ToBytes(Checksum(message))
  {
    hide MessageBits, PolynomialRemainder, RegisterBits, ToBytes, Checksum;
    var own := ToBytes(Checksum(message));
    MessageBitsConcat(message, LastByteFirst(own));
    FieldBits(Checksum(message));
    ChecksumLeavesResidue(message);
    if Intact(message, field) {
      MessageBitsConcat(message, LastByteFirst(field));
      FieldLength(field);
      FieldLength(own);
      BurstOfBits(MessageBits(message) + MessageBits(LastByteFirst(field)),
                  MessageBits(message) + MessageBits(LastByteFirst(own)), |MessageBits(message)|);
      LastBits(MessageBits(message), MessageBits(LastByteFirst(field)), MessageBits(message),
        MessageBits(LastByteFirst(own)));
      MessageBitsAreDistinct(LastByteFirst(field), LastByteFirst(own));
      SameField(field, own);
    }
  }

  lemma FieldLength(field: seq<Byte>)
    requires |field| == 4
    ensures |MessageBits(LastByteFirst(field))| == 32
  {
    FourBytes(LastByteFirst(field));
  }

  lemma SameField(a: seq<Byte>, b: seq<Byte>)
    requires |a| == |b| == 4 && LastByteFirst(a) == LastByteFirst(b)
    ensures a == b
  {
    var (x, y) := (LastByteFirst(a), LastByteFirst(b));
    assert x[0] == y[0] && x[1] == y[1] && x[2] == y[2] && x[3] == y[3];
  }

  /** Different registers are written differently. */
  lemma ToBytesIsInjective(v: bv32, w: bv32)
    requires ToBytes(v) == ToBytes(w)
    ensures v == w
  {
    hide ToBytes;
    FieldBits(v);
    FieldBits(w);
    hide MessageBits, LastByteFirst;
    SameBitsFrom(v, w, 0);
    NotShifted(v);
    NotShifted(w);
  }

  lemma {:induction false} SameBitsFrom(v: bv32, w: bv32, from: nat)
    requires from <= 32 && RegisterBits(v) == RegisterBits(w)
    ensures ShiftedRight(v, from) == ShiftedRight(w, from)
    decreases 32 - from
  {
    hide Odd, Half, ShiftedRight;
    if from == 32 {
      AllShiftedOut(v);
      AllShiftedOut(w);
    } else {
      SameBitsFrom(v, w, from + 1);
      assert RegisterBits(v)[from] == RegisterBits(w)[from];
      NextShift(v, from);
      NextShift(w, from);
      SameRest(ShiftedRight(v, from), ShiftedRight(w, from));
    }
  }

  lemma NextShift(w: bv32, count: nat)
    ensures ShiftedRight(w, count + 1) == Half(ShiftedRight(w, count))
  {}

  lemma SameRest(v: bv32, w: bv32)
    requires Half(v) == Half(w) && Odd(v) == Odd(w)
    ensures v == w
  {}

  // A check value

  lemma StepByWord(crc: bv32, byte: Byte, word: bv32, next: bv32)
    requires Word(byte) == word && BitSteps(Xor(crc, word), 8) == next
    ensures ByteStep(crc, byte) == next
  {
    hide Word, BitSteps, Xor;
  }

  lemma WordsOfIend()
    ensures Word(0x49) == 0x49 && Word(0x45) == 0x45 && Word(0x4E) == 0x4E && Word(0x44) == 0x44
  {
    assert Binary(0, 1) == 0;
    assert Binary(1, 2) == 1;
    assert Binary(2, 3) == 2;
    assert Binary(4, 4) == 4;
    assert Binary(9, 5) == 9 && Binary(8, 5) == 8;
    assert Binary(18, 6) == 18 && Binary(17, 6) == 17 && Binary(19, 6) == 19;
    assert Binary(36, 7) == 36 && Binary(34, 7) == 34 && Binary(39, 7) == 39;
  }

  /** The checksum of the chunk that ends every PNG file. */
  lemma ChecksumOfIend()
    ensures Checksum([0x49, 0x45, 0x4E, 0x44]) == 0xAE42_6082
  {
    hide Word;
    WordsOfIend();
    assert BitSteps(0xFFFF_FFB6, 8) == 0x22FD_E946;
    StepByWord(0xFFFF_FFFF, 0x49, 0x49, 0x22FD_E946);
    StepByWord(0x22FD_E946, 0x45, 0x45, 0x992B_AC53);
    StepByWord(0x992B_AC53, 0x4E, 0x4E, 0x639F_4775);
    StepByWord(0x639F_4775, 0x44, 0x44, 0x51BD_9F7D);
    hide ByteStep;
    FourSteps(0x49, 0x45, 0x4E, 0x44, 0x22FD_E946, 0x992B_AC53, 0x639F_4775, 0x51BD_9F7D);
  }

  lemma FourSteps(a: Byte, b: Byte, c: Byte, d: Byte, p: bv32, q: bv32, r: bv32, s: bv32)
    requires ByteStep(0xFFFF_FFFF, a) == p && ByteStep(p, b) == q && ByteStep(q, c) == r && ByteStep(r, d) == s
    ensures Register([a, b, c, d]) == s
  {
    EmptyRegister();
    hide *;
    RegisterGrows([], a);
    RegisterGrows([a], b);
    RegisterGrows([a, b], c);
    RegisterGrows([a, b, c], d);
    assert [] + [a] == [a];
    assert [a] + [b] == [a, b];
    assert [a, b] + [c] == [a, b, c];
    assert [a, b, c] + [d] == [a, b, c, d];
  }

  lemma EmptyRegister()
    ensures Register([]) == 0xFFFF_FFFF
  {}

  lemma RegisterGrows(data: seq<Byte>, byte: Byte)
    ensures Register(data + [byte]) == ByteStep(Register(data), byte)
  {
    assert (data + [byte])[..|data|] == data;
    hide ByteStep;
  }

  lemma OctetOfAE()
    ensures Octet(0xAE) == 0xAE
  {}

  lemma OctetOf42()
    ensures Octet(0xAE42) == 0x42
  {}

  lemma OctetOf60()
    ensures Octet(0xAE_4260) == 0x60
  {}

  lemma OctetOf82()
    ensures Octet(0xAE42_6082) == 0x82
  {}

  lemma BytesOfIend()
    ensures ToBytes(0xAE42_6082) == [0xAE, 0x42, 0x60, 0x82]
  {
    OctetOfAE();
    OctetOf42();
    OctetOf60();
    OctetOf82();
    hide Octet, ShiftedRight;
    EightHalves(0xAE42_6082);
    EightHalves(0xAE_4260);
    EightHalves(0xAE42);
    ShiftedMore(0xAE42_6082, 8, 8);
    ShiftedMore(0xAE42_6082, 16, 8);
  }
}
