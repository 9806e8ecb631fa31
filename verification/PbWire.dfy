/** The wire format of nanopb's scalar values (nanopb/pb_encode.c, pb_decode.c):
    sections "Base 128 Varints" and "Signed Integers" of the Protocol Buffers
    encoding specification. */
module PbWire {
  import opened Keys
  import opened Coding

  const TWO_31 := 0x8000_0000
  const TWO_63 := 0x8000_0000_0000_0000

  // ----- varints -----

  /** pb_encode_varint: seven bits at a time into a ten-byte buffer. */
  method EncodeVarint(value: nat) returns (bs: Bytes)
    requires value < TWO_64
    ensures bs == Varint(value) && |bs| <= 10
  {
    Varint64Fits(value);
    if value <= 0x7f {
      return [value];
    }
    var buffer: Bytes, v: nat := [], value;
    while v >= 128
      invariant buffer + Varint(v) == Varint(value)
    {
      assert Varint(v) == [128 + v % 128] + Varint(v / 128);
      assert (buffer + [128 + v % 128]) + Varint(v / 128) == buffer + Varint(v);
      buffer := buffer + [128 + v % 128];
      v := v / 128;
    }
    bs := buffer + [v];
  }

  function Shl(x: nat, bits: nat): (r: nat) {
    if bits == 0 then x else 2 * Shl(x, bits - 1)
  }

  /** The multi-byte part of pb_decode_varint32: `result` holds the bits below `bitpos`. */
  function MoreBits(input: Bytes, result: nat, bitpos: nat): (r: Got<nat>)
    decreases |input|
  {
    if input == [] then Bad
    else
      var b := input[0];
      if bitpos >= 32 then
        var signExtension := if bitpos < 63 then 0xff else 0x01;
        if b % 128 != 0 && (result < TWO_31 || b != signExtension) then Bad
        else if b >= 128 then MoreBits(input[1..], result, (bitpos + 7) % 256)
        else Got(result, input[1..])
      else
        var r := (result + Shl(b % 128, bitpos)) % TWO_32;
        if b >= 128 then MoreBits(input[1..], r, bitpos + 7)
        else if bitpos == 28 && (b / 16) % 8 != 0 then Bad
        else Got(r, input[1..])
  }

  /** pb_decode_varint32. */
  function DecodeVarint32(input: Bytes): (r: Got<nat>) {
    if input == [] then Bad
    else if input[0] < 128 then Got(input[0], input[1..])
    else MoreBits(input[1..], input[0] - 128, 7)
  }

  lemma {:induction false} ShlAdds(a: nat, b: nat, bits: nat)
    ensures Shl(a + b, bits) == Shl(a, bits) + Shl(b, bits)
  {
    if bits > 0 { ShlAdds(a, b, bits - 1); }
  }

  lemma Shl7(x: nat, bits: nat)
    ensures Shl(128 * x, bits) == Shl(x, bits + 7)
  {
    assert Shl(x, 1) == 2 * x;
    assert Shl(x, 2) == 2 * Shl(x, 1);
    assert Shl(x, 4) == 4 * Shl(x, 2);
    assert Shl(x, 6) == 4 * Shl(x, 4);
    assert Shl(x, 7) == 128 * x;
    ShlMany(x, bits, 7);
  }

  lemma {:induction false} ShlMany(x: nat, bits: nat, n: nat)
    ensures Shl(Shl(x, n), bits) == Shl(x, bits + n)
    decreases bits
  {
    if bits > 0 { ShlMany(x, bits - 1, n); }
  }

  lemma ShlOne()
    ensures Shl(1, 28) == 0x1000_0000
  {
    Shl7(1, 21);
    Shl7(128, 14);
    Shl7(128 * 128, 7);
    Shl7(128 * 128 * 128, 0);
  }

  lemma SixteenIsTooBig()
    ensures Shl(16, 28) == TWO_32
  {
    ShlOne();
    assert Shl(1, 1) == 2;
    assert Shl(1, 2) == 4;
    assert Shl(1, 3) == 8;
    assert Shl(1, 4) == 16;
    ShlMany(1, 28, 4);
    ShlMany(1, 4, 28);
    var x := 0x1000_0000;
    assert Shl(x, 1) == 2 * x;
    assert Shl(x, 2) == 2 * Shl(x, 1);
    assert Shl(x, 3) == 2 * Shl(x, 2);
    assert Shl(x, 4) == 2 * Shl(x, 3);
  }

  /** Only the four bits that fit may stand in the fifth byte. */
  lemma FifthByte(v: nat)
    requires Shl(v, 28) < TWO_32
    ensures v < 16
  {
    SixteenIsTooBig();
    if v >= 16 { ShlAdds(16, v - 16, 28); }
  }

  lemma MoreBitsStep(b: byte, tail: Bytes, result: nat, bitpos: nat)
    requires bitpos < 32 && result + Shl(b % 128, bitpos) < TWO_32
    ensures MoreBits([b] + tail, result, bitpos) ==
            if b >= 128 then MoreBits(tail, result + Shl(b % 128, bitpos), bitpos + 7)
            else if bitpos == 28 && (b / 16) % 8 != 0 then Bad
            else Got(result + Shl(b % 128, bitpos), tail)
  {}

  lemma SplitDigit(v: nat, bitpos: nat)
    requires v >= 128
    ensures Shl(v, bitpos) == Shl(v % 128, bitpos) + Shl(v / 128, bitpos + 7)
  {
    ShlAdds(v % 128, 128 * (v / 128), bitpos);
    Shl7(v / 128, bitpos);
  }

  lemma VarintFront(v: nat, rest: Bytes)
    ensures Varint(v) + rest == if v < 128 then [v] + rest else [128 + v % 128] + (Varint(v / 128) + rest)
  {}

  lemma {:induction false} MoreBitsInverts(v: nat, result: nat, bitpos: nat, rest: Bytes)
    requires bitpos == 7 || bitpos == 14 || bitpos == 21 || bitpos == 28
    requires result + Shl(v, bitpos) < TWO_32
    ensures MoreBits(Varint(v) + rest, result, bitpos) == Got(result + Shl(v, bitpos), rest)
    decreases v
  {
    if v >= 128 {
      DigitReads(v, result, bitpos, rest);
      MoreBitsInverts(v / 128, result + Shl(v % 128, bitpos), bitpos + 7, rest);
    } else {
      LastDigitReads(v, result, bitpos, rest);
    }
  }

  lemma LastDigitReads(v: nat, result: nat, bitpos: nat, rest: Bytes)
    requires bitpos <= 28 && v < 128 && result + Shl(v, bitpos) < TWO_32
    ensures MoreBits(Varint(v) + rest, result, bitpos) == Got(result + Shl(v, bitpos), rest)
  {
    VarintFront(v, rest);
    if bitpos == 28 { FifthByte(v); }
    MoreBitsStep(v, rest, result, bitpos);
  }

  lemma DigitReads(v: nat, result: nat, bitpos: nat, rest: Bytes)
    requires bitpos <= 28 && v >= 128 && result + Shl(v, bitpos) < TWO_32
    ensures bitpos < 28 && result + Shl(v % 128, bitpos) + Shl(v / 128, bitpos + 7) == result + Shl(v, bitpos)
    ensures MoreBits(Varint(v) + rest, result, bitpos) ==
            MoreBits(Varint(v / 128) + rest, result + Shl(v % 128, bitpos), bitpos + 7)
  {
    VarintFront(v, rest);
    if bitpos == 28 { FifthByte(v); }
    SplitDigit(v, bitpos);
    MoreBitsStep(128 + v % 128, Varint(v / 128) + rest, result, bitpos);
  }

  lemma Varint32RoundTrip(v: nat, rest: Bytes)
    requires v < TWO_32
    ensures DecodeVarint32(Varint(v) + rest) == Got(v, rest)
  {
    if v >= 128 {
      var tail := Varint(v / 128) + rest;
      assert Varint(v) + rest == [128 + v % 128] + tail;
      Shl7(v / 128, 0);
      assert Shl(v / 128, 0) == v / 128;
      MoreBitsInverts(v / 128, v % 128, 7, rest);
    }
  }

  lemma MoreBitsFront(v: nat, result: nat, bitpos: nat, rest: Bytes)
    ensures MoreBits(Varint(v) + rest, result, bitpos) ==
            MoreBits(if v < 128 then [v] + rest else [128 + v % 128] + (Varint(v / 128) + rest), result, bitpos)
  {
    VarintFront(v, rest);
  }

  /** One byte above the 32nd bit. */
  lemma HighByte(b: byte, tail: Bytes, result: nat, bitpos: nat)
    requires 32 <= bitpos < 63
    ensures MoreBits([b] + tail, result, bitpos) ==
            if b % 128 != 0 && (result < TWO_31 || b != 0xff) then Bad
            else if b >= 128 then MoreBits(tail, result, bitpos + 7)
            else Got(result, tail)
  {}

  /** `w` shifted by `bitpos` bits is below two to the 63rd. */
  predicate Below63(w: nat, bitpos: nat) {
    (bitpos == 35 && w < 0x1000_0000) || (bitpos == 42 && w < 0x20_0000) || (bitpos == 49 && w < 0x4000) || (bitpos == 56 && w < 0x80)
  }

  /** A number that goes on above the 32nd bit, but not up to the 64th, is refused. */
  lemma {:induction false} HighBitsFail(w: nat, result: nat, bitpos: nat, rest: Bytes)
    requires 1 <= w && Below63(w, bitpos)
    ensures MoreBits(Varint(w) + rest, result, bitpos) == Bad
    decreases w
  {
    MoreBitsFront(w, result, bitpos, rest);
    if w < 128 {
      HighByte(w, rest, result, bitpos);
    } else {
      HighByte(128 + w % 128, Varint(w / 128) + rest, result, bitpos);
      HighBitsFail(w / 128, result, bitpos + 7, rest);
    }
  }

  /** `w` shifted by `bitpos` bits is between two to the 32nd and two to the 63rd. */
  predicate Between(w: nat, bitpos: nat) {
    (bitpos == 7 && 0x200_0000 <= w < 0x100_0000_0000_0000) || (bitpos == 14 && 0x4_0000 <= w < 0x2_0000_0000_0000) ||
    (bitpos == 21 && 0x800 <= w < 0x400_0000_0000) || (bitpos == 28 && 0x10 <= w < 0x8_0000_0000)
  }

  lemma LowByte(b: byte, tail: Bytes, result: nat, bitpos: nat)
    requires bitpos < 32
    ensures MoreBits([b] + tail, result, bitpos) ==
            if b >= 128 then MoreBits(tail, (result + Shl(b % 128, bitpos)) % TWO_32, bitpos + 7)
            else if bitpos == 28 && (b / 16) % 8 != 0 then Bad
            else Got((result + Shl(b % 128, bitpos)) % TWO_32, tail)
  {}

  lemma {:induction false} TooBigFails(w: nat, result: nat, bitpos: nat, rest: Bytes)
    requires Between(w, bitpos)
    ensures MoreBits(Varint(w) + rest, result, bitpos) == Bad
    decreases w
  {
    MoreBitsFront(w, result, bitpos, rest);
    if w < 128 {
      LowByte(w, rest, result, bitpos);
    } else {
      var next := (result + Shl((128 + w % 128) % 128, bitpos)) % TWO_32;
      LowByte(128 + w % 128, Varint(w / 128) + rest, result, bitpos);
      if bitpos == 28 { HighBitsFail(w / 128, next, 35, rest); } else { TooBigFails(w / 128, next, bitpos + 7, rest); }
    }
  }

  /** A number of more than 32 bits is refused.  From two to the 63rd on it may pass for
      a negative one, of which the last 32 bits are taken. */
  lemma Varint32Overflows(v: nat, rest: Bytes)
    requires TWO_32 <= v < TWO_63
    ensures DecodeVarint32(Varint(v) + rest) == Bad
  {
    var tail := Varint(v / 128) + rest;
    assert Varint(v) + rest == [128 + v % 128] + tail;
    TooBigFails(v / 128, v % 128, 7, rest);
  }

  lemma ShlIs(x: nat)
    ensures Shl(x, 7) == 128 * x && Shl(x, 14) == 0x4000 * x && Shl(x, 21) == 0x20_0000 * x && Shl(x, 28) == 0x1000_0000 * x
  {
    Shl7(x, 0);
    Shl7(x, 7);
    Shl7(128 * x, 0);
    Shl7(x, 14);
    Shl7(128 * x, 7);
    Shl7(128 * (128 * x), 0);
    Shl7(x, 21);
    Shl7(128 * x, 14);
    Shl7(128 * (128 * x), 7);
    Shl7(128 * (128 * (128 * x)), 0);
  }

  /** The bytes of a sign extension. */
  lemma ExtensionBytes()
    ensures Varint(0x1fff_ffff) == [0xff, 0xff, 0xff, 0xff, 0x01]
  {
    VarintStep(0x1fff_ffff);
    VarintStep(0x3f_ffff);
    VarintStep(0x7fff);
    VarintStep(0xff);
  }

  lemma ExtensionPasses(result: nat, rest: Bytes)
    requires result >= TWO_31
    ensures MoreBits(Varint(0x1fff_ffff) + rest, result, 35) == Got(result, rest)
  {
    ExtensionBytes();
    var last := [0x01] + rest;
    assert Varint(0x1fff_ffff) + rest == [0xff] + ([0xff] + ([0xff] + ([0xff] + last)));
    HighByte(0xff, [0xff] + ([0xff] + ([0xff] + last)), result, 35);
    HighByte(0xff, [0xff] + ([0xff] + last), result, 42);
    HighByte(0xff, [0xff] + last, result, 49);
    HighByte(0xff, last, result, 56);
  }

  lemma SplitsDigit(d: nat, q: nat)
    requires d < 128
    ensures (d + 128 * q) / 128 == q && (d + 128 * q) % 128 == d
  {}

  /** One digit below the 32nd bit. */
  lemma LowDigit(w: nat, d: nat, q: nat, result: nat, bitpos: nat, rest: Bytes, next: nat)
    requires bitpos < 32 && d < 128 && q > 0 && w == d + 128 * q && next == (result + Shl(d, bitpos)) % TWO_32
    ensures MoreBits(Varint(w) + rest, result, bitpos) == MoreBits(Varint(q) + rest, next, bitpos + 7)
  {
    SplitsDigit(d, q);
    MoreBitsFront(w, result, bitpos, rest);
    LowByte(128 + d, Varint(q) + rest, result, bitpos);
  }

  /** `x` is `d` shifted by `bitpos` bits. */
  predicate IsShifted(d: nat, bitpos: nat, x: nat) {
    (bitpos == 7 && x == 128 * d) || (bitpos == 14 && x == 0x4000 * d) || (bitpos == 21 && x == 0x20_0000 * d)
  }

  lemma SmallDigit(w: nat, d: nat, q: nat, result: nat, bitpos: nat, rest: Bytes, x: nat)
    requires IsShifted(d, bitpos, x) && d < 128 && q > 0 && w == d + 128 * q && result + x < TWO_32
    ensures MoreBits(Varint(w) + rest, result, bitpos) == MoreBits(Varint(q) + rest, result + x, bitpos + 7)
  {
    ShlIs(d);
    LowDigit(w, d, q, result, bitpos, rest, result + x);
  }

  /** Three digits in the middle. */
  lemma MiddleDigits(w1: nat, w2: nat, w3: nat, w4: nat, d1: nat, d2: nat, d3: nat, r: nat, rest: Bytes)
    requires r < 128 && d1 < 128 && d2 < 128 && d3 < 128 && w4 > 0
    requires w1 == d1 + 128 * w2 && w2 == d2 + 128 * w3 && w3 == d3 + 128 * w4
    ensures MoreBits(Varint(w1) + rest, r, 7) == MoreBits(Varint(w4) + rest, r + 128 * d1 + 0x4000 * d2 + 0x20_0000 * d3, 28)
  {
    SmallDigit(w1, d1, w2, r, 7, rest, 128 * d1);
    SmallDigit(w2, d2, w3, r + 128 * d1, 14, rest, 0x4000 * d2);
    SmallDigit(w3, d3, w4, r + 128 * d1 + 0x4000 * d2, 21, rest, 0x20_0000 * d3);
  }

  /** The first five digits make up the result, cut to 32 bits. */
  lemma FiveDigits(d0: nat, d1: nat, d2: nat, d3: nat, d4: nat, h: nat, rest: Bytes, result: nat)
    requires d0 < 128 && d1 < 128 && d2 < 128 && d3 < 128 && d4 < 128 && h > 0
    requires result == (d0 + 128 * d1 + 0x4000 * d2 + 0x20_0000 * d3 + 0x1000_0000 * d4) % TWO_32
    ensures DecodeVarint32(Varint(d0 + 128 * (d1 + 128 * (d2 + 128 * (d3 + 128 * (d4 + 128 * h))))) + rest) ==
            MoreBits(Varint(h) + rest, result, 35)
  {
    var w3 := d3 + 128 * (d4 + 128 * h);
    var w1 := d1 + 128 * (d2 + 128 * w3);
    SplitsDigit(d0, w1);
    assert Varint(d0 + 128 * w1) + rest == [128 + d0] + (Varint(w1) + rest);
    MiddleDigits(w1, d2 + 128 * w3, w3, d4 + 128 * h, d1, d2, d3, d0, rest);
    ShlIs(d4);
    LowDigit(d4 + 128 * h, d4, h, d0 + 128 * d1 + 0x4000 * d2 + 0x20_0000 * d3, 28, rest, result);
  }

  /** The digits of a negative number of 32 bits, extended to 64. */
  lemma NegativeDigits(n: int) returns (d0: nat, d1: nat, d2: nat, d3: nat, d4: nat)
    requires -TWO_31 <= n < 0
    ensures d0 < 128 && d1 < 128 && d2 < 128 && d3 < 128 && d4 < 128
    ensures n + TWO_64 == d0 + 128 * (d1 + 128 * (d2 + 128 * (d3 + 128 * (d4 + 128 * 0x1fff_ffff))))
    ensures d0 + 128 * d1 + 0x4000 * d2 + 0x20_0000 * d3 + 0x1000_0000 * d4 == n + 8 * TWO_32
  {
    var low: nat := n + 8 * TWO_32;
    d0, d1 := low % 128, low / 128;
    d1, d2 := d1 % 128, d1 / 128;
    d2, d3 := d2 % 128, d2 / 128;
    d3, d4 := d3 % 128, d3 / 128;
  }

  /** A negative number of 32 bits, extended to 64, is read back in 32. */
  lemma SignExtendedReads(n: int, rest: Bytes)
    requires -TWO_31 <= n < 0
    ensures DecodeVarint32(Varint(n + TWO_64) + rest) == Got(n + TWO_32, rest)
  {
    var d0, d1, d2, d3, d4 := NegativeDigits(n);
    FiveDigits(d0, d1, d2, d3, d4, 0x1fff_ffff, rest, n + TWO_32);
    ExtensionPasses(n + TWO_32, rest);
  }

  lemma Varint64RoundTrip(v: nat, rest: Bytes)
    requires v < TWO_64
    ensures GetVarint(Varint(v) + rest, true) == Got(v, rest)
  {
    VarintRoundTrip(v, rest, true);
  }

  // ----- signed integers -----

  /** Two's complement in 64 bits. */
  function Unsigned64(n: int): (r: nat)
    requires -TWO_63 <= n < TWO_64
  {
    if n < 0 then n + TWO_64 else n
  }

  function Signed64(v: nat): (r: int)
    requires v < TWO_64
  {
    if v < TWO_63 then v else v - TWO_64
  }

  /** A cast to a signed integer of `bytes` bytes. */
  function Cast(v: int, bytes: nat): (r: int) {
    if bytes == 1 then (v + 128) % 256 - 128
    else if bytes == 2 then (v + 32768) % 65536 - 32768
    else if bytes == 4 then (v + TWO_31) % TWO_32 - TWO_31
    else (v + TWO_63) % TWO_64 - TWO_63
  }

  function CastUnsigned(v: int, bytes: nat): (r: nat) {
    if bytes == 1 then v % 256 else if bytes == 2 then v % 65536 else if bytes == 4 then v % TWO_32 else v % TWO_64
  }

  predicate Width(bytes: nat) {
    bytes == 1 || bytes == 2 || bytes == 4 || bytes == 8
  }

  /** pb_encode_svarint: ~(value << 1) for negative values, in 64 bits. */
  function ZigZag(n: int): (r: nat)
    requires -TWO_63 <= n < TWO_63
  {
    if n < 0 then TWO_64 - 1 - (2 * n) % TWO_64 else (2 * n) % TWO_64
  }

  /** pb_decode_svarint. */
  function UnZigZag(v: nat): (r: int)
    requires v < TWO_64
  {
    if v % 2 == 1 then Signed64(TWO_64 - 1 - v / 2) else Signed64(v / 2)
  }

  lemma ZigZagRoundTrip(n: int)
    requires -TWO_63 <= n < TWO_63
    ensures ZigZag(n) < TWO_64 && UnZigZag(ZigZag(n)) == n
    ensures ZigZag(n) == if n < 0 then -2 * n - 1 else 2 * n
  {}

  lemma FitsOne(n: int)
    requires Cast(n, 1) == n
    ensures -TWO_31 <= n < TWO_31
  {}

  lemma FitsTwo(n: int)
    requires Cast(n, 2) == n
    ensures -TWO_31 <= n < TWO_31
  {}

  lemma FitsFour(n: int)
    requires Cast(n, 4) == n
    ensures -TWO_31 <= n < TWO_31
  {}

  lemma FitsEight(n: int)
    requires Cast(n, 8) == n
    ensures -TWO_63 <= n < TWO_63
  {}

  lemma CastSmall(n: int)
    requires -TWO_31 <= n < TWO_31
    ensures Cast(n, 4) == n
  {}

  /** Sign extension to 64 bits changes nothing below the 33rd. */
  lemma CastExtended(n: int)
    requires -TWO_31 <= n < 0
    ensures Cast(n + TWO_64, 4) == n
  {}

  /** Signed values of a field's size survive sign extension and the casts. */
  lemma CastsKeep(n: int, bytes: nat)
    requires Width(bytes) && Cast(n, bytes) == n
    ensures -TWO_63 <= n < TWO_63 && Signed64(Unsigned64(n)) == n
    ensures bytes < 8 ==> Cast(Unsigned64(n), 4) == n
  {
    if bytes == 8 {
      FitsEight(n);
    } else {
      if bytes == 1 { FitsOne(n); } else if bytes == 2 { FitsTwo(n); } else { FitsFour(n); }
      if n < 0 { CastExtended(n); } else { CastSmall(n); }
    }
  }
}
