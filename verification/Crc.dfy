/** CRC-32C (util/crc32c.cc, util/crc32c.h): section 12.1 of RFC 3720. */
module Crc {
  import opened LinearMaps

  // ----- the checksum, one bit at a time -----

  const POLYNOMIAL: bv32 := 0x82f6_3b78  // bit-reflected
  const ONES: bv32 := 0xffff_ffff

  function Plus(a: bv32, b: bv32): (r: bv32) {
    a ^ b
  }

  function Shift(l: bv32): (r: bv32) {
    if l & 1 == 1 then (l >> 1) ^ POLYNOMIAL else l >> 1
  }

  /** The register after `n` zero bits. */
  function Zeros(l: bv32, n: nat): (r: bv32) {
    Iter(Shift, l, n)
  }

  function Byte0(l: bv32): (r: bv32) { Zeros(l, 8) }
  function Word0(l: bv32): (r: bv32) { Zeros(l, 32) }
  function Stride0(l: bv32): (r: bv32) { Zeros(l, 128) }

  function Step(l: bv32, b: bv8): (r: bv32) {
    Byte0(Plus(l, b as bv32))
  }

  function Fold(l: bv32, data: seq<bv8>): (r: bv32)
    decreases |data|
  {
    if data == [] then l else Fold(Step(l, data[0]), data[1..])
  }

  /** The CRC of a string extended by `data`. */
  function Extended(crc: bv32, data: seq<bv8>): (r: bv32) {
    Plus(Fold(Plus(crc, ONES), data), ONES)
  }

  lemma {:induction false} FoldConcat(l: bv32, a: seq<bv8>, b: seq<bv8>)
    ensures Fold(l, a + b) == Fold(Fold(l, a), b)
    decreases |a|
  {
    if a == [] {
      assert a + b == b;
    } else {
      assert (a + b)[1..] == a[1..] + b;
      FoldConcat(Step(l, a[0]), a[1..], b);
    }
  }

  lemma OnesCancel(l: bv32)
    ensures Plus(Plus(l, ONES), ONES) == l
  {}

  /** A CRC may be computed in pieces. */
  lemma ExtendedConcat(crc: bv32, a: seq<bv8>, b: seq<bv8>)
    ensures Extended(Extended(crc, a), b) == Extended(crc, a + b)
  {
    FoldConcat(Plus(crc, ONES), a, b);
    OnesCancel(Fold(Plus(crc, ONES), a));
  }

  // ----- zero bits act linearly -----

  lemma PlusCommutes(a: bv32, b: bv32)
    ensures Plus(a, b) == Plus(b, a)
  {}

  lemma PlusAssociates(a: bv32, b: bv32, c: bv32)
    ensures Plus(Plus(a, b), c) == Plus(a, Plus(b, c))
  {}

  lemma PlusUnits(a: bv32)
    ensures Plus(0, a) == a && Plus(a, a) == 0
  {}

  lemma AllCommute()
    ensures forall a, b :: Plus(a, b) == Plus(b, a)
  {
    forall a, b ensures Plus(a, b) == Plus(b, a) { PlusCommutes(a, b); }
  }

  lemma AllAssociate()
    ensures forall a, b, c :: Plus(Plus(a, b), c) == Plus(a, Plus(b, c))
  {
    forall a, b, c ensures Plus(Plus(a, b), c) == Plus(a, Plus(b, c)) { PlusAssociates(a, b, c); }
  }

  lemma PlusIsXorLike()
    ensures XorLike(Plus, 0)
  {
    AllCommute();
    AllAssociate();
    forall a ensures Plus(0, a) == a && Plus(a, a) == 0 { PlusUnits(a); }
  }

  lemma Half(a: bv32, b: bv32)
    ensures (a ^ b) >> 1 == (a >> 1) ^ (b >> 1)
    ensures (a ^ b) & 1 == (a & 1) ^ (b & 1)
    ensures a & 1 == 0 || a & 1 == 1
  {}

  lemma Regroup(a: bv32, b: bv32, p: bv32)
    ensures (a ^ p) ^ (b ^ p) == a ^ b && (a ^ p) ^ b == (a ^ b) ^ p && a ^ (b ^ p) == (a ^ b) ^ p
  {}

  lemma ShiftXor(a: bv32, b: bv32)
    ensures Shift(a ^ b) == Shift(a) ^ Shift(b)
  {
    Half(a, b);
    Half(b, a);
    Regroup(a >> 1, b >> 1, POLYNOMIAL);
  }

  lemma ShiftIsLinear()
    ensures Linear(Plus, Shift)
  {
    forall a, b ensures Shift(Plus(a, b)) == Plus(Shift(a), Shift(b)) {
      ShiftXor(a, b);
    }
  }

  lemma ZerosXor(a: bv32, b: bv32, n: nat)
    ensures Zeros(Plus(a, b), n) == Plus(Zeros(a, n), Zeros(b, n))
  {
    ShiftIsLinear();
    IterIsLinear(Plus, Shift, a, b, n);
  }

  lemma ZerosAreLinear()
    ensures Linear(Plus, Byte0) && Linear(Plus, Word0) && Linear(Plus, Stride0)
  {
    forall a, b ensures Byte0(Plus(a, b)) == Plus(Byte0(a), Byte0(b)) { ZerosXor(a, b, 8); }
    forall a, b ensures Word0(Plus(a, b)) == Plus(Word0(a), Word0(b)) { ZerosXor(a, b, 32); }
    forall a, b ensures Stride0(Plus(a, b)) == Plus(Stride0(a), Stride0(b)) { ZerosXor(a, b, 128); }
  }

  lemma FourBytes(l: bv32)
    ensures Word0(l) == Byte0(Byte0(Byte0(Byte0(l))))
  {
    IterAdd(Shift, l, 8, 8);
    IterAdd(Shift, l, 16, 8);
    IterAdd(Shift, l, 24, 8);
  }

  lemma StrideIsFourWords()
    ensures Strides(Word0, Stride0)
  {
    forall l ensures Stride0(l) == Word0(Word0(Word0(Word0(l)))) {
      IterAdd(Shift, l, 32, 32);
      IterAdd(Shift, l, 64, 32);
      IterAdd(Shift, l, 96, 32);
    }
  }

  // ----- masking -----

  const MASK_DELTA: bv32 := 0xa282_ead8

  function Rotate(l: bv32): (r: bv32) { (l >> 15) | (l << 17) }
  function RotateBack(l: bv32): (r: bv32) { (l >> 17) | (l << 15) }

  function Mask(crc: bv32): (r: bv32) {
    Rotate(crc) + MASK_DELTA
  }

  function Unmask(masked: bv32): (r: bv32) {
    RotateBack(masked - MASK_DELTA)
  }

  lemma Rotations(l: bv32)
    ensures RotateBack(Rotate(l)) == l && Rotate(RotateBack(l)) == l
  {}

  lemma AddThenSubtract(l: bv32)
    ensures l + MASK_DELTA - MASK_DELTA == l
  {}

  lemma SubtractThenAdd(l: bv32)
    ensures l - MASK_DELTA + MASK_DELTA == l
  {}

  lemma UnmaskOf(l: bv32, r: bv32, m: bv32)
    requires r == Rotate(l) && m == r + MASK_DELTA
    ensures Unmask(m) == l
  {
    Rotations(l);
    AddThenSubtract(r);
    assert m - MASK_DELTA == r;
  }

  lemma UnmaskUndoesMask(crc: bv32)
    ensures Unmask(Mask(crc)) == crc
  {
    UnmaskOf(crc, Rotate(crc), Mask(crc));
  }

  lemma MaskUndoesUnmask(masked: bv32)
    ensures Mask(Unmask(masked)) == masked
  {
    Rotations(masked - MASK_DELTA);
    SubtractThenAdd(masked);
  }

  // ----- a byte through the table -----

  /** kByteExtensionTable, by what it tabulates. */
  function ByteTable(c: bv32): (r: bv32) { Byte0(c) }

  ghost predicate LowZero(l: bv32, n: nat)
    decreases n
  {
    n == 0 || (l & 1 == 0 && LowZero(l >> 1, n - 1))
  }

  ghost function Down(l: bv32, n: nat): (r: bv32)
    decreases n
  {
    if n == 0 then l else Down(l >> 1, n - 1)
  }

  lemma ShiftOut(l: bv32)
    requires l & 1 == 0
    ensures Shift(l) == l >> 1
  {}

  /** Zero bits at the bottom are shifted out without feeding back. */
  lemma {:induction false} ShiftsOut(l: bv32, n: nat)
    requires LowZero(l, n)
    ensures Zeros(l, n) == Down(l, n)
    decreases n
  {
    if n > 0 {
      ShiftOut(l);
      ShiftsOut(l >> 1, n - 1);
    }
  }

  function LowByte(l: bv32): (r: bv32) { l & 0xff }
  function HighBytes(l: bv32): (r: bv32) { l & 0xffff_ff00 }
  function Rest(l: bv32): (r: bv32) { l >> 8 }
  function Above(l: bv32): (r: bv32) { l << 8 }

  lemma LowZeroEight(l: bv32)
    ensures LowZero(HighBytes(l), 8)
  {}

  lemma DownHigh(l: bv32)
    ensures Down(HighBytes(l), 8) == Rest(l)
  {}

  lemma HighByte(l: bv32)
    ensures Byte0(HighBytes(l)) == Rest(l)
  {
    LowZeroEight(l);
    ShiftsOut(HighBytes(l), 8);
    DownHigh(l);
  }

  lemma ByteParts(l: bv32, b: bv32)
    requires b < 256
    ensures Plus(l, b) == Plus(Plus(LowByte(l), b), HighBytes(l))
  {}

  /** The step through the table is the bit-at-a-time step. */
  lemma TableStep(l: bv32, b: bv32)
    requires b < 256
    ensures Plus(ByteTable(Plus(LowByte(l), b)), Rest(l)) == Byte0(Plus(l, b))
  {
    ByteParts(l, b);
    HighByte(l);
    ZerosXor(Plus(LowByte(l), b), HighBytes(l), 8);
  }

  lemma TableStep0(l: bv32)
    ensures Plus(Rest(l), ByteTable(LowByte(l))) == Byte0(l)
  {
    LowAndHigh(l);
    HighByte(l);
    ZerosXor(LowByte(l), HighBytes(l), 8);
    PlusCommutes(Rest(l), ByteTable(LowByte(l)));
  }

  lemma LowAndHigh(l: bv32)
    ensures Plus(LowByte(l), HighBytes(l)) == l
  {}

  // ----- a word of four bytes -----

  function Wide(b: bv8): (r: bv32) { b as bv32 }

  /** ReadUint32LE. */
  function ReadWord(b0: bv8, b1: bv8, b2: bv8, b3: bv8): (r: bv32) {
    (b0 as bv32) | ((b1 as bv32) << 8) | ((b2 as bv32) << 16) | ((b3 as bv32) << 24)
  }

  lemma PeelByte(w: bv32, l: bv32, b: bv8)
    requires LowByte(w) == Wide(b)
    ensures Plus(w, l) == Plus(Plus(l, Wide(b)), HighBytes(w))
  {}

  lemma WordByte(w: bv32, l: bv32, b: bv8)
    requires LowByte(w) == Wide(b)
    ensures Byte0(Plus(w, l)) == Plus(Rest(w), Step(l, b))
  {
    PeelByte(w, l, b);
    HighByte(w);
    ZerosXor(Plus(l, Wide(b)), HighBytes(w), 8);
    PlusCommutes(Rest(w), Step(l, b));
  }

  lemma WordBytes(b0: bv8, b1: bv8, b2: bv8, b3: bv8)
    ensures LowByte(ReadWord(b0, b1, b2, b3)) == Wide(b0)
    ensures Rest(ReadWord(b0, b1, b2, b3)) == ReadWord(b1, b2, b3, 0)
  {}

  lemma NoBytes()
    ensures ReadWord(0, 0, 0, 0) == 0
  {}

  lemma WordStep(l: bv32, b0: bv8, b1: bv8, b2: bv8, b3: bv8)
    ensures Byte0(Plus(ReadWord(b0, b1, b2, b3), l)) == Plus(ReadWord(b1, b2, b3, 0), Step(l, b0))
  {
    WordBytes(b0, b1, b2, b3);
    WordByte(ReadWord(b0, b1, b2, b3), l, b0);
  }

  /** Reading a word at once advances the register as its four bytes do. */
  lemma WordIsFourSteps(l: bv32, b0: bv8, b1: bv8, b2: bv8, b3: bv8)
    ensures Word(Plus, Word0, l, ReadWord(b0, b1, b2, b3)) == Step(Step(Step(Step(l, b0), b1), b2), b3)
  {
    var l1 := Step(l, b0);
    var l2 := Step(l1, b1);
    var l3 := Step(l2, b2);
    FourBytes(Plus(ReadWord(b0, b1, b2, b3), l));
    WordStep(l, b0, b1, b2, b3);
    WordStep(l1, b1, b2, b3, 0);
    WordStep(l2, b2, b3, 0, 0);
    WordStep(l3, b3, 0, 0, 0);
    NoBytes();
    PlusUnits(Step(l3, b3));
  }

  // ----- sixteen bytes through the stride tables -----

  /** kStrideExtensionTable3 to kStrideExtensionTable0: a byte of the register,
      in its place, advanced by sixteen zero bytes. */
  function StrideTable3(c: bv32): (r: bv32) { Stride0(c) }
  function StrideTable2(c: bv32): (r: bv32) { Stride0(c << 8) }
  function StrideTable1(c: bv32): (r: bv32) { Stride0(c << 16) }
  function StrideTable0(c: bv32): (r: bv32) { Stride0(c << 24) }

  function Part0(c: bv32): (r: bv32) { c & 0xff }
  function Part1(c: bv32): (r: bv32) { ((c >> 8) & 0xff) << 8 }
  function Part2(c: bv32): (r: bv32) { ((c >> 16) & 0xff) << 16 }
  function Part3(c: bv32): (r: bv32) { (c >> 24) << 24 }

  /** STEP4: the lane moves a stride on and takes a word. */
  function Step4(c: bv32, w: bv32): (r: bv32) {
    Plus(Plus(Plus(Plus(w, StrideTable3(c & 0xff)), StrideTable2((c >> 8) & 0xff)),
              StrideTable1((c >> 16) & 0xff)), StrideTable0(c >> 24))
  }

  lemma Step4Parts(c: bv32, w: bv32)
    ensures Step4(c, w) == Plus(Plus(Plus(Plus(w, Stride0(Part0(c))), Stride0(Part1(c))), Stride0(Part2(c))), Stride0(Part3(c)))
  {}

  lemma PartsMakeWhole(c: bv32)
    ensures c == Plus(Plus(Plus(Part0(c), Part1(c)), Part2(c)), Part3(c))
  {}

  lemma Step4Strides(c: bv32, w: bv32)
    ensures Step4(c, w) == Plus(w, Stride0(c))
  {
    var a, b, d, e := Part0(c), Part1(c), Part2(c), Part3(c);
    Step4Parts(c, w);
    PartsMakeWhole(c);
    ZerosXor(Plus(Plus(a, b), d), e, 128);
    ZerosXor(Plus(a, b), d, 128);
    ZerosXor(a, b, 128);
    Associate4(w, Stride0(a), Stride0(b), Stride0(d), Stride0(e));
  }

  lemma Associate4(w: bv32, a: bv32, b: bv32, d: bv32, e: bv32)
    ensures Plus(Plus(Plus(Plus(w, a), b), d), e) == Plus(w, Plus(Plus(Plus(a, b), d), e))
  {
    PlusIsXorLike();
    AssociateFive(Plus, 0, w, a, b, d, e);
  }

  // ----- the four-lane algorithm -----

  function WordAt(data: seq<bv8>, p: nat): (r: bv32)
    requires p + 4 <= |data|
  {
    ReadWord(data[p], data[p + 1], data[p + 2], data[p + 3])
  }

  lemma FoldByte(l: bv32, data: seq<bv8>, p: nat)
    requires p < |data|
    ensures Fold(l, data[p..]) == Fold(Step(l, data[p]), data[p + 1..])
  {
    assert data[p..][1..] == data[p + 1..];
  }

  lemma FoldWord(l: bv32, data: seq<bv8>, p: nat)
    requires p + 4 <= |data|
    ensures Fold(l, data[p..]) == Fold(Word(Plus, Word0, l, WordAt(data, p)), data[p + 4..])
  {
    var l1 := Step(l, data[p]);
    var l2 := Step(l1, data[p + 1]);
    var l3 := Step(l2, data[p + 2]);
    FoldByte(l, data, p);
    FoldByte(l1, data, p + 1);
    FoldByte(l2, data, p + 2);
    FoldByte(l3, data, p + 3);
    WordIsFourSteps(l, data[p], data[p + 1], data[p + 2], data[p + 3]);
  }

  ghost function SwathAt(data: seq<bv8>, p: nat): (r: Four<bv32>)
    requires p + 16 <= |data|
  {
    Four(WordAt(data, p), WordAt(data, p + 4), WordAt(data, p + 8), WordAt(data, p + 12))
  }

  lemma FoldSwath(l: bv32, data: seq<bv8>, p: nat)
    requires p + 16 <= |data|
    ensures Fold(l, data[p..]) == Fold(Words(Plus, Word0, l, SwathAt(data, p)), data[p + 16..])
  {
    var w := SwathAt(data, p);
    var l1 := Word(Plus, Word0, l, w.a);
    var l2 := Word(Plus, Word0, l1, w.b);
    var l3 := Word(Plus, Word0, l2, w.c);
    FoldWord(l, data, p);
    FoldWord(l1, data, p + 4);
    FoldWord(l2, data, p + 8);
    FoldWord(l3, data, p + 12);
  }

  /** The register that four lanes stand for. */
  ghost function Register(c: Four<bv32>): (r: bv32) {
    Words(Plus, Word0, 0, c)
  }

  lemma LanesStart(l: bv32, w: Four<bv32>)
    ensures Register(Four(Plus(w.a, l), w.b, w.c, w.d)) == Words(Plus, Word0, l, w)
  {
    PlusUnits(Plus(w.a, l));
    PlusCommutes(0, Plus(w.a, l));
  }

  lemma LanesSwath(c: Four<bv32>, w: Four<bv32>)
    ensures Register(Four(Step4(c.a, w.a), Step4(c.b, w.b), Step4(c.c, w.c), Step4(c.d, w.d)))
            == Words(Plus, Word0, Register(c), w)
  {
    LaneLaws();
    SwathStep(Plus, 0, Word0, Stride0, c, w);
    Step4Strides(c.a, w.a);
    Step4Strides(c.b, w.b);
    Step4Strides(c.c, w.c);
    Step4Strides(c.d, w.d);
  }

  lemma LanesRotate(c: Four<bv32>, w: bv32)
    ensures Register(Four(c.b, c.c, c.d, Step4(c.a, w))) == Word(Plus, Word0, Register(c), w)
  {
    LaneLaws();
    RotateStep(Plus, 0, Word0, Stride0, c, w);
    Step4Strides(c.a, w);
  }

  lemma LaneLaws()
    ensures XorLike(Plus, 0) && LinearMaps.Linear(Plus, Word0) && LinearMaps.Linear(Plus, Stride0) && Strides(Word0, Stride0)
  {
    PlusIsXorLike();
    ZerosAreLinear();
    StrideIsFourWords();
  }

  /** STEP1. */
  method Step1(l: bv32, b: bv8) returns (r: bv32)
    ensures r == Step(l, b)
  {
    r := Plus(ByteTable(Plus(LowByte(l), Wide(b))), Rest(l));
    TableStep(l, Wide(b));
  }

  /** STEP4W. */
  method Step4W(l: bv32, word: bv32) returns (r: bv32)
    ensures r == Word(Plus, Word0, l, word)
  {
    var w := Plus(word, l);
    ghost var start := w;
    for i := 0 to 4
      invariant w == Zeros(start, 8 * i)
    {
      TableStep0(w);
      IterAdd(Shift, start, 8 * i, 8);
      w := Plus(Rest(w), ByteTable(LowByte(w)));
    }
    r := w;
  }

  /** One byte at a time from `p0` to `q`. */
  method StepTo(l0: bv32, data: seq<bv8>, p0: nat, q: nat) returns (l: bv32)
    requires p0 <= q <= |data|
    ensures Fold(l, data[q..]) == Fold(l0, data[p0..])
  {
    l := l0;
    var p := p0;
    while p != q
      invariant p0 <= p <= q && Fold(l, data[p..]) == Fold(l0, data[p0..])
    {
      FoldByte(l, data, p);
      l := Step1(l, data[p]);
      p := p + 1;
    }
  }

  /** The distance to the next address that four divides. */
  function ToAligned(base: nat): (r: nat) {
    (base + 3) / 4 * 4 - base
  }

  /** Extends `crc` by the bytes of a buffer that starts at address `base`. */
  method Extend(crc: bv32, data: seq<bv8>, base: nat) returns (r: bv32)
    ensures r == Extended(crc, data)
  {
    var l, p, n := Plus(crc, ONES), 0, |data|;
    assert data[0..] == data;
    var x := ToAligned(base);
    if x <= n {
      l := StepTo(l, data, 0, x);
      p := x;
    }
    if n - p >= 16 {
      l, p := ExtendLanes(l, data, p);
    }
    l := StepTo(l, data, p, n);
    r := Plus(l, ONES);
  }

  /** STEP16. */
  method Step16(c: Four<bv32>, data: seq<bv8>, p: nat) returns (next: Four<bv32>)
    requires p + 16 <= |data|
    ensures Fold(Register(next), data[p + 16..]) == Fold(Register(c), data[p..])
  {
    FoldSwath(Register(c), data, p);
    LanesSwath(c, SwathAt(data, p));
    next := Four(Step4(c.a, WordAt(data, p)), Step4(c.b, WordAt(data, p + 4)),
                 Step4(c.c, WordAt(data, p + 8)), Step4(c.d, WordAt(data, p + 12)));
  }

  /** STEP4(0), and the lanes change places. */
  method StepAndRotate(c: Four<bv32>, data: seq<bv8>, p: nat) returns (next: Four<bv32>)
    requires p + 4 <= |data|
    ensures Fold(Register(next), data[p + 4..]) == Fold(Register(c), data[p..])
  {
    FoldWord(Register(c), data, p);
    LanesRotate(c, WordAt(data, p));
    next := Four(c.b, c.c, c.d, Step4(c.a, WordAt(data, p)));
  }

  method LoadLanes(l: bv32, data: seq<bv8>, p: nat) returns (c: Four<bv32>)
    requires p + 16 <= |data|
    ensures Fold(Register(c), data[p + 16..]) == Fold(l, data[p..])
  {
    FoldSwath(l, data, p);
    LanesStart(l, SwathAt(data, p));
    c := Four(Plus(WordAt(data, p), l), WordAt(data, p + 4), WordAt(data, p + 8), WordAt(data, p + 12));
  }

  method CombineLanes(c: Four<bv32>) returns (l: bv32)
    ensures l == Register(c)
  {
    l := Step4W(0, c.a);
    l := Step4W(l, c.b);
    l := Step4W(l, c.c);
    l := Step4W(l, c.d);
  }

  method Swaths(c0: Four<bv32>, data: seq<bv8>, p0: nat) returns (c: Four<bv32>, p: nat)
    requires p0 <= |data|
    ensures p <= |data| < p + 16 && Fold(Register(c), data[p..]) == Fold(Register(c0), data[p0..])
  {
    c, p := c0, p0;
    while |data| - p >= 16
      invariant p <= |data| && Fold(Register(c), data[p..]) == Fold(Register(c0), data[p0..])
    {
      c := Step16(c, data, p);
      p := p + 16;
    }
  }

  method Rotations4(c0: Four<bv32>, data: seq<bv8>, p0: nat) returns (c: Four<bv32>, p: nat)
    requires p0 <= |data|
    ensures p <= |data| < p + 4 && Fold(Register(c), data[p..]) == Fold(Register(c0), data[p0..])
  {
    c, p := c0, p0;
    while |data| - p >= 4
      invariant p <= |data| && Fold(Register(c), data[p..]) == Fold(Register(c0), data[p0..])
    {
      c := StepAndRotate(c, data, p);
      p := p + 4;
    }
  }

  method ExtendLanes(l0: bv32, data: seq<bv8>, p0: nat) returns (l: bv32, p: nat)
    requires p0 + 16 <= |data|
    ensures p <= |data| < p + 4 && Fold(l, data[p..]) == Fold(l0, data[p0..])
  {
    var c := LoadLanes(l0, data, p0);
    c, p := Swaths(c, data, p0 + 16);
    c, p := Rotations4(c, data, p);
    l := CombineLanes(c);
  }

  // ----- what the checksum detects -----

  lemma ShiftIsInjective(a: bv32, b: bv32)
    requires Shift(a) == Shift(b)
    ensures a == b
  {}

  lemma ZerosAreInjective(a: bv32, b: bv32, n: nat)
    requires Zeros(a, n) == Zeros(b, n)
    ensures a == b
  {
    forall x, y | Shift(x) == Shift(y) ensures x == y { ShiftIsInjective(x, y); }
    IterIsInjective(Shift, a, b, n);
  }

  lemma PlusCancels(a: bv32, b: bv32, l: bv32)
    requires Plus(a, l) == Plus(b, l)
    ensures a == b
  {}

  lemma StepIsInjective(l: bv32, m: bv32, b: bv8)
    requires Step(l, b) == Step(m, b)
    ensures l == m
  {
    ZerosAreInjective(Plus(l, Wide(b)), Plus(m, Wide(b)), 8);
    PlusCancels(l, m, Wide(b));
  }

  lemma {:induction false} FoldIsInjective(l: bv32, m: bv32, data: seq<bv8>)
    requires Fold(l, data) == Fold(m, data)
    ensures l == m
    decreases |data|
  {
    if data != [] {
      FoldIsInjective(Step(l, data[0]), Step(m, data[0]), data[1..]);
      StepIsInjective(l, m, data[0]);
    }
  }

  lemma ReadWordIsInjective(a: seq<bv8>, b: seq<bv8>)
    requires |a| == |b| == 4 && WordAt(a, 0) == WordAt(b, 0)
    ensures a == b
  {
    SameBytes(a[0], a[1], a[2], a[3], b[0], b[1], b[2], b[3]);
  }

  lemma SameBytes(a0: bv8, a1: bv8, a2: bv8, a3: bv8, b0: bv8, b1: bv8, b2: bv8, b3: bv8)
    requires ReadWord(a0, a1, a2, a3) == ReadWord(b0, b1, b2, b3)
    ensures a0 == b0 && a1 == b1 && a2 == b2 && a3 == b3
  {}

  /** Damage confined to four consecutive bytes never goes unnoticed. */
  lemma DetectsBursts(crc: bv32, before: seq<bv8>, a: seq<bv8>, b: seq<bv8>, after: seq<bv8>)
    requires |a| == |b| == 4
    ensures Extended(crc, before + a + after) == Extended(crc, before + b + after) <==> a == b
  {
    if Extended(crc, before + a + after) == Extended(crc, before + b + after) {
      var l := Fold(Plus(crc, ONES), before);
      FoldOfThree(Plus(crc, ONES), before, a, after);
      FoldOfThree(Plus(crc, ONES), before, b, after);
      PlusCancels(Fold(Fold(l, a), after), Fold(Fold(l, b), after), ONES);
      FoldIsInjective(Fold(l, a), Fold(l, b), after);
      BurstIsInjective(l, a, b);
    }
  }

  lemma FoldOfThree(l: bv32, a: seq<bv8>, b: seq<bv8>, c: seq<bv8>)
    ensures Fold(l, a + b + c) == Fold(Fold(Fold(l, a), b), c)
  {
    FoldConcat(l, a + b, c);
    FoldConcat(l, a, b);
  }

  lemma FoldFour(l: bv32, a: seq<bv8>)
    requires |a| == 4
    ensures Fold(l, a) == Word0(Plus(WordAt(a, 0), l))
  {
    FoldWord(l, a, 0);
    assert a[0..] == a && a[4..] == [];
  }

  lemma BurstIsInjective(l: bv32, a: seq<bv8>, b: seq<bv8>)
    requires |a| == |b| == 4 && Fold(l, a) == Fold(l, b)
    ensures a == b
  {
    FoldFour(l, a);
    FoldFour(l, b);
    ZerosAreInjective(Plus(WordAt(a, 0), l), Plus(WordAt(b, 0), l), 32);
    PlusCancels(WordAt(a, 0), WordAt(b, 0), l);
    ReadWordIsInjective(a, b);
  }

  // ----- the check value -----

  lemma EightShifts(l: bv32)
    ensures Byte0(l) == Shift(Shift(Shift(Shift(Shift(Shift(Shift(Shift(l))))))))
  {
    var a := Shift(Shift(Shift(Shift(l))));
    assert Zeros(l, 2) == Shift(Shift(l));
    assert Zeros(l, 4) == Zeros(Shift(Shift(l)), 2) == a;
    assert Zeros(a, 2) == Shift(Shift(a));
    assert Zeros(a, 4) == Zeros(Shift(Shift(a)), 2);
    IterAdd(Shift, l, 4, 4);
  }

  lemma FoldStep(l: bv32, b: bv8, m: bv32, rest: seq<bv8>)
    requires Shift(Shift(Shift(Shift(Shift(Shift(Shift(Shift(Plus(l, b as bv32))))))))) == m
    ensures Fold(l, [b] + rest) == Fold(m, rest)
  {
    EightShifts(Plus(l, b as bv32));
    assert ([b] + rest)[1..] == rest;
  }

  lemma CheckDigits1(rest: seq<bv8>)
    ensures Fold(0xffff_ffff, [0x31] + ([0x32] + ([0x33] + rest))) == Fold(0xef84_d04d, rest)
  {
    FoldStep(0xffff_ffff, 0x31, 0x6f0a_661c, [0x32] + ([0x33] + rest));
    FoldStep(0x6f0a_661c, 0x32, 0x8caa_3b9f, [0x33] + rest);
    FoldStep(0x8caa_3b9f, 0x33, 0xef84_d04d, rest);
  }

  lemma CheckDigits2(rest: seq<bv8>)
    ensures Fold(0xef84_d04d, [0x34] + ([0x35] + ([0x36] + rest))) == Fold(0xbeca_8e79, rest)
  {
    FoldStep(0xef84_d04d, 0x34, 0x09c5_0b11, [0x35] + ([0x36] + rest));
    FoldStep(0x09c5_0b11, 0x35, 0xe72e_dcca, [0x36] + rest);
    FoldStep(0xe72e_dcca, 0x36, 0xbeca_8e79, rest);
  }

  lemma CheckDigits3(rest: seq<bv8>)
    ensures Fold(0xbeca_8e79, [0x37] + ([0x38] + ([0x39] + rest))) == Fold(0x1cf9_6d7c, rest)
  {
    FoldStep(0xbeca_8e79, 0x37, 0xedbd_6815, [0x38] + ([0x39] + rest));
    FoldStep(0xedbd_6815, 0x38, 0x9f78_7f65, [0x39] + rest);
    FoldStep(0x9f78_7f65, 0x39, 0x1cf9_6d7c, rest);
  }

  /** The check value of CRC-32C: the checksum of the digits "123456789". */
  lemma CheckValue()
    ensures Extended(0, [0x31, 0x32, 0x33, 0x34, 0x35, 0x36, 0x37, 0x38, 0x39]) == 0xe306_9283
  {
    var all := [0x31, 0x32, 0x33, 0x34, 0x35, 0x36, 0x37, 0x38, 0x39];
    var last := [0x37] + ([0x38] + ([0x39] + []));
    var later := [0x34] + ([0x35] + ([0x36] + last));
    assert all == [0x31] + ([0x32] + ([0x33] + later));
    CheckDigits1(later);
    CheckDigits2(last);
    CheckDigits3([]);
    assert Plus(0, ONES) == 0xffff_ffff;
  }

  /** The check value as it is stored. */
  lemma MaskedCheckValue()
    ensures Mask(Extended(0, [0x31, 0x32, 0x33, 0x34, 0x35, 0x36, 0x37, 0x38, 0x39])) == 0xc78a_b0e5
  {
    CheckValue();
  }
}
