/** Integers and slices as bytes (util/coding.cc). */
module Coding {
  import opened Keys

  /** What a reader gets from the front of its input, and the input after it. */
  datatype Got<+T> = Bad | Got(value: T, rest: Bytes)

  const TWO_32 := 0x1_0000_0000
  const TWO_64 := 0x1_0000_0000_0000_0000

  // ----- base-128 varints -----

  function Varint(v: nat): (bs: Bytes)
    ensures bs != []
  {
    if v < 128 then [v] else [128 + v % 128] + Varint(v / 128)
  }

  function Pow128(n: nat): (r: nat) {
    if n == 0 then 1 else 128 * Pow128(n - 1)
  }

  lemma {:induction false} VarintFits(v: nat, n: nat)
    requires n > 0 && v < Pow128(n)
    ensures |Varint(v)| <= n
  {
    if v >= 128 && n > 1 {
      assert v / 128 < Pow128(n - 1);
      VarintFits(v / 128, n - 1);
    } else if n == 1 {
      assert Pow128(1) == 128 * Pow128(0);
    }
  }

  lemma Varint32Fits(v: nat)
    requires v < TWO_32
    ensures |Varint(v)| <= 5
  {
    assert Pow128(2) == 128 * Pow128(1) == 16384;
    assert Pow128(4) == 128 * Pow128(3) == 128 * 128 * Pow128(2);
    assert Pow128(5) == 128 * Pow128(4);
    VarintFits(v, 5);
  }

  lemma Varint64Fits(v: nat)
    requires v < TWO_64
    ensures |Varint(v)| <= 10
  {
    assert Pow128(2) == 128 * Pow128(1) == 16384;
    assert Pow128(4) == 128 * Pow128(3) == 128 * 128 * Pow128(2);
    assert Pow128(6) == 128 * Pow128(5) == 128 * 128 * Pow128(4);
    assert Pow128(8) == 128 * Pow128(7) == 128 * 128 * Pow128(6);
    assert Pow128(10) == 128 * Pow128(9) == 128 * 128 * Pow128(8);
    VarintFits(v, 10);
  }

  /** The unrolled 32-bit encoder. */
  method EncodeVarint32(v: nat) returns (bs: Bytes)
    requires v < TWO_32
    ensures bs == Varint(v)
  {
    ShiftSteps(v);
    VarintStep(v);
    VarintStep(v / 128);
    VarintStep(v / 0x4000);
    VarintStep(v / 0x20_0000);
    VarintStep(v / 0x1000_0000);
    if v < 0x80 {
      bs := [v];
    } else if v < 0x4000 {
      bs := [128 + v % 128, v / 128];
    } else if v < 0x20_0000 {
      bs := [128 + v % 128, 128 + v / 128 % 128, v / 0x4000];
    } else if v < 0x1000_0000 {
      bs := [128 + v % 128, 128 + v / 128 % 128, 128 + v / 0x4000 % 128, v / 0x20_0000];
    } else {
      bs := [128 + v % 128, 128 + v / 128 % 128, 128 + v / 0x4000 % 128, 128 + v / 0x20_0000 % 128, v / 0x1000_0000];
    }
  }

  lemma VarintStep(v: nat)
    ensures v < 128 ==> Varint(v) == [v]
    ensures v >= 128 ==> Varint(v) == [128 + v % 128] + Varint(v / 128)
  {}

  lemma ShiftSteps(v: nat)
    ensures v / 128 / 128 == v / 0x4000
    ensures v / 0x4000 / 128 == v / 0x20_0000
    ensures v / 0x20_0000 / 128 == v / 0x1000_0000
  {}

  method EncodeVarint64(v: nat) returns (bs: Bytes)
    requires v < TWO_64
    ensures bs == Varint(v)
  {
    bs := [];
    var rest := v;
    while rest >= 128
      invariant bs + Varint(rest) == Varint(v)
    {
      bs := bs + [128 + rest % 128];
      rest := rest / 128;
    }
    bs := bs + [rest];
  }

  method VarintLength(v: nat) returns (len: nat)
    ensures len == |Varint(v)|
  {
    len := 1;
    var rest := v;
    while rest >= 128
      invariant len + |Varint(rest)| == |Varint(v)| + 1
    {
      rest := rest / 128;
      len := len + 1;
    }
  }

  /** Reads a varint of at most `n` bytes: its value and the bytes after it. */
  function ParseVarint(input: Bytes, n: nat): (r: Got<nat>)
    ensures r.Got? ==> |r.rest| < |input|
  {
    if n == 0 || input == [] then Bad
    else if input[0] < 128 then Got(input[0], input[1..])
    else match ParseVarint(input[1..], n - 1)
      case Bad => Bad
      case Got(v, rest) => Got(input[0] - 128 + 128 * v, rest)
  }

  lemma {:induction false} ParseVarintInverts(v: nat, rest: Bytes, n: nat)
    requires |Varint(v)| <= n
    ensures ParseVarint(Varint(v) + rest, n) == Got(v, rest)
  {
    if v >= 128 {
      assert (Varint(v) + rest)[1..] == Varint(v / 128) + rest;
      ParseVarintInverts(v / 128, rest, n - 1);
    } else {
      assert (Varint(v) + rest)[1..] == rest;
    }
  }

  function Truncate(v: nat, wide: bool): (r: nat) {
    if wide then v % TWO_64 else v % TWO_32
  }

  function MaxLength(wide: bool): (r: nat) {
    if wide then 10 else 5
  }

  /** GetVarint64 or GetVarint32. */
  function GetVarint(input: Bytes, wide: bool): (r: Got<nat>)
    ensures r.Got? ==> |r.rest| < |input| && r.value < TWO_64 && (!wide ==> r.value < TWO_32)
  {
    match ParseVarint(input, MaxLength(wide))
    case Bad => Bad
    case Got(v, rest) => Got(Truncate(v, wide), rest)
  }

  lemma TruncateKeeps(v: nat, wide: bool)
    requires v < if wide then TWO_64 else TWO_32
    ensures Truncate(v, wide) == v
  {}

  lemma ParseInverts(v: nat, rest: Bytes, wide: bool, n: nat)
    requires v < (if wide then TWO_64 else TWO_32) && n == MaxLength(wide)
    ensures ParseVarint(Varint(v) + rest, n) == Got(v, rest)
  {
    if wide { Varint64Fits(v); } else { Varint32Fits(v); }
    ParseVarintInverts(v, rest, n);
  }

  lemma VarintRoundTrip(v: nat, rest: Bytes, wide: bool)
    requires v < if wide then TWO_64 else TWO_32
    ensures GetVarint(Varint(v) + rest, wide) == Got(v, rest)
  {
    ParseInverts(v, rest, wide, MaxLength(wide));
    TruncateKeeps(v, wide);
  }

  lemma TruncateSum(a: nat, b: nat, wide: bool)
    ensures Truncate(Truncate(a, wide) + b, wide) == Truncate(a + b, wide)
  {}

  lemma {:induction false} ParseStops(input: Bytes, i: nat, n: nat)
    requires i <= |input| && (forall j :: 0 <= j < i ==> input[j] >= 128) && (i < |input| ==> input[i] < 128)
    ensures var r := ParseVarint(input, n);
            if i < |input| && i < n then r.Got? && r.rest == input[i + 1..] else r == Bad
    decreases i
  {
    if i > 0 && n > 0 { ParseStops(input[1..], i - 1, n - 1); }
  }

  /** A varint ends with the first byte below 128, which must come within five bytes
      for a word of 32 bits and within ten for one of 64. */
  lemma VarintStops(input: Bytes, i: nat, wide: bool)
    requires i <= |input| && (forall j :: 0 <= j < i ==> input[j] >= 128) && (i < |input| ==> input[i] < 128)
    ensures var r := GetVarint(input, wide);
            if i < |input| && i < (if wide then 10 else 5) then r.Got? && r.rest == input[i + 1..] else r == Bad
  {
    ParseStops(input, i, if wide then 10 else 5);
  }

  /** x << 7 * steps. */
  function Shifted(x: nat, steps: nat): (r: nat) {
    if steps == 0 then x else 128 * Shifted(x, steps - 1)
  }

  lemma {:induction false} ShiftedSum(digit: nat, v: nat, steps: nat)
    ensures Shifted(digit + 128 * v, steps) == Shifted(digit, steps) + Shifted(v, steps + 1)
  {
    if steps > 0 {
      ShiftedSum(digit, v, steps - 1);
    }
  }

  /** The value once `p` bytes with total `sum` came before what `g` read. */
  function After(g: Got<nat>, sum: nat, p: nat): (r: Got<nat>) {
    match g
    case Bad => Bad
    case Got(v, rest) => Got(sum + Shifted(v, p), rest)
  }

  lemma AfterStep(t: Bytes, u: Bytes, m: nat, sum: nat, p: nat)
    requires t != [] && t[1..] == u
    ensures After(ParseVarint(t, m + 1), sum, p) ==
            if t[0] < 128 then Got(sum + Shifted(t[0], p), u)
            else After(ParseVarint(u, m), sum + Shifted(t[0] - 128, p), p + 1)
  {
    var tail := ParseVarint(u, m);
    if t[0] >= 128 && tail.Got? {
      ShiftedSum(t[0] - 128, tail.value, p);
    }
  }

  /** The digit of byte `b` in place `p`. */
  function Digit(b: byte, p: nat): (r: nat) {
    if b < 128 then Shifted(b, p) else Shifted(b - 128, p)
  }

  lemma ReadsByte(input: Bytes, n: nat, p: nat, sum: nat)
    requires p < n && p < |input|
    ensures After(ParseVarint(input[p..], n - p), sum, p) ==
            if input[p] < 128 then Got(sum + Digit(input[p], p), input[p + 1..])
            else After(ParseVarint(input[p + 1..], n - p - 1), sum + Digit(input[p], p), p + 1)
  {
    assert input[p..][1..] == input[p + 1..];
    AfterStep(input[p..], input[p + 1..], n - p - 1, sum, p);
  }

  /** After `p` bytes the loop holds what it has read of the number, cut to the word. */
  ghost predicate Reading(input: Bytes, wide: bool, p: nat, sum: nat, result: nat) {
    p <= MaxLength(wide) && p <= |input| && result == Truncate(sum, wide) &&
    ParseVarint(input, MaxLength(wide)) == After(ParseVarint(input[p..], MaxLength(wide) - p), sum, p)
  }

  lemma StartsReading(input: Bytes, wide: bool)
    ensures Reading(input, wide, 0, 0, 0)
  {
    assert input[0..] == input;
  }

  lemma ReadsOn(input: Bytes, wide: bool, p: nat, sum: nat, result: nat)
    requires Reading(input, wide, p, sum, result) && p < MaxLength(wide) && p < |input|
    ensures var next := Truncate(result + Digit(input[p], p), wide);
            if input[p] < 128 then GetVarint(input, wide) == Got(next, input[p + 1..])
            else Reading(input, wide, p + 1, sum + Digit(input[p], p), next)
  {
    ReadsByte(input, MaxLength(wide), p, sum);
    TruncateSum(sum, Digit(input[p], p), wide);
  }

  lemma ReadsNoMore(input: Bytes, wide: bool, p: nat, sum: nat, result: nat)
    requires Reading(input, wide, p, sum, result) && (p == MaxLength(wide) || p == |input|)
    ensures GetVarint(input, wide) == Bad
  {}

  /** The decoding loop: seven bits at a time, the sum kept to the word size. */
  method DecodeVarint(input: Bytes, wide: bool) returns (r: Got<nat>)
    ensures r == GetVarint(input, wide)
  {
    var n := MaxLength(wide);
    var result: nat, p := 0, 0;
    ghost var sum: nat := 0;
    StartsReading(input, wide);
    while p < n && p < |input|
      invariant Reading(input, wide, p, sum, result)
    {
      var b := input[p];
      ReadsOn(input, wide, p, sum, result);
      result := Truncate(result + Digit(b, p), wide);
      if b < 128 {
        return Got(result, input[p + 1..]);
      }
      sum, p := sum + Digit(b, p), p + 1;
    }
    ReadsNoMore(input, wide, p, sum, result);
    r := Bad;
  }

  // ----- fixed-width integers -----

  function Fixed(v: nat, width: nat): (bs: Bytes)
    ensures |bs| == width
  {
    if width == 0 then [] else [v % 256] + Fixed(v / 256, width - 1)
  }

  function FixedValue(bs: Bytes): (r: nat) {
    if bs == [] then 0 else bs[0] + 256 * FixedValue(bs[1..])
  }

  function Pow256(n: nat): (r: nat) {
    if n == 0 then 1 else 256 * Pow256(n - 1)
  }

  lemma {:induction false} FixedRoundTrip(v: nat, width: nat)
    requires v < Pow256(width)
    ensures FixedValue(Fixed(v, width)) == v
  {
    if width > 0 {
      FixedRoundTrip(v / 256, width - 1);
      assert Fixed(v, width)[1..] == Fixed(v / 256, width - 1);
    }
  }

  // ----- length-prefixed slices -----

  function LengthPrefixed(s: Bytes): (r: Bytes) {
    Varint(|s|) + s
  }

  function GetLengthPrefixedSlice(input: Bytes): (r: Got<Bytes>) {
    match GetVarint(input, false)
    case Bad => Bad
    case Got(len, rest) => if |rest| >= len then Got(rest[..len], rest[len..]) else Bad
  }

  lemma LengthPrefixedRoundTrip(s: Bytes, rest: Bytes)
    requires |s| < TWO_32
    ensures GetLengthPrefixedSlice(LengthPrefixed(s) + rest) == Got(s, rest)
  {
    assert LengthPrefixed(s) + rest == Varint(|s|) + (s + rest);
    VarintRoundTrip(|s|, s + rest, false);
  }
}
