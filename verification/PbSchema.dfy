/** Messages of nanopb (nanopb/pb.h, pb_encode.c, pb_decode.c): schemas, values,
    and the bytes that stand for a value. */
module PbSchema {
  import opened Keys
  import opened Lookup
  import opened Coding
  import opened PbWire

  // ----- schemas and values -----

  /** PB_LTYPE: how a single item is written. */
  datatype LType =
    | BoolT | IntT(bytes: nat) | UIntT(bytes: nat) | SIntT(bytes: nat) | Fixed32T | Fixed64T
    | BytesT(max: nat) | StringT(max: nat) | FixedBytesT(size: nat)
    | SubT(fields: seq<Field>)

  /** PB_HTYPE: how often a field may occur.  `Optional` has a has_ flag in the
      struct and `Implicit` has none; `FixedCount` is an array without a count. */
  datatype HType = Required | Optional | Implicit | Repeated(max: nat) | FixedCount(max: nat) | Oneof(group: nat)

  datatype Field = Field(tag: nat, ltype: LType, htype: HType, init: Value)

  datatype Value = Num(n: int) | Blob(bytes: Bytes) | Msg(slots: seq<Slot>)

  /** What the struct holds for a field; at most one arm of a oneof is chosen. */
  datatype Slot = One(v: Value) | Maybe(has: bool, v: Value) | Many(vs: seq<Value>) | Arm(choice: Option<Value>)

  predicate Packable(l: LType) {
    l.BoolT? || l.IntT? || l.UIntT? || l.SIntT? || l.Fixed32T? || l.Fixed64T?
  }

  const VARINT := 0
  const BITS64 := 1
  const STRING := 2
  const BITS32 := 5

  function WireType(l: LType): (r: nat) {
    match l
    case BoolT => VARINT
    case IntT(_) => VARINT
    case UIntT(_) => VARINT
    case SIntT(_) => VARINT
    case Fixed32T => BITS32
    case Fixed64T => BITS64
    case _ => STRING
  }

  // ----- values of a type -----

  predicate TypedScalar(l: LType, v: Value) {
    match l
    case BoolT => v.Num? && (v.n == 0 || v.n == 1)
    case IntT(w) => v.Num? && Width(w) && Cast(v.n, w) == v.n
    case UIntT(w) => v.Num? && Width(w) && v.n >= 0 && CastUnsigned(v.n, w) == v.n
    case SIntT(w) => v.Num? && Width(w) && Cast(v.n, w) == v.n
    case Fixed32T => v.Num? && 0 <= v.n < TWO_32
    case Fixed64T => v.Num? && 0 <= v.n < TWO_64
    case BytesT(max) => v.Blob? && |v.bytes| <= max
    case StringT(max) => v.Blob? && |v.bytes| < max && forall i :: 0 <= i < |v.bytes| ==> v.bytes[i] != 0
    case FixedBytesT(size) => v.Blob? && |v.bytes| == size
    case SubT(_) => false
  }

  predicate Typed(l: LType, v: Value)
    decreases l, 2, 0
  {
    if l.SubT? then v.Msg? && TypedSlots(l, v.slots, 0) && OneArmEach(l, v.slots) else TypedScalar(l, v)
  }

  predicate TypedSlots(l: LType, slots: seq<Slot>, i: nat)
    requires l.SubT?
    decreases l, 1, |l.fields| - i
  {
    |slots| == |l.fields| && (i < |l.fields| ==> TypedSlot(l.fields[i], slots[i]) && TypedSlots(l, slots, i + 1))
  }

  predicate TypedSlot(f: Field, s: Slot)
    decreases f, 2, 0
  {
    match f.htype
    case Required => s.One? && Typed(f.ltype, s.v)
    case Implicit => s.One? && Typed(f.ltype, s.v)
    case Optional => s.Maybe? && Typed(f.ltype, s.v)
    case Repeated(max) => s.Many? && |s.vs| <= max && TypedAll(f.ltype, s.vs)
    case FixedCount(max) => s.Many? && |s.vs| == max && TypedAll(f.ltype, s.vs)
    case Oneof(_) => s.Arm? && (s.choice.Some? ==> Typed(f.ltype, s.choice.value))
  }

  predicate TypedAll(l: LType, vs: seq<Value>)
    decreases l, 3, |vs|
  {
    vs != [] ==> Typed(l, vs[0]) && TypedAll(l, vs[1..])
  }

  predicate OneArmEach(l: LType, slots: seq<Slot>)
    requires l.SubT?
  {
    forall i, j :: 0 <= i < j < |l.fields| && j < |slots| ==> !SameOneof(l.fields[i], slots[i], l.fields[j], slots[j])
  }

  /** Two chosen arms of one oneof. */
  predicate SameOneof(f: Field, s: Slot, g: Field, t: Slot) {
    f.htype.Oneof? && f.htype == g.htype && s.Arm? && t.Arm? && s.choice.Some? && t.choice.Some?
  }

  // ----- defaults -----

  /** pb_field_set_to_default, for a single item. */
  function DefaultValue(f: Field): (r: Value)
    decreases f, 1, 0
  {
    if f.ltype.SubT? then Msg(DefaultSlots(f.ltype, |f.ltype.fields|)) else f.init
  }

  function DefaultSlot(f: Field): (r: Slot)
    decreases f, 2, 0
  {
    match f.htype
    case Required => One(DefaultValue(f))
    case Implicit => One(DefaultValue(f))
    case Optional => Maybe(false, DefaultValue(f))
    case Repeated(_) => Many([])
    case FixedCount(_) => Many([])
    case Oneof(_) => Arm(None)
  }

  /** pb_message_set_to_defaults: the first `n` fields. */
  function DefaultSlots(l: LType, n: nat): (slots: seq<Slot>)
    requires l.SubT? && n <= |l.fields|
    ensures |slots| == n
    decreases l, 0, n
  {
    if n == 0 then [] else DefaultSlots(l, n - 1) + [DefaultSlot(l.fields[n - 1])]
  }

  /** pb_check_proto3_default_value. */
  predicate IsZero(l: LType, v: Value)
    decreases l, 2, 0
  {
    match l
    case SubT(_) => v.Msg? && AllUnset(l, v.slots, 0)
    case FixedBytesT(size) => size == 0
    case BytesT(_) => v.Blob? && v.bytes == []
    case StringT(_) => v.Blob? && v.bytes == []
    case _ => v.Num? && v.n == 0
  }

  predicate AllUnset(l: LType, slots: seq<Slot>, i: nat)
    requires l.SubT?
    decreases l, 1, |l.fields| - i
  {
    i < |l.fields| && i < |slots| ==> Unset(l.fields[i], slots[i]) && AllUnset(l, slots, i + 1)
  }

  predicate Unset(f: Field, s: Slot)
    decreases f, 2, 0
  {
    match f.htype
    case Required => false
    case Implicit => s.One? && IsZero(f.ltype, s.v)
    case Optional => s.Maybe? && !s.has
    case Repeated(_) => s.Many? && s.vs == []
    case FixedCount(_) => false
    case Oneof(_) => s.Arm? && s.choice.None?
  }

  // ----- the encoding -----

  function Tag(f: Field, wireType: nat): (r: Bytes) {
    Varint(8 * f.tag + wireType)
  }

  function EncodeScalar(l: LType, v: Value): (r: Bytes) {
    match (l, v)
    case (BoolT, Num(n)) => Varint(if n != 0 then 1 else 0)
    case (IntT(_), Num(n)) => if -TWO_63 <= n < TWO_64 then Varint(Unsigned64(n)) else []
    case (UIntT(_), Num(n)) => if n >= 0 then Varint(n) else []
    case (SIntT(_), Num(n)) => if -TWO_63 <= n < TWO_63 then Varint(ZigZag(n)) else []
    case (Fixed32T, Num(n)) => if n >= 0 then Fixed(n, 4) else []
    case (Fixed64T, Num(n)) => if n >= 0 then Fixed(n, 8) else []
    case (_, Blob(bs)) => LengthPrefixed(bs)
    case _ => []
  }

  function EncodeValue(l: LType, v: Value): (r: Bytes)
    decreases l, 2, 0
  {
    if l.SubT? then if v.Msg? then LengthPrefixed(EncodeSlots(l, v.slots, 0)) else []
    else EncodeScalar(l, v)
  }

  /** The fields from `i` on. */
  function EncodeSlots(l: LType, slots: seq<Slot>, i: nat): (r: Bytes)
    requires l.SubT?
    decreases l, 1, |l.fields| - i
  {
    if i < |l.fields| && i < |slots| then EncodeSlot(l.fields[i], slots[i]) + EncodeSlots(l, slots, i + 1) else []
  }

  function EncodeSlot(f: Field, s: Slot): (r: Bytes)
    decreases f, 2, 0
  {
    match s
    case One(v) => if f.htype.Implicit? && IsZero(f.ltype, v) then [] else EncodeItem(f, v)
    case Maybe(has, v) => if has then EncodeItem(f, v) else []
    case Many(vs) =>
      if vs == [] then []
      else if Packable(f.ltype) then Tag(f, STRING) + LengthPrefixed(EncodeAll(f.ltype, vs))
      else EncodeItems(f, vs)
    case Arm(None) => []
    case Arm(Some(v)) => EncodeItem(f, v)
  }

  function EncodeItem(f: Field, v: Value): (r: Bytes)
    decreases f, 0, 0
  {
    Tag(f, WireType(f.ltype)) + EncodeValue(f.ltype, v)
  }

  /** The items of a packed array. */
  function EncodeAll(l: LType, vs: seq<Value>): (r: Bytes)
    decreases l, 3, |vs|
  {
    if vs == [] then [] else EncodeValue(l, vs[0]) + EncodeAll(l, vs[1..])
  }

  /** The items of an array that cannot be packed, each with its tag. */
  function EncodeItems(f: Field, vs: seq<Value>): (r: Bytes)
    decreases f, 1, |vs|
  {
    if vs == [] then [] else EncodeItem(f, vs[0]) + EncodeItems(f, vs[1..])
  }

  // ----- what the encoder accepts -----

  function MaxCount(h: HType): (r: nat) {
    match h
    case Repeated(max) => max
    case FixedCount(max) => max
    case _ => 1
  }

  /** What a field can hold, as the encoder reads it: a string ends with its terminator
      or with its field. */
  predicate AcceptedScalar(l: LType, v: Value) {
    if l.StringT? then v.Blob? && |v.bytes| <= l.max && forall i :: 0 <= i < |v.bytes| ==> v.bytes[i] != 0
    else TypedScalar(l, v)
  }

  /** The encoder reports no error: arrays and bytes fields are within their sizes. */
  predicate Encodable(l: LType, v: Value)
    decreases l, 2, 0
  {
    if l.SubT? then v.Msg? && EncodableSlots(l, v.slots, 0) else AcceptedScalar(l, v)
  }

  predicate EncodableSlots(l: LType, slots: seq<Slot>, i: nat)
    requires l.SubT?
    decreases l, 1, |l.fields| - i
  {
    i < |l.fields| && i < |slots| ==> EncodableSlot(l.fields[i], slots[i]) && EncodableSlots(l, slots, i + 1)
  }

  predicate EncodableSlot(f: Field, s: Slot)
    decreases f, 2, 0
  {
    match s
    case One(v) => (f.htype.Implicit? && IsZero(f.ltype, v)) || Encodable(f.ltype, v)
    case Maybe(has, v) => has ==> Encodable(f.ltype, v)
    case Many(vs) => vs == [] || (|vs| <= MaxCount(f.htype) && EncodableAll(f.ltype, vs))
    case Arm(None) => true
    case Arm(Some(v)) => Encodable(f.ltype, v)
  }

  predicate EncodableAll(l: LType, vs: seq<Value>)
    decreases l, 3, |vs|
  {
    vs != [] ==> Encodable(l, vs[0]) && EncodableAll(l, vs[1..])
  }

  /** Well-formed messages are accepted. */
  lemma {:induction false} TypedIsEncodable(l: LType, v: Value)
    requires Typed(l, v)
    ensures Encodable(l, v)
    decreases l, 2, 0
  {
    if l.SubT? { TypedSlotsAreEncodable(l, v.slots, 0); }
  }

  lemma {:induction false} TypedSlotsAreEncodable(l: LType, slots: seq<Slot>, i: nat)
    requires l.SubT? && TypedSlots(l, slots, i)
    ensures EncodableSlots(l, slots, i)
    decreases l, 1, |l.fields| - i
  {
    if i < |l.fields| {
      TypedSlotIsEncodable(l.fields[i], slots[i]);
      TypedSlotsAreEncodable(l, slots, i + 1);
    }
  }

  lemma {:induction false} TypedSlotIsEncodable(f: Field, s: Slot)
    requires TypedSlot(f, s)
    ensures EncodableSlot(f, s)
    decreases f, 2, 0
  {
    match s
    case One(v) => TypedIsEncodable(f.ltype, v);
    case Maybe(has, v) => TypedIsEncodable(f.ltype, v);
    case Many(vs) => TypedAllAreEncodable(f.ltype, vs);
    case Arm(None) =>
    case Arm(Some(v)) => TypedIsEncodable(f.ltype, v);
  }

  lemma {:induction false} TypedAllAreEncodable(l: LType, vs: seq<Value>)
    requires TypedAll(l, vs)
    ensures EncodableAll(l, vs)
    decreases l, 3, |vs|
  {
    if vs != [] {
      TypedIsEncodable(l, vs[0]);
      TypedAllAreEncodable(l, vs[1..]);
    }
  }
}
