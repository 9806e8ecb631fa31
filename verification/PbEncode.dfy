/** Encoding to a stream (nanopb/pb_encode.c): a sizing pass that only counts, and
    a writing pass into a buffer of limited size. */
module PbEncode {
  import opened Keys
  import opened Lookup
  import opened Coding
  import opened PbWire
  import opened PbSchema

  /** pb_ostream_t; a sizing stream has no callback. */
  datatype OStream = OStream(sizing: bool, max: nat, written: nat, out: Bytes)

  const SIZING := OStream(true, 0, 0, [])

  function FromBuffer(size: nat): (r: OStream) {
    OStream(false, size, 0, [])
  }

  predicate Within(s: OStream) {
    s.sizing || s.written <= s.max
  }

  /** The stream after `bs`, if there is room. */
  function Written(s: OStream, bs: Bytes): (r: Option<OStream>) {
    if s.sizing then Some(s.(written := s.written + |bs|))
    else if s.written + |bs| <= s.max then Some(s.(written := s.written + |bs|, out := s.out + bs))
    else None
  }

  function Then(o: Option<OStream>, bs: Bytes): (r: Option<OStream>) {
    match o
    case None => None
    case Some(s) => Written(s, bs)
  }

  lemma WrittenConcat(s: OStream, a: Bytes, b: Bytes)
    ensures Then(Written(s, a), b) == Written(s, a + b)
  {
    if !s.sizing { assert s.out + (a + b) == (s.out + a) + b; }
  }

  lemma WrittenNothing(s: OStream)
    requires Within(s)
    ensures Written(s, []) == Some(s)
  {
    assert s.out + [] == s.out;
  }

  /** pb_write. */
  method Write(s: OStream, bs: Bytes) returns (r: Option<OStream>)
    requires Within(s)
    ensures r == Written(s, bs) && (r.Some? ==> Within(r.value))
  {
    if |bs| > 0 && !s.sizing {
      if s.written + |bs| > s.max {
        return None;
      }
      return Some(s.(written := s.written + |bs|, out := s.out + bs));
    }
    WrittenNothing(s);
    r := Some(s.(written := s.written + |bs|));
  }

  /** The stream after an encoder: `ok` says that the value is acceptable. */
  function Result(s: OStream, ok: bool, bs: Bytes): (r: Option<OStream>) {
    if ok then Written(s, bs) else None
  }

  lemma ResultThen(s: OStream, a: Bytes, okA: bool, t: OStream, b: Bytes, okB: bool)
    requires Result(s, okA, a) == Some(t)
    ensures Result(t, okB, b) == Result(s, okA && okB, a + b)
  {
    WrittenConcat(s, a, b);
  }

  lemma StaysWithin(s: OStream, ok: bool, bs: Bytes)
    ensures Result(s, ok, bs).Some? ==> Within(Result(s, ok, bs).value)
  {}

  /** The tag, then the value. */
  method EncodeTagged(s: OStream, f: Field, v: Value) returns (r: Option<OStream>)
    requires Within(s)
    ensures r == Result(s, Encodable(f.ltype, v), EncodeItem(f, v))
    decreases f, 0, 0
  {
    var tag := Tag(f, WireType(f.ltype));
    r := Write(s, tag);
    if r.Some? {
      ResultThen(s, tag, true, r.value, EncodeValue(f.ltype, v), Encodable(f.ltype, v));
      r := EncodeOne(r.value, f.ltype, v);
    }
  }

  /** The field encoders. */
  method EncodeOne(s: OStream, l: LType, v: Value) returns (r: Option<OStream>)
    requires Within(s)
    ensures r == Result(s, Encodable(l, v), EncodeValue(l, v))
    decreases l, 2, 0
  {
    if l.SubT? {
      if !v.Msg? {
        return None;
      }
      r := EncodeSubmessage(s, l, v.slots);
    } else {
      if !AcceptedScalar(l, v) {
        return None;  // a bytes field that is too long
      }
      r := Write(s, EncodeScalar(l, v));
    }
  }

  /** pb_encode_submessage: measures with a sizing stream, then writes. */
  method EncodeSubmessage(s: OStream, l: LType, slots: seq<Slot>) returns (r: Option<OStream>)
    requires Within(s) && l.SubT?
    ensures r == Result(s, EncodableSlots(l, slots, 0), LengthPrefixed(EncodeSlots(l, slots, 0)))
    decreases l, 1, |l.fields| + 1
  {
    var measured := Encode(SIZING, l, slots);
    if measured.None? {
      return None;
    }
    var size := measured.value.written;
    ghost var bytes := EncodeSlots(l, slots, 0);
    r := Write(s, Varint(size));
    if r.None? {
      return None;
    }
    var stream := r.value;
    ResultThen(s, Varint(size), true, stream, bytes, true);
    if stream.sizing {
      return Some(stream.(written := stream.written + size));
    }
    if stream.written + size > stream.max {
      return None;
    }
    var sub := OStream(false, size, 0, stream.out);
    var status := Encode(sub, l, slots);
    assert status.Some? && status.value.written == size;  // "submsg size changed" cannot happen
    r := Some(stream.(written := stream.written + status.value.written, out := status.value.out));
  }

  /** pb_encode: the fields in order. */
  method Encode(s: OStream, l: LType, slots: seq<Slot>) returns (r: Option<OStream>)
    requires Within(s) && l.SubT?
    ensures r == Result(s, EncodableSlots(l, slots, 0), EncodeSlots(l, slots, 0))
    decreases l, 1, |l.fields|
  {
    var stream, i := s, 0;
    ghost var goal := Result(s, EncodableSlots(l, slots, 0), EncodeSlots(l, slots, 0));
    while i < |l.fields| && i < |slots|
      invariant i <= |l.fields| && Within(stream)
      invariant goal == Result(stream, EncodableSlots(l, slots, i), EncodeSlots(l, slots, i))
    {
      var f, slot := l.fields[i], slots[i];
      StepGoal(stream, f, slot, EncodeSlots(l, slots, i + 1), EncodableSlots(l, slots, i + 1));
      var t := EncodeField(stream, f, slot);
      if t.None? {
        return None;
      }
      stream, i := t.value, i + 1;
    }
    WrittenNothing(stream);
    r := Some(stream);
  }

  lemma StepGoal(s: OStream, f: Field, slot: Slot, rest: Bytes, ok: bool)
    ensures var t := Result(s, EncodableSlot(f, slot), EncodeSlot(f, slot));
            Result(s, EncodableSlot(f, slot) && ok, EncodeSlot(f, slot) + rest) ==
            if t.None? then None else Result(t.value, ok, rest)
    ensures var t := Result(s, EncodableSlot(f, slot), EncodeSlot(f, slot)); t.Some? ==> Within(t.value)
  {
    var t := Result(s, EncodableSlot(f, slot), EncodeSlot(f, slot));
    StaysWithin(s, EncodableSlot(f, slot), EncodeSlot(f, slot));
    if t.Some? {
      ResultThen(s, EncodeSlot(f, slot), EncodableSlot(f, slot), t.value, rest, ok);
    }
  }

  /** encode_basic_field. */
  method EncodeField(s: OStream, f: Field, slot: Slot) returns (r: Option<OStream>)
    requires Within(s)
    ensures r == Result(s, EncodableSlot(f, slot), EncodeSlot(f, slot))
    decreases f, 2, 0
  {
    WrittenNothing(s);
    match slot
    case One(v) =>
      var implicitHas := !(f.htype.Implicit? && IsZero(f.ltype, v));
      if implicitHas { r := EncodeTagged(s, f, v); } else { r := Some(s); }
    case Maybe(has, v) =>
      if has { r := EncodeTagged(s, f, v); } else { r := Some(s); }
    case Many(vs) =>
      r := EncodeArray(s, f, vs);
    case Arm(choice) =>
      if choice.Some? { r := EncodeTagged(s, f, choice.value); } else { r := Some(s); }
  }

  /** encode_array: packed when the type allows it. */
  method EncodeArray(s: OStream, f: Field, vs: seq<Value>) returns (r: Option<OStream>)
    requires Within(s)
    ensures r == Result(s, EncodableSlot(f, Many(vs)), EncodeSlot(f, Many(vs)))
    decreases f, 1, 0
  {
    WrittenNothing(s);
    if vs == [] {
      return Some(s);
    }
    if |vs| > MaxCount(f.htype) {
      return None;
    }
    if Packable(f.ltype) {
      r := EncodePacked(s, f, vs);
    } else {
      r := EncodeUnpacked(s, f, vs);
    }
  }

  method EncodePacked(s: OStream, f: Field, vs: seq<Value>) returns (r: Option<OStream>)
    requires Within(s) && Packable(f.ltype)
    ensures r == Result(s, EncodableAll(f.ltype, vs), Tag(f, STRING) + LengthPrefixed(EncodeAll(f.ltype, vs)))
    decreases f, 0, 1
  {
    ghost var ok, bytes := EncodableAll(f.ltype, vs), EncodeAll(f.ltype, vs);
    var tag := Tag(f, STRING);
    r := Write(s, tag);
    if r.None? {
      return;
    }
    var t := r.value;
    ResultThen(s, tag, true, t, LengthPrefixed(bytes), ok);
    var size := PackedSize(f, vs);
    if size.None? {
      return None;
    }
    ghost var t0 := t;
    r := Write(t, Varint(size.value));
    if r.None? {
      return;
    }
    t := r.value;
    ResultThen(t0, Varint(size.value), true, t, bytes, ok);
    if t.sizing {
      return Some(t.(written := t.written + size.value));
    }
    r := WriteItems(t, f.ltype, vs);
  }

  /** The size of a packed array: known for the fixed types, measured for the others. */
  method PackedSize(f: Field, vs: seq<Value>) returns (size: Option<nat>)
    requires Packable(f.ltype)
    ensures size == if EncodableAll(f.ltype, vs) then Some(|EncodeAll(f.ltype, vs)|) else None
    decreases f, 0, 0
  {
    var measured := WriteItems(SIZING, f.ltype, vs);
    size := if measured.None? then None else Some(measured.value.written);
    if size.Some? && f.ltype.Fixed32T? {
      FixedSizes(f.ltype, vs);
      size := Some(4 * |vs|);
    } else if size.Some? && f.ltype.Fixed64T? {
      FixedSizes(f.ltype, vs);
      size := Some(8 * |vs|);
    }
  }

  lemma {:induction false} FixedSizes(l: LType, vs: seq<Value>)
    requires (l.Fixed32T? || l.Fixed64T?) && EncodableAll(l, vs)
    ensures |EncodeAll(l, vs)| == (if l.Fixed32T? then 4 else 8) * |vs|
    decreases |vs|
  {
    if vs != [] { FixedSizes(l, vs[1..]); }
  }

  method WriteItems(s: OStream, l: LType, vs: seq<Value>) returns (r: Option<OStream>)
    requires Within(s)
    ensures r == Result(s, EncodableAll(l, vs), EncodeAll(l, vs))
    decreases l, 3, |vs|
  {
    var t, i := s, 0;
    ghost var goal := Result(s, EncodableAll(l, vs), EncodeAll(l, vs));
    assert vs[0..] == vs;
    while i < |vs|
      invariant i <= |vs| && Within(t) && goal == Result(t, EncodableAll(l, vs[i..]), EncodeAll(l, vs[i..]))
    {
      ItemGoal(t, l, vs[i..]);
      var u := EncodeOne(t, l, vs[i]);
      if u.None? {
        return None;
      }
      assert vs[i..][1..] == vs[i + 1..];
      t, i := u.value, i + 1;
    }
    WrittenNothing(t);
    r := Some(t);
  }

  lemma ItemGoal(s: OStream, l: LType, vs: seq<Value>)
    requires vs != []
    ensures var t := Result(s, Encodable(l, vs[0]), EncodeValue(l, vs[0]));
            Result(s, EncodableAll(l, vs), EncodeAll(l, vs)) ==
            if t.None? then None else Result(t.value, EncodableAll(l, vs[1..]), EncodeAll(l, vs[1..]))
    ensures var t := Result(s, Encodable(l, vs[0]), EncodeValue(l, vs[0])); t.Some? ==> Within(t.value)
  {
    var t := Result(s, Encodable(l, vs[0]), EncodeValue(l, vs[0]));
    if t.Some? {
      ResultThen(s, EncodeValue(l, vs[0]), Encodable(l, vs[0]), t.value, EncodeAll(l, vs[1..]), EncodableAll(l, vs[1..]));
    }
  }

  method EncodeUnpacked(s: OStream, f: Field, vs: seq<Value>) returns (r: Option<OStream>)
    requires Within(s)
    ensures r == Result(s, EncodableAll(f.ltype, vs), EncodeItems(f, vs))
    decreases f, 0, 1
  {
    var t, i := s, 0;
    ghost var goal := Result(s, EncodableAll(f.ltype, vs), EncodeItems(f, vs));
    assert vs[0..] == vs;
    while i < |vs|
      invariant i <= |vs| && Within(t) && goal == Result(t, EncodableAll(f.ltype, vs[i..]), EncodeItems(f, vs[i..]))
    {
      TaggedGoal(t, f, vs[i..]);
      var u := EncodeTagged(t, f, vs[i]);
      if u.None? {
        return None;
      }
      assert vs[i..][1..] == vs[i + 1..];
      t, i := u.value, i + 1;
    }
    WrittenNothing(t);
    r := Some(t);
  }

  lemma TaggedGoal(s: OStream, f: Field, vs: seq<Value>)
    requires vs != []
    ensures var t := Result(s, Encodable(f.ltype, vs[0]), EncodeItem(f, vs[0]));
            Result(s, EncodableAll(f.ltype, vs), EncodeItems(f, vs)) ==
            if t.None? then None else Result(t.value, EncodableAll(f.ltype, vs[1..]), EncodeItems(f, vs[1..]))
    ensures var t := Result(s, Encodable(f.ltype, vs[0]), EncodeItem(f, vs[0])); t.Some? ==> Within(t.value)
  {
    var t := Result(s, Encodable(f.ltype, vs[0]), EncodeItem(f, vs[0]));
    if t.Some? {
      ResultThen(s, EncodeItem(f, vs[0]), Encodable(f.ltype, vs[0]), t.value, EncodeItems(f, vs[1..]), EncodableAll(f.ltype, vs[1..]));
    }
  }

  /** pb_get_encoded_size: the size of what the writing pass emits. */
  method EncodedSize(l: LType, slots: seq<Slot>) returns (size: Option<nat>)
    requires l.SubT?
    ensures size == if EncodableSlots(l, slots, 0) then Some(|EncodeSlots(l, slots, 0)|) else None
  {
    var r := Encode(SIZING, l, slots);
    size := if r.None? then None else Some(r.value.written);
  }

  /** A buffer of the size that the sizing pass reports always suffices, and is filled. */
  method EncodeExactly(l: LType, slots: seq<Slot>) returns (bytes: Option<Bytes>)
    requires l.SubT?
    ensures bytes == if EncodableSlots(l, slots, 0) then Some(EncodeSlots(l, slots, 0)) else None
  {
    var size := EncodedSize(l, slots);
    if size.None? {
      return None;
    }
    var r := Encode(FromBuffer(size.value), l, slots);
    assert [] + EncodeSlots(l, slots, 0) == EncodeSlots(l, slots, 0);
    bytes := Some(r.value.out);
  }
}
