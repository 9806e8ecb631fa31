/** Whatever the input, what the decoder accepts fits the struct
    (nanopb/pb_decode.c). */
module PbFits {
  import opened Keys
  import opened Lookup
  import opened Coding
  import opened PbWire
  import opened PbSchema
  import opened PbDecode

  // ----- what fits -----

  /** The value can be stored: integers within the width of the field, bytes and
      strings within its size, a string with room for its terminator. */
  predicate FitsScalar(l: LType, v: Value) {
    match l
    case BoolT => v.Num? && (v.n == 0 || v.n == 1)
    case IntT(w) => v.Num? && Cast(v.n, w) == v.n
    case UIntT(w) => v.Num? && CastUnsigned(v.n, w) == v.n
    case SIntT(w) => v.Num? && Cast(v.n, w) == v.n
    case Fixed32T => v.Num? && 0 <= v.n < TWO_32
    case Fixed64T => v.Num? && 0 <= v.n < TWO_64
    case BytesT(max) => v.Blob? && |v.bytes| <= max
    case StringT(max) => v.Blob? && |v.bytes| < max
    case FixedBytesT(size) => v.Blob? && |v.bytes| == size
    case SubT(_) => false
  }

  ghost predicate Fits(l: LType, v: Value)
    decreases l, 2
  {
    if l.SubT? then
      v.Msg? && |v.slots| == |l.fields| && OneArmEach(l, v.slots) &&
      forall i :: 0 <= i < |l.fields| ==> FitsSlot(l.fields[i], v.slots[i]) && Settled(l.fields[i], v.slots[i])
    else FitsScalar(l, v)
  }

  ghost predicate FitsSlot(f: Field, s: Slot)
    decreases f, 2
  {
    match f.htype
    case Required => s.One? && Fits(f.ltype, s.v)
    case Implicit => s.One? && Fits(f.ltype, s.v)
    case Optional => s.Maybe? && Fits(f.ltype, s.v)
    case Repeated(max) => s.Many? && |s.vs| <= max && forall j :: 0 <= j < |s.vs| ==> Fits(f.ltype, s.vs[j])
    case FixedCount(max) => s.Many? && |s.vs| <= max && forall j :: 0 <= j < |s.vs| ==> Fits(f.ltype, s.vs[j])
    case Oneof(_) => s.Arm? && (s.choice.Some? ==> Fits(f.ltype, s.choice.value))
  }

  /** An array of fixed count has all its items or none. */
  predicate Settled(f: Field, s: Slot) {
    f.htype.FixedCount? && s.Many? ==> s.vs == [] || |s.vs| == f.htype.max
  }

  /** The defaults that the schema gives its fields can be stored. */
  ghost predicate GoodInits(l: LType)
    decreases l, 1
  {
    l.SubT? ==> forall i :: 0 <= i < |l.fields| ==> GoodInit(l.fields[i])
  }

  ghost predicate GoodInit(f: Field)
    decreases f, 1
  {
    if f.ltype.SubT? then GoodInits(f.ltype) else FitsScalar(f.ltype, f.init)
  }

  // ----- the state of the decoder -----

  /** Only the array that is being filled may have some of its items. */
  ghost predicate Fitting(l: LType, st: DState)
    requires l.SubT?
  {
    |st.slots| == |l.fields| && OneArmEach(l, st.slots) &&
    forall i :: 0 <= i < |l.fields| ==>
      FitsSlot(l.fields[i], st.slots[i]) && (st.fixed == Some(i) || Settled(l.fields[i], st.slots[i]))
  }

  lemma {:induction false} DefaultsFit(l: LType)
    requires l.SubT? && GoodInits(l)
    ensures Fits(l, Msg(DefaultSlots(l, |l.fields|)))
    decreases l, 1
  {
    var slots := DefaultSlots(l, |l.fields|);
    forall i | 0 <= i < |l.fields| ensures slots[i] == DefaultSlot(l.fields[i]) && FitsSlot(l.fields[i], slots[i]) {
      DefaultIs(l, |l.fields|, i);
      assert GoodInit(l.fields[i]);
      DefaultFits(l.fields[i]);
    }
  }

  lemma {:induction false} DefaultIs(l: LType, n: nat, j: nat)
    requires l.SubT? && j < n <= |l.fields|
    ensures DefaultSlots(l, n)[j] == DefaultSlot(l.fields[j])
    decreases n
  {
    if j < n - 1 { DefaultIs(l, n - 1, j); }
  }

  lemma {:induction false} DefaultFits(f: Field)
    requires GoodInit(f)
    ensures Fits(f.ltype, DefaultValue(f)) && FitsSlot(f, DefaultSlot(f))
    decreases f, 1
  {
    if f.ltype.SubT? { DefaultsFit(f.ltype); }
  }

  // ----- single values -----

  lemma {:induction false} FixedBound(bs: Bytes)
    ensures FixedValue(bs) < Pow256(|bs|)
  {
    if bs != [] { FixedBound(bs[1..]); }
  }

  lemma ScalarFits(l: LType, input: Bytes)
    ensures DecodeScalar(l, input).Got? ==> FitsScalar(l, DecodeScalar(l, input).value)
  {
    Powers();
    if |input| >= 4 { FixedBound(input[..4]); }
    if |input| >= 8 { FixedBound(input[..8]); }
  }

  lemma {:induction false} ItemsFit(l: LType, input: Bytes, vs: seq<Value>, max: nat)
    requires |vs| <= max && !l.SubT? && forall j :: 0 <= j < |vs| ==> FitsScalar(l, vs[j])
    ensures DecodeItems(l, input, vs, max).Some? ==>
              var r := DecodeItems(l, input, vs, max).value;
              |r| <= max && forall j :: 0 <= j < |r| ==> FitsScalar(l, r[j])
    decreases max - |vs|
  {
    if input != [] && |vs| < max {
      ScalarFits(l, input);
      var r := DecodeScalar(l, input);
      if r.Got? { ItemsFit(l, r.rest, vs + [r.value], max); }
    }
  }

  // ----- steps -----

  lemma PrepareFits(l: LType, i: nat, st: DState)
    requires l.SubT? && i < |l.fields| && Fitting(l, st)
    ensures Prepare(l, i, st).Some? ==>
              var ready := Prepare(l, i, st).value;
              Fitting(l, ready) && (l.fields[i].htype.FixedCount? ==> ready.fixed == Some(i))
  {}

  lemma CurrentFits(f: Field, s: Slot)
    requires FitsSlot(f, s) && GoodInit(f)
    ensures Fits(f.ltype, Current(f, s))
  {
    DefaultFits(f);
  }

  /** The slot that is replaced is no second arm of a oneof. */
  lemma Replaced(l: LType, i: nat, st: DState, s: Slot)
    requires l.SubT? && i < |l.fields| && Fitting(l, st) && FitsSlot(l.fields[i], s) && !l.fields[i].htype.Oneof?
    requires l.fields[i].htype.FixedCount? ==> st.fixed == Some(i)
    ensures Fitting(l, st.(slots := st.slots[i := s]))
  {
    forall a, b | 0 <= a < b < |l.fields| ensures !SameOneof(l.fields[a], st.slots[i := s][a], l.fields[b], st.slots[i := s][b]) {
      assert !SameOneof(l.fields[a], st.slots[a], l.fields[b], st.slots[b]);
    }
  }

  lemma StoreFits(l: LType, i: nat, st: DState, v: Value)
    requires l.SubT? && i < |l.fields| && Fitting(l, st) && Fits(l.fields[i].ltype, v)
    requires l.fields[i].htype.FixedCount? ==> st.fixed == Some(i)
    requires IsArray(l.fields[i].htype) ==> |st.slots[i].vs| < MaxCount(l.fields[i].htype)
    ensures Fitting(l, st.(slots := Store(l, i, st.slots, v)))
  {
    var f := l.fields[i];
    if f.htype.Oneof? {
      ChosenAlone(l, i, st, v);
    } else {
      assert FitsSlot(f, st.slots[i]);
      Replaced(l, i, st, Store(l, i, st.slots, v)[i]);
    }
  }

  /** Choosing an arm gives up the others. */
  lemma ChosenAlone(l: LType, i: nat, st: DState, v: Value)
    requires l.SubT? && i < |l.fields| && Fitting(l, st) && Fits(l.fields[i].ltype, v) && l.fields[i].htype.Oneof?
    ensures Fitting(l, st.(slots := Store(l, i, st.slots, v)))
  {
    var r := Store(l, i, st.slots, v);
    forall a, b | 0 <= a < b < |l.fields| ensures !SameOneof(l.fields[a], r[a], l.fields[b], r[b]) {
      assert !SameOneof(l.fields[a], st.slots[a], l.fields[b], st.slots[b]);
    }
  }

  // ----- messages -----

  lemma {:induction false} ValueFits(l: LType, current: Value, input: Bytes)
    requires GoodInits(l) && (l.SubT? ==> Fits(l, current))
    ensures DecodeValue(l, current, input).Got? ==> Fits(l, DecodeValue(l, current, input).value)
    decreases |input|, 2
  {
    if l.SubT? {
      match Substream(input)
      case Bad =>
      case Got(sub, _) => MessageFits(l, sub, current.slots);
    } else {
      ScalarFits(l, input);
    }
  }

  lemma {:induction false} FieldFits(l: LType, i: nat, wireType: nat, st: DState, input: Bytes)
    requires l.SubT? && GoodInits(l) && i < |l.fields| && Fitting(l, st)
    requires l.fields[i].htype.FixedCount? ==> st.fixed == Some(i)
    ensures var r := DecodeField(l, i, wireType, st, input); r.Got? ==> Fitting(l, r.value)
    decreases |input|, 3
  {
    var f, s := l.fields[i], st.slots[i];
    assert GoodInit(f) && FitsSlot(f, s);
    if IsArray(f.htype) && wireType == STRING && Packable(f.ltype) {
      PackedFits(l, i, wireType, st, input);
    } else {
      CurrentFits(f, s);
      ValueFits(f.ltype, Current(f, s), input);
      var r := DecodeValue(f.ltype, Current(f, s), input);
      if r.Got? && !(IsArray(f.htype) && |s.vs| >= MaxCount(f.htype)) { StoreFits(l, i, st, r.value); }
    }
  }

  lemma PackedFits(l: LType, i: nat, wireType: nat, st: DState, input: Bytes)
    requires l.SubT? && GoodInits(l) && i < |l.fields| && Fitting(l, st)
    requires l.fields[i].htype.FixedCount? ==> st.fixed == Some(i)
    requires IsArray(l.fields[i].htype) && wireType == STRING && Packable(l.fields[i].ltype)
    ensures var r := DecodeField(l, i, wireType, st, input); r.Got? ==> Fitting(l, r.value)
  {
    var f, s := l.fields[i], st.slots[i];
    assert FitsSlot(f, s);
    match Substream(input)
    case Bad =>
    case Got(sub, _) =>
      ItemsFit(f.ltype, sub, s.vs, MaxCount(f.htype));
      var r := DecodeItems(f.ltype, sub, s.vs, MaxCount(f.htype));
      if r.Some? { Replaced(l, i, st, Many(r.value)); }
  }

  lemma {:induction false} LoopFits(l: LType, input: Bytes, st: DState)
    requires l.SubT? && GoodInits(l) && Fitting(l, st)
    ensures Loop(l, input, st).Some? ==> Fitting(l, Loop(l, input, st).value)
    decreases |input|, 0
  {
    if input == [] || Read32(input).Bad? || Read32(input).value == 0 {
      return;
    }
    var temp, body := Read32(input).value, Read32(input).rest;
    match FindFrom(l.fields, temp / 8, 0)
    case None =>
      var r := SkipField(body, temp % 8);
      if r.Got? { LoopFits(l, r.rest, st); }
    case Some(i) =>
      PrepareFits(l, i, st);
      match Prepare(l, i, st)
      case None =>
      case Some(ready) =>
        FieldFits(l, i, temp % 8, ready, body);
        var r := DecodeField(l, i, temp % 8, ready, body);
        if r.Got? { LoopFits(l, r.rest, r.value); }
  }

  lemma {:induction false} MessageFits(l: LType, input: Bytes, slots: seq<Slot>)
    requires l.SubT? && GoodInits(l) && Fits(l, Msg(slots))
    ensures DecodeMessage(l, input, slots).Some? ==> Fits(l, Msg(DecodeMessage(l, input, slots).value))
    decreases |input|, 1
  {
    LoopFits(l, input, DState(slots, None, {}));
  }

  /** For every input, well formed or not: what pb_decode accepts fits the struct.
      Arrays, bytes and strings are within their sizes, integers within their
      widths, an array of fixed count is whole or absent, and a oneof has one arm
      at most, in the message and in all its submessages. */
  lemma DecodedFits(l: LType, input: Bytes)
    requires l.SubT? && GoodInits(l)
    ensures PbDecode.Decode(l, input).Some? ==> Fits(l, Msg(PbDecode.Decode(l, input).value))
  {
    DefaultsFit(l);
    MessageFits(l, input, DefaultSlots(l, |l.fields|));
  }
}
