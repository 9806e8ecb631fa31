/** Decoding what was encoded gives the message back, absent fields at their
    defaults (nanopb/pb_encode.c, pb_decode.c). */
module PbRoundTrip {
  import opened Keys
  import opened Lookup
  import opened Coding
  import opened PbWire
  import opened PbSchema
  import opened PbDecode

  // ----- what comes back -----

  /** The value with every absent field at its default. */
  function Norm(l: LType, v: Value): (r: Value)
    decreases l, 2, 0
  {
    if l.SubT? && v.Msg? then Msg(NormSlots(l, v.slots, |l.fields|)) else v
  }

  /** The first `n` slots. */
  function NormSlots(l: LType, slots: seq<Slot>, n: nat): (r: seq<Slot>)
    requires l.SubT? && n <= |l.fields|
    ensures |r| == if n <= |slots| then n else |slots|
    decreases l, 1, n
  {
    if n == 0 then []
    else if n <= |slots| then NormSlots(l, slots, n - 1) + [NormSlot(l.fields[n - 1], slots[n - 1])]
    else NormSlots(l, slots, n - 1)
  }

  function NormSlot(f: Field, s: Slot): (r: Slot)
    decreases f, 2, 0
  {
    match s
    case One(v) => if f.htype.Implicit? && IsZero(f.ltype, v) then DefaultSlot(f) else One(Norm(f.ltype, v))
    case Maybe(has, v) => if has then Maybe(true, Norm(f.ltype, v)) else DefaultSlot(f)
    case Many(vs) => Many(NormAll(f.ltype, vs))
    case Arm(None) => s
    case Arm(Some(v)) => Arm(Some(Norm(f.ltype, v)))
  }

  function NormAll(l: LType, vs: seq<Value>): (r: seq<Value>)
    ensures |r| == |vs|
    decreases l, 3, |vs|
  {
    if vs == [] then [] else [Norm(l, vs[0])] + NormAll(l, vs[1..])
  }

  // ----- schemas -----

  ghost predicate GoodSchema(l: LType)
    decreases l, 1
  {
    l.SubT? ==>
      (forall i :: 0 <= i < |l.fields| ==> GoodField(l.fields[i])) &&
      forall i, j :: 0 <= i < j < |l.fields| ==> l.fields[i].tag != l.fields[j].tag
  }

  ghost predicate GoodField(f: Field)
    decreases f, 1
  {
    1 <= f.tag < 0x2000_0000 && GoodSchema(f.ltype)
  }

  // ----- steps of the decoder -----

  lemma {:induction false} Finds(fields: seq<Field>, i: nat, from: nat)
    requires from <= i < |fields| && forall a, b :: 0 <= a < b < |fields| ==> fields[a].tag != fields[b].tag
    ensures FindFrom(fields, fields[i].tag, from) == Some(i)
    decreases i - from
  {
    if from < i { Finds(fields, i, from + 1); }
  }

  lemma TagReads(f: Field, wireType: nat, body: Bytes)
    requires 1 <= f.tag < 0x2000_0000 && wireType < 8
    ensures Tag(f, wireType) + body != [] && Read32(Tag(f, wireType) + body) == Got(8 * f.tag + wireType, body)
  {
    Varint32RoundTrip(8 * f.tag + wireType, body);
  }

  /** One round of the loop, on the tag of field `i`. */
  lemma LoopStep(l: LType, i: nat, wireType: nat, body: Bytes, st: DState)
    requires l.SubT? && GoodSchema(l) && i < |l.fields| && wireType < 8
    ensures Loop(l, Tag(l.fields[i], wireType) + body, st) ==
            match Prepare(l, i, st)
            case None => None
            case Some(ready) =>
              match DecodeField(l, i, wireType, ready, body)
              case Bad => None
              case Got(next, rest) => Loop(l, rest, next)
  {
    var f := l.fields[i];
    assert GoodField(f);
    TagReads(f, wireType, body);
    Finds(l.fields, i, 0);
    var temp := 8 * f.tag + wireType;
    assert temp / 8 == f.tag && temp % 8 == wireType;
  }

  // ----- the state between fields -----

  /** The fields in `done` are decoded, the others at their defaults. */
  ghost predicate StateAt(l: LType, slots: seq<Slot>, done: set<nat>, st: DState)
    requires l.SubT?
  {
    |st.slots| == |slots| == |l.fields| &&
    (forall j :: 0 <= j < |l.fields| ==> st.slots[j] == if j in done then NormSlot(l.fields[j], slots[j]) else DefaultSlot(l.fields[j])) &&
    (st.fixed.Some? ==> st.fixed.value in done && CountFull(l, st.slots, st.fixed.value)) &&
    (forall j :: 0 <= j < |l.fields| && l.fields[j].htype.Required? && j in done ==> j in st.seen) &&
    forall j :: j in st.seen ==> j in done
  }

  /** The fields before `i`. */
  ghost function Before(i: nat): (r: set<nat>)
    ensures forall j: nat :: j in r <==> j < i
  {
    if i == 0 then {} else Before(i - 1) + {i - 1}
  }

  lemma BeforeNext(i: nat)
    ensures Before(i) + {i} == Before(i + 1) && i !in Before(i) && Before(0) == {}
  {}

  lemma {:induction false} DefaultsAt(l: LType, n: nat, j: nat)
    requires l.SubT? && j < n <= |l.fields|
    ensures DefaultSlots(l, n)[j] == DefaultSlot(l.fields[j])
    decreases n
  {
    if j < n - 1 { DefaultsAt(l, n - 1, j); }
  }

  lemma {:induction false} NormsAt(l: LType, slots: seq<Slot>, n: nat, j: nat)
    requires l.SubT? && j < n <= |l.fields| == |slots|
    ensures NormSlots(l, slots, n)[j] == NormSlot(l.fields[j], slots[j])
    decreases n
  {
    if j < n - 1 { NormsAt(l, slots, n - 1, j); }
  }

  lemma StartState(l: LType, slots: seq<Slot>)
    requires l.SubT? && |slots| == |l.fields|
    ensures StateAt(l, slots, {}, DState(DefaultSlots(l, |l.fields|), None, {}))
  {
    forall j | 0 <= j < |l.fields| ensures DefaultSlots(l, |l.fields|)[j] == DefaultSlot(l.fields[j]) {
      DefaultsAt(l, |l.fields|, j);
    }
  }

  lemma EndState(l: LType, slots: seq<Slot>, st: DState)
    requires l.SubT? && StateAt(l, slots, Before(|l.fields|), st)
    ensures st.slots == NormSlots(l, slots, |l.fields|) && Complete(l, st)
  {
    forall j | 0 <= j < |l.fields| ensures st.slots[j] == NormSlots(l, slots, |l.fields|)[j] {
      NormsAt(l, slots, |l.fields|, j);
    }
  }

  lemma {:induction false} SlotTyped(l: LType, slots: seq<Slot>, i: nat, j: nat)
    requires l.SubT? && TypedSlots(l, slots, i) && i <= j < |l.fields|
    ensures |slots| == |l.fields| && TypedSlot(l.fields[j], slots[j])
    decreases j - i
  {
    if i < j { SlotTyped(l, slots, i + 1, j); }
  }

  /** A field that is not written leaves the state as it should be. */
  lemma AbsentField(l: LType, slots: seq<Slot>, i: nat, done: set<nat>, st: DState)
    requires l.SubT? && StateAt(l, slots, done, st) && i < |l.fields| && TypedSlot(l.fields[i], slots[i])
    requires NormSlot(l.fields[i], slots[i]) == DefaultSlot(l.fields[i]) && !l.fields[i].htype.Required?
    ensures StateAt(l, slots, done + {i}, st)
  {}

  /** The state once field `i` has been stored. */
  lemma PresentField(l: LType, slots: seq<Slot>, i: nat, done: set<nat>, st: DState, next: DState)
    requires l.SubT? && i !in done && StateAt(l, slots, done, st) && i < |l.fields|
    requires next.slots == st.slots[i := NormSlot(l.fields[i], slots[i])]
    requires next.seen == if l.fields[i].htype.Required? then st.seen + {i} else st.seen
    requires next.fixed == st.fixed || (next.fixed == Some(i) && CountFull(l, next.slots, i))
    ensures StateAt(l, slots, done + {i}, next)
  {}

  /** Clearing the other arms of a oneof changes nothing when one only is chosen. */
  lemma ClearsNothing(l: LType, slots: seq<Slot>, i: nat, done: set<nat>, st: DState)
    requires l.SubT? && i !in done && StateAt(l, slots, done, st) && i < |l.fields| && TypedSlots(l, slots, 0) && OneArmEach(l, slots)
    requires l.fields[i].htype.Oneof? && slots[i].Arm? && slots[i].choice.Some?
    ensures ClearArms(l, st.slots, l.fields[i].htype) == st.slots
  {
    forall j | 0 <= j < |l.fields| && l.fields[j].htype == l.fields[i].htype ensures st.slots[j] == Arm(None) {
      SlotTyped(l, slots, 0, j);
      if j < i { assert !SameOneof(l.fields[j], slots[j], l.fields[i], slots[i]); }
      if j > i { assert !SameOneof(l.fields[i], slots[i], l.fields[j], slots[j]); }
    }
  }

  // ----- arrays of scalars -----

  lemma {:induction false} NormOfScalars(l: LType, vs: seq<Value>)
    requires !l.SubT?
    ensures NormAll(l, vs) == vs
    decreases |vs|
  {
    if vs != [] { NormOfScalars(l, vs[1..]); }
  }

  lemma NumberIsNotEmpty(l: LType, v: Value)
    requires Packable(l) && TypedScalar(l, v)
    ensures EncodeScalar(l, v) != []
  {}

  lemma {:induction false} PackedRoundTrip(l: LType, have: seq<Value>, vs: seq<Value>, max: nat)
    requires Packable(l) && TypedAll(l, vs) && |have| + |vs| <= max && |EncodeAll(l, vs)| < TWO_32
    ensures DecodeItems(l, EncodeAll(l, vs), have, max) == Some(have + vs)
    decreases |vs|
  {
    if vs == [] {
      assert have + vs == have;
    } else {
      NumberIsNotEmpty(l, vs[0]);
      ScalarRoundTrip(l, vs[0], EncodeAll(l, vs[1..]));
      PackedRoundTrip(l, have + [vs[0]], vs[1..], max);
      assert (have + [vs[0]]) + vs[1..] == have + vs;
    }
  }

  // ----- one item -----

  lemma Shift(a: Bytes, b: Bytes, c: Bytes)
    ensures (a + b) + c == a + (b + c)
  {}

  lemma DefaultIsCurrent(f: Field)
    ensures !IsArray(f.htype) ==> Current(f, DefaultSlot(f)) == DefaultValue(f)
  {}

  /** A field written once is read back into its slot. */
  lemma ItemReads(l: LType, i: nat, v: Value, st: DState, rest: Bytes) returns (next: DState)
    requires l.SubT? && GoodSchema(l) && i < |l.fields| == |st.slots| && !IsArray(l.fields[i].htype)
    requires var f := l.fields[i];
             DecodeValue(f.ltype, Current(f, st.slots[i]), EncodeValue(f.ltype, v) + rest) == Got(Norm(f.ltype, v), rest)
    ensures Loop(l, EncodeItem(l.fields[i], v) + rest, st) == Loop(l, rest, next)
    ensures next == DState(Store(l, i, st.slots, Norm(l.fields[i].ltype, v)), st.fixed,
                           if l.fields[i].htype.Required? then st.seen + {i} else st.seen)
  {
    var f := l.fields[i];
    var wt := WireType(f.ltype);
    Shift(Tag(f, wt), EncodeValue(f.ltype, v), rest);
    LoopStep(l, i, wt, EncodeValue(f.ltype, v) + rest, st);
    next := DState(Store(l, i, st.slots, Norm(f.ltype, v)), st.fixed, if f.htype.Required? then st.seen + {i} else st.seen);
  }

  /** What Prepare needs of an array of fixed count. */
  ghost predicate MayFill(l: LType, i: nat, st: DState, have: seq<Value>)
    requires l.SubT? && i < |l.fields|
  {
    i < |st.slots| && st.slots[i] == Many(have) &&
    (l.fields[i].htype.FixedCount? ==>
      st.fixed == Some(i) || (have == [] && (st.fixed.Some? ==> st.fixed.value != i && CountFull(l, st.slots, st.fixed.value))))
  }

  ghost function Filled(l: LType, i: nat, st: DState, vs: seq<Value>): (r: DState)
    requires l.SubT? && i < |l.fields| && i < |st.slots|
  {
    st.(slots := st.slots[i := Many(vs)], fixed := if l.fields[i].htype.FixedCount? then Some(i) else st.fixed)
  }

  lemma PrepareFills(l: LType, i: nat, st: DState, have: seq<Value>)
    requires l.SubT? && i < |l.fields| && IsArray(l.fields[i].htype) && MayFill(l, i, st, have)
    ensures Prepare(l, i, st) == Some(Filled(l, i, st, have))
  {
    assert st.slots[i := Many(have)] == st.slots;
  }

  lemma FilledAgain(l: LType, i: nat, st: DState, have: seq<Value>, more: seq<Value>)
    requires l.SubT? && i < |l.fields| && i < |st.slots|
    ensures Filled(l, i, Filled(l, i, st, have), more) == Filled(l, i, st, more)
    ensures MayFill(l, i, Filled(l, i, st, have), have)
  {
    assert st.slots[i := Many(have)][i := Many(more)] == st.slots[i := Many(more)];
  }

  lemma StoresArrayItem(l: LType, i: nat, wt: nat, st: DState, have: seq<Value>, v: Value, input: Bytes, rest: Bytes)
    requires l.SubT? && i < |l.fields| && i < |st.slots| && IsArray(l.fields[i].htype) && !Packable(l.fields[i].ltype)
    requires st.slots[i] == Many(have) && |have| < MaxCount(l.fields[i].htype)
    requires DecodeValue(l.fields[i].ltype, DefaultValue(l.fields[i]), input) == Got(v, rest)
    ensures DecodeField(l, i, wt, st, input) == Got(st.(slots := st.slots[i := Many(have + [v])]), rest)
  {}

  lemma ArrayItemReads(l: LType, i: nat, v: Value, st: DState, have: seq<Value>, rest: Bytes)
    requires l.SubT? && GoodSchema(l) && i < |l.fields| && IsArray(l.fields[i].htype) && !Packable(l.fields[i].ltype)
    requires MayFill(l, i, st, have) && |have| < MaxCount(l.fields[i].htype)
    requires var f := l.fields[i];
             DecodeValue(f.ltype, DefaultValue(f), EncodeValue(f.ltype, v) + rest) == Got(Norm(f.ltype, v), rest)
    ensures Loop(l, EncodeItem(l.fields[i], v) + rest, st) == Loop(l, rest, Filled(l, i, st, have + [Norm(l.fields[i].ltype, v)]))
  {
    var f := l.fields[i];
    var wt, body := WireType(f.ltype), EncodeValue(f.ltype, v) + rest;
    Shift(Tag(f, wt), EncodeValue(f.ltype, v), rest);
    LoopStep(l, i, wt, body, st);
    PrepareFills(l, i, st, have);
    StoresArrayItem(l, i, wt, Filled(l, i, st, have), have, Norm(f.ltype, v), body, rest);
    FilledAgain(l, i, st, have, have + [Norm(f.ltype, v)]);
  }

  lemma PackedReads(l: LType, i: nat, vs: seq<Value>, st: DState, rest: Bytes)
    requires l.SubT? && GoodSchema(l) && i < |l.fields| && IsArray(l.fields[i].htype) && Packable(l.fields[i].ltype)
    requires MayFill(l, i, st, []) && TypedAll(l.fields[i].ltype, vs) && |vs| <= MaxCount(l.fields[i].htype)
    requires |EncodeAll(l.fields[i].ltype, vs)| < TWO_32
    ensures var f := l.fields[i];
            Loop(l, (Tag(f, STRING) + LengthPrefixed(EncodeAll(f.ltype, vs))) + rest, st) == Loop(l, rest, Filled(l, i, st, vs))
  {
    var f := l.fields[i];
    var bytes := EncodeAll(f.ltype, vs);
    Shift(Tag(f, STRING), LengthPrefixed(bytes), rest);
    LoopStep(l, i, STRING, LengthPrefixed(bytes) + rest, st);
    LengthPrefixedReads(bytes, rest);
    PackedRoundTrip(f.ltype, [], vs, MaxCount(f.htype));
    assert [] + vs == vs;
    assert st.slots[i := Many([])][i := Many(vs)] == st.slots[i := Many(vs)];
  }

  // ----- whole messages -----

  lemma {:induction false} ValueRoundTrip(l: LType, v: Value, current: Value, rest: Bytes)
    requires Typed(l, v) && GoodSchema(l) && |EncodeValue(l, v)| < TWO_32
    requires l.SubT? ==> current == Msg(DefaultSlots(l, |l.fields|))
    ensures DecodeValue(l, current, EncodeValue(l, v) + rest) == Got(Norm(l, v), rest)
    decreases l, 2, 0
  {
    if l.SubT? {
      MessageRoundTrip(l, v.slots);
      LengthPrefixedReads(EncodeSlots(l, v.slots, 0), rest);
    } else {
      ScalarRoundTrip(l, v, rest);
    }
  }

  /** For every good schema and well-formed message: decoding the encoding
      succeeds, and yields the message with absent fields at their defaults. */
  lemma {:induction false} MessageRoundTrip(l: LType, slots: seq<Slot>)
    requires l.SubT? && GoodSchema(l) && Typed(l, Msg(slots)) && |EncodeSlots(l, slots, 0)| < TWO_32
    ensures PbDecode.Decode(l, EncodeSlots(l, slots, 0)) == Some(NormSlots(l, slots, |l.fields|))
    decreases l, 1, |l.fields| + 1
  {
    var st := DState(DefaultSlots(l, |l.fields|), None, {});
    SlotsCount(l, slots, 0);
    StartState(l, slots);
    BeforeNext(0);
    var last := FieldsRoundTrip(l, slots, 0, st);
    EndState(l, slots, last);
  }

  lemma SlotsCount(l: LType, slots: seq<Slot>, i: nat)
    requires l.SubT? && TypedSlots(l, slots, i)
    ensures |slots| == |l.fields|
  {}

  lemma {:induction false} FieldsRoundTrip(l: LType, slots: seq<Slot>, i: nat, st: DState) returns (last: DState)
    requires l.SubT? && GoodSchema(l) && Typed(l, Msg(slots)) && |EncodeSlots(l, slots, i)| < TWO_32
    requires i <= |l.fields| && StateAt(l, slots, Before(i), st)
    ensures Loop(l, EncodeSlots(l, slots, i), st) == Some(last) && StateAt(l, slots, Before(|l.fields|), last)
    decreases l, 1, |l.fields| - i
  {
    if i == |l.fields| {
      last := st;
    } else {
      var rest := EncodeSlots(l, slots, i + 1);
      BeforeNext(i);
      var next := FieldRoundTrip(l, slots, i, Before(i), st, rest);
      last := FieldsRoundTrip(l, slots, i + 1, next);
    }
  }

  lemma {:induction false} FieldRoundTrip(l: LType, slots: seq<Slot>, i: nat, done: set<nat>, st: DState, rest: Bytes) returns (next: DState)
    requires l.SubT? && GoodSchema(l) && Typed(l, Msg(slots)) && i < |l.fields| && i !in done && StateAt(l, slots, done, st)
    requires |EncodeSlot(l.fields[i], slots[i])| < TWO_32
    ensures Loop(l, EncodeSlot(l.fields[i], slots[i]) + rest, st) == Loop(l, rest, next) && StateAt(l, slots, done + {i}, next)
    decreases l, 0, 2
  {
    var f, s := l.fields[i], slots[i];
    SlotTyped(l, slots, 0, i);
    assert GoodField(f);
    if EncodeSlot(f, s) == [] {
      NothingWritten(f, s);
      AbsentField(l, slots, i, done, st);
      assert [] + rest == rest;
      next := st;
    } else if s.Many? {
      next := ArrayRoundTrip(l, slots, i, done, st, rest);
    } else {
      next := SingleRoundTrip(l, slots, i, done, st, rest);
    }
  }

  /** Only an absent field writes nothing. */
  lemma NothingWritten(f: Field, s: Slot)
    requires TypedSlot(f, s) && EncodeSlot(f, s) == []
    ensures NormSlot(f, s) == DefaultSlot(f) && !f.htype.Required?
  {
    match s
    case One(v) => ItemIsNotEmpty(f, v);
    case Maybe(has, v) => ItemIsNotEmpty(f, v);
    case Many(vs) => if vs != [] { ItemIsNotEmpty(f, vs[0]); }
    case Arm(None) =>
    case Arm(Some(v)) => ItemIsNotEmpty(f, v);
  }

  lemma ItemIsNotEmpty(f: Field, v: Value)
    ensures EncodeItem(f, v) != [] && Tag(f, STRING) != []
  {}

  ghost function Item(s: Slot): (r: Value)
    requires s.One? || s.Maybe? || (s.Arm? && s.choice.Some?)
  {
    match s
    case One(v) => v
    case Maybe(_, v) => v
    case Arm(Some(v)) => v
  }

  lemma {:induction false} SingleRoundTrip(l: LType, slots: seq<Slot>, i: nat, done: set<nat>, st: DState, rest: Bytes) returns (next: DState)
    requires l.SubT? && GoodSchema(l) && Typed(l, Msg(slots)) && i < |l.fields| && i !in done && StateAt(l, slots, done, st)
    requires |EncodeSlot(l.fields[i], slots[i])| < TWO_32 && EncodeSlot(l.fields[i], slots[i]) != []
    requires GoodField(l.fields[i]) && TypedSlot(l.fields[i], slots[i]) && !slots[i].Many?
    ensures Loop(l, EncodeSlot(l.fields[i], slots[i]) + rest, st) == Loop(l, rest, next) && StateAt(l, slots, done + {i}, next)
    decreases l, 0, 1
  {
    var f, s := l.fields[i], slots[i];
    var v := Item(s);
    assert EncodeSlot(f, s) == EncodeItem(f, v) && Typed(f.ltype, v);
    DefaultIsCurrent(f);
    ValueRoundTrip(f.ltype, v, DefaultValue(f), rest);
    next := ItemReads(l, i, v, st, rest);
    if f.htype.Oneof? { ClearsNothing(l, slots, i, done, st); }
    PresentField(l, slots, i, done, st, next);
  }

  lemma {:induction false} ArrayRoundTrip(l: LType, slots: seq<Slot>, i: nat, done: set<nat>, st: DState, rest: Bytes) returns (next: DState)
    requires l.SubT? && GoodSchema(l) && Typed(l, Msg(slots)) && i < |l.fields| && i !in done && StateAt(l, slots, done, st)
    requires |EncodeSlot(l.fields[i], slots[i])| < TWO_32 && EncodeSlot(l.fields[i], slots[i]) != []
    requires GoodField(l.fields[i]) && TypedSlot(l.fields[i], slots[i]) && slots[i].Many?
    ensures Loop(l, EncodeSlot(l.fields[i], slots[i]) + rest, st) == Loop(l, rest, next) && StateAt(l, slots, done + {i}, next)
    decreases l, 0, 1
  {
    var f, vs := l.fields[i], slots[i].vs;
    if Packable(f.ltype) {
      PackedReads(l, i, vs, st, rest);
      NormOfScalars(f.ltype, vs);
      next := Filled(l, i, st, vs);
    } else {
      ItemsRoundTrip(l, i, st, [], vs, rest);
      assert [] + NormAll(f.ltype, vs) == NormAll(f.ltype, vs);
      next := Filled(l, i, st, NormAll(f.ltype, vs));
    }
    PresentField(l, slots, i, done, st, next);
  }

  lemma {:induction false} ItemsRoundTrip(l: LType, i: nat, st: DState, have: seq<Value>, vs: seq<Value>, rest: Bytes)
    requires l.SubT? && GoodSchema(l) && i < |l.fields| && IsArray(l.fields[i].htype) && !Packable(l.fields[i].ltype)
    requires GoodField(l.fields[i]) && MayFill(l, i, st, have) && vs != [] && |have| + |vs| <= MaxCount(l.fields[i].htype)
    requires TypedAll(l.fields[i].ltype, vs) && |EncodeItems(l.fields[i], vs)| < TWO_32
    ensures Loop(l, EncodeItems(l.fields[i], vs) + rest, st) ==
            Loop(l, rest, Filled(l, i, st, have + NormAll(l.fields[i].ltype, vs)))
    decreases l, 0, 0, |vs|
  {
    var f := l.fields[i];
    var n, tail := Norm(f.ltype, vs[0]), vs[1..];
    var more := EncodeItems(f, tail) + rest;
    Shift(EncodeItem(f, vs[0]), EncodeItems(f, tail), rest);
    ValueRoundTrip(f.ltype, vs[0], DefaultValue(f), more);
    ArrayItemReads(l, i, vs[0], st, have, more);
    FilledAgain(l, i, st, have + [n], have + NormAll(f.ltype, vs));
    ConsNorm(f.ltype, have, vs);
    if tail == [] {
      assert more == rest;
    } else {
      ItemsRoundTrip(l, i, Filled(l, i, st, have + [n]), have + [n], tail, rest);
    }
  }

  lemma ConsNorm(l: LType, have: seq<Value>, vs: seq<Value>)
    requires vs != []
    ensures (have + [Norm(l, vs[0])]) + NormAll(l, vs[1..]) == have + NormAll(l, vs)
    ensures vs[1..] == [] ==> have + [Norm(l, vs[0])] == have + NormAll(l, vs)
  {
    NormCons(l, vs);
    Associate(have, [Norm(l, vs[0])], NormAll(l, vs[1..]));
  }

  lemma NormCons(l: LType, vs: seq<Value>)
    requires vs != []
    ensures NormAll(l, vs) == [Norm(l, vs[0])] + NormAll(l, vs[1..])
    ensures vs[1..] == [] ==> NormAll(l, vs) == [Norm(l, vs[0])]
  {}

  lemma Associate<T>(a: seq<T>, b: seq<T>, c: seq<T>)
    ensures (a + b) + c == a + (b + c)
  {}
}
