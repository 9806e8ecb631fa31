/** Messages as their readers meet them (nanopb/pb_decode.c): fields in any order,
    some left out, and fields that the reader does not know among them. */
module PbPieces {
  import opened Keys
  import opened Lookup
  import opened Coding
  import opened PbWire
  import opened PbSchema
  import opened PbDecode
  import opened PbRoundTrip

  // ----- the wire types -----

  function Single(tag: nat, l: LType): (r: Field) {
    Field(tag, l, Required, Num(0))
  }

  lemma Digits150()
    ensures Varint(150) == [0x96, 0x01] && Varint(1) == [1]
  {
    VarintStep(150);
  }

  lemma ShortTag(tag: nat, l: LType, v: Value)
    requires tag < 16
    ensures EncodeItem(Single(tag, l), v) == [8 * tag + WireType(l)] + EncodeValue(l, v)
  {
    VarintStep(8 * tag + WireType(l));
  }

  /** The numbers of the wire types, as bytes: the example of section "A Simple
      Message" of the Protocol Buffers encoding specification, and the other numbers. */
  lemma NumberBytes()
    ensures EncodeItem(Single(1, IntT(4)), Num(150)) == [0x08, 0x96, 0x01]
    ensures EncodeItem(Single(8, UIntT(4)), Num(150)) == [0x40, 0x96, 0x01]
    ensures EncodeItem(Single(7, SIntT(4)), Num(-1)) == [0x38, 0x01]
    ensures EncodeItem(Single(9, BoolT), Num(1)) == [0x48, 0x01]
  {
    Digits150();
    ShortTag(1, IntT(4), Num(150));
    ShortTag(8, UIntT(4), Num(150));
    ShortTag(7, SIntT(4), Num(-1));
    ShortTag(9, BoolT, Num(1));
  }

  lemma FixedBytes()
    ensures EncodeItem(Single(5, Fixed32T), Num(1)) == [0x2d] + [0x01, 0x00, 0x00, 0x00]
    ensures EncodeItem(Single(6, Fixed64T), Num(1)) == [0x31] + [0x01, 0x00, 0x00, 0x00, 0x00, 0x00, 0x00, 0x00]
  {
    FixedOne();
    ShortTag(5, Fixed32T, Num(1));
    ShortTag(6, Fixed64T, Num(1));
  }

  lemma DelimitedBytes()
    ensures EncodeItem(Single(2, StringT(8)), Blob([0x74, 0x65])) == [0x12, 0x02, 0x74, 0x65]
    ensures EncodeItem(Single(10, BytesT(8)), Blob([0xff])) == [0x52, 0x01, 0xff]
  {
    ShortTag(2, StringT(8), Blob([0x74, 0x65]));
    ShortTag(10, BytesT(8), Blob([0xff]));
  }

  /** The example of section "Submessages". */
  lemma SubmessageBytes()
    ensures EncodeItem(Single(3, SubT([Single(1, IntT(4))])), Msg([One(Num(150))])) == [0x1a, 0x03] + [0x08, 0x96, 0x01]
  {
    var inner, slots := SubT([Single(1, IntT(4))]), [One(Num(150))];
    ShortTag(3, inner, Msg(slots));
    NumberBytes();
    assert EncodeSlots(inner, slots, 1) == [];
    assert EncodeSlots(inner, slots, 0) == [0x08, 0x96, 0x01];
    assert Varint(3) == [0x03];
  }

  /** The example of section "Packed Repeated Fields". */
  lemma PackedBytes()
    ensures EncodeSlot(Field(4, IntT(4), Repeated(8), Num(0)), Many([Num(3), Num(270), Num(86942)])) ==
            [0x22, 0x06, 0x03, 0x8e, 0x02, 0x9e, 0xa7, 0x05]
  {
    VarintStep(270);
    VarintStep(86942);
    VarintStep(86942 / 128);
    assert EncodeAll(IntT(4), [Num(86942)]) == [0x9e, 0xa7, 0x05];
    assert [Num(270), Num(86942)][1..] == [Num(86942)];
    assert EncodeAll(IntT(4), [Num(270), Num(86942)]) == [0x8e, 0x02, 0x9e, 0xa7, 0x05];
    assert [Num(3), Num(270), Num(86942)][1..] == [Num(270), Num(86942)];
    assert EncodeAll(IntT(4), [Num(3), Num(270), Num(86942)]) == [0x03, 0x8e, 0x02, 0x9e, 0xa7, 0x05];
  }

  lemma FixedOne()
    ensures Fixed(1, 4) == [1, 0, 0, 0] && Fixed(1, 8) == [1, 0, 0, 0, 0, 0, 0, 0]
  {
    assert Fixed(0, 2) == [0, 0];
    assert Fixed(0, 3) == [0] + Fixed(0, 2);
    assert Fixed(0, 5) == [0] + ([0] + Fixed(0, 3));
    assert Fixed(0, 7) == [0] + ([0] + Fixed(0, 5));
  }

  // ----- fields that are left out -----

  /** Without a has_ flag, a zero or an empty string is not written, and nothing else
      is left out. */
  lemma ZeroIsOmitted(f: Field, v: Value)
    requires f.htype.Implicit? && TypedScalar(f.ltype, v)
    ensures EncodeSlot(f, One(v)) == [] <==> v == Num(0) || v == Blob([])
  {
    ItemIsNotEmpty(f, v);
  }

  /** A submessage is left out so only if it would have been empty. */
  lemma {:induction false} UnsetIsEmpty(l: LType, slots: seq<Slot>, i: nat)
    requires l.SubT? && AllUnset(l, slots, i)
    ensures EncodeSlots(l, slots, i) == []
    decreases |l.fields| - i
  {
    if i < |l.fields| && i < |slots| { UnsetIsEmpty(l, slots, i + 1); }
  }

  /** And it is, if it has no array of fixed count. */
  lemma {:induction false} EmptyIsUnset(l: LType, slots: seq<Slot>, i: nat)
    requires l.SubT? && TypedSlots(l, slots, i) && EncodeSlots(l, slots, i) == []
    requires forall j :: 0 <= j < |l.fields| ==> !l.fields[j].htype.FixedCount?
    ensures AllUnset(l, slots, i)
    decreases |l.fields| - i
  {
    if i < |l.fields| {
      var f, s := l.fields[i], slots[i];
      EmptyIsUnset(l, slots, i + 1);
      NothingWritten(f, s);
      match s
      case One(v) => ItemIsNotEmpty(f, v);
      case Maybe(has, v) => ItemIsNotEmpty(f, v);
      case Many(_) =>
      case Arm(None) =>
      case Arm(Some(v)) => ItemIsNotEmpty(f, v);
    }
  }

  /** Nothing is encoded that the struct could not hold: no array, bytes or string
      field beyond its size. */
  lemma TooLongIsRefused(f: Field, vs: seq<Value>, bs: Bytes)
    ensures f.htype.Repeated? || f.htype.FixedCount? ==>
              (|vs| > f.htype.max ==> !EncodableSlot(f, Many(vs)) || vs == [])
    ensures f.ltype.BytesT? ==> (Encodable(f.ltype, Blob(bs)) <==> |bs| <= f.ltype.max)
    ensures f.ltype.StringT? ==> (Encodable(f.ltype, Blob(bs)) ==> |bs| <= f.ltype.max)
    ensures f.ltype.FixedBytesT? ==> (Encodable(f.ltype, Blob(bs)) <==> |bs| == f.ltype.size)
  {}

  /** A string that fills its field to the last byte, with no room for a terminator, is
      encoded, but what was encoded is not decoded again. */
  lemma UnterminatedString(max: nat, bs: Bytes, rest: Bytes)
    requires |bs| == max < TWO_32 && forall i :: 0 <= i < |bs| ==> bs[i] != 0
    ensures Encodable(StringT(max), Blob(bs))
    ensures DecodeScalar(StringT(max), EncodeValue(StringT(max), Blob(bs)) + rest) == Bad
  {
    LengthPrefixedReads(bs, rest);
  }

  // ----- skipping -----

  lemma {:induction false} SkipsVarint(v: nat, rest: Bytes)
    ensures SkipVarint(Varint(v) + rest) == Got((), rest)
  {
    VarintFront(v, rest);
    if v >= 128 { SkipsVarint(v / 128, rest); }
  }

  lemma SkipsFixed(l: LType, n: nat, rest: Bytes)
    requires (l.Fixed32T? && n < TWO_32) || (l.Fixed64T? && n < TWO_64)
    ensures SkipField(EncodeScalar(l, Num(n)) + rest, WireType(l)) == Got((), rest)
  {
    Powers();
    FixedReads(n, if l.Fixed32T? then 4 else 8, rest);
  }

  /** The wire type says how far a value reaches: skipping stops right behind it. */
  lemma SkipsValue(l: LType, v: Value, rest: Bytes)
    requires Typed(l, v) && |EncodeValue(l, v)| < TWO_32
    ensures SkipField(EncodeValue(l, v) + rest, WireType(l)) == Got((), rest)
  {
    match l
    case BoolT => SkipsVarint(v.n, rest);
    case IntT(w) => CastsKeep(v.n, w); SkipsVarint(Unsigned64(v.n), rest);
    case UIntT(_) => SkipsVarint(v.n, rest);
    case SIntT(w) => CastsKeep(v.n, w); SkipsVarint(ZigZag(v.n), rest);
    case Fixed32T => SkipsFixed(l, v.n, rest);
    case Fixed64T => SkipsFixed(l, v.n, rest);
    case SubT(_) => LengthPrefixedReads(EncodeSlots(l, v.slots, 0), rest);
    case _ => LengthPrefixedReads(v.bytes, rest);
  }

  // ----- unknown fields -----

  /** A field of another schema, with a tag that `l` does not have. */
  ghost predicate Unknown(l: LType, f: Field)
    requires l.SubT?
  {
    1 <= f.tag < 0x2000_0000 && forall i :: 0 <= i < |l.fields| ==> l.fields[i].tag != f.tag
  }

  lemma {:induction false} FindsNothing(fields: seq<Field>, tag: nat, from: nat)
    requires forall i :: 0 <= i < |fields| ==> fields[i].tag != tag
    ensures FindFrom(fields, tag, from) == None
    decreases |fields| - from
  {
    if from < |fields| { FindsNothing(fields, tag, from + 1); }
  }

  lemma LoopSkips(l: LType, input: Bytes, temp: nat, body: Bytes, st: DState, rest: Bytes)
    requires l.SubT? && input != [] && Read32(input) == Got(temp, body) && temp != 0 && FindFrom(l.fields, temp / 8, 0) == None
    requires SkipField(body, temp % 8) == Got((), rest)
    ensures Loop(l, input, st) == Loop(l, rest, st)
  {}

  /** One round of the loop, on an unknown tag. */
  lemma SkipStep(l: LType, f: Field, wireType: nat, body: Bytes, st: DState, rest: Bytes)
    requires l.SubT? && Unknown(l, f) && wireType < 8 && SkipField(body, wireType) == Got((), rest)
    ensures Loop(l, Tag(f, wireType) + body, st) == Loop(l, rest, st)
  {
    TagReads(f, wireType, body);
    FindsNothing(l.fields, f.tag, 0);
    var temp := 8 * f.tag + wireType;
    assert temp / 8 == f.tag && temp % 8 == wireType;
    LoopSkips(l, Tag(f, wireType) + body, temp, body, st, rest);
  }

  lemma SkipsItem(l: LType, f: Field, v: Value, st: DState, rest: Bytes)
    requires l.SubT? && Unknown(l, f) && Typed(f.ltype, v) && |EncodeItem(f, v)| < TWO_32
    ensures Loop(l, EncodeItem(f, v) + rest, st) == Loop(l, rest, st)
  {
    var wt, bytes := WireType(f.ltype), EncodeValue(f.ltype, v);
    Shift(Tag(f, wt), bytes, rest);
    SkipsValue(f.ltype, v, rest);
    SkipStep(l, f, wt, bytes + rest, st, rest);
  }

  lemma {:induction false} SkipsItems(l: LType, f: Field, vs: seq<Value>, st: DState, rest: Bytes)
    requires l.SubT? && Unknown(l, f) && TypedAll(f.ltype, vs) && |EncodeItems(f, vs)| < TWO_32
    ensures Loop(l, EncodeItems(f, vs) + rest, st) == Loop(l, rest, st)
    decreases |vs|
  {
    if vs == [] {
      assert [] + rest == rest;
    } else {
      Shift(EncodeItem(f, vs[0]), EncodeItems(f, vs[1..]), rest);
      SkipsItem(l, f, vs[0], st, EncodeItems(f, vs[1..]) + rest);
      SkipsItems(l, f, vs[1..], st, rest);
    }
  }

  lemma SkipsPacked(l: LType, f: Field, vs: seq<Value>, st: DState, rest: Bytes)
    requires l.SubT? && Unknown(l, f) && |EncodeAll(f.ltype, vs)| < TWO_32
    ensures Loop(l, (Tag(f, STRING) + LengthPrefixed(EncodeAll(f.ltype, vs))) + rest, st) == Loop(l, rest, st)
  {
    var bytes := EncodeAll(f.ltype, vs);
    Shift(Tag(f, STRING), LengthPrefixed(bytes), rest);
    LengthPrefixedReads(bytes, rest);
    SkipStep(l, f, STRING, LengthPrefixed(bytes) + rest, st, rest);
  }

  /** A field with an unknown tag, of any type and rule, leaves the decoder as it was. */
  lemma SkipsField(l: LType, f: Field, s: Slot, st: DState, rest: Bytes)
    requires l.SubT? && Unknown(l, f) && TypedSlot(f, s) && |EncodeSlot(f, s)| < TWO_32
    ensures Loop(l, EncodeSlot(f, s) + rest, st) == Loop(l, rest, st)
  {
    if EncodeSlot(f, s) == [] {
      assert [] + rest == rest;
    } else if s.Many? {
      if Packable(f.ltype) { SkipsPacked(l, f, s.vs, st, rest); } else { SkipsItems(l, f, s.vs, st, rest); }
    } else {
      SkipsItem(l, f, Item(s), st, rest);
    }
  }

  // ----- pieces in any order -----

  /** What stands at one place of the input: field `i` of the message, or a field
      of another schema. */
  datatype Piece = Known(i: nat) | Foreign(f: Field, s: Slot)

  ghost predicate GoodPiece(l: LType, p: Piece)
    requires l.SubT?
  {
    match p
    case Known(i) => i < |l.fields|
    case Foreign(f, s) => Unknown(l, f) && TypedSlot(f, s)
  }

  /** No field of the message stands there twice. */
  ghost predicate GoodPieces(l: LType, ps: seq<Piece>)
    requires l.SubT?
  {
    (forall j :: 0 <= j < |ps| ==> GoodPiece(l, ps[j])) &&
    forall j, k :: 0 <= j < k < |ps| && ps[j].Known? ==> ps[j] != ps[k]
  }

  function EncodePiece(l: LType, slots: seq<Slot>, p: Piece): (r: Bytes)
    requires l.SubT?
  {
    match p
    case Known(i) => if i < |l.fields| && i < |slots| then EncodeSlot(l.fields[i], slots[i]) else []
    case Foreign(f, s) => EncodeSlot(f, s)
  }

  function EncodePieces(l: LType, slots: seq<Slot>, ps: seq<Piece>): (r: Bytes)
    requires l.SubT?
  {
    if ps == [] then [] else EncodePiece(l, slots, ps[0]) + EncodePieces(l, slots, ps[1..])
  }

  /** The pieces from `k` on, when those before have been read. */
  lemma {:induction false} PiecesRead(l: LType, slots: seq<Slot>, ps: seq<Piece>, done: set<nat>, st: DState, rest: Bytes)
    returns (last: DState, all: set<nat>)
    requires l.SubT? && GoodSchema(l) && Typed(l, Msg(slots)) && GoodPieces(l, ps) && |EncodePieces(l, slots, ps)| < TWO_32
    requires StateAt(l, slots, done, st) && forall j :: 0 <= j < |ps| && ps[j].Known? ==> ps[j].i !in done
    ensures Loop(l, EncodePieces(l, slots, ps) + rest, st) == Loop(l, rest, last) && StateAt(l, slots, all, last)
    ensures forall i: nat :: i in all <==> i in done || Known(i) in ps
    decreases |ps|
  {
    if ps == [] {
      last, all := st, done;
      assert [] + rest == rest;
    } else {
      var p, tail := ps[0], ps[1..];
      var more := EncodePieces(l, slots, tail) + rest;
      assert GoodPiece(l, p);
      Shift(EncodePiece(l, slots, p), EncodePieces(l, slots, tail), rest);
      PieceFits(l, slots, ps);
      match p {
        case Known(i) =>
          var next := FieldRoundTrip(l, slots, i, done, st, more);
          last, all := PiecesRead(l, slots, tail, done + {i}, next, rest);
        case Foreign(f, s) =>
          SkipsField(l, f, s, st, more);
          last, all := PiecesRead(l, slots, tail, done, st, rest);
      }
      assert ps == [p] + tail;
    }
  }

  lemma PieceFits(l: LType, slots: seq<Slot>, ps: seq<Piece>)
    requires l.SubT? && ps != []
    ensures |EncodePiece(l, slots, ps[0])| <= |EncodePieces(l, slots, ps)|
    ensures |EncodePieces(l, slots, ps[1..])| <= |EncodePieces(l, slots, ps)|
  {}

  // ----- whole inputs -----

  ghost function RequiredBefore(fields: seq<Field>, i: nat): (r: set<nat>) {
    set j: nat | j < i && j < |fields| && fields[j].htype.Required?
  }

  lemma {:induction false} CountsRequired(fields: seq<Field>, i: nat)
    requires i <= |fields|
    ensures RequiredIndex(fields, i) == |RequiredBefore(fields, i)|
  {
    if i > 0 {
      CountsRequired(fields, i - 1);
      var extra := if fields[i - 1].htype.Required? then {i - 1} else {};
      assert RequiredBefore(fields, i) == RequiredBefore(fields, i - 1) + extra;
    } else {
      assert RequiredBefore(fields, 0) == {};
    }
  }

  /** Every required field stands there, as far as the decoder keeps count: the
      fields seen are 64 bits. */
  ghost predicate HasRequired(l: LType, ps: seq<Piece>)
    requires l.SubT?
  {
    forall i :: 0 <= i < |l.fields| && l.fields[i].htype.Required? && |RequiredBefore(l.fields, i)| < 64 ==> Known(i) in ps
  }

  /** The fields that stand there, and the others at their defaults. */
  ghost function Received(l: LType, slots: seq<Slot>, ps: seq<Piece>): (r: seq<Slot>)
    requires l.SubT? && |slots| == |l.fields|
    ensures |r| == |slots|
  {
    seq(|slots|, i requires 0 <= i < |slots| => if Known(i) in ps then NormSlot(l.fields[i], slots[i]) else DefaultSlot(l.fields[i]))
  }

  /** The input ends, or a zero tag stands in front of something else. */
  predicate Ends(tail: Bytes) {
    tail == [] || tail[0] == 0
  }

  lemma Completes(l: LType, slots: seq<Slot>, ps: seq<Piece>, all: set<nat>, st: DState)
    requires l.SubT? && StateAt(l, slots, all, st) && forall i: nat :: i in all <==> Known(i) in ps
    ensures Complete(l, st) <==> HasRequired(l, ps)
    ensures st.slots == Received(l, slots, ps)
  {
    forall i | 0 <= i < |l.fields| ensures RequiredIndex(l.fields, i) == |RequiredBefore(l.fields, i)| {
      CountsRequired(l.fields, i);
    }
    if !HasRequired(l, ps) {
      var i :| 0 <= i < |l.fields| && l.fields[i].htype.Required? && |RequiredBefore(l.fields, i)| < 64 && Known(i) !in ps;
      assert i !in st.seen;
    }
  }

  /** Decoding the fields of a message in any order, each at most once, with any
      fields of unknown tags among them: it fails exactly when a required field is
      missing, and otherwise yields what stood there and nothing else. */
  lemma AnyOrderRoundTrip(l: LType, slots: seq<Slot>, ps: seq<Piece>, tail: Bytes)
    requires l.SubT? && GoodSchema(l) && Typed(l, Msg(slots)) && GoodPieces(l, ps) && |EncodePieces(l, slots, ps)| < TWO_32
    requires Ends(tail)
    ensures |slots| == |l.fields|
    ensures PbDecode.Decode(l, EncodePieces(l, slots, ps) + tail) == if HasRequired(l, ps) then Some(Received(l, slots, ps)) else None
  {
    SlotsCount(l, slots, 0);
    StartState(l, slots);
    var st := DState(DefaultSlots(l, |l.fields|), None, {});
    var last, all := PiecesRead(l, slots, ps, {}, st, tail);
    assert Loop(l, tail, last) == Some(last);
    Completes(l, slots, ps, all, last);
  }

  // ----- what follows -----

  function InOrder(n: nat): (r: seq<Piece>)
    ensures |r| == n
  {
    seq(n, i requires 0 <= i < n => Known(i))
  }

  /** The encoder writes every field, in the order of the schema. */
  lemma {:induction false} InOrderIsEncoding(l: LType, slots: seq<Slot>, k: nat)
    requires l.SubT? && |slots| == |l.fields| && k <= |l.fields|
    ensures EncodePieces(l, slots, InOrder(|l.fields|)[k..]) == EncodeSlots(l, slots, k)
    decreases |l.fields| - k
  {
    var ps := InOrder(|l.fields|)[k..];
    if k < |l.fields| {
      InOrderIsEncoding(l, slots, k + 1);
      assert ps[0] == Known(k) && ps[1..] == InOrder(|l.fields|)[k + 1..];
    }
  }

  function Inserted(ps: seq<Piece>, k: nat, p: Piece): (r: seq<Piece>)
    requires k <= |ps|
  {
    ps[..k] + [p] + ps[k..]
  }

  lemma InsertedIsGood(l: LType, ps: seq<Piece>, k: nat, f: Field, s: Slot)
    requires l.SubT? && GoodPieces(l, ps) && k <= |ps| && Unknown(l, f) && TypedSlot(f, s)
    ensures GoodPieces(l, Inserted(ps, k, Foreign(f, s)))
  {
    var qs := Inserted(ps, k, Foreign(f, s));
    forall a, b | 0 <= a < b < |qs| && qs[a].Known? ensures qs[a] != qs[b] {
      assert qs[a] == ps[if a < k then a else a - 1];
      if b != k { assert qs[b] == ps[if b < k then b else b - 1]; }
    }
  }

  lemma InsertedKnows(ps: seq<Piece>, k: nat, f: Field, s: Slot, i: nat)
    requires k <= |ps|
    ensures Known(i) in Inserted(ps, k, Foreign(f, s)) <==> Known(i) in ps
  {
    assert ps == ps[..k] + ps[k..];
  }

  lemma WholeInput(l: LType, slots: seq<Slot>, ps: seq<Piece>)
    requires l.SubT? && GoodSchema(l) && Typed(l, Msg(slots)) && GoodPieces(l, ps) && |EncodePieces(l, slots, ps)| < TWO_32
    ensures |slots| == |l.fields|
    ensures PbDecode.Decode(l, EncodePieces(l, slots, ps)) == if HasRequired(l, ps) then Some(Received(l, slots, ps)) else None
  {
    AnyOrderRoundTrip(l, slots, ps, []);
    assert EncodePieces(l, slots, ps) + [] == EncodePieces(l, slots, ps);
  }

  /** A field with an unknown tag may be put before, between or after the pieces. */
  lemma ForeignChangesNothing(l: LType, slots: seq<Slot>, ps: seq<Piece>, k: nat, f: Field, s: Slot)
    requires l.SubT? && GoodSchema(l) && Typed(l, Msg(slots)) && GoodPieces(l, ps) && k <= |ps|
    requires Unknown(l, f) && TypedSlot(f, s)
    requires |EncodePieces(l, slots, ps)| < TWO_32 && |EncodePieces(l, slots, Inserted(ps, k, Foreign(f, s)))| < TWO_32
    ensures PbDecode.Decode(l, EncodePieces(l, slots, Inserted(ps, k, Foreign(f, s)))) == PbDecode.Decode(l, EncodePieces(l, slots, ps))
  {
    var qs := Inserted(ps, k, Foreign(f, s));
    InsertedIsGood(l, ps, k, f, s);
    forall i: nat ensures Known(i) in qs <==> Known(i) in ps { InsertedKnows(ps, k, f, s, i); }
    WholeInput(l, slots, ps);
    WholeInput(l, slots, qs);
    assert Received(l, slots, ps) == Received(l, slots, qs);
  }

  /** The encoding of a message without one of its required fields is refused. */
  lemma MissingRequiredFails(l: LType, slots: seq<Slot>, i: nat)
    requires l.SubT? && GoodSchema(l) && Typed(l, Msg(slots)) && |EncodeSlots(l, slots, 0)| < TWO_32
    requires i < |l.fields| && l.fields[i].htype.Required? && |RequiredBefore(l.fields, i)| < 64
    ensures PbDecode.Decode(l, EncodePieces(l, slots, InOrder(|l.fields|)[..i] + InOrder(|l.fields|)[i + 1..])) == None
  {
    var all := InOrder(|l.fields|);
    var ps := all[..i] + all[i + 1..];
    SlotsCount(l, slots, 0);
    InOrderIsEncoding(l, slots, 0);
    assert all[0..] == all;
    LeavesOut(l, slots, all, i);
    assert Known(i) !in ps;
    WholeInput(l, slots, ps);
  }

  lemma {:induction false} LeavesOut(l: LType, slots: seq<Slot>, ps: seq<Piece>, i: nat)
    requires l.SubT? && i < |ps|
    ensures |EncodePieces(l, slots, ps[..i] + ps[i + 1..])| <= |EncodePieces(l, slots, ps)|
  {
    if i == 0 {
      assert ps[..0] + ps[1..] == ps[1..];
    } else {
      var qs := ps[..i] + ps[i + 1..];
      LeavesOut(l, slots, ps[1..], i - 1);
      assert qs[0] == ps[0] && qs[1..] == ps[1..][..i - 1] + ps[1..][i..];
    }
  }
}
