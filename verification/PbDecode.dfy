/** Decoding (nanopb/pb_decode.c, pb_common.c): messages field by field, in any order. */
module PbDecode {
  import opened Keys
  import opened Lookup
  import opened Coding
  import opened PbWire
  import opened PbSchema

  // ----- single items -----

  lemma {:induction false} MoreBitsShrinks(input: Bytes, result: nat, bitpos: nat)
    ensures MoreBits(input, result, bitpos).Got? ==> |MoreBits(input, result, bitpos).rest| < |input| && (result < TWO_32 ==> MoreBits(input, result, bitpos).value < TWO_32)
    decreases |input|
  {
    if input != [] {
      MoreBitsShrinks(input[1..], result, (bitpos + 7) % 256);
      if bitpos < 32 { MoreBitsShrinks(input[1..], (result + Shl(input[0] % 128, bitpos)) % TWO_32, bitpos + 7); }
    }
  }

  /** A 32-bit varint; something is consumed. */
  function Read32(input: Bytes): (r: Got<nat>)
    ensures r.Got? ==> |r.rest| < |input|
  {
    if input != [] && input[0] >= 128 then MoreBitsShrinks(input[1..], input[0] - 128, 7); DecodeVarint32(input) else DecodeVarint32(input)
  }

  /** A length and that many bytes (pb_make_string_substream). */
  function Substream(input: Bytes): (r: Got<Bytes>)
    ensures r.Got? ==> |r.rest| + |r.value| < |input|
  {
    match Read32(input)
    case Bad => Bad
    case Got(size, rest) => if |rest| < size then Bad else Got(rest[..size], rest[size..])
  }

  /** A decoded integer cast to the size of its field; too large a value is an error. */
  function Clamped(n: int, clamped: int, rest: Bytes): (r: Got<Value>) {
    if clamped == n then Got(Num(n), rest) else Bad
  }

  function DecodeScalar(l: LType, input: Bytes): (r: Got<Value>)
    ensures r.Got? ==> |r.rest| <= |input|
  {
    match l
    case BoolT =>
      (match Read32(input)
       case Bad => Bad
       case Got(v, rest) => Got(Num(if v != 0 then 1 else 0), rest))
    case IntT(w) =>
      (match GetVarint(input, true)
       case Bad => Bad
       case Got(v, rest) =>
         var n := if w == 8 then Signed64(v) else Cast(v, 4);
         Clamped(n, Cast(n, w), rest))
    case UIntT(w) =>
      (match GetVarint(input, true)
       case Bad => Bad
       case Got(v, rest) => Clamped(v, CastUnsigned(v, w), rest))
    case SIntT(w) =>
      (match GetVarint(input, true)
       case Bad => Bad
       case Got(v, rest) => Clamped(UnZigZag(v), Cast(UnZigZag(v), w), rest))
    case Fixed32T => if |input| < 4 then Bad else Got(Num(FixedValue(input[..4])), input[4..])
    case Fixed64T => if |input| < 8 then Bad else Got(Num(FixedValue(input[..8])), input[8..])
    case BytesT(max) =>
      (match Substream(input)
       case Bad => Bad
       case Got(bs, rest) => if |bs| > max then Bad else Got(Blob(bs), rest))
    case StringT(max) =>
      (match Substream(input)
       case Bad => Bad
       case Got(bs, rest) => if |bs| + 1 > max then Bad else Got(Blob(bs), rest))
    case FixedBytesT(size) =>
      (match Substream(input)
       case Bad => Bad
       case Got(bs, rest) =>
         if bs == [] then Got(Blob(seq(size, i => 0)), rest)
         else if |bs| != size then Bad else Got(Blob(bs), rest))
    case SubT(_) => Bad
  }

  lemma LengthPrefixedReads(bs: Bytes, rest: Bytes)
    requires |bs| < TWO_32
    ensures Substream(LengthPrefixed(bs) + rest) == Got(bs, rest)
  {
    assert LengthPrefixed(bs) + rest == Varint(|bs|) + (bs + rest);
    Varint32RoundTrip(|bs|, bs + rest);
  }

  lemma FixedReads(n: nat, width: nat, rest: Bytes)
    requires n < Pow256(width)
    ensures (Fixed(n, width) + rest)[..width] == Fixed(n, width) && (Fixed(n, width) + rest)[width..] == rest
    ensures FixedValue((Fixed(n, width) + rest)[..width]) == n
  {
    FixedRoundTrip(n, width);
  }

  lemma Powers()
    ensures Pow256(4) == TWO_32 && Pow256(8) == TWO_64
  {
    assert Pow256(2) == 65536;
    assert Pow256(4) == 65536 * Pow256(2);
    assert Pow256(6) == 65536 * Pow256(4);
    assert Pow256(8) == 65536 * Pow256(6);
  }

  lemma NumberRoundTrip(l: LType, v: Value, rest: Bytes)
    requires TypedScalar(l, v) && v.Num? && !l.Fixed32T? && !l.Fixed64T?
    ensures DecodeScalar(l, EncodeScalar(l, v) + rest) == Got(v, rest)
  {
    match l
    case BoolT => Varint32RoundTrip(v.n, rest);
    case IntT(w) =>
      CastsKeep(v.n, w);
      Varint64RoundTrip(Unsigned64(v.n), rest);
    case UIntT(w) => Varint64RoundTrip(v.n, rest);
    case SIntT(w) =>
      CastsKeep(v.n, w);
      ZigZagRoundTrip(v.n);
      Varint64RoundTrip(ZigZag(v.n), rest);
  }

  lemma ScalarRoundTrip(l: LType, v: Value, rest: Bytes)
    requires TypedScalar(l, v) && |EncodeScalar(l, v)| < TWO_32
    ensures DecodeScalar(l, EncodeScalar(l, v) + rest) == Got(v, rest)
  {
    match l
    case Fixed32T => Powers(); FixedReads(v.n, 4, rest);
    case Fixed64T => Powers(); FixedReads(v.n, 8, rest);
    case BytesT(_) => LengthPrefixedReads(v.bytes, rest);
    case StringT(_) => LengthPrefixedReads(v.bytes, rest);
    case FixedBytesT(size) =>
      LengthPrefixedReads(v.bytes, rest);
      if size == 0 { assert v.bytes == seq(size, i => 0); }
    case _ => NumberRoundTrip(l, v, rest);
  }

  // ----- messages -----

  /** What pb_decode_noinit keeps while it reads: the struct, the array of fixed
      count it is filling, and the fields it has seen. */
  datatype DState = DState(slots: seq<Slot>, fixed: Option<nat>, seen: set<nat>)

  /** pb_field_iter_find: tags are distinct, so where the search starts does not matter. */
  function FindFrom(fields: seq<Field>, tag: nat, i: nat): (r: Option<nat>)
    ensures r.Some? ==> i <= r.value < |fields| && fields[r.value].tag == tag
    decreases |fields| - i
  {
    if i >= |fields| then None else if fields[i].tag == tag then Some(i) else FindFrom(fields, tag, i + 1)
  }

  function SkipVarint(input: Bytes): (r: Got<()>)
    ensures r.Got? ==> |r.rest| <= |input|
  {
    if input == [] then Bad else if input[0] < 128 then Got((), input[1..]) else SkipVarint(input[1..])
  }

  /** pb_skip_field. */
  function SkipField(input: Bytes, wireType: nat): (r: Got<()>)
    ensures r.Got? ==> |r.rest| <= |input|
  {
    if wireType == VARINT then SkipVarint(input)
    else if wireType == BITS64 then if |input| < 8 then Bad else Got((), input[8..])
    else if wireType == STRING then
      match Substream(input)
      case Bad => Bad
      case Got(_, rest) => Got((), rest)
    else if wireType == BITS32 then if |input| < 4 then Bad else Got((), input[4..])
    else Bad
  }

  predicate CountFull(l: LType, slots: seq<Slot>, i: nat)
    requires l.SubT?
  {
    i < |l.fields| && i < |slots| && slots[i].Many? && l.fields[i].htype.FixedCount? && |slots[i].vs| == l.fields[i].htype.max
  }

  /** Turning to a field: an array of fixed count starts afresh, and the one
      before it must be full. */
  function Prepare(l: LType, i: nat, st: DState): (r: Option<DState>)
    requires l.SubT? && i < |l.fields|
  {
    var f := l.fields[i];
    var seen := if f.htype.Required? then st.seen + {i} else st.seen;
    if f.htype.FixedCount? && st.fixed != Some(i) then
      if st.fixed.Some? && !CountFull(l, st.slots, st.fixed.value) then None
      else if i < |st.slots| then Some(DState(st.slots[i := Many([])], Some(i), seen)) else None
    else Some(st.(seen := seen))
  }

  /** The arms of a oneof share their storage. */
  function ClearArms(l: LType, slots: seq<Slot>, group: HType): (r: seq<Slot>)
    requires l.SubT?
    ensures |r| == |slots|
  {
    seq(|slots|, i requires 0 <= i < |slots| => if i < |l.fields| && l.fields[i].htype == group then Arm(None) else slots[i])
  }

  function Current(f: Field, s: Slot): (r: Value) {
    match s
    case One(v) => v
    case Maybe(_, v) => v
    case Arm(Some(v)) => v
    case _ => DefaultValue(f)
  }

  function Store(l: LType, i: nat, slots: seq<Slot>, v: Value): (r: seq<Slot>)
    requires l.SubT? && i < |l.fields| && i < |slots|
  {
    match l.fields[i].htype
    case Required => slots[i := One(v)]
    case Implicit => slots[i := One(v)]
    case Optional => slots[i := Maybe(true, v)]
    case Oneof(g) => ClearArms(l, slots, Oneof(g))[i := Arm(Some(v))]
    case _ => slots[i := Many((if slots[i].Many? then slots[i].vs else []) + [v])]
  }

  /** The items of a packed array, up to the size of the array. */
  function DecodeItems(l: LType, input: Bytes, vs: seq<Value>, max: nat): (r: Option<seq<Value>>)
    decreases max - |vs|
  {
    if input == [] then Some(vs)
    else if |vs| >= max then None
    else
      match DecodeScalar(l, input)
      case Bad => None
      case Got(v, rest) => DecodeItems(l, rest, vs + [v], max)
  }

  function IsArray(h: HType): (r: bool) {
    h.Repeated? || h.FixedCount?
  }

  /** pb_dec_*: a submessage is merged into the current value. */
  function DecodeValue(l: LType, current: Value, input: Bytes): (r: Got<Value>)
    ensures r.Got? ==> |r.rest| <= |input|
    decreases |input|, 2
  {
    if l.SubT? then
      match Substream(input)
      case Bad => Bad
      case Got(sub, rest) =>
        (match DecodeMessage(l, sub, if current.Msg? then current.slots else [])
         case None => Bad
         case Some(slots) => Got(Msg(slots), rest))
    else DecodeScalar(l, input)
  }

  /** decode_static_field. */
  function DecodeField(l: LType, i: nat, wireType: nat, st: DState, input: Bytes): (r: Got<DState>)
    requires l.SubT? && i < |l.fields|
    ensures r.Got? ==> |r.rest| <= |input|
    decreases |input|, 3
  {
    if i >= |st.slots| then Bad
    else
      var f, s := l.fields[i], st.slots[i];
      if IsArray(f.htype) && wireType == STRING && Packable(f.ltype) then
        match Substream(input)
        case Bad => Bad
        case Got(sub, rest) =>
          (match DecodeItems(f.ltype, sub, if s.Many? then s.vs else [], MaxCount(f.htype))
           case None => Bad
           case Some(vs) => Got(st.(slots := st.slots[i := Many(vs)]), rest))
      else if IsArray(f.htype) && s.Many? && |s.vs| >= MaxCount(f.htype) then Bad
      else
        match DecodeValue(f.ltype, Current(f, s), input)
        case Bad => Bad
        case Got(v, rest) => Got(st.(slots := Store(l, i, st.slots, v)), rest)
  }

  /** The loop of pb_decode_noinit. */
  function Loop(l: LType, input: Bytes, st: DState): (r: Option<DState>)
    requires l.SubT?
    decreases |input|, 0
  {
    if input == [] then Some(st)
    else
      match Read32(input)
      case Bad => None
      case Got(temp, body) =>
        if temp == 0 then Some(st)
        else
          match FindFrom(l.fields, temp / 8, 0)
          case None =>
            (match SkipField(body, temp % 8)
             case Bad => None
             case Got(_, rest) => Loop(l, rest, st))
          case Some(i) =>
            match Prepare(l, i, st)
            case None => None
            case Some(ready) =>
              match DecodeField(l, i, temp % 8, ready, body)
              case Bad => None
              case Got(next, rest) => Loop(l, rest, next)
  }

  /** How many required fields come before field `i`. */
  function RequiredIndex(fields: seq<Field>, i: nat): (r: nat)
    requires i <= |fields|
  {
    if i == 0 then 0 else RequiredIndex(fields, i - 1) + if fields[i - 1].htype.Required? then 1 else 0
  }

  const MAX_REQUIRED := 64  // PB_MAX_REQUIRED_FIELDS

  /** The checks at the end of a message. */
  predicate Complete(l: LType, st: DState)
    requires l.SubT?
  {
    (st.fixed.Some? ==> CountFull(l, st.slots, st.fixed.value)) &&
    forall i :: 0 <= i < |l.fields| && l.fields[i].htype.Required? && RequiredIndex(l.fields, i) < MAX_REQUIRED ==> i in st.seen
  }

  /** pb_decode_noinit. */
  function DecodeMessage(l: LType, input: Bytes, slots: seq<Slot>): (r: Option<seq<Slot>>)
    decreases |input|, 1
  {
    if !l.SubT? then None
    else
      match Loop(l, input, DState(slots, None, {}))
      case None => None
      case Some(st) => if Complete(l, st) then Some(st.slots) else None
  }

  /** pb_decode. */
  function Decode(l: LType, input: Bytes): (r: Option<seq<Slot>>)
    requires l.SubT?
  {
    DecodeMessage(l, input, DefaultSlots(l, |l.fields|))
  }
}
