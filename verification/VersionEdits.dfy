/** The on-disk form of version edits (db/version_edit.cc).

    An edit is a list of tagged fields.  `EncodeTo` writes them in one fixed
    order, `DecodeFrom` folds whatever fields it reads into an edit, and
    `EditRoundTrip` says that the second undoes the first. */
module VersionEdits {
  import opened Keys
  import opened Lookup
  import opened Coding

  const LEVELS := 7

  /** FileMetaData as it is written: the internal keys are encoded strings. */
  datatype Meta = Meta(number: nat, size: nat, smallest: Bytes, largest: Bytes)

  datatype VersionEdit = VersionEdit(
    comparator: Option<Bytes>, logNumber: Option<nat>, prevLogNumber: Option<nat>, nextFile: Option<nat>,
    lastSequence: Option<nat>, compactPointers: seq<(nat, Bytes)>, deletedFiles: set<(nat, nat)>,
    newFiles: seq<(nat, Meta)>)

  const EMPTY := VersionEdit(None, None, None, None, None, [], {}, [])

  datatype Counter = LogNumber | PrevLogNumber | NextFileNumber | LastSequence

  /** One tagged record of an edit. */
  datatype Field =
    | Comparator(name: Bytes)
    | Number(counter: Counter, n: nat)
    | CompactPointer(level: nat, key: Bytes)
    | DeletedFile(level: nat, n: nat)
    | NewFile(level: nat, meta: Meta)

  predicate Word(n: nat) { n < TWO_64 }
  predicate Slice(s: Bytes) { |s| < TWO_32 }

  predicate ValidField(f: Field) {
    match f
    case Comparator(name) => Slice(name)
    case Number(_, n) => Word(n)
    case CompactPointer(level, key) => level < LEVELS && Slice(key)
    case DeletedFile(level, n) => level < LEVELS && Word(n)
    case NewFile(level, m) => level < LEVELS && Word(m.number) && Word(m.size) && Slice(m.smallest) && Slice(m.largest)
  }

  function TagOf(c: Counter): (r: nat) {
    match c
    case LogNumber => 2
    case NextFileNumber => 3
    case LastSequence => 4
    case PrevLogNumber => 9
  }

  function NewFileBody(level: nat, m: Meta): (r: Bytes) {
    Varint(level) + (Varint(m.number) + (Varint(m.size) + (LengthPrefixed(m.smallest) + LengthPrefixed(m.largest))))
  }

  function EncodeField(f: Field): (r: Bytes) {
    match f
    case Comparator(name) => Varint(1) + LengthPrefixed(name)
    case Number(counter, n) => Varint(TagOf(counter)) + Varint(n)
    case CompactPointer(level, key) => Varint(5) + (Varint(level) + LengthPrefixed(key))
    case DeletedFile(level, n) => Varint(6) + (Varint(level) + Varint(n))
    case NewFile(level, m) => Varint(7) + NewFileBody(level, m)
  }

  function EncodeFields(fs: seq<Field>): (r: Bytes) {
    if fs == [] then [] else EncodeField(fs[0]) + EncodeFields(fs[1..])
  }

  lemma {:induction false} EncodeFieldsConcat(a: seq<Field>, b: seq<Field>)
    ensures EncodeFields(a + b) == EncodeFields(a) + EncodeFields(b)
  {
    if a == [] {
      assert a + b == b;
    } else {
      assert (a + b)[1..] == a[1..] + b;
      EncodeFieldsConcat(a[1..], b);
    }
  }

  // ----- encoding -----

  function Optional(o: Option<nat>, counter: Counter): (r: seq<Field>) {
    match o
    case None => []
    case Some(n) => [Number(counter, n)]
  }

  function OptionalName(o: Option<Bytes>): (r: seq<Field>) {
    match o
    case None => []
    case Some(name) => [Comparator(name)]
  }

  function Header(e: VersionEdit): (r: seq<Field>) {
    OptionalName(e.comparator)
    + (Optional(e.logNumber, LogNumber)
       + (Optional(e.prevLogNumber, PrevLogNumber)
          + (Optional(e.nextFile, NextFileNumber) + Optional(e.lastSequence, LastSequence))))
  }

  function Pointers(ps: seq<(nat, Bytes)>): (fs: seq<Field>)
    ensures |fs| == |ps| && forall i :: 0 <= i < |ps| ==> fs[i] == CompactPointer(ps[i].0, ps[i].1)
  {
    seq(|ps|, i requires 0 <= i < |ps| => CompactPointer(ps[i].0, ps[i].1))
  }

  function Deletions(order: seq<(nat, nat)>): (fs: seq<Field>)
    ensures |fs| == |order| && forall i :: 0 <= i < |order| ==> fs[i] == DeletedFile(order[i].0, order[i].1)
  {
    seq(|order|, i requires 0 <= i < |order| => DeletedFile(order[i].0, order[i].1))
  }

  function Additions(ns: seq<(nat, Meta)>): (fs: seq<Field>)
    ensures |fs| == |ns| && forall i :: 0 <= i < |ns| ==> fs[i] == NewFile(ns[i].0, ns[i].1)
  {
    seq(|ns|, i requires 0 <= i < |ns| => NewFile(ns[i].0, ns[i].1))
  }

  /** The records of an edit; `order` is the order the set of deleted files is walked in. */
  function FieldsOf(e: VersionEdit, order: seq<(nat, nat)>): (r: seq<Field>) {
    Header(e) + (Pointers(e.compactPointers) + (Deletions(order) + Additions(e.newFiles)))
  }

  ghost predicate Enumerates(order: seq<(nat, nat)>, deleted: set<(nat, nat)>) {
    forall d :: d in order <==> d in deleted
  }

  ghost predicate ValidEdit(e: VersionEdit, order: seq<(nat, nat)>) {
    Enumerates(order, e.deletedFiles) && forall f :: f in FieldsOf(e, order) ==> ValidField(f)
  }

  lemma EncodeOne(f: Field)
    ensures EncodeFields([f]) == EncodeField(f)
  {
    assert EncodeFields([f]) == EncodeField(f) + EncodeFields([]);
  }

  lemma EncodeSnoc(done: seq<Field>, f: Field)
    ensures EncodeFields(done + [f]) == EncodeFields(done) + EncodeField(f)
  {
    EncodeFieldsConcat(done, [f]);
    EncodeOne(f);
  }

  method PutField(dst: Bytes, ghost done: seq<Field>, f: Field) returns (r: Bytes)
    requires dst == EncodeFields(done)
    ensures r == EncodeFields(done + [f])
  {
    EncodeSnoc(done, f);
    r := dst + EncodeField(f);
  }

  lemma PrefixStep(done: seq<Field>, fs: seq<Field>, i: nat)
    requires i < |fs|
    ensures done + fs[..i + 1] == (done + fs[..i]) + [fs[i]]
  {}

  lemma PrefixEnds(done: seq<Field>, fs: seq<Field>)
    ensures done + fs[..0] == done && done + fs[..|fs|] == done + fs
  {}

  method AppendFields(dst: Bytes, ghost done: seq<Field>, fs: seq<Field>) returns (r: Bytes)
    requires dst == EncodeFields(done)
    ensures r == EncodeFields(done + fs)
  {
    r := dst;
    PrefixEnds(done, fs);
    for i := 0 to |fs|
      invariant r == EncodeFields(done + fs[..i])
    {
      PrefixStep(done, fs, i);
      r := PutField(r, done + fs[..i], fs[i]);
    }
  }

  lemma Regroup(h: seq<Field>, p: seq<Field>, d: seq<Field>, a: seq<Field>)
    ensures h + p + d + a == h + (p + (d + a))
  {}

  method EncodeTo(e: VersionEdit, order: seq<(nat, nat)>) returns (dst: Bytes)
    ensures dst == EncodeFields(FieldsOf(e, order))
  {
    var h, p, d, a := Header(e), Pointers(e.compactPointers), Deletions(order), Additions(e.newFiles);
    Regroup(h, p, d, a);
    assert [] + h == h;
    dst := AppendFields([], [], h);
    dst := AppendFields(dst, h, p);
    dst := AppendFields(dst, h + p, d);
    dst := AppendFields(dst, h + p + d, a);
  }

  // ----- decoding -----

  datatype ReadResult = NoTag | Malformed(msg: string) | Read(field: Field, rest: Bytes)

  function GetLevel(input: Bytes): (r: Got<nat>)
    ensures r.Got? ==> |r.rest| < |input|
  {
    match GetVarint(input, false)
    case Bad => Bad
    case Got(v, rest) => if v < LEVELS then Got(v, rest) else Bad
  }

  function GetNewFile(input: Bytes): (r: Got<Field>)
    ensures r.Got? ==> |r.rest| < |input|
  {
    match GetLevel(input)
    case Bad => Bad
    case Got(level, r0) =>
      match GetVarint(r0, true)
      case Bad => Bad
      case Got(number, r1) =>
        match GetVarint(r1, true)
        case Bad => Bad
        case Got(size, r2) =>
          match GetLengthPrefixedSlice(r2)
          case Bad => Bad
          case Got(smallest, r3) =>
            match GetLengthPrefixedSlice(r3)
            case Bad => Bad
            case Got(largest, r4) => Got(NewFile(level, Meta(number, size, smallest, largest)), r4)
  }

  function GetCompactPointer(input: Bytes): (r: Got<Field>)
    ensures r.Got? ==> |r.rest| < |input|
  {
    match GetLevel(input)
    case Bad => Bad
    case Got(level, r0) =>
      match GetLengthPrefixedSlice(r0)
      case Bad => Bad
      case Got(key, r1) => Got(CompactPointer(level, key), r1)
  }

  function GetDeletedFile(input: Bytes): (r: Got<Field>)
    ensures r.Got? ==> |r.rest| < |input|
  {
    match GetLevel(input)
    case Bad => Bad
    case Got(level, r0) =>
      match GetVarint(r0, true)
      case Bad => Bad
      case Got(n, r1) => Got(DeletedFile(level, n), r1)
  }

  function GetComparator(input: Bytes): (r: Got<Field>)
    ensures r.Got? ==> |r.rest| < |input|
  {
    match GetLengthPrefixedSlice(input)
    case Bad => Bad
    case Got(name, rest) => Got(Comparator(name), rest)
  }

  function GetNumber(input: Bytes, counter: Counter): (r: Got<Field>)
    ensures r.Got? ==> |r.rest| < |input|
  {
    match GetVarint(input, true)
    case Bad => Bad
    case Got(n, rest) => Got(Number(counter, n), rest)
  }

  function OrElse(g: Got<Field>, msg: string): (r: ReadResult) {
    match g
    case Bad => Malformed(msg)
    case Got(f, rest) => Read(f, rest)
  }

  /** One round of the decoding loop. */
  function ReadField(input: Bytes): (r: ReadResult)
    ensures r.Read? ==> |r.rest| < |input|
  {
    match GetVarint(input, false)
    case Bad => NoTag
    case Got(tag, rest) =>
      if tag == 1 then OrElse(GetComparator(rest), "comparator name")
      else if tag == 2 then OrElse(GetNumber(rest, LogNumber), "log number")
      else if tag == 9 then OrElse(GetNumber(rest, PrevLogNumber), "previous log number")
      else if tag == 3 then OrElse(GetNumber(rest, NextFileNumber), "next file number")
      else if tag == 4 then OrElse(GetNumber(rest, LastSequence), "last sequence number")
      else if tag == 5 then OrElse(GetCompactPointer(rest), "compaction pointer")
      else if tag == 6 then OrElse(GetDeletedFile(rest), "deleted file")
      else if tag == 7 then OrElse(GetNewFile(rest), "new-file entry")
      else Malformed("unknown tag")
  }

  function ApplyField(e: VersionEdit, f: Field): (r: VersionEdit) {
    match f
    case Comparator(name) => e.(comparator := Some(name))
    case Number(LogNumber, n) => e.(logNumber := Some(n))
    case Number(NextFileNumber, n) => e.(nextFile := Some(n))
    case Number(LastSequence, n) => e.(lastSequence := Some(n))
    case Number(PrevLogNumber, n) => e.(prevLogNumber := Some(n))
    case CompactPointer(level, key) => e.(compactPointers := e.compactPointers + [(level, key)])
    case DeletedFile(level, n) => e.(deletedFiles := e.deletedFiles + {(level, n)})
    case NewFile(level, m) => e.(newFiles := e.newFiles + [(level, m)])
  }

  datatype Decoded = Corruption(msg: string) | Ok(edit: VersionEdit)

  function Decode(input: Bytes, e: VersionEdit): (r: Decoded)
    decreases |input|
  {
    match ReadField(input)
    case NoTag => if input == [] then Ok(e) else Corruption("invalid tag")
    case Malformed(msg) => Corruption(msg)
    case Read(f, rest) => Decode(rest, ApplyField(e, f))
  }

  method DecodeFrom(src: Bytes) returns (r: Decoded)
    ensures r == Decode(src, EMPTY)
  {
    var e, input := EMPTY, src;
    while true
      invariant Decode(src, EMPTY) == Decode(input, e)
      decreases |input|
    {
      match ReadField(input)
      case NoTag => return if input == [] then Ok(e) else Corruption("invalid tag");
      case Malformed(msg) => return Corruption(msg);
      case Read(f, rest) => e, input := ApplyField(e, f), rest;
    }
  }

  // ----- round trip -----

  lemma TagRead(tag: nat, body: Bytes, rest: Bytes)
    requires tag < 128
    ensures GetVarint((Varint(tag) + body) + rest, false) == Got(tag, body + rest)
  {
    assert (Varint(tag) + body) + rest == Varint(tag) + (body + rest);
    VarintRoundTrip(tag, body + rest, false);
  }

  lemma LevelRead(level: nat, body: Bytes, rest: Bytes)
    requires level < LEVELS
    ensures GetLevel((Varint(level) + body) + rest) == Got(level, body + rest)
  {
    TagRead(level, body, rest);
  }

  lemma NumberRead(n: nat, body: Bytes, rest: Bytes)
    requires Word(n)
    ensures GetVarint((Varint(n) + body) + rest, true) == Got(n, body + rest)
  {
    assert (Varint(n) + body) + rest == Varint(n) + (body + rest);
    VarintRoundTrip(n, body + rest, true);
  }

  lemma SliceRead(s: Bytes, body: Bytes, rest: Bytes)
    requires Slice(s)
    ensures GetLengthPrefixedSlice((LengthPrefixed(s) + body) + rest) == Got(s, body + rest)
  {
    assert (LengthPrefixed(s) + body) + rest == LengthPrefixed(s) + (body + rest);
    LengthPrefixedRoundTrip(s, body + rest);
  }

  lemma NewFileRead(level: nat, m: Meta, rest: Bytes)
    requires ValidField(NewFile(level, m))
    ensures GetNewFile(NewFileBody(level, m) + rest) == Got(NewFile(level, m), rest)
  {
    var b3 := LengthPrefixed(m.largest);
    var b2 := LengthPrefixed(m.smallest) + b3;
    var b1 := Varint(m.size) + b2;
    LevelRead(level, Varint(m.number) + b1, rest);
    NumberRead(m.number, b1, rest);
    NumberRead(m.size, b2, rest);
    SliceRead(m.smallest, b3, rest);
    LengthPrefixedRoundTrip(m.largest, rest);
  }

  lemma NewFileRoundTrip(level: nat, m: Meta, rest: Bytes)
    requires ValidField(NewFile(level, m))
    ensures ReadField(EncodeField(NewFile(level, m)) + rest) == Read(NewFile(level, m), rest)
  {
    NewFileRead(level, m, rest);
    TaggedNewFile(NewFileBody(level, m), rest);
  }

  lemma TaggedNewFile(body: Bytes, rest: Bytes)
    ensures ReadField((Varint(7) + body) + rest) == OrElse(GetNewFile(body + rest), "new-file entry")
  {
    TagRead(7, body, rest);
  }

  lemma NameRoundTrip(name: Bytes, rest: Bytes)
    requires Slice(name)
    ensures ReadField(EncodeField(Comparator(name)) + rest) == Read(Comparator(name), rest)
  {
    TagRead(1, LengthPrefixed(name), rest);
    LengthPrefixedRoundTrip(name, rest);
  }

  lemma CounterRoundTrip(c: Counter, n: nat, rest: Bytes)
    requires Word(n)
    ensures ReadField(EncodeField(Number(c, n)) + rest) == Read(Number(c, n), rest)
  {
    TagRead(TagOf(c), Varint(n), rest);
    VarintRoundTrip(n, rest, true);
  }

  lemma PointerRoundTrip(level: nat, key: Bytes, rest: Bytes)
    requires ValidField(CompactPointer(level, key))
    ensures ReadField(EncodeField(CompactPointer(level, key)) + rest) == Read(CompactPointer(level, key), rest)
  {
    TagRead(5, Varint(level) + LengthPrefixed(key), rest);
    LevelRead(level, LengthPrefixed(key), rest);
    LengthPrefixedRoundTrip(key, rest);
  }

  lemma DeletionRoundTrip(level: nat, n: nat, rest: Bytes)
    requires ValidField(DeletedFile(level, n))
    ensures ReadField(EncodeField(DeletedFile(level, n)) + rest) == Read(DeletedFile(level, n), rest)
  {
    TagRead(6, Varint(level) + Varint(n), rest);
    LevelRead(level, Varint(n), rest);
    VarintRoundTrip(n, rest, true);
  }

  lemma FieldRoundTrip(f: Field, rest: Bytes)
    requires ValidField(f)
    ensures ReadField(EncodeField(f) + rest) == Read(f, rest)
  {
    match f
    case Comparator(name) => NameRoundTrip(name, rest);
    case Number(c, n) => CounterRoundTrip(c, n, rest);
    case CompactPointer(level, key) => PointerRoundTrip(level, key, rest);
    case DeletedFile(level, n) => DeletionRoundTrip(level, n, rest);
    case NewFile(level, m) => NewFileRoundTrip(level, m, rest);
  }

  function ApplyFields(e: VersionEdit, fs: seq<Field>): (r: VersionEdit)
    decreases fs
  {
    if fs == [] then e else ApplyFields(ApplyField(e, fs[0]), fs[1..])
  }

  lemma {:induction false} DecodeAppliesFields(e: VersionEdit, fs: seq<Field>)
    requires forall f :: f in fs ==> ValidField(f)
    ensures Decode(EncodeFields(fs), e) == Ok(ApplyFields(e, fs))
    decreases fs
  {
    if fs != [] {
      FieldRoundTrip(fs[0], EncodeFields(fs[1..]));
      DecodeAppliesFields(ApplyField(e, fs[0]), fs[1..]);
    }
  }

  lemma {:induction false} ApplyFieldsConcat(e: VersionEdit, a: seq<Field>, b: seq<Field>)
    ensures ApplyFields(e, a + b) == ApplyFields(ApplyFields(e, a), b)
    decreases a
  {
    if a == [] {
      assert a + b == b;
    } else {
      assert (a + b)[1..] == a[1..] + b && (a + b)[0] == a[0];
      ApplyFieldsConcat(ApplyField(e, a[0]), a[1..], b);
    }
  }

  lemma {:induction false} ApplyPointers(e: VersionEdit, ps: seq<(nat, Bytes)>)
    ensures ApplyFields(e, Pointers(ps)) == e.(compactPointers := e.compactPointers + ps)
    decreases ps
  {
    if ps == [] {
      assert e.compactPointers + ps == e.compactPointers;
    } else {
      assert Pointers(ps)[1..] == Pointers(ps[1..]);
      ApplyPointers(ApplyField(e, Pointers(ps)[0]), ps[1..]);
      assert e.compactPointers + [(ps[0].0, ps[0].1)] + ps[1..] == e.compactPointers + ps;
    }
  }

  function ElementsOf(order: seq<(nat, nat)>): (r: set<(nat, nat)>) {
    set d | d in order
  }

  lemma ElementsStep(order: seq<(nat, nat)>, before: set<(nat, nat)>)
    requires order != []
    ensures before + {order[0]} + ElementsOf(order[1..]) == before + ElementsOf(order)
  {
    assert order == [order[0]] + order[1..];
  }

  lemma {:induction false} ApplyDeletions(e: VersionEdit, order: seq<(nat, nat)>)
    ensures ApplyFields(e, Deletions(order)) == e.(deletedFiles := e.deletedFiles + ElementsOf(order))
    decreases order
  {
    if order == [] {
      assert e.deletedFiles + ElementsOf(order) == e.deletedFiles;
    } else {
      assert Deletions(order)[1..] == Deletions(order[1..]);
      var next := ApplyField(e, Deletions(order)[0]);
      assert next.deletedFiles == e.deletedFiles + {order[0]};
      ApplyDeletions(next, order[1..]);
      ElementsStep(order, e.deletedFiles);
    }
  }

  lemma {:induction false} ApplyAdditions(e: VersionEdit, ns: seq<(nat, Meta)>)
    ensures ApplyFields(e, Additions(ns)) == e.(newFiles := e.newFiles + ns)
    decreases ns
  {
    if ns == [] {
      assert e.newFiles + ns == e.newFiles;
    } else {
      assert Additions(ns)[1..] == Additions(ns[1..]);
      ApplyAdditions(ApplyField(e, Additions(ns)[0]), ns[1..]);
      assert e.newFiles + [(ns[0].0, ns[0].1)] + ns[1..] == e.newFiles + ns;
    }
  }

  lemma ApplyOne(e: VersionEdit, f: Field)
    ensures ApplyFields(e, [f]) == ApplyField(e, f)
  {
    assert ApplyFields(ApplyField(e, f), []) == ApplyField(e, f);
  }

  lemma ApplyOptional(e: VersionEdit, o: Option<nat>, c: Counter, rest: seq<Field>)
    ensures ApplyFields(e, Optional(o, c) + rest)
            == ApplyFields(if o.Some? then ApplyField(e, Number(c, o.value)) else e, rest)
  {
    ApplyFieldsConcat(e, Optional(o, c), rest);
    if o.Some? { ApplyOne(e, Number(c, o.value)); }
  }

  lemma ApplyHeader(e: VersionEdit)
    ensures ApplyFields(EMPTY, Header(e)) == e.(compactPointers := [], deletedFiles := {}, newFiles := [])
  {
    var s4 := Optional(e.lastSequence, LastSequence);
    var s3 := Optional(e.nextFile, NextFileNumber) + s4;
    var s2 := Optional(e.prevLogNumber, PrevLogNumber) + s3;
    var s1 := Optional(e.logNumber, LogNumber) + s2;
    ApplyFieldsConcat(EMPTY, OptionalName(e.comparator), s1);
    if e.comparator.Some? { ApplyOne(EMPTY, Comparator(e.comparator.value)); }
    var e0 := EMPTY.(comparator := e.comparator);
    ApplyOptional(e0, e.logNumber, LogNumber, s2);
    var e1 := e0.(logNumber := e.logNumber);
    ApplyOptional(e1, e.prevLogNumber, PrevLogNumber, s3);
    var e2 := e1.(prevLogNumber := e.prevLogNumber);
    ApplyOptional(e2, e.nextFile, NextFileNumber, s4);
    var e3 := e2.(nextFile := e.nextFile);
    assert s4 + [] == s4;
    ApplyOptional(e3, e.lastSequence, LastSequence, []);
  }

  lemma ApplyAll(e: VersionEdit, order: seq<(nat, nat)>)
    requires Enumerates(order, e.deletedFiles)
    ensures ApplyFields(EMPTY, FieldsOf(e, order)) == e
  {
    var h, p, d, a := Header(e), Pointers(e.compactPointers), Deletions(order), Additions(e.newFiles);
    ApplyFieldsConcat(EMPTY, h, p + (d + a));
    ApplyHeader(e);
    var e0 := e.(compactPointers := [], deletedFiles := {}, newFiles := []);
    ApplyFieldsConcat(e0, p, d + a);
    ApplyPointers(e0, e.compactPointers);
    var e1 := e0.(compactPointers := [] + e.compactPointers);
    ApplyFieldsConcat(e1, d, a);
    ApplyDeletions(e1, order);
    var e2 := e1.(deletedFiles := {} + ElementsOf(order));
    ApplyAdditions(e2, e.newFiles);
    assert [] + e.compactPointers == e.compactPointers && [] + e.newFiles == e.newFiles;
    assert {} + ElementsOf(order) == e.deletedFiles;
  }

  /** Decoding what EncodeTo wrote gives the edit back. */
  lemma EditRoundTrip(e: VersionEdit, order: seq<(nat, nat)>)
    requires ValidEdit(e, order)
    ensures Decode(EncodeFields(FieldsOf(e, order)), EMPTY) == Ok(e)
  {
    DecodeAppliesFields(EMPTY, FieldsOf(e, order));
    ApplyAll(e, order);
  }

  // ----- the bytes of an edit -----

  const SAMPLE := VersionEdit(Some([0x63]), Some(3), Some(0), Some(150), Some(9), [(1, [0xff])], {(2, 7)},
                              [(3, Meta(8, 200, [0x61], [0x62, 0x63]))])

  lemma SampleFields()
    ensures FieldsOf(SAMPLE, [(2, 7)]) ==
            [Comparator([0x63]), Number(LogNumber, 3), Number(PrevLogNumber, 0), Number(NextFileNumber, 150),
             Number(LastSequence, 9), CompactPointer(1, [0xff]), DeletedFile(2, 7),
             NewFile(3, Meta(8, 200, [0x61], [0x62, 0x63]))]
  {}

  /** Every kind of counter, with its tag. */
  lemma CounterBytes()
    ensures EncodeField(Number(LogNumber, 3)) == [0x02, 0x03]
    ensures EncodeField(Number(PrevLogNumber, 0)) == [0x09, 0x00]
    ensures EncodeField(Number(NextFileNumber, 150)) == [0x03, 0x96, 0x01]
    ensures EncodeField(Number(LastSequence, 9)) == [0x04, 0x09]
  {
    VarintStep(150);
  }

  /** Every other kind of field but new files. */
  lemma FieldBytes()
    ensures EncodeField(Comparator([0x63])) == [0x01, 0x01, 0x63]
    ensures EncodeField(CompactPointer(1, [0xff])) == [0x05, 0x01, 0x01, 0xff]
    ensures EncodeField(DeletedFile(2, 7)) == [0x06, 0x02, 0x07]
  {}

  lemma SmallVarints()
    ensures Varint(1) == [0x01] && Varint(2) == [0x02] && Varint(3) == [0x03] && Varint(7) == [0x07] && Varint(8) == [0x08]
    ensures Varint(200) == [0xc8, 0x01]
  {
    VarintStep(200);
  }

  lemma NewFileBytes()
    ensures EncodeField(NewFile(3, Meta(8, 200, [0x61], [0x62, 0x63]))) ==
            [0x07, 0x03, 0x08, 0xc8, 0x01, 0x01, 0x61, 0x02, 0x62, 0x63]
  {
    SmallVarints();
    var a, b := LengthPrefixed([0x61]), LengthPrefixed([0x62, 0x63]);
    assert a + b == [0x01, 0x61, 0x02, 0x62, 0x63];
    JoinFive(Varint(3), Varint(8), Varint(200), a, b);
    assert NewFileBody(3, Meta(8, 200, [0x61], [0x62, 0x63])) == ([0x03, 0x08] + [0xc8, 0x01]) + (a + b);
  }

  lemma JoinFive(a: Bytes, b: Bytes, c: Bytes, d: Bytes, e: Bytes)
    ensures a + (b + (c + (d + e))) == ((a + b) + c) + (d + e)
  {}

  /** An edit with a field of every kind, as its bytes. */
  lemma SampleBytes()
    ensures EncodeFields(FieldsOf(SAMPLE, [(2, 7)])) ==
            (([0x01, 0x01, 0x63] + [0x02, 0x03]) + ([0x09, 0x00] + [0x03, 0x96, 0x01])) +
            (([0x04, 0x09] + [0x05, 0x01, 0x01, 0xff]) +
             ([0x06, 0x02, 0x07] + [0x07, 0x03, 0x08, 0xc8, 0x01, 0x01, 0x61, 0x02, 0x62, 0x63]))
  {
    SampleFields();
    CounterBytes();
    FieldBytes();
    NewFileBytes();
    EncodeFour(Comparator([0x63]), Number(LogNumber, 3), Number(PrevLogNumber, 0), Number(NextFileNumber, 150));
    EncodeFour(Number(LastSequence, 9), CompactPointer(1, [0xff]), DeletedFile(2, 7), NewFile(3, Meta(8, 200, [0x61], [0x62, 0x63])));
    SampleHalves();
  }

  lemma SampleHalves()
    ensures EncodeFields(FieldsOf(SAMPLE, [(2, 7)])) ==
            EncodeFields([Comparator([0x63]), Number(LogNumber, 3), Number(PrevLogNumber, 0), Number(NextFileNumber, 150)]) +
            EncodeFields([Number(LastSequence, 9), CompactPointer(1, [0xff]), DeletedFile(2, 7),
                          NewFile(3, Meta(8, 200, [0x61], [0x62, 0x63]))])
  {
    SampleFields();
    var a := [Comparator([0x63]), Number(LogNumber, 3), Number(PrevLogNumber, 0), Number(NextFileNumber, 150)];
    var b := [Number(LastSequence, 9), CompactPointer(1, [0xff]), DeletedFile(2, 7), NewFile(3, Meta(8, 200, [0x61], [0x62, 0x63]))];
    assert FieldsOf(SAMPLE, [(2, 7)]) == a + b;
    EncodeFieldsConcat(a, b);
  }

  lemma EncodeFour(a: Field, b: Field, c: Field, d: Field)
    ensures EncodeFields([a, b, c, d]) == (EncodeField(a) + EncodeField(b)) + (EncodeField(c) + EncodeField(d))
  {
    assert [a, b, c, d] == [a, b] + [c, d];
    EncodeFieldsConcat([a, b], [c, d]);
    EncodeTwo(a, b);
    EncodeTwo(c, d);
  }

  lemma EncodeTwo(a: Field, b: Field)
    ensures EncodeFields([a, b]) == EncodeField(a) + EncodeField(b)
  {
    assert [a, b] == [a] + [b];
    EncodeFieldsConcat([a], [b]);
    EncodeOne(a);
    EncodeOne(b);
  }
}
