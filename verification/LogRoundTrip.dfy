/** What the log reader makes of what the log writer wrote, whole or cut short
    (doc/log_format.md; db/log_writer.cc, db/log_reader.cc).

    `LogOf` is the file a list of records becomes.  Cut anywhere, it reads back
    as the records that lie wholly before the cut, with nothing reported. */
module LogRoundTrip {
  import opened Keys
  import opened Lookup
  import opened Coding
  import opened Log
  import Crc

  /** The bytes left for the reader, from offset `off` of a block, are the
      beginning of the fragments' layout; `buffer` ends with its block. */
  ghost predicate Ahead(s: State, off: nat, fs: seq<Fragment>) {
    off <= BLOCK && Fits(off, fs) && s.buffer + s.file <= Layout(off, fs) &&
    if s.eof then s.file == [] && off + |s.buffer| < BLOCK else off + |s.buffer| == BLOCK
  }

  lemma PrefixDrop(a: Bytes, b: Bytes, c: Bytes)
    requires a <= b + c && |b| <= |a|
    ensures a[..|b|] == b && a[|b|..] <= c
  {
    assert a == (b + c)[..|a|];
  }

  // ----- one physical record -----

  lemma HeaderReads(f: Fragment)
    requires |f.data| < 65536
    ensures var h := Header(f);
            Length(h) == |f.data| && h[6] == f.kind && FixedValue(h[..4]) == Checksum(f)
  {
    var h := Header(f);
    assert h[..4] == Fixed(Checksum(f), 4);
    assert Pow256(3) == 0x100_0000 && Pow256(4) == 0x1_0000_0000;
    FixedRoundTrip(Checksum(f), 4);
  }

  lemma ParsesFragment(s: State, f: Fragment, rest: Bytes)
    requires |f.data| < 65536 && (f.kind != 0 || f.data != [])
    requires s.buffer == Physical(f) + rest
    ensures Parse(s) == Scan(f.kind, f.data, s.(buffer := rest), [])
  {
    var b := s.buffer;
    HeaderReads(f);
    assert b[..HEADER] == Header(f);
    assert b[..4] == Header(f)[..4];
    assert Length(b) == Length(Header(f));
    assert b[HEADER..HEADER + |f.data|] == f.data;
    assert b[6..HEADER + |f.data|] == [f.kind] + f.data;
    assert b[HEADER + |f.data|..] == rest;
    WordRoundTrip(Crc.Mask(Crc.Extended(0, Octets([f.kind] + f.data))));
    Crc.UnmaskUndoesMask(Crc.Extended(0, Octets([f.kind] + f.data)));
  }

  /** A fragment cut short by the end of the file is no error. */
  lemma ParsesCut(s: State, f: Fragment)
    requires |f.data| < 65536 && s.eof && HEADER <= |s.buffer| < HEADER + |f.data| && s.buffer <= Physical(f)
    ensures Parse(s) == Scan(EOF, [], s.(buffer := []), [])
  {
    HeaderReads(f);
    assert s.buffer[..HEADER] == Header(f);
    assert Length(s.buffer) == Length(Header(f));
  }

  // ----- one physical read -----

  /** What a read must do when the next fragment takes `need` bytes. */
  ghost predicate ReadsFirst(s: State, off: nat, fs: seq<Fragment>, need: nat)
    requires off <= BLOCK && fs != [] && Fits(off, fs)
  {
    var p := NextPhysical(s);
    p.drops == [] &&
    if need <= Left(s) then
      p.kind == fs[0].kind && p.data == fs[0].data && Left(p.state) == Left(s) - need
      && Ahead(p.state, OffsetAfter(off, fs[0]), fs[1..])
    else p.kind == EOF
  }

  lemma ReadsWhole(s: State, f: Fragment, more: Bytes)
    requires |f.data| < 65536 && (f.kind != 0 || f.data != []) && HEADER + |f.data| <= |s.buffer|
    requires s.buffer + s.file <= Physical(f) + more
    ensures var rest := s.buffer[HEADER + |f.data|..];
            NextPhysical(s) == Scan(f.kind, f.data, s.(buffer := rest), []) && rest + s.file <= more
  {
    SplitBuffer(s.buffer, s.file, Physical(f), more);
    ParsesFragment(s, f, s.buffer[HEADER + |f.data|..]);
  }

  lemma ReadsCut(s: State, f: Fragment, more: Bytes)
    requires |f.data| < 65536 && s.eof && s.file == [] && |s.buffer| < HEADER + |f.data|
    requires s.buffer + s.file <= Physical(f) + more
    ensures NextPhysical(s).kind == EOF && NextPhysical(s).drops == []
  {
    if HEADER <= |s.buffer| {
      CutPrefix(s.buffer, Physical(f), more);
      ParsesCut(s, f);
    }
  }

  lemma CutPrefix(buffer: Bytes, first: Bytes, more: Bytes)
    requires buffer + [] <= first + more && |buffer| < |first|
    ensures buffer <= first
  {
    assert buffer + [] == buffer;
  }

  lemma NoTrailer(off: nat, fs: seq<Fragment>)
    requires off + HEADER <= BLOCK && fs != [] && Fits(off, fs)
    ensures Layout(off, fs) == Physical(fs[0]) + Layout(OffsetAfter(off, fs[0]), fs[1..])
    ensures OffsetAfter(off, fs[0]) == off + HEADER + |fs[0].data|
  {
    LayoutStep(off, fs);
    assert [] + Physical(fs[0]) == Physical(fs[0]);
  }

  lemma ReadsInBlock(s: State, off: nat, fs: seq<Fragment>)
    requires Ahead(s, off, fs) && fs != [] && HEADER <= BLOCK - off && (s.eof || HEADER <= |s.buffer|)
    ensures ReadsFirst(s, off, fs, HEADER + |fs[0].data|)
  {
    var f := fs[0];
    NoTrailer(off, fs);
    if HEADER + |f.data| <= |s.buffer| {
      ReadsWhole(s, f, Layout(OffsetAfter(off, f), fs[1..]));
    } else {
      ReadsCut(s, f, Layout(OffsetAfter(off, f), fs[1..]));
    }
  }

  lemma SplitBuffer(buffer: Bytes, file: Bytes, first: Bytes, more: Bytes)
    requires buffer + file <= first + more && |first| <= |buffer|
    ensures buffer == first + buffer[|first|..] && buffer[|first|..] + file <= more
  {
    PrefixDrop(buffer + file, first, more);
    assert (buffer + file)[..|first|] == buffer[..|first|];
    assert (buffer + file)[|first|..] == buffer[|first|..] + file;
  }

  lemma FitsPastTrailer(off: nat, fs: seq<Fragment>)
    requires off <= BLOCK && BLOCK - off < HEADER && fs != [] && Fits(off, fs)
    ensures Fits(0, fs) && OffsetAfter(0, fs[0]) == OffsetAfter(off, fs[0])
  {}

  lemma PastTrailer(off: nat, fs: seq<Fragment>)
    requires off <= BLOCK && BLOCK - off < HEADER && fs != [] && Fits(off, fs)
    ensures Fits(0, fs) && Layout(off, fs) == Trailer(off) + Layout(0, fs) && OffsetAfter(0, fs[0]) == OffsetAfter(off, fs[0])
  {
    FitsPastTrailer(off, fs);
    LayoutStep(off, fs);
    NoTrailer(0, fs);
    Rejoin(Trailer(off), Physical(fs[0]), Layout(OffsetAfter(off, fs[0]), fs[1..]));
  }

  lemma RefillDrops(s: State, trailer: Bytes, body: Bytes)
    requires s.buffer + s.file <= trailer + body && |trailer| == |s.buffer|
    ensures Refill(s).buffer + Refill(s).file <= body
  {
    SplitBuffer(s.buffer, s.file, trailer, body);
    assert s.buffer[|trailer|..] + s.file == s.file;
    assert Refill(s).buffer + Refill(s).file == s.file;
  }

  /** The trailer is skipped, and the next block read. */
  lemma RefillsBlock(s: State, off: nat, fs: seq<Fragment>)
    requires Ahead(s, off, fs) && fs != [] && |s.buffer| < HEADER && !s.eof
    ensures var t := Refill(s); Ahead(t, 0, fs) && Left(t) == Left(s) - |s.buffer|
    ensures |Trailer(off)| == |s.buffer|
  {
    PastTrailer(off, fs);
    RefillDrops(s, Trailer(off), Layout(0, fs));
  }

  lemma ReadsFragment(s: State, off: nat, fs: seq<Fragment>)
    requires Ahead(s, off, fs) && fs != []
    ensures ReadsFirst(s, off, fs, |Trailer(off)| + HEADER + |fs[0].data|)
  {
    if |s.buffer| < HEADER && !s.eof {
      RefillsBlock(s, off, fs);
      ReadsInBlock(Refill(s), 0, fs);
    } else if HEADER <= BLOCK - off {
      ReadsInBlock(s, off, fs);
    }
  }

  lemma ReadsNothing(s: State, off: nat)
    requires Ahead(s, off, [])
    ensures NextPhysical(s).kind == EOF && NextPhysical(s).drops == []
  {}

  // ----- one record -----

  lemma {:induction false} LayoutConcat(off: nat, a: seq<Fragment>, b: seq<Fragment>)
    requires off <= BLOCK && Fits(off, a)
    ensures Fits(off, a + b) <==> Fits(End(off, a), b)
    ensures Fits(off, a + b) ==> Layout(off, a + b) == Layout(off, a) + Layout(End(off, a), b) && End(off, a + b) == End(End(off, a), b)
    decreases |a|
  {
    if a == [] {
      assert a + b == b;
    } else {
      assert (a + b)[1..] == a[1..] + b;
      LayoutConcat(OffsetAfter(off, a[0]), a[1..], b);
    }
  }

  /** The reader's outcome on a record that takes `need` bytes and ends at `end`. */
  ghost predicate ReadsRecord(o: Outcome, s: State, need: nat, record: Bytes, end: nat, more: seq<Fragment>, drops: seq<nat>) {
    o.drops == drops &&
    if need <= Left(s) then
      o.record == Some(record) && Left(o.state) == Left(s) - need && Ahead(o.state, end, more)
    else o.record == None
  }

  lemma RecordGoesOn(s: State, inFragment: bool, scratch: Bytes, drops: seq<nat>)
    requires NextPhysical(s).drops == []
    ensures var p := NextPhysical(s); var o := NextRecord(s, inFragment, scratch, drops);
            (p.kind == EOF ==> o.record == None && o.drops == drops) &&
            (p.kind == FULL && !inFragment ==> o == Outcome(Some(p.data), p.state, drops)) &&
            (p.kind == FIRST && !inFragment ==> o == NextRecord(p.state, true, p.data, drops)) &&
            (p.kind == MIDDLE && inFragment ==> o == NextRecord(p.state, true, scratch + p.data, drops)) &&
            (p.kind == LAST && inFragment ==> o == Outcome(Some(scratch + p.data), p.state, drops))
  {
    PhysicalShrinks(s);
    assert drops + [] + [] == drops;
  }

  function TailPieces(off: nat, data: Bytes, begin: bool): (r: seq<Fragment>)
    requires off <= BLOCK && OffsetAfter(off, Piece(off, data, begin)) <= BLOCK
  {
    var n := Take(off, data);
    if n == |data| then [] else FragmentsOf(OffsetAfter(off, Piece(off, data, begin)), data[n..], false)
  }

  lemma PiecesOf(off: nat, data: Bytes, begin: bool)
    requires off <= BLOCK
    ensures OffsetAfter(off, Piece(off, data, begin)) <= BLOCK
    ensures FragmentsOf(off, data, begin) == [Piece(off, data, begin)] + TailPieces(off, data, begin)
    ensures Fits(OffsetAfter(off, Piece(off, data, begin)), TailPieces(off, data, begin))
  {
    LastPieces(off, data, begin);
  }

  lemma SizeOfPieces(off: nat, f: Fragment, fs: seq<Fragment>)
    requires off <= BLOCK && Fits(off, [f] + fs)
    ensures Fits(OffsetAfter(off, f), fs) && End(off, [f] + fs) == End(OffsetAfter(off, f), fs)
    ensures |Layout(off, [f] + fs)| == |Trailer(off)| + HEADER + |f.data| + |Layout(OffsetAfter(off, f), fs)|
  {
    assert ([f] + fs)[1..] == fs;
    LayoutStep(off, [f] + fs);
  }

  lemma FirstOf(f: Fragment, fs: seq<Fragment>, more: seq<Fragment>)
    ensures (([f] + fs) + more)[0] == f && (([f] + fs) + more)[1..] == fs + more
  {}

  /** The fragments of a record, first and rest. */
  lemma RecordPieces(off: nat, data: Bytes, begin: bool, more: seq<Fragment>)
    requires off <= BLOCK && Fits(off, FragmentsOf(off, data, begin) + more)
    ensures OffsetAfter(off, Piece(off, data, begin)) <= BLOCK
    ensures var fs, f, rest := FragmentsOf(off, data, begin), Piece(off, data, begin), TailPieces(off, data, begin);
            (fs + more)[0] == f && (fs + more)[1..] == rest + more &&
            Fits(OffsetAfter(off, f), rest) && End(off, fs) == End(OffsetAfter(off, f), rest) &&
            |Layout(off, fs)| == |Trailer(off)| + HEADER + Take(off, data) + |Layout(OffsetAfter(off, f), rest)|
  {
    PiecesOf(off, data, begin);
    SizeOfPieces(off, Piece(off, data, begin), TailPieces(off, data, begin));
    FirstOf(Piece(off, data, begin), TailPieces(off, data, begin), more);
  }

  lemma {:induction false} ReadsWholeRecord(s: State, off: nat, data: Bytes, begin: bool, more: seq<Fragment>, scratch: Bytes, drops: seq<nat>)
    requires off <= BLOCK && Ahead(s, off, FragmentsOf(off, data, begin) + more) && (begin ==> scratch == [])
    ensures var fs := FragmentsOf(off, data, begin);
            ReadsRecord(NextRecord(s, !begin, scratch, drops), s, |Layout(off, fs)|, scratch + data, End(off, fs), more, drops)
    decreases |data|, if Start(off) + HEADER == BLOCK then 1 else 0
  {
    var fs, f, n := FragmentsOf(off, data, begin), Piece(off, data, begin), Take(off, data);
    RecordPieces(off, data, begin, more);
    ReadsFragment(s, off, fs + more);
    RecordGoesOn(s, !begin, scratch, drops);
    WholeAndRest(scratch, data, n);
    if NextPhysical(s).kind != EOF && n < |data| {
      ReadsWholeRecord(NextPhysical(s).state, OffsetAfter(off, f), data[n..], false, more, scratch + f.data, drops);
    } else {
      assert [] + more == more;
    }
  }

  lemma WholeAndRest(scratch: Bytes, data: Bytes, n: nat)
    requires n <= |data|
    ensures scratch + data == (scratch + data[..n]) + data[n..]
    ensures scratch == [] ==> scratch + data[..n] == data[..n]
    ensures n == |data| ==> scratch + data[..n] == scratch + data
  {}

  // ----- whole logs -----

  function Stream(off: nat, records: seq<Bytes>): (fs: seq<Fragment>)
    requires off <= BLOCK
    ensures Fits(off, fs)
    decreases |records|
  {
    if records == [] then []
    else
      var fs := FragmentsOf(off, records[0], true);
      LayoutConcat(off, fs, Stream(End(off, fs), records[1..]));
      fs + Stream(End(off, fs), records[1..])
  }

  /** The log file that holds these records. */
  function LogOf(records: seq<Bytes>): (r: Bytes) {
    Layout(0, Stream(0, records))
  }

  lemma OnePiece(off: nat, data: Bytes, begin: bool)
    requires off <= BLOCK && Start(off) + HEADER + |data| <= BLOCK
    ensures FragmentsOf(off, data, begin) == [Fragment(KindOf(begin, true), data)]
    ensures End(off, FragmentsOf(off, data, begin)) == Start(off) + HEADER + |data|
  {
    assert data[..|data|] == data;
  }

  lemma PieceAndMore(off: nat, data: Bytes, begin: bool, n: nat)
    requires off <= BLOCK && Start(off) + HEADER + n == BLOCK && n < |data|
    ensures FragmentsOf(off, data, begin) == [Fragment(KindOf(begin, false), data[..n])] + FragmentsOf(BLOCK, data[n..], false)
    ensures End(off, FragmentsOf(off, data, begin)) == End(BLOCK, FragmentsOf(BLOCK, data[n..], false))
  {
    PiecesOf(off, data, begin);
    SizeOfPieces(off, Piece(off, data, begin), TailPieces(off, data, begin));
  }

  /** An example with records of 1000, 97270 and 8000 bytes: the second fills up the
      first block and the whole of the second one, and leaves six bytes of the
      third, so that the last goes to a fourth. */
  lemma ExampleFragments(a: Bytes, b: Bytes, c: Bytes)
    requires |a| == 1000 && |b| == 97270 && |c| == 8000
    ensures Stream(0, [a, b, c]) ==
            [Fragment(1, a), Fragment(2, b[..31754]), Fragment(3, b[31754..64515]), Fragment(4, b[64515..]), Fragment(1, c)]
  {
    var more, last := b[31754..], b[31754..][32761..];
    OnePiece(0, a, true);
    PieceAndMore(1007, b, true, 31754);
    PieceAndMore(BLOCK, more, false, 32761);
    OnePiece(BLOCK, last, false);
    OnePiece(32762, c, true);
    assert more[..32761] == b[31754..64515] && last == b[64515..];
    assert [a, b, c][1..] == [b, c] && [b, c][1..] == [c] && [c][1..] == [];
    assert Stream(32762, [c]) == [Fragment(1, c)];
    assert FragmentsOf(1007, b, true) == [Fragment(2, b[..31754]), Fragment(3, b[31754..64515]), Fragment(4, b[64515..])];
    assert Stream(1007, [b, c]) == FragmentsOf(1007, b, true) + [Fragment(1, c)];
  }

  /** The bytes behind the checksum of a header, and those left of a block. */
  lemma ExampleBytes(data: Bytes)
    requires |data| < 65536
    ensures Header(Fragment(1, data))[4..] == [|data| % 256, |data| / 256, 1]
    ensures Trailer(32762) == [0, 0, 0, 0, 0, 0] && Trailer(32761) == []
  {}

  /** How many leading records lie wholly within the first `n` bytes. */
  function Complete(off: nat, records: seq<Bytes>, n: nat): (k: nat)
    requires off <= BLOCK
    ensures k <= |records|
    decreases |records|
  {
    if records == [] then 0
    else
      var fs := FragmentsOf(off, records[0], true);
      if n < |Layout(off, fs)| then 0
      else 1 + Complete(End(off, fs), records[1..], n - |Layout(off, fs)|)
  }

  /** The bytes that records take from offset `off` on. */
  function Size(off: nat, rs: seq<Bytes>): (n: nat)
    requires off <= BLOCK
    decreases |rs|
  {
    if rs == [] then 0
    else |Layout(off, FragmentsOf(off, rs[0], true))| + Size(End(off, FragmentsOf(off, rs[0], true)), rs[1..])
  }

  lemma StreamStep(off: nat, rs: seq<Bytes>)
    requires off <= BLOCK && rs != []
    ensures var fs := FragmentsOf(off, rs[0], true); var e := End(off, fs);
            Stream(off, rs) == fs + Stream(e, rs[1..]) && Fits(e, Stream(e, rs[1..])) &&
            Layout(off, Stream(off, rs)) == Layout(off, fs) + Layout(e, Stream(e, rs[1..]))
  {
    var fs := FragmentsOf(off, rs[0], true);
    LayoutConcat(off, fs, Stream(End(off, fs), rs[1..]));
  }

  lemma {:induction false} SizeOf(off: nat, rs: seq<Bytes>)
    requires off <= BLOCK
    ensures Size(off, rs) == |Layout(off, Stream(off, rs))|
    decreases |rs|
  {
    if rs != [] {
      StreamStep(off, rs);
      SizeOf(End(off, FragmentsOf(off, rs[0], true)), rs[1..]);
    }
  }

  lemma SizeStep(off: nat, rs: seq<Bytes>, k: nat)
    requires off <= BLOCK && 0 < k <= |rs|
    ensures var fs := FragmentsOf(off, rs[0], true);
            Size(off, rs[..k]) == |Layout(off, fs)| + Size(End(off, fs), rs[1..][..k - 1])
  {
    assert rs[..k][1..] == rs[1..][..k - 1];
  }

  lemma {:induction false} CompleteCounts(off: nat, records: seq<Bytes>, n: nat, k: nat)
    requires off <= BLOCK && k <= |records|
    ensures k <= Complete(off, records, n) <==> Size(off, records[..k]) <= n
    decreases |records|
  {
    if k > 0 {
      var size := |Layout(off, FragmentsOf(off, records[0], true))|;
      SizeStep(off, records, k);
      if size <= n { CompleteCounts(End(off, FragmentsOf(off, records[0], true)), records[1..], n - size, k - 1); }
    } else {
      assert records[..0] == [];
    }
  }

  /** The first `k` records are complete by byte `n` exactly when their own log is no longer than that. */
  lemma CompleteIs(records: seq<Bytes>, n: nat, k: nat)
    requires k <= |records|
    ensures k <= Complete(0, records, n) <==> |LogOf(records[..k])| <= n
  {
    CompleteCounts(0, records, n, k);
    SizeOf(0, records[..k]);
  }

  lemma {:induction false} RecordShrinks(s: State, inFragment: bool, scratch: Bytes, drops: seq<nat>)
    ensures var o := NextRecord(s, inFragment, scratch, drops); o.record.Some? ==> Left(o.state) < Left(s)
    decreases Left(s)
  {
    PhysicalShrinks(s);
    var p := NextPhysical(s);
    match Judge(p.kind, p.data, inFragment, scratch)
    case Return(record, more) =>
    case Continue(f, t, more) => RecordShrinks(p.state, f, t, drops + p.drops + more);
  }

  datatype Contents = Contents(records: seq<Bytes>, drops: seq<nat>)

  /** All that a reader returns before it reaches the end of the file. */
  function ReadAll(s: State, drops: seq<nat>): (r: Contents)
    decreases Left(s)
  {
    RecordShrinks(s, false, [], drops);
    var o := NextRecord(s, false, [], drops);
    match o.record
    case None => Contents([], o.drops)
    case Some(record) =>
      var rest := ReadAll(o.state, o.drops);
      Contents([record] + rest.records, rest.drops)
  }

  function Onto(records: seq<Bytes>, c: Contents): (r: Contents) {
    c.(records := records + c.records)
  }

  lemma OntoNext(records: seq<Bytes>, r: Bytes, c: Contents)
    ensures Onto(records, Contents([r] + c.records, c.drops)) == Onto(records + [r], c)
    ensures Onto(records, Contents([], c.drops)) == Contents(records, c.drops)
  {
    assert records + ([r] + c.records) == (records + [r]) + c.records;
  }

  method ReadLog(contents: Bytes) returns (records: seq<Bytes>, reports: seq<nat>)
    ensures Contents(records, reports) == ReadAll(State([], contents, false), [])
  {
    var reader := new Reader(contents);
    records := [];
    ghost var goal := ReadAll(reader.Now(), reader.reports);
    var more := true;
    while more
      invariant goal == if more then Onto(records, ReadAll(reader.Now(), reader.reports)) else Contents(records, reader.reports)
      invariant fresh(reader)
      decreases more, Left(reader.Now())
    {
      RecordShrinks(reader.Now(), false, [], reader.reports);
      ReadAllStep(reader.Now(), reader.reports);
      var record := reader.ReadRecord();
      OntoNext(records, if record.Some? then record.value else [], ReadAll(reader.Now(), reader.reports));
      if record.Some? {
        records := records + [record.value];
      } else {
        OntoNext(records, [], Contents([], reader.reports));
        more := false;
      }
    }
    reports := reader.reports;
  }

  lemma {:induction false} LogConcat(off: nat, a: seq<Bytes>, b: seq<Bytes>)
    requires off <= BLOCK
    ensures Stream(off, a + b) == Stream(off, a) + Stream(End(off, Stream(off, a)), b)
    decreases |a|
  {
    if a == [] {
      assert a + b == b;
    } else {
      var fs := FragmentsOf(off, a[0], true);
      assert (a + b)[1..] == a[1..] + b;
      LogConcat(End(off, fs), a[1..], b);
      LayoutConcat(off, fs, Stream(End(off, fs), a[1..]));
    }
  }

  /** Adding the records one after the other writes their log. */
  method WriteLog(records: seq<Bytes>) returns (contents: Bytes)
    ensures contents == LogOf(records)
  {
    var writer := new Writer();
    for i := 0 to |records|
      invariant Wrote(writer, records[..i]) && fresh(writer)
    {
      assert records[..i + 1] == records[..i] + [records[i]];
      AddTo(writer, records[..i], records[i]);
    }
    assert records[..|records|] == records;
    contents := writer.dest;
  }

  ghost predicate Wrote(writer: Writer, records: seq<Bytes>) reads writer {
    writer.Valid() && writer.dest == LogOf(records) && writer.blockOffset == End(0, Stream(0, records))
  }

  method AddTo(writer: Writer, ghost records: seq<Bytes>, record: Bytes)
    requires Wrote(writer, records)
    modifies writer
    ensures Wrote(writer, records + [record])
  {
    AddsRecord(records, record);
    writer.AddRecord(record);
  }

  lemma AddsRecord(records: seq<Bytes>, record: Bytes)
    ensures var off := End(0, Stream(0, records)); var fs := FragmentsOf(off, record, true);
            LogOf(records + [record]) == LogOf(records) + Layout(off, fs) &&
            End(0, Stream(0, records + [record])) == End(off, fs)
  {
    var off := End(0, Stream(0, records));
    LogConcat(0, records, [record]);
    assert FragmentsOf(off, record, true) + [] == FragmentsOf(off, record, true);
    LayoutConcat(0, Stream(0, records), FragmentsOf(off, record, true));
  }

  lemma ReadAllStep(s: State, drops: seq<nat>)
    ensures var o := NextRecord(s, false, [], drops);
            ReadAll(s, drops) == if o.record == None then Contents([], o.drops)
                                 else Contents([o.record.value] + ReadAll(o.state, o.drops).records, ReadAll(o.state, o.drops).drops)
  {
    RecordShrinks(s, false, [], drops);
  }

  /** The first record of a stream, read in one go. */
  lemma ReadsHead(s: State, off: nat, records: seq<Bytes>)
    requires off <= BLOCK && records != [] && Ahead(s, off, Stream(off, records))
    ensures var fs := FragmentsOf(off, records[0], true);
            ReadsRecord(NextRecord(s, false, [], []), s, |Layout(off, fs)|, records[0], End(off, fs), Stream(End(off, fs), records[1..]), [])
  {
    var fs := FragmentsOf(off, records[0], true);
    ReadsWholeRecord(s, off, records[0], true, Stream(End(off, fs), records[1..]), [], []);
    assert [] + records[0] == records[0];
  }

  lemma Longer(records: seq<Bytes>, k: nat)
    requires records != [] && k < |records|
    ensures [records[0]] + records[1..][..k] == records[..k + 1]
  {}

  /** One record read, and the first `k` of the rest. */
  lemma ReadsOneMore(s: State, records: seq<Bytes>, o: Outcome, k: nat)
    requires records != [] && o == NextRecord(s, false, [], []) && o.drops == []
    requires o.record.Some? ==> o.record.value == records[0] && k < |records| && ReadAll(o.state, []) == Contents(records[1..][..k], [])
    ensures ReadAll(s, []) == Contents(if o.record.Some? then records[..k + 1] else [], [])
  {
    ReadAllStep(s, []);
    if o.record.Some? {
      Longer(records, k);
    }
  }

  lemma {:induction false} ReadsPrefix(s: State, off: nat, records: seq<Bytes>)
    requires off <= BLOCK && Ahead(s, off, Stream(off, records))
    ensures ReadAll(s, []) == Contents(records[..Complete(off, records, Left(s))], [])
    decreases |records|
  {
    if records == [] {
      ReadAllStep(s, []);
      ReadsNothing(s, off);
      RecordGoesOn(s, false, [], []);
    } else {
      ReadsHead(s, off, records);
      var fs, o := FragmentsOf(off, records[0], true), NextRecord(s, false, [], []);
      var k := if o.record.Some? then Complete(End(off, fs), records[1..], Left(o.state)) else 0;
      if o.record.Some? {
        ReadsPrefix(o.state, End(off, fs), records[1..]);
      }
      ReadsOneMore(s, records, o, k);
    }
  }

  /** Whatever byte of the log the writer died after, the reader returns exactly
      the records that were complete by then, and reports nothing. */
  lemma CutLogReadsCompleteRecords(records: seq<Bytes>, n: nat)
    requires n <= |LogOf(records)|
    ensures ReadAll(State([], LogOf(records)[..n], false), []) == Contents(records[..Complete(0, records, n)], [])
  {
    var s := State([], LogOf(records)[..n], false);
    StartOfBlock(records);
    assert [] + s.file == s.file;
    assert Ahead(s, BLOCK, Stream(BLOCK, records));
    ReadsPrefix(s, BLOCK, records);
  }

  /** The end of one block is the start of the next. */
  lemma StartOfBlock(records: seq<Bytes>)
    ensures Stream(BLOCK, records) == Stream(0, records)
    ensures Layout(BLOCK, Stream(0, records)) == LogOf(records)
    ensures forall n: nat :: Complete(BLOCK, records, n) == Complete(0, records, n)
  {
    if records != [] {
      SameStart(records[0]);
      var fs := Stream(0, records);
      LayoutStep(0, fs);
      LayoutStep(BLOCK, fs);
    }
  }

  lemma SameStart(record: Bytes)
    ensures FragmentsOf(BLOCK, record, true) == FragmentsOf(0, record, true)
    ensures End(BLOCK, FragmentsOf(0, record, true)) == End(0, FragmentsOf(0, record, true))
    ensures Layout(BLOCK, FragmentsOf(0, record, true)) == Layout(0, FragmentsOf(0, record, true))
  {
    var fs := FragmentsOf(0, record, true);
    assert FragmentsOf(BLOCK, record, true) == fs;
    LayoutStep(0, fs);
    LayoutStep(BLOCK, fs);
  }

  lemma {:induction false} AllComplete(off: nat, records: seq<Bytes>)
    requires off <= BLOCK
    ensures Complete(off, records, |Layout(off, Stream(off, records))|) == |records|
    decreases |records|
  {
    if records != [] {
      var fs := FragmentsOf(off, records[0], true);
      LayoutConcat(off, fs, Stream(End(off, fs), records[1..]));
      AllComplete(End(off, fs), records[1..]);
    }
  }

  /** A log reads back as the records written. */
  lemma LogRoundTrip(records: seq<Bytes>)
    ensures ReadAll(State([], LogOf(records), false), []) == Contents(records, [])
  {
    CutLogReadsCompleteRecords(records, |LogOf(records)|);
    AllComplete(0, records);
    assert LogOf(records)[..|LogOf(records)|] == LogOf(records);
  }

  /** Damage to a payload, confined to four consecutive bytes, is reported and
      the rest of the block dropped. */
  lemma DamageIsReported(s: State, kind: byte, before: Bytes, a: Bytes, b: Bytes, after: Bytes, rest: Bytes)
    requires |a| == |b| == 4 && a != b && |before + a + after| < 65536 && 1 <= kind <= 4
    requires s.buffer == Header(Fragment(kind, before + a + after)) + (before + b + after) + rest
    ensures NextPhysical(s) == Scan(BAD, [], s.(buffer := []), [|s.buffer|])
  {
    var f := Fragment(kind, before + a + after);
    var data := before + b + after;
    HeaderReads(f);
    assert s.buffer[..HEADER] == Header(f);
    assert s.buffer[..4] == Header(f)[..4];
    assert Length(s.buffer) == Length(Header(f));
    assert s.buffer[6..HEADER + |data|] == [kind] + data;
    WordRoundTrip(Crc.Mask(Crc.Extended(0, Octets([kind] + f.data))));
    Crc.UnmaskUndoesMask(Crc.Extended(0, Octets([kind] + f.data)));
    DamageDetected(kind, before, a, b, after);
  }

  lemma DamageDetected(kind: byte, before: Bytes, a: Bytes, b: Bytes, after: Bytes)
    requires |a| == |b| == 4 && a != b
    ensures Crc.Extended(0, Octets([kind] + (before + a + after))) != Crc.Extended(0, Octets([kind] + (before + b + after)))
  {
    SplitOctets([kind], before, a, after);
    SplitOctets([kind], before, b, after);
    OctetsDiffer(a, b);
    Crc.DetectsBursts(0, Octets([kind] + before), Octets(a), Octets(b), Octets(after));
  }

  lemma SplitOctets(k: Bytes, before: Bytes, a: Bytes, after: Bytes)
    ensures Octets(k + (before + a + after)) == Octets(k + before) + Octets(a) + Octets(after)
  {
    assert k + (before + a + after) == (k + before) + a + after;
    OctetsConcat((k + before) + a, after);
    OctetsConcat(k + before, a);
  }

  lemma OctetsDiffer(a: Bytes, b: Bytes)
    requires |a| == |b| && a != b
    ensures Octets(a) != Octets(b)
  {
    var i :| 0 <= i < |a| && a[i] != b[i];
    assert Octets(a)[i] != Octets(b)[i];
  }
}
