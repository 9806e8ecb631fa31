/** The write-ahead log (db/log_format.h, db/log_writer.cc, db/log_reader.cc):
    records split into fragments that never cross a block.

    `Layout` gives the bytes of a list of fragments, `FragmentsOf` the fragments
    of a record, and `NextRecord` what a reader assembles from bytes; the two
    classes compute exactly these. */
module Log {
  import opened Keys
  import opened Lookup
  import opened Coding
  import Crc

  const BLOCK := 32768
  const HEADER := 7

  const FULL: byte := 1
  const FIRST: byte := 2
  const MIDDLE: byte := 3
  const LAST: byte := 4

  datatype Fragment = Fragment(kind: byte, data: Bytes)

  // ----- the format -----

  /** The byte as a bit vector, counted up so that its value is known. */
  function Octet(x: byte): (b: bv8)
    ensures b as int == x
  {
    if x == 0 then 0 else Octet(x - 1) + 1
  }

  function Octets(bs: Bytes): (r: seq<bv8>) {
    seq(|bs|, i requires 0 <= i < |bs| => Octet(bs[i]))
  }

  lemma OctetsConcat(a: Bytes, b: Bytes)
    ensures Octets(a + b) == Octets(a) + Octets(b)
  {}

  function AsNat(x: bv32): (n: nat)
    ensures n < 0x1_0000_0000
  {
    x as nat
  }

  function AsWord(n: nat): (r: bv32)
    requires n < 0x1_0000_0000
  {
    n as bv32
  }

  lemma WordRoundTrip(x: bv32)
    ensures AsWord(AsNat(x)) == x
  {}

  /** The masked checksum of a fragment's type and payload. */
  function Checksum(f: Fragment): (n: nat)
    ensures n < 0x1_0000_0000
  {
    AsNat(Crc.Mask(Crc.Extended(0, Octets([f.kind] + f.data))))
  }

  function Header(f: Fragment): (bs: Bytes)
    requires |f.data| < 65536
    ensures |bs| == HEADER
  {
    Fixed(Checksum(f), 4) + [|f.data| % 256, |f.data| / 256, f.kind]
  }

  function Physical(f: Fragment): (bs: Bytes)
    requires |f.data| < 65536
    ensures |bs| == HEADER + |f.data|
  {
    Header(f) + f.data
  }

  /** Where the next fragment starts: too short a trailer is left unused. */
  function Start(off: nat): (start: nat)
    requires off <= BLOCK
    ensures start + HEADER <= BLOCK
  {
    if BLOCK - off < HEADER then 0 else off
  }

  function Trailer(off: nat): (r: Bytes)
    requires off <= BLOCK
  {
    if BLOCK - off < HEADER then seq(BLOCK - off, i => 0) else []
  }

  function OffsetAfter(off: nat, f: Fragment): (r: nat)
    requires off <= BLOCK
  {
    Start(off) + HEADER + |f.data|
  }

  /** Each fragment ends within its block. */
  predicate Fits(off: nat, fs: seq<Fragment>)
    requires off <= BLOCK
    decreases |fs|
  {
    fs == [] ||
    (1 <= fs[0].kind <= 4 && OffsetAfter(off, fs[0]) <= BLOCK && Fits(OffsetAfter(off, fs[0]), fs[1..]))
  }

  function Layout(off: nat, fs: seq<Fragment>): (r: Bytes)
    requires off <= BLOCK && Fits(off, fs)
    decreases |fs|
  {
    if fs == [] then [] else Trailer(off) + Physical(fs[0]) + Layout(OffsetAfter(off, fs[0]), fs[1..])
  }

  function End(off: nat, fs: seq<Fragment>): (end: nat)
    requires off <= BLOCK && Fits(off, fs)
    ensures end <= BLOCK
    decreases |fs|
  {
    if fs == [] then off else End(OffsetAfter(off, fs[0]), fs[1..])
  }

  // ----- fragmentation -----

  function KindOf(begin: bool, end: bool): (r: byte) {
    if begin && end then FULL else if begin then FIRST else if end then LAST else MIDDLE
  }

  function Take(off: nat, data: Bytes): (n: nat)
    requires off <= BLOCK
    ensures n <= |data|
  {
    var avail := BLOCK - Start(off) - HEADER;
    if |data| < avail then |data| else avail
  }

  function Piece(off: nat, data: Bytes, begin: bool): (r: Fragment)
    requires off <= BLOCK
  {
    Fragment(KindOf(begin, Take(off, data) == |data|), data[..Take(off, data)])
  }

  function FragmentsOf(off: nat, data: Bytes, begin: bool): (fs: seq<Fragment>)
    requires off <= BLOCK
    ensures Fits(off, fs)
    decreases |data|, if Start(off) + HEADER == BLOCK then 1 else 0
  {
    var f := Piece(off, data, begin);
    if Take(off, data) == |data| then [f]
    else [f] + FragmentsOf(OffsetAfter(off, f), data[Take(off, data)..], false)
  }

  class Writer {
    var dest: Bytes
    var blockOffset: nat

    predicate Valid() reads this {
      blockOffset <= BLOCK
    }

    constructor ()
      ensures Valid() && dest == [] && blockOffset == 0
    {
      dest, blockOffset := [], 0;
    }

    method EmitPhysicalRecord(kind: byte, data: Bytes)
      requires blockOffset + HEADER + |data| <= BLOCK
      modifies this
      ensures Valid() && dest == old(dest) + Physical(Fragment(kind, data))
      ensures blockOffset == old(blockOffset) + HEADER + |data|
    {
      var crc := MaskedCrc(kind, data);
      var buf := Fixed(crc, 4) + [|data| % 256, |data| / 256, kind];
      dest := dest + buf;
      dest := dest + data;
      blockOffset := blockOffset + HEADER + |data|;
      Rejoin(old(dest), buf, data);
    }

    method SwitchBlock()
      requires Valid()
      modifies this
      ensures Valid() && dest == old(dest) + Trailer(old(blockOffset)) && blockOffset == Start(old(blockOffset))
    {
      var leftover := BLOCK - blockOffset;
      if leftover < HEADER {
        if leftover > 0 {
          dest := dest + seq(leftover, i => 0);
        }
        blockOffset := 0;
      }
    }

    method EmitPiece(left: Bytes, begin: bool) returns (n: nat)
      requires Valid()
      modifies this
      ensures Valid() && n == Take(old(blockOffset), left)
      ensures dest == old(dest) + (Trailer(old(blockOffset)) + Physical(Piece(old(blockOffset), left, begin)))
      ensures blockOffset == OffsetAfter(old(blockOffset), Piece(old(blockOffset), left, begin))
    {
      SwitchBlock();
      var avail := BLOCK - blockOffset - HEADER;
      n := if |left| < avail then |left| else avail;
      var end := |left| == n;
      var kind := if begin && end then FULL else if begin then FIRST else if end then LAST else MIDDLE;
      EmitPhysicalRecord(kind, left[..n]);
      Rejoin(old(dest), Trailer(old(blockOffset)), Physical(Piece(old(blockOffset), left, begin)));
    }

    method AddRecord(slice: Bytes)
      requires Valid()
      modifies this
      ensures Valid() && dest == old(dest) + Layout(old(blockOffset), FragmentsOf(old(blockOffset), slice, true))
      ensures blockOffset == End(old(blockOffset), FragmentsOf(old(blockOffset), slice, true))
    {
      var left, begin, more := slice, true, true;
      ghost var all := FragmentsOf(blockOffset, slice, true);
      ghost var goal, end := dest + Layout(blockOffset, all), End(blockOffset, all);
      while more
        invariant Valid()
        invariant if more then Remaining(goal, end, dest, blockOffset, left, begin) else goal == dest && end == blockOffset
        decreases more, |left|, if Start(blockOffset) + HEADER == BLOCK then 1 else 0
      {
        FirstPiece(goal, end, dest, blockOffset, left, begin);
        var n := EmitPiece(left, begin);
        more := |left| > n;
        left, begin := left[n..], false;
      }
    }
  }

  /** What `dest` becomes once the rest of a record is written. */
  ghost predicate Remaining(goal: Bytes, end: nat, dest: Bytes, off: nat, left: Bytes, begin: bool)
    requires off <= BLOCK
  {
    goal == dest + Layout(off, FragmentsOf(off, left, begin)) && end == End(off, FragmentsOf(off, left, begin))
  }

  lemma Rejoin(a: Bytes, b: Bytes, c: Bytes)
    ensures (a + b) + c == a + (b + c)
  {}

  lemma LayoutStep(off: nat, fs: seq<Fragment>)
    requires off <= BLOCK && Fits(off, fs) && fs != []
    ensures Layout(off, fs) == (Trailer(off) + Physical(fs[0])) + Layout(OffsetAfter(off, fs[0]), fs[1..])
    ensures End(off, fs) == End(OffsetAfter(off, fs[0]), fs[1..])
  {}

  lemma LastPieces(off: nat, data: Bytes, begin: bool)
    requires off <= BLOCK
    ensures var f, n := Piece(off, data, begin), Take(off, data);
            OffsetAfter(off, f) <= BLOCK && FragmentsOf(off, data, begin)[0] == f &&
            FragmentsOf(off, data, begin)[1..] ==
            if n == |data| then [] else FragmentsOf(OffsetAfter(off, f), data[n..], false)
  {}

  /** Writing a record, one fragment at a time. */
  lemma FirstPiece(goal: Bytes, end: nat, dest: Bytes, off: nat, data: Bytes, begin: bool)
    requires off <= BLOCK && Remaining(goal, end, dest, off, data, begin)
    ensures var f, n := Piece(off, data, begin), Take(off, data);
            var next := dest + (Trailer(off) + Physical(f));
            OffsetAfter(off, f) <= BLOCK &&
            if n == |data| then goal == next && end == OffsetAfter(off, f)
            else Remaining(goal, end, next, OffsetAfter(off, f), data[n..], false)
  {
    var f, fs := Piece(off, data, begin), FragmentsOf(off, data, begin);
    LastPieces(off, data, begin);
    LayoutStep(off, fs);
    Rejoin(dest, Trailer(off) + Physical(f), Layout(OffsetAfter(off, f), fs[1..]));
    assert goal == dest + (Trailer(off) + Physical(f)) + Layout(OffsetAfter(off, f), fs[1..]);
  }

  method MaskedCrc(kind: byte, data: Bytes) returns (crc: nat)
    requires |data| < 65536
    ensures crc == Checksum(Fragment(kind, data))
  {
    var typeCrc := Crc.Extend(0, Octets([kind]), 0);
    var c := Crc.Extend(typeCrc, Octets(data), 0);
    Crc.ExtendedConcat(0, Octets([kind]), Octets(data));
    OctetsConcat([kind], data);
    crc := AsNat(Crc.Mask(c));
  }

  // ----- reading, as a function of what is buffered and what is on file -----

  const EOF := 5  // kEof, next after the largest record type
  const BAD := 6  // kBadRecord

  datatype State = State(buffer: Bytes, file: Bytes, eof: bool)

  /** A physical read: its type, its payload, what it left, and what it reported dropped. */
  datatype Scan = Scan(kind: nat, data: Bytes, state: State, drops: seq<nat>)

  function Refill(s: State): (r: State) {
    var n := if |s.file| < BLOCK then |s.file| else BLOCK;
    State(s.file[..n], s.file[n..], n < BLOCK)
  }

  function Filled(s: State): (r: State) {
    if |s.buffer| < HEADER && !s.eof then Refill(s) else s
  }

  function Length(header: Bytes): (r: nat)
    requires |header| >= HEADER
  {
    var low: nat, high: nat := header[4], header[5];
    low + 256 * high
  }

  lemma FixedValueBound(bs: Bytes)
    requires |bs| == 4
    ensures FixedValue(bs) < 0x1_0000_0000
  {
    assert FixedValue(bs[1..]) == bs[1] + 256 * FixedValue(bs[1..][1..]);
    assert FixedValue(bs[1..][1..]) == bs[2] + 256 * FixedValue(bs[1..][1..][1..]);
    assert FixedValue(bs[1..][1..][1..]) == bs[3] + 256 * FixedValue(bs[1..][1..][1..][1..]);
  }

  /** The checksum a header stores. */
  function StoredCrc(b: Bytes): (r: bv32)
    requires |b| >= HEADER
  {
    FixedValueBound(b[..4]);
    Crc.Unmask(AsWord(FixedValue(b[..4])))
  }

  /** The stored checksum matches the type and payload. */
  predicate ChecksumMatches(b: Bytes)
    requires |b| >= HEADER && HEADER + Length(b) <= |b|
  {
    StoredCrc(b) == Crc.Extended(0, Octets(b[6..HEADER + Length(b)]))
  }

  function Parse(s: State): (r: Scan)
    requires |s.buffer| >= HEADER
  {
    var b, length := s.buffer, Length(s.buffer);
    var cleared := s.(buffer := []);
    if HEADER + length > |b| then
      if !s.eof then Scan(BAD, [], cleared, [|b|]) else Scan(EOF, [], cleared, [])
    else if b[6] == 0 && length == 0 then Scan(BAD, [], cleared, [])
    else if !ChecksumMatches(b) then Scan(BAD, [], cleared, [|b|])
    else Scan(b[6], b[HEADER..HEADER + length], s.(buffer := b[HEADER + length..]), [])
  }

  function NextPhysical(s: State): (r: Scan) {
    var t := Filled(s);
    if |t.buffer| < HEADER then Scan(EOF, [], t.(buffer := []), []) else Parse(t)
  }

  function Left(s: State): (r: nat) {
    |s.buffer| + |s.file|
  }

  lemma PhysicalShrinks(s: State)
    ensures NextPhysical(s).kind == EOF || Left(NextPhysical(s).state) < Left(s)
  {}

  /** What a fragment does to the record being assembled. */
  datatype Verdict =
    | Return(record: Option<Bytes>, drops: seq<nat>)
    | Continue(inFragment: bool, scratch: Bytes, drops: seq<nat>)

  function Partial(inFragment: bool, scratch: Bytes): (r: seq<nat>) {
    if inFragment && scratch != [] then [|scratch|] else []
  }

  function Judge(kind: nat, fragment: Bytes, inFragment: bool, scratch: Bytes): (r: Verdict) {
    if kind == FULL then Return(Some(fragment), Partial(inFragment, scratch))
    else if kind == FIRST then Continue(true, fragment, Partial(inFragment, scratch))
    else if kind == MIDDLE then
      if inFragment then Continue(true, scratch + fragment, []) else Continue(false, scratch, [|fragment|])
    else if kind == LAST then
      if inFragment then Return(Some(scratch + fragment), []) else Continue(false, scratch, [|fragment|])
    else if kind == EOF then Return(None, [])
    else if kind == BAD then
      if inFragment then Continue(false, [], [|scratch|]) else Continue(false, scratch, [])
    else Continue(false, [], [|fragment| + if inFragment then |scratch| else 0])
  }

  datatype Outcome = Outcome(record: Option<Bytes>, state: State, drops: seq<nat>)

  /** Reading on until a record is complete or the file ends. */
  function NextRecord(s: State, inFragment: bool, scratch: Bytes, drops: seq<nat>): (r: Outcome)
    decreases Left(s)
  {
    PhysicalShrinks(s);
    var p := NextPhysical(s);
    match Judge(p.kind, p.data, inFragment, scratch)
    case Return(record, more) => Outcome(record, p.state, drops + p.drops + more)
    case Continue(f, t, more) => NextRecord(p.state, f, t, drops + p.drops + more)
  }

  class Reader {
    var buffer: Bytes
    var file: Bytes  // what has not been read from the file yet
    var eof: bool
    var reports: seq<nat>  // bytes dropped, as told to the reporter

    function Now(): (r: State) reads this {
      State(buffer, file, eof)
    }

    constructor (contents: Bytes)
      ensures Now() == State([], contents, false) && reports == []
    {
      buffer, file, eof, reports := [], contents, false, [];
    }

    method ReportCorruption(bytes: nat)
      modifies this`reports
      ensures reports == old(reports) + [bytes]
    {
      reports := reports + [bytes];
    }

    method Fill()
      modifies this`buffer, this`file, this`eof
      ensures Now() == Filled(old(Now()))
    {
      while |buffer| < HEADER && !eof
        invariant Now() == old(Now()) || (Now() == Refill(old(Now())) && |old(buffer)| < HEADER && !old(eof))
        decreases !eof, HEADER - |buffer|
      {
        var n := if |file| < BLOCK then |file| else BLOCK;
        buffer, file := file[..n], file[n..];
        eof := n < BLOCK;
      }
    }

    method ReadPhysicalRecord() returns (kind: nat, fragment: Bytes)
      modifies this
      ensures var p := NextPhysical(old(Now()));
              kind == p.kind && fragment == p.data && Now() == p.state && reports == old(reports) + p.drops
    {
      Fill();
      if |buffer| < HEADER {
        buffer := [];
        return EOF, [];
      }
      kind, fragment := ParseBuffer();
    }

    method ParseBuffer() returns (kind: nat, fragment: Bytes)
      requires |buffer| >= HEADER
      modifies this
      ensures var p := Parse(old(Now()));
              kind == p.kind && fragment == p.data && Now() == p.state && reports == old(reports) + p.drops
    {
      var header := buffer;
      var length := Length(header);
      if HEADER + length > |buffer| {
        var dropSize := |buffer|;
        buffer := [];
        if !eof {
          ReportCorruption(dropSize);
          return BAD, [];
        }
        return EOF, [];
      }
      if header[6] == 0 && length == 0 {
        buffer := [];
        return BAD, [];
      }
      var ok := CheckCrc(header, length);
      if !ok {
        var dropSize := |buffer|;
        buffer := [];
        ReportCorruption(dropSize);
        return BAD, [];
      }
      buffer := buffer[HEADER + length..];
      return header[6], header[HEADER..HEADER + length];
    }

    /** Acts on a fragment; `more` says whether to read another. */
    method Act(kind: nat, fragment: Bytes, inFragment: bool, scratch: Bytes)
      returns (more: bool, record: Option<Bytes>, f: bool, t: Bytes)
      modifies this`reports
      ensures var v := Judge(kind, fragment, inFragment, scratch);
              reports == old(reports) + v.drops
              && if v.Return? then !more && record == v.record else more && f == v.inFragment && t == v.scratch
    {
      more, record, f, t := true, None, inFragment, scratch;
      if kind == FULL {
        if inFragment && scratch != [] { ReportCorruption(|scratch|); }
        more, record := false, Some(fragment);
      } else if kind == FIRST {
        if inFragment && scratch != [] { ReportCorruption(|scratch|); }
        t, f := fragment, true;
      } else if kind == MIDDLE {
        if !inFragment { ReportCorruption(|fragment|); } else { t := scratch + fragment; }
      } else if kind == LAST {
        if !inFragment {
          ReportCorruption(|fragment|);
        } else {
          more, record := false, Some(scratch + fragment);
        }
      } else if kind == EOF {
        more := false;
      } else if kind == BAD {
        if inFragment {
          ReportCorruption(|scratch|);
          f, t := false, [];
        }
      } else {
        ReportCorruption(|fragment| + if inFragment then |scratch| else 0);
        f, t := false, [];
      }
    }

    method ReadFragment(inFragment: bool, scratch: Bytes)
      returns (more: bool, record: Option<Bytes>, f: bool, t: Bytes)
      modifies this
      ensures var o := NextRecord(old(Now()), inFragment, scratch, old(reports));
              if more then o == NextRecord(Now(), f, t, reports) && Left(Now()) < Left(old(Now()))
              else o == Outcome(record, Now(), reports)
    {
      PhysicalShrinks(Now());
      var kind, fragment := ReadPhysicalRecord();
      more, record, f, t := Act(kind, fragment, inFragment, scratch);
    }

    method ReadRecord() returns (record: Option<Bytes>)
      modifies this
      ensures Outcome(record, Now(), reports) == NextRecord(old(Now()), false, [], old(reports))
    {
      var inFragment, scratch: Bytes, more := false, [], true;
      ghost var goal := NextRecord(Now(), false, [], reports);
      record := None;
      while more
        invariant goal == if more then NextRecord(Now(), inFragment, scratch, reports) else Outcome(record, Now(), reports)
        decreases more, Left(Now())
      {
        more, record, inFragment, scratch := ReadFragment(inFragment, scratch);
      }
    }
  }

  method CheckCrc(header: Bytes, length: nat) returns (ok: bool)
    requires |header| >= HEADER && length == Length(header) && HEADER + length <= |header|
    ensures ok == ChecksumMatches(header)
  {
    var expected := StoredCrc(header);
    var actual := Crc.Extend(0, Octets(header[6..HEADER + length]), 0);
    ok := actual == expected;
  }
}
