/** What the log reader makes of a damaged log (db/log_reader.cc): the records
    before the damage, none of those that the damaged block cuts, and all after. */
module LogDamage {
  import opened Keys
  import opened Lookup
  import opened Coding
  import opened Log
  import opened LogRoundTrip

  // ----- reading what is there -----

  function Rest(s: State): (r: Bytes) {
    s.buffer + s.file
  }

  /** The reader stands at offset `off` of a block, and its buffer ends with the
      block or with the file. */
  predicate At(s: State, off: nat) {
    off <= BLOCK && if s.eof then s.file == [] && off + |s.buffer| < BLOCK else off + |s.buffer| == BLOCK
  }

  predicate GoodFragment(off: nat, f: Fragment) {
    off <= BLOCK && 1 <= f.kind <= 4 && OffsetAfter(off, f) <= BLOCK
  }

  lemma ReadsHere(s: State, f: Fragment, x: Bytes)
    requires |f.data| < 65536 && (f.kind != 0 || f.data != []) && HEADER + |f.data| <= |s.buffer| && Rest(s) == Physical(f) + x
    ensures var t := s.(buffer := s.buffer[HEADER + |f.data|..]); NextPhysical(s) == Scan(f.kind, f.data, t, []) && Rest(t) == x
  {
    ReadsWhole(s, f, x);
  }

  /** After a trailer the next block is in the buffer. */
  lemma Refills(s: State, off: nat, need: nat, y: Bytes)
    requires At(s, off) && HEADER <= need && Start(off) + need <= BLOCK && |y| >= need && Rest(s) == Trailer(off) + y
    ensures var t := Filled(s); At(t, Start(off)) && Rest(t) == y && need <= |t.buffer|
  {
    if |s.buffer| < HEADER && !s.eof {
      assert Rest(s)[|Trailer(off)|..] == s.file;
      assert Refill(s).buffer + Refill(s).file == s.file;
    } else {
      assert s.eof ==> Rest(s) == s.buffer;
      assert [] + y == y;
    }
  }

  lemma FilledAgain(s: State)
    ensures |Filled(s).buffer| >= HEADER ==> NextPhysical(Filled(s)) == NextPhysical(s)
  {}

  lemma ReadsPresent(s: State, off: nat, f: Fragment, x: Bytes) returns (t: State)
    requires At(s, off) && OffsetAfter(off, f) <= BLOCK && (f.kind != 0 || f.data != [])
    requires Rest(s) == (Trailer(off) + Physical(f)) + x
    ensures NextPhysical(s) == Scan(f.kind, f.data, t, []) && At(t, OffsetAfter(off, f)) && Rest(t) == x
  {
    var u := Filled(s);
    Rejoin(Trailer(off), Physical(f), x);
    Refills(s, off, HEADER + |f.data|, Physical(f) + x);
    ReadsHere(u, f, x);
    FilledAgain(s);
    t := u.(buffer := u.buffer[HEADER + |f.data|..]);
  }

  lemma ReadsEnd(s: State, drops: seq<nat>)
    requires Rest(s) == []
    ensures ReadAll(s, drops) == Contents([], drops)
  {
    assert NextPhysical(s).kind == EOF && NextPhysical(s).drops == [];
    ReadAllStep(s, drops);
    RecordGoesOn(s, false, [], drops);
  }

  // ----- whole records -----

  lemma {:induction false} RecordReads(s: State, off: nat, data: Bytes, begin: bool, x: Bytes, scratch: Bytes, drops: seq<nat>)
    returns (t: State)
    requires At(s, off) && Rest(s) == Layout(off, FragmentsOf(off, data, begin)) + x && (begin ==> scratch == [])
    ensures NextRecord(s, !begin, scratch, drops) == Log.Outcome(Some(scratch + data), t, drops)
    ensures At(t, End(off, FragmentsOf(off, data, begin))) && Rest(t) == x
    decreases |data|, if Start(off) + HEADER == BLOCK then 1 else 0
  {
    var fs, f, n := FragmentsOf(off, data, begin), Piece(off, data, begin), Take(off, data);
    var tail := TailPieces(off, data, begin);
    PiecesOf(off, data, begin);
    LayoutStep(off, fs);
    var y := Layout(OffsetAfter(off, f), tail) + x;
    Rejoin(Trailer(off) + Physical(f), Layout(OffsetAfter(off, f), tail), x);
    t := ReadsPresent(s, off, f, y);
    RecordGoesOn(s, !begin, scratch, drops);
    WholeAndRest(scratch, data, n);
    if n < |data| {
      t := RecordReads(t, OffsetAfter(off, f), data[n..], false, x, scratch + f.data, drops);
    } else {
      assert [] + x == x;
    }
  }

  lemma {:induction false} RecordsRead(s: State, off: nat, rs: seq<Bytes>, x: Bytes, drops: seq<nat>) returns (t: State)
    requires At(s, off) && Rest(s) == Layout(off, Stream(off, rs)) + x
    ensures ReadAll(s, drops) == Onto(rs, ReadAll(t, drops))
    ensures At(t, End(off, Stream(off, rs))) && Rest(t) == x
    decreases |rs|
  {
    if rs == [] {
      t := s;
      assert [] + x == x;
      assert [] + ReadAll(t, drops).records == ReadAll(t, drops).records;
    } else {
      var fs := FragmentsOf(off, rs[0], true);
      var e := End(off, fs);
      var u := HeadReads(s, off, rs, x, drops);
      t := RecordsRead(u, e, rs[1..], x, drops);
      OntoHead(rs, ReadAll(t, drops));
    }
  }

  lemma HeadReads(s: State, off: nat, rs: seq<Bytes>, x: Bytes, drops: seq<nat>) returns (t: State)
    requires rs != [] && At(s, off) && Rest(s) == Layout(off, Stream(off, rs)) + x
    ensures var e := End(off, FragmentsOf(off, rs[0], true));
            At(t, e) && Rest(t) == Layout(e, Stream(e, rs[1..])) + x && End(e, Stream(e, rs[1..])) == End(off, Stream(off, rs))
    ensures ReadAll(s, drops) == Onto([rs[0]], ReadAll(t, drops))
  {
    var fs := FragmentsOf(off, rs[0], true);
    var e := End(off, fs);
    LayoutConcat(off, fs, Stream(e, rs[1..]));
    Rejoin(Layout(off, fs), Layout(e, Stream(e, rs[1..])), x);
    t := RecordReads(s, off, rs[0], true, Layout(e, Stream(e, rs[1..])) + x, [], drops);
    assert [] + rs[0] == rs[0];
    ReadAllStep(s, drops);
  }

  lemma OntoHead(rs: seq<Bytes>, c: Contents)
    requires rs != []
    ensures Onto([rs[0]], Onto(rs[1..], c)) == Onto(rs, c)
  {
    assert [rs[0]] + (rs[1..] + c.records) == rs + c.records;
  }

  // ----- fragments without a start -----

  function Lengths(fs: seq<Fragment>): (r: seq<nat>) {
    if fs == [] then [] else [|fs[0].data|] + Lengths(fs[1..])
  }

  /** Fragments that go on or end a record. */
  predicate GoOn(fs: seq<Fragment>) {
    forall i :: 0 <= i < |fs| ==> fs[i].kind == MIDDLE || fs[i].kind == LAST
  }

  lemma Orphan(s: State, drops: seq<nat>)
    requires (NextPhysical(s).kind == MIDDLE || NextPhysical(s).kind == LAST) && NextPhysical(s).drops == []
    ensures var p := NextPhysical(s); NextRecord(s, false, [], drops) == NextRecord(p.state, false, [], drops + [|p.data|])
  {
    PhysicalShrinks(s);
    assert drops + [] + [|NextPhysical(s).data|] == drops + [|NextPhysical(s).data|];
  }

  lemma LengthsStep(fs: seq<Fragment>, drops: seq<nat>)
    requires fs != []
    ensures (drops + [|fs[0].data|]) + Lengths(fs[1..]) == drops + Lengths(fs)
  {}

  lemma OrphanReads(s: State, off: nat, fs: seq<Fragment>, x: Bytes, drops: seq<nat>) returns (t: State)
    requires At(s, off) && Fits(off, fs) && fs != [] && GoOn(fs) && Rest(s) == Layout(off, fs) + x
    ensures NextRecord(s, false, [], drops) == NextRecord(t, false, [], drops + [|fs[0].data|])
    ensures At(t, OffsetAfter(off, fs[0])) && Rest(t) == Layout(OffsetAfter(off, fs[0]), fs[1..]) + x
  {
    var f, tail := fs[0], fs[1..];
    LayoutStep(off, fs);
    Rejoin(Trailer(off) + Physical(f), Layout(OffsetAfter(off, f), tail), x);
    t := ReadsPresent(s, off, f, Layout(OffsetAfter(off, f), tail) + x);
    Orphan(s, drops);
  }

  /** Fragments whose record has lost its start are reported, each by its length,
      and otherwise passed over. */
  lemma {:induction false} SkipsOrphans(s: State, off: nat, fs: seq<Fragment>, x: Bytes, drops: seq<nat>) returns (t: State)
    requires At(s, off) && Fits(off, fs) && GoOn(fs) && Rest(s) == Layout(off, fs) + x
    ensures NextRecord(s, false, [], drops) == NextRecord(t, false, [], drops + Lengths(fs))
    ensures At(t, End(off, fs)) && Rest(t) == x
    decreases |fs|
  {
    if fs == [] {
      t := s;
      assert [] + x == x && drops + [] == drops;
    } else {
      t := OrphanReads(s, off, fs, x, drops);
      LengthsStep(fs, drops);
      t := SkipsOrphans(t, OffsetAfter(off, fs[0]), fs[1..], x, drops + [|fs[0].data|]);
    }
  }

  // ----- the rest of a block -----

  /** The fragments that start in a later block. */
  function Beyond(off: nat, fs: seq<Fragment>): (r: seq<Fragment>)
    requires off <= BLOCK && Fits(off, fs)
    ensures Fits(BLOCK, r)
    decreases |fs|
  {
    if fs == [] then []
    else if BLOCK - off < HEADER then fs
    else Beyond(OffsetAfter(off, fs[0]), fs[1..])
  }

  /** With no room for a header, it makes no difference how much is left. */
  lemma NoRoom(off: nat, fs: seq<Fragment>)
    requires off <= BLOCK && BLOCK - off < HEADER && Fits(off, fs) && fs != []
    ensures Fits(BLOCK, fs) && End(BLOCK, fs) == End(off, fs) && Layout(off, fs) == Trailer(off) + Layout(BLOCK, fs)
  {
    assert OffsetAfter(BLOCK, fs[0]) == OffsetAfter(off, fs[0]);
    SplitsFirst(off, fs);
    SplitsFirst(BLOCK, fs);
    AfterTrailer(Trailer(off), Trailer(BLOCK), Physical(fs[0]), Layout(OffsetAfter(off, fs[0]), fs[1..]));
  }

  lemma SplitsFirst(off: nat, fs: seq<Fragment>)
    requires off <= BLOCK && Fits(off, fs) && fs != []
    ensures Layout(off, fs) == (Trailer(off) + Physical(fs[0])) + Layout(OffsetAfter(off, fs[0]), fs[1..])
  {
    LayoutStep(off, fs);
  }

  lemma AfterTrailer(t: Bytes, none: Bytes, a: Bytes, x: Bytes)
    requires none == []
    ensures (t + a) + x == t + ((none + a) + x)
  {
    assert none + a == a;
  }

  lemma BeyondStep(off: nat, fs: seq<Fragment>)
    requires off + HEADER <= BLOCK && fs != [] && Fits(off, fs)
    ensures var next := OffsetAfter(off, fs[0]);
            next == off + |Physical(fs[0])| && Beyond(off, fs) == Beyond(next, fs[1..]) &&
            Layout(off, fs) == Physical(fs[0]) + Layout(next, fs[1..]) && End(off, fs) == End(next, fs[1..])
  {
    NoTrailer(off, fs);
  }

  /** Where the block ends in the layout, the fragments beyond begin. */
  ghost predicate BeyondAt(off: nat, end: nat, l: Bytes, b: seq<Fragment>) {
    off <= BLOCK && Fits(BLOCK, b) &&
    if b == [] then off + |l| == end
    else off + |l| >= BLOCK + HEADER && l[BLOCK - off..] == Layout(BLOCK, b) && End(BLOCK, b) == end
  }

  lemma {:induction false} BeyondBytes(off: nat, fs: seq<Fragment>)
    requires off <= BLOCK && Fits(off, fs)
    ensures BeyondAt(off, End(off, fs), Layout(off, fs), Beyond(off, fs))
    decreases |fs|
  {
    if fs == [] {
    } else if BLOCK - off < HEADER {
      NoRoom(off, fs);
      LayoutStep(BLOCK, fs);
    } else {
      var next := OffsetAfter(off, fs[0]);
      BeyondStep(off, fs);
      BeyondBytes(next, fs[1..]);
      AtFurther(off, End(off, fs), Physical(fs[0]), Layout(next, fs[1..]), Beyond(off, fs));
    }
  }

  lemma AtFurther(off: nat, end: nat, a: Bytes, l: Bytes, b: seq<Fragment>)
    requires BeyondAt(off + |a|, end, l, b)
    ensures BeyondAt(off, end, a + l, b)
  {
    if b != [] { assert (a + l)[BLOCK - off..] == l[BLOCK - off - |a|..]; }
  }

  lemma {:induction false} BeyondConcat(off: nat, a: seq<Fragment>, b: seq<Fragment>)
    requires off <= BLOCK && Fits(off, a) && Fits(End(off, a), b) && Fits(off, a + b)
    ensures Beyond(off, a + b) == if Beyond(off, a) != [] then Beyond(off, a) + b else Beyond(End(off, a), b)
    decreases |a|
  {
    if a == [] {
      assert a + b == b;
    } else if BLOCK - off >= HEADER {
      assert (a + b)[1..] == a[1..] + b;
      BeyondConcat(OffsetAfter(off, a[0]), a[1..], b);
    }
  }

  /** The bytes of a record's fragments. */
  function Payload(fs: seq<Fragment>): (r: Bytes) {
    if fs == [] then [] else fs[0].data + Payload(fs[1..])
  }

  /** All fragments of a record but the first go on, and together they hold it. */
  lemma {:induction false} PiecesGoOn(off: nat, data: Bytes, begin: bool)
    requires off <= BLOCK
    ensures var fs := FragmentsOf(off, data, begin); GoOn(fs[1..]) && Payload(fs) == data && (!begin ==> GoOn(fs))
    decreases |data|, if Start(off) + HEADER == BLOCK then 1 else 0
  {
    var f, n := Piece(off, data, begin), Take(off, data);
    LastPieces(off, data, begin);
    if n < |data| {
      PiecesGoOn(OffsetAfter(off, f), data[n..], false);
      assert data[..n] + data[n..] == data;
    } else {
      assert data[..n] + [] == data;
    }
  }

  /** What is beyond the block is the end of the record. */
  lemma {:induction false} BeyondGoesOn(off: nat, fs: seq<Fragment>)
    requires off <= BLOCK && Fits(off, fs) && GoOn(fs)
    ensures GoOn(Beyond(off, fs)) && EndsWith(Payload(fs), Payload(Beyond(off, fs)))
    decreases |fs|
  {
    if fs == [] {
    } else if BLOCK - off < HEADER {
    } else {
      BeyondGoesOn(OffsetAfter(off, fs[0]), fs[1..]);
      EndsFurther(fs[0].data, Payload(fs[1..]), Payload(Beyond(off, fs)));
    }
  }

  predicate EndsWith(a: Bytes, b: Bytes) {
    |b| <= |a| && a[|a| - |b|..] == b
  }

  lemma EndsFurther(a: Bytes, b: Bytes, c: Bytes)
    requires EndsWith(b, c)
    ensures EndsWith(a + b, c)
  {}

  /** A record that starts in this block: what is beyond ends it. */
  lemma BeyondRecord(off: nat, data: Bytes)
    requires off + HEADER <= BLOCK
    ensures var fs := FragmentsOf(off, data, true); GoOn(Beyond(off, fs)) && EndsWith(data, Payload(Beyond(off, fs)))
  {
    var fs := FragmentsOf(off, data, true);
    PiecesGoOn(off, data, true);
    BeyondGoesOn(OffsetAfter(off, fs[0]), fs[1..]);
    EndsFurther(fs[0].data, Payload(fs[1..]), Payload(Beyond(off, fs)));
  }

  // ----- which records start in the block -----

  lemma StreamNoRoom(off: nat, rs: seq<Bytes>)
    requires off <= BLOCK && BLOCK - off < HEADER
    ensures Stream(off, rs) == Stream(BLOCK, rs)
  {
    if rs != [] {
      var fs := FragmentsOf(off, rs[0], true);
      assert FragmentsOf(BLOCK, rs[0], true) == fs;
      NoRoom(off, fs);
    }
  }

  /** From offset `off`, the first `k` records start in this block, and `orphans`
      is what the last of them has beyond it. */
  ghost predicate StartHere(off: nat, rs: seq<Bytes>, k: nat, orphans: seq<Fragment>) {
    off <= BLOCK && k <= |rs| && Fits(BLOCK, orphans) && GoOn(orphans) &&
    (k > 0 ==> off + Size(off, rs[..k - 1]) + HEADER <= BLOCK && EndsWith(rs[k - 1], Payload(orphans))) &&
    (k < |rs| ==> off + Size(off, rs[..k]) + HEADER > BLOCK) &&
    (orphans == [] <==> off + Size(off, rs[..k]) <= BLOCK)
  }

  lemma {:induction false} Starters(off: nat, rs: seq<Bytes>) returns (k: nat, orphans: seq<Fragment>)
    requires off <= BLOCK
    ensures StartHere(off, rs, k, orphans)
    ensures Beyond(off, Stream(off, rs)) == orphans + Stream(End(BLOCK, orphans), rs[k..])
    decreases |rs|
  {
    if rs == [] || BLOCK - off < HEADER {
      k, orphans := 0, [];
      assert rs[..0] == [] && rs[0..] == rs;
      if rs != [] { StreamNoRoom(off, rs); StreamStep(off, rs); }
      assert [] + Stream(BLOCK, rs) == Stream(BLOCK, rs);
    } else {
      k, orphans := StartersStep(off, rs);
    }
  }

  lemma {:induction false} StartersStep(off: nat, rs: seq<Bytes>) returns (k: nat, orphans: seq<Fragment>)
    requires off + HEADER <= BLOCK && rs != []
    ensures StartHere(off, rs, k, orphans)
    ensures Beyond(off, Stream(off, rs)) == orphans + Stream(End(BLOCK, orphans), rs[k..])
    decreases |rs|, 0
  {
    var fs := FragmentsOf(off, rs[0], true);
    var e := End(off, fs);
    StreamStep(off, rs);
    BeyondConcat(off, fs, Stream(e, rs[1..]));
    BeyondBytes(off, fs);
    if Beyond(off, fs) != [] {
      k, orphans := 1, Beyond(off, fs);
      StartsAcross(off, rs);
    } else {
      var more;
      more, orphans := Starters(e, rs[1..]);
      k := more + 1;
      StartsWithin(off, rs, more, orphans);
      assert rs[1..][more..] == rs[k..];
    }
  }

  /** The first record goes on in the next block. */
  lemma StartsAcross(off: nat, rs: seq<Bytes>)
    requires off + HEADER <= BLOCK && rs != [] && Beyond(off, FragmentsOf(off, rs[0], true)) != []
    ensures StartHere(off, rs, 1, Beyond(off, FragmentsOf(off, rs[0], true)))
  {
    BeyondBytes(off, FragmentsOf(off, rs[0], true));
    BeyondRecord(off, rs[0]);
    SizeStep(off, rs, 1);
    assert rs[1..][..0] == [] && rs[..0] == [];
  }

  /** The first record ends in this block. */
  lemma StartsWithin(off: nat, rs: seq<Bytes>, k: nat, orphans: seq<Fragment>)
    requires off + HEADER <= BLOCK && rs != [] && Beyond(off, FragmentsOf(off, rs[0], true)) == []
    requires StartHere(End(off, FragmentsOf(off, rs[0], true)), rs[1..], k, orphans)
    ensures StartHere(off, rs, k + 1, orphans)
  {
    BeyondBytes(off, FragmentsOf(off, rs[0], true));
    SizeStep(off, rs, k + 1);
    if k > 0 {
      SizeStep(off, rs, k);
    } else {
      assert rs[1..][..0] == [] && rs[..0] == [];
      EndsWithNothing(rs[0], orphans);
    }
  }

  lemma EndsWithNothing(data: Bytes, orphans: seq<Fragment>)
    requires orphans == []
    ensures EndsWith(data, Payload(orphans))
  {}

  // ----- damage -----

  /** `x` is `l`, but for some of the four bytes from `p` on. */
  predicate Hurt(x: Bytes, l: Bytes, p: nat) {
    |x| == |l| && p + 4 <= |l| && x[..p] == l[..p] && x[p + 4..] == l[p + 4..] && x[p..p + 4] != l[p..p + 4]
  }

  /** The four bytes from `p` on are of the payload of one fragment. */
  predicate InPayload(off: nat, fs: seq<Fragment>, p: nat)
    requires off <= BLOCK && Fits(off, fs)
    decreases |fs|
  {
    fs != [] &&
    var start := |Trailer(off)| + HEADER;
    var end := start + |fs[0].data|;
    if p < end then start <= p && p + 4 <= end else InPayload(OffsetAfter(off, fs[0]), fs[1..], p - end)
  }

  lemma HurtLater(x: Bytes, a: Bytes, b: Bytes, p: nat)
    requires Hurt(x, a + b, p) && |a| <= p
    ensures x == a + x[|a|..] && Hurt(x[|a|..], b, p - |a|)
  {
    assert x[..p] == (a + b)[..p];
    assert x[..|a|] == x[..p][..|a|] == a;
    var y := x[|a|..];
    assert y[..p - |a|] == x[..p][|a|..] == b[..p - |a|];
    assert y[p - |a| + 4..] == x[p + 4..] == b[p - |a| + 4..];
    assert y[p - |a|..p - |a| + 4] == x[p..p + 4];
    assert b[p - |a|..p - |a| + 4] == (a + b)[p..p + 4];
  }

  lemma HurtEarlier(x: Bytes, a: Bytes, b: Bytes, p: nat)
    requires Hurt(x, a + b, p) && p + 4 <= |a|
    ensures x == x[..|a|] + b && Hurt(x[..|a|], a, p)
  {
    assert x[p + 4..] == (a + b)[p + 4..];
    assert x[|a|..] == x[p + 4..][|a| - p - 4..] == b;
    var y := x[..|a|];
    assert y[..p] == x[..p] == a[..p];
    assert y[p + 4..] == x[p + 4..][..|a| - p - 4] == a[p + 4..];
    assert y[p..p + 4] == x[p..p + 4];
    assert a[p..p + 4] == (a + b)[p..p + 4];
  }

  lemma SplitAt(d: Bytes, k: nat)
    requires k + 4 <= |d|
    ensures d == d[..k] + d[k..k + 4] + d[k + 4..]
  {}

  /** A fragment that is damaged in the buffer is dropped with the rest of it. */
  lemma DropsBuffer(u: State, f: Fragment, x: Bytes, p: nat)
    requires |f.data| < 65536 && 1 <= f.kind <= 4 && Hurt(x, Physical(f), p) && p >= HEADER
    requires |x| <= |u.buffer| && u.buffer[..|x|] == x
    ensures NextPhysical(u) == Scan(BAD, [], u.(buffer := []), [|u.buffer|])
  {
    var k := p - HEADER;
    HurtLater(x, Header(f), f.data, p);
    var y := x[HEADER..];
    SplitAt(f.data, k);
    SplitAt(y, k);
    var rest := u.buffer[|x|..];
    assert u.buffer == x + rest;
    DamageIsReported(u, f.kind, f.data[..k], f.data[k..k + 4], y[k..k + 4], f.data[k + 4..], rest);
  }

  /** What is left when the buffer has been dropped: `y` stood behind the damaged fragment. */
  predicate Dropped(t: State, off: nat, y: Bytes) {
    off <= BLOCK && t.buffer == [] &&
    if t.eof then t.file == [] && off + |y| < BLOCK else off + |y| >= BLOCK && t.file == y[BLOCK - off..]
  }

  lemma BadHere(s: State, off: nat, f: Fragment, x: Bytes, p: nat, y: Bytes) returns (t: State)
    requires At(s, off) && GoodFragment(off, f) && Rest(s) == (Trailer(off) + x) + y && Hurt(x, Physical(f), p) && p >= HEADER
    ensures var n := if t.eof then |x| + |y| else BLOCK - Start(off);
            NextPhysical(s) == Scan(BAD, [], t, [n]) && Dropped(t, OffsetAfter(off, f), y)
  {
    var u := Filled(s);
    Rejoin(Trailer(off), x, y);
    Refills(s, off, HEADER + |f.data|, x + y);
    BufferHolds(u, x, y);
    DropsBuffer(u, f, x, p);
    FilledAgain(s);
    t := u.(buffer := []);
  }

  lemma BufferHolds(u: State, x: Bytes, y: Bytes)
    requires Rest(u) == x + y && |x| <= |u.buffer|
    ensures u.buffer[..|x|] == x && |u.buffer| - |x| <= |y| && u.file == y[|u.buffer| - |x|..]
  {
    assert Rest(u)[..|x|] == u.buffer[..|x|];
    assert Rest(u)[|u.buffer|..] == u.file;
  }

  /** What the reader tells of a record that it gives up: the bytes it had. */
  function GivenUp(inFragment: bool, scratch: Bytes): (r: seq<nat>) {
    if inFragment then [|scratch|] else []
  }

  /** Whatever was reported before: reading a record from `s` is reading on from
      `t`, with `drops` reported on the way. */
  ghost predicate Leads(s: State, inFragment: bool, scratch: Bytes, t: State, f: bool, had: Bytes, drops: seq<nat>) {
    forall told: seq<nat> {:trigger NextRecord(s, inFragment, scratch, told)} ::
      NextRecord(s, inFragment, scratch, told) == NextRecord(t, f, had, told + drops)
  }

  lemma LeadsOn(s: State, f: bool, a: Bytes, t: State, g: bool, b: Bytes, u: State, h: bool, c: Bytes, drops: seq<nat>)
    requires Leads(s, f, a, t, g, b, []) && Leads(t, g, b, u, h, c, drops)
    ensures Leads(s, f, a, u, h, c, drops)
  {
    forall told: seq<nat> ensures NextRecord(s, f, a, told) == NextRecord(u, h, c, told + drops) {
      assert told + [] == told;
    }
  }

  lemma LeadsNowhere(s: State, f: bool, a: Bytes)
    ensures Leads(s, f, a, s, f, a, [])
  {
    forall told: seq<nat> ensures NextRecord(s, f, a, told) == NextRecord(s, f, a, told + []) {
      assert told + [] == told;
    }
  }

  lemma BadGoesOn(s: State, inFragment: bool, scratch: Bytes, n: nat)
    requires var p := NextPhysical(s); p.kind == BAD && p.drops == [n]
    requires !inFragment ==> scratch == []
    ensures Leads(s, inFragment, scratch, NextPhysical(s).state, false, [], [n] + GivenUp(inFragment, scratch))
  {
    PhysicalShrinks(s);
    forall told: seq<nat> ensures NextRecord(s, inFragment, scratch, told) ==
        NextRecord(NextPhysical(s).state, false, [], told + ([n] + GivenUp(inFragment, scratch))) {
      assert told + [n] + GivenUp(inFragment, scratch) == told + ([n] + GivenUp(inFragment, scratch));
      assert told + [n] + [] == told + [n];
    }
  }

  /** The bytes of a damaged fragment's block that are dropped with it. */
  function DroppedBytes(t: State, off: nat, size: nat): (n: nat)
    requires off <= BLOCK
  {
    if t.eof then size else BLOCK - Start(off)
  }

  /** A damaged fragment is read, and its record given up. */
  lemma GivesUp(s: State, off: nat, f: Fragment, x: Bytes, p: nat, y: Bytes, inFragment: bool, scratch: Bytes)
    returns (t: State, n: nat, gave: seq<nat>)
    requires At(s, off) && GoodFragment(off, f) && Rest(s) == (Trailer(off) + x) + y && Hurt(x, Physical(f), p) && p >= HEADER
    requires !inFragment ==> scratch == []
    ensures Dropped(t, OffsetAfter(off, f), y)
    ensures n == DroppedBytes(t, off, |x| + |y|) && gave == GivenUp(inFragment, scratch)
    ensures Leads(s, inFragment, scratch, t, false, [], [n] + gave)
  {
    t := BadHere(s, off, f, x, p, y);
    n, gave := DroppedBytes(t, off, |x| + |y|), GivenUp(inFragment, scratch);
    BadGoesOn(s, inFragment, scratch, n);
  }

  // ----- the record up to the damage -----

  /** Fragments of a record, none of them its last. */
  predicate Opens(fs: seq<Fragment>, begin: bool) {
    forall i :: 0 <= i < |fs| ==> fs[i].kind == if i == 0 && begin then FIRST else MIDDLE
  }

  lemma {:induction false} PiecesOpen(off: nat, data: Bytes, begin: bool)
    requires off <= BLOCK
    ensures var fs := FragmentsOf(off, data, begin); fs != [] && Opens(fs[..|fs| - 1], begin)
    decreases |data|, if Start(off) + HEADER == BLOCK then 1 else 0
  {
    var fs, f, n := FragmentsOf(off, data, begin), Piece(off, data, begin), Take(off, data);
    LastPieces(off, data, begin);
    if n < |data| {
      var tail := FragmentsOf(OffsetAfter(off, f), data[n..], false);
      PiecesOpen(OffsetAfter(off, f), data[n..], false);
      assert fs[1..] == tail;
      forall i | 0 < i < |fs| - 1 ensures fs[i].kind == MIDDLE { assert fs[i] == tail[..|tail| - 1][i - 1]; }
    }
  }

  lemma GoodGoesOn(s: State, inFragment: bool, scratch: Bytes, f: Fragment, t: State)
    requires NextPhysical(s) == Scan(f.kind, f.data, t, [])
    requires f.kind == if inFragment then MIDDLE else FIRST
    requires !inFragment ==> scratch == []
    ensures Leads(s, inFragment, scratch, t, true, scratch + f.data, [])
  {
    assert !inFragment ==> scratch + f.data == f.data;
    forall told: seq<nat> ensures NextRecord(s, inFragment, scratch, told) == NextRecord(t, true, scratch + f.data, told + []) {
      RecordGoesOn(s, inFragment, scratch, told);
      assert told + [] == told;
    }
  }

  lemma PieceReads(s: State, off: nat, fs: seq<Fragment>, x: Bytes, begin: bool, scratch: Bytes) returns (t: State)
    requires At(s, off) && Fits(off, fs) && fs != [] && Opens(fs, begin) && Rest(s) == Layout(off, fs) + x
    requires begin ==> scratch == []
    ensures Leads(s, !begin, scratch, t, true, scratch + fs[0].data, [])
    ensures At(t, OffsetAfter(off, fs[0])) && Rest(t) == Layout(OffsetAfter(off, fs[0]), fs[1..]) + x
  {
    var f, tail := fs[0], fs[1..];
    LayoutStep(off, fs);
    Rejoin(Trailer(off) + Physical(f), Layout(OffsetAfter(off, f), tail), x);
    t := ReadsPresent(s, off, f, Layout(OffsetAfter(off, f), tail) + x);
    GoodGoesOn(s, !begin, scratch, f, t);
  }

  lemma PayloadStep(fs: seq<Fragment>, scratch: Bytes)
    requires fs != []
    ensures (scratch + fs[0].data) + Payload(fs[1..]) == scratch + Payload(fs)
  {}

  lemma OpensOn(fs: seq<Fragment>, begin: bool)
    requires fs != [] && Opens(fs, begin)
    ensures Opens(fs[1..], false)
  {}

  lemma {:induction false} PiecesRead(s: State, off: nat, fs: seq<Fragment>, x: Bytes, begin: bool, scratch: Bytes) returns (t: State)
    requires At(s, off) && Fits(off, fs) && Opens(fs, begin) && Rest(s) == Layout(off, fs) + x && (begin ==> scratch == [])
    ensures Leads(s, !begin, scratch, t, !begin || fs != [], scratch + Payload(fs), [])
    ensures At(t, End(off, fs)) && Rest(t) == x
    decreases |fs|
  {
    if fs == [] {
      t := s;
      assert [] + x == x && scratch + [] == scratch;
      LeadsNowhere(s, !begin, scratch);
    } else {
      var u := PieceReads(s, off, fs, x, begin, scratch);
      PayloadStep(fs, scratch);
      OpensOn(fs, begin);
      t := PiecesRead(u, OffsetAfter(off, fs[0]), fs[1..], x, false, scratch + fs[0].data);
      LeadsOn(s, !begin, scratch, u, true, scratch + fs[0].data, t, true, scratch + Payload(fs), []);
    }
  }

  // ----- where the damage is -----

  /** Fragment `m` holds the four bytes from `p` on. */
  ghost predicate Holds(off: nat, fs: seq<Fragment>, p: nat, m: nat) {
    off <= BLOCK && Fits(off, fs) && m < |fs| && Fits(off, fs[..m]) &&
    var start := |Layout(off, fs[..m])| + |Trailer(End(off, fs[..m]))| + HEADER;
    start <= p && p + 4 <= start + |fs[m].data|
  }

  lemma FirstHolds(off: nat, fs: seq<Fragment>, m: nat)
    requires off <= BLOCK && Fits(off, fs) && 0 < m <= |fs| && Fits(OffsetAfter(off, fs[0]), fs[1..][..m - 1])
    ensures Fits(off, fs[..m])
    ensures var next := OffsetAfter(off, fs[0]);
            |Layout(off, fs[..m])| == |Trailer(off)| + HEADER + |fs[0].data| + |Layout(next, fs[1..][..m - 1])| &&
            End(off, fs[..m]) == End(next, fs[1..][..m - 1])
  {
    assert fs[..m] == [fs[0]] + fs[1..][..m - 1];
    assert ([fs[0]] + fs[1..][..m - 1])[1..] == fs[1..][..m - 1];
    SizeOfPieces(off, fs[0], fs[1..][..m - 1]);
  }

  lemma {:induction false} FindsDamage(off: nat, fs: seq<Fragment>, p: nat) returns (m: nat)
    requires off <= BLOCK && Fits(off, fs) && InPayload(off, fs, p)
    ensures Holds(off, fs, p, m)
    decreases |fs|
  {
    var n := |Trailer(off)| + HEADER + |fs[0].data|;
    if p < n {
      m := 0;
      assert fs[..0] == [];
    } else {
      m := FindsDamage(OffsetAfter(off, fs[0]), fs[1..], p - n);
      m := m + 1;
      FirstHolds(off, fs, m);
    }
  }

  lemma FirstOfBoth(off: nat, a: seq<Fragment>, b: seq<Fragment>, p: nat)
    requires off <= BLOCK && Fits(off, a + b) && InPayload(off, a + b, p) && a != []
    ensures (a + b)[1..] == a[1..] + b
    ensures var n := |Trailer(off)| + HEADER + |a[0].data|;
            if p < n then p >= |Trailer(off)| + HEADER && p + 4 <= n else InPayload(OffsetAfter(off, a[0]), a[1..] + b, p - n)
  {
    assert (a + b)[1..] == a[1..] + b;
  }

  lemma SizeOfFirst(off: nat, fs: seq<Fragment>, n: nat)
    requires off <= BLOCK && Fits(off, fs) && fs != [] && n == |Trailer(off)| + HEADER + |fs[0].data|
    ensures |Layout(off, fs)| == n + |Layout(OffsetAfter(off, fs[0]), fs[1..])|
  {
    LayoutStep(off, fs);
  }

  lemma {:induction false} InPayloadOf(off: nat, a: seq<Fragment>, b: seq<Fragment>, p: nat)
    requires off <= BLOCK && Fits(off, a) && Fits(End(off, a), b) && Fits(off, a + b) && InPayload(off, a + b, p)
    ensures if p < |Layout(off, a)| then InPayload(off, a, p) else InPayload(End(off, a), b, p - |Layout(off, a)|)
    decreases |a|
  {
    if a == [] {
      assert a + b == b;
    } else {
      InPayloadStep(off, a, b, p);
    }
  }

  lemma {:induction false} InPayloadStep(off: nat, a: seq<Fragment>, b: seq<Fragment>, p: nat)
    requires off <= BLOCK && Fits(off, a) && Fits(End(off, a), b) && Fits(off, a + b) && InPayload(off, a + b, p) && a != []
    ensures if p < |Layout(off, a)| then InPayload(off, a, p) else InPayload(End(off, a), b, p - |Layout(off, a)|)
    decreases |a|, 0
  {
    var n, next := |Trailer(off)| + HEADER + |a[0].data|, OffsetAfter(off, a[0]);
    FirstOfBoth(off, a, b, p);
    SizeOfFirst(off, a, n);
    if p >= n { InPayloadOf(next, a[1..], b, p - n); }
  }

  /** How often the fragments start a new block. */
  function Crossed(off: nat, fs: seq<Fragment>): (n: nat)
    requires off <= BLOCK && Fits(off, fs)
    decreases |fs|
  {
    if fs == [] then 0 else (if BLOCK - off < HEADER then 1 else 0) + Crossed(OffsetAfter(off, fs[0]), fs[1..])
  }

  /** Offsets and positions advance together. */
  lemma {:induction false} Advances(off: nat, fs: seq<Fragment>)
    requires off <= BLOCK && Fits(off, fs)
    ensures off + |Layout(off, fs)| == End(off, fs) + BLOCK * Crossed(off, fs)
    ensures fs != [] ==> |Layout(off, fs)| >= HEADER
    decreases |fs|
  {
    if fs != [] {
      LayoutStep(off, fs);
      Advances(OffsetAfter(off, fs[0]), fs[1..]);
    }
  }

  // ----- the damaged record -----

  lemma Splits(off: nat, fs: seq<Fragment>, m: nat)
    requires off <= BLOCK && Fits(off, fs) && m < |fs|
    ensures Fits(off, fs[..m]) && GoodFragment(End(off, fs[..m]), fs[m])
    ensures var o := End(off, fs[..m]); var next := OffsetAfter(o, fs[m]);
            Fits(next, fs[m + 1..]) && End(next, fs[m + 1..]) == End(off, fs) &&
            Layout(off, fs) == Layout(off, fs[..m]) + ((Trailer(o) + Physical(fs[m])) + Layout(next, fs[m + 1..]))
  {
    FitsPrefix(off, fs, m);
    assert fs[..m] + fs[m..] == fs;
    LayoutConcat(off, fs[..m], fs[m..]);
    assert fs[m..][1..] == fs[m + 1..];
    LayoutStep(End(off, fs[..m]), fs[m..]);
  }

  lemma {:induction false} FitsPrefix(off: nat, fs: seq<Fragment>, m: nat)
    requires off <= BLOCK && Fits(off, fs) && m <= |fs|
    ensures Fits(off, fs[..m])
    decreases m
  {
    if m > 0 {
      assert fs[..m][1..] == fs[1..][..m - 1];
      FitsPrefix(OffsetAfter(off, fs[0]), fs[1..], m - 1);
    }
  }

  lemma HurtMiddle(r: Bytes, t: Bytes, f: Bytes, y: Bytes, p: nat) returns (x: Bytes)
    requires Hurt(r, (t + f) + y, p) && |t| <= p && p + 4 <= |t| + |f|
    ensures r == (t + x) + y && Hurt(x, f, p - |t|)
  {
    HurtEarlier(r, t + f, y, p);
    HurtLater(r[..|t + f|], t, f, p);
    x := r[..|t + f|][|t|..];
  }

  /** The damaged bytes, between those before and after. */
  lemma HurtWithin(r: Bytes, a: Bytes, t: Bytes, f: Bytes, y: Bytes, p: nat) returns (x: Bytes)
    requires Hurt(r, a + ((t + f) + y), p) && |a| + |t| <= p && p + 4 <= |a| + |t| + |f|
    ensures r == a + ((t + x) + y) && Hurt(x, f, p - |a| - |t|)
  {
    HurtLater(r, a, (t + f) + y, p);
    x := HurtMiddle(r[|a|..], t, f, y, p - |a|);
  }

  /** Up to the damaged fragment. */
  lemma ReadsUpTo(s: State, off: nat, fs: seq<Fragment>, m: nat, x: Bytes) returns (t: State)
    requires At(s, off) && m < |fs| && Fits(off, fs[..m]) && Opens(fs[..m], true) && Rest(s) == Layout(off, fs[..m]) + x
    ensures Leads(s, false, [], t, m > 0, Payload(fs[..m]), [])
    ensures At(t, End(off, fs[..m])) && Rest(t) == x
  {
    t := PiecesRead(s, off, fs[..m], x, true, []);
    assert [] + Payload(fs[..m]) == Payload(fs[..m]);
  }

  lemma DamagedBytes(r: Bytes, off: nat, fs: seq<Fragment>, more: Bytes, p: nat, m: nat) returns (x: Bytes)
    requires Holds(off, fs, p, m) && Hurt(r, Layout(off, fs) + more, p)
    ensures var o := End(off, fs[..m]); var next := OffsetAfter(o, fs[m]);
            GoodFragment(o, fs[m]) && Fits(next, fs[m + 1..]) &&
            r == Layout(off, fs[..m]) + ((Trailer(o) + x) + (Layout(next, fs[m + 1..]) + more)) &&
            Hurt(x, Physical(fs[m]), p - |Layout(off, fs[..m])| - |Trailer(o)|)
  {
    Splits(off, fs, m);
    var a, o, f := Layout(off, fs[..m]), End(off, fs[..m]), fs[m];
    var tail := Layout(OffsetAfter(o, f), fs[m + 1..]);
    Regroup(a, Trailer(o) + Physical(f), tail, more);
    x := HurtWithin(r, a, Trailer(o), Physical(f), tail + more, p);
  }

  lemma LeadsAll(s: State, u: State, f: bool, had: Bytes, t: State, drops: seq<nat>)
    requires Leads(s, false, [], u, f, had, []) && Leads(u, f, had, t, false, [], drops)
    ensures ReadAll(s, []) == ReadAll(t, drops)
  {
    LeadsOn(s, false, [], u, f, had, t, false, [], drops);
    ReadAllStep(s, []);
    ReadAllStep(t, drops);
    assert [] + drops == drops;
  }

  /** Up to a damaged fragment, which stands as `x` in front of `y`. */
  lemma ReadsDamaged(s: State, off: nat, fs: seq<Fragment>, m: nat, x: Bytes, p: nat, y: Bytes)
    returns (t: State, n: nat, gave: seq<nat>)
    requires At(s, off) && m < |fs| && Fits(off, fs[..m]) && Opens(fs[..m], true) && GoodFragment(End(off, fs[..m]), fs[m])
    requires Rest(s) == Layout(off, fs[..m]) + ((Trailer(End(off, fs[..m])) + x) + y)
    requires Hurt(x, Physical(fs[m]), p) && p >= HEADER
    ensures var o := End(off, fs[..m]);
            Dropped(t, OffsetAfter(o, fs[m]), y) && n == DroppedBytes(t, o, |x| + |y|) && gave == GivenUp(m > 0, Payload(fs[..m]))
    ensures ReadAll(s, []) == ReadAll(t, [n] + gave)
  {
    var o := End(off, fs[..m]);
    var u := ReadsUpTo(s, off, fs, m, (Trailer(o) + x) + y);
    t, n, gave := GivesUp(u, o, fs[m], x, p, y, m > 0, Payload(fs[..m]));
    LeadsAll(s, u, m > 0, Payload(fs[..m]), t, [n] + gave);
  }

  lemma BreaksRecord(s: State, off: nat, fs: seq<Fragment>, more: Bytes, p: nat, m: nat, q: nat, e: nat)
    returns (t: State, n: nat, gave: seq<nat>)
    requires At(s, off) && Holds(off, fs, p, m) && Opens(fs[..m], true) && Hurt(Rest(s), Layout(off, fs) + more, p)
    requires Starts(off, fs, m, q, e)
    ensures var next := OffsetAfter(End(off, fs[..m]), fs[m]);
            Fits(next, fs[m + 1..]) && Dropped(t, next, Layout(next, fs[m + 1..]) + more)
    ensures n == DroppedFrom(|Rest(s)|, q, e) && gave == GivenUp(m > 0, Payload(fs[..m]))
    ensures ReadAll(s, []) == ReadAll(t, [n] + gave)
  {
    var a, o := Layout(off, fs[..m]), End(off, fs[..m]);
    var x := DamagedBytes(Rest(s), off, fs, more, p, m);
    var y := Layout(OffsetAfter(o, fs[m]), fs[m + 1..]) + more;
    t, n, gave := ReadsDamaged(s, off, fs, m, x, p - |a| - |Trailer(o)|, y);
    DropsUpTo(t, o, fs[m], y, |x| + |y|, |Rest(s)|, q, e);
  }

  /** What is dropped of a file of `all` bytes with a fragment that starts at `q`. */
  function DroppedFrom(all: nat, q: nat, e: nat): (n: nat) {
    var end := if all < e then all else e;
    if q <= end then end - q else 0
  }

  lemma DropsUpTo(t: State, o: nat, f: Fragment, y: Bytes, size: nat, all: nat, q: nat, e: nat)
    requires o <= BLOCK && Dropped(t, OffsetAfter(o, f), y)
    requires all == q + size && e == q + BLOCK - Start(o) && size == HEADER + |f.data| + |y|
    ensures DroppedBytes(t, o, size) == DroppedFrom(all, q, e)
  {}

  /** Fragment `m` starts at `q`, in a block that ends at `e`. */
  ghost predicate Starts(off: nat, fs: seq<Fragment>, m: nat, q: nat, e: nat) {
    off <= BLOCK && Fits(off, fs) && m < |fs| && Fits(off, fs[..m]) && OffsetAfter(End(off, fs[..m]), fs[m]) <= BLOCK &&
    q == |Layout(off, fs[..m])| + |Trailer(End(off, fs[..m]))| && e == q + BLOCK - Start(End(off, fs[..m]))
  }

  lemma Regroup(a: Bytes, b: Bytes, c: Bytes, d: Bytes)
    ensures (a + (b + c)) + d == a + (b + (c + d))
  {}

  // ----- after the damage -----

  /** The file from the next block on. */
  lemma NextBlock(t: State, off: nat, fs: seq<Fragment>)
    requires off <= BLOCK && Fits(off, fs) && Dropped(t, off, Layout(off, fs))
    ensures t.file == Layout(BLOCK, Beyond(off, fs)) && (t.eof ==> Beyond(off, fs) == [])
  {
    BeyondBytes(off, fs);
    if Beyond(off, fs) == [] && !t.eof { assert Layout(off, fs)[BLOCK - off..] == []; }
  }

  /** In a later block, the end of a lost record is passed over, and then all records are read. */
  lemma ReadsSurvivors(t: State, orphans: seq<Fragment>, rs: seq<Bytes>, drops: seq<nat>)
    requires t.buffer == [] && Fits(BLOCK, orphans) && GoOn(orphans)
    requires var fs := orphans + Stream(End(BLOCK, orphans), rs); Fits(BLOCK, fs) && t.file == Layout(BLOCK, fs) && (t.eof ==> fs == [])
    ensures ReadAll(t, drops) == Contents(rs, drops + Lengths(orphans))
  {
    var e := End(BLOCK, orphans);
    if t.eof {
      ReadsEnd(t, drops);
      NoRecords(e, rs);
      assert drops + [] == drops;
    } else {
      LayoutConcat(BLOCK, orphans, Stream(e, rs));
      assert Rest(t) == t.file;
      var u := SkipsOrphans(t, BLOCK, orphans, Layout(e, Stream(e, rs)), drops);
      ReadAllStep(t, drops);
      ReadAllStep(u, drops + Lengths(orphans));
      ReadsTheRest(u, e, rs, drops + Lengths(orphans));
    }
  }

  lemma NoRecords(off: nat, rs: seq<Bytes>)
    requires off <= BLOCK && Stream(off, rs) == []
    ensures rs == []
  {
    if rs != [] { PiecesOpen(off, rs[0], true); }
  }

  lemma ReadsTheRest(s: State, off: nat, rs: seq<Bytes>, drops: seq<nat>)
    requires At(s, off) && Rest(s) == Layout(off, Stream(off, rs))
    ensures ReadAll(s, drops) == Contents(rs, drops)
  {
    assert Layout(off, Stream(off, rs)) + [] == Layout(off, Stream(off, rs));
    var t := RecordsRead(s, off, rs, [], drops);
    ReadsEnd(t, drops);
    assert rs + [] == rs;
  }

  /** What is lost: the records that start in the block, after the rest `tail` of
      the damaged one. */
  ghost predicate LostAfter(off: nat, tail: seq<Fragment>, rs: seq<Bytes>, k: nat, orphans: seq<Fragment>) {
    off <= BLOCK && Fits(off, tail) && k <= |rs| && Fits(BLOCK, orphans) && GoOn(orphans) &&
    var e, size := End(off, tail), |Layout(off, tail)|;
    (if k > 0 then off + size + Size(e, rs[..k - 1]) + HEADER <= BLOCK && EndsWith(rs[k - 1], Payload(orphans))
     else EndsWith(Payload(tail), Payload(orphans))) &&
    (k < |rs| ==> off + size + Size(e, rs[..k]) + HEADER > BLOCK) &&
    (orphans == [] <==> off + size + Size(e, rs[..k]) <= BLOCK)
  }

  lemma FindsLost(off: nat, tail: seq<Fragment>, rs: seq<Bytes>) returns (k: nat, orphans: seq<Fragment>)
    requires off <= BLOCK && Fits(off, tail) && GoOn(tail)
    ensures LostAfter(off, tail, rs, k, orphans)
    ensures var fs := tail + Stream(End(off, tail), rs);
            Fits(off, fs) && Beyond(off, fs) == orphans + Stream(End(BLOCK, orphans), rs[k..])
  {
    var e := End(off, tail);
    LayoutConcat(off, tail, Stream(e, rs));
    BeyondConcat(off, tail, Stream(e, rs));
    BeyondBytes(off, tail);
    if Beyond(off, tail) != [] {
      k, orphans := 0, Beyond(off, tail);
      BeyondGoesOn(off, tail);
      assert rs[..0] == [] && rs[0..] == rs;
    } else {
      k, orphans := Starters(e, rs);
      if k == 0 { assert rs[..0] == []; EndsWithNothing(Payload(tail), orphans); }
    }
  }

  lemma AfterDamage(t: State, off: nat, tail: seq<Fragment>, rs: seq<Bytes>, drops: seq<nat>) returns (k: nat, orphans: seq<Fragment>)
    requires off <= BLOCK && Fits(off, tail) && GoOn(tail)
    requires Dropped(t, off, Layout(off, tail) + Layout(End(off, tail), Stream(End(off, tail), rs)))
    ensures LostAfter(off, tail, rs, k, orphans)
    ensures ReadAll(t, drops) == Contents(rs[k..], drops + Lengths(orphans))
  {
    var fs := tail + Stream(End(off, tail), rs);
    k, orphans := FindsLost(off, tail, rs);
    LayoutConcat(off, tail, Stream(End(off, tail), rs));
    NextBlock(t, off, fs);
    ReadsSurvivors(t, orphans, rs[k..], drops);
  }

  // ----- damaged logs -----

  /** What is lost when the four bytes from `p` on are damaged: the records from `i`
      up to `j`.  Record `i` is the one that holds those bytes, in a fragment that
      starts at `q`, and record `j` is the first to start after the end `e` of
      that fragment's block; `blocks` block ends have passed by then.  `n` bytes
      are dropped with the fragment, `gave` is what was reported of record `i` if it
      started earlier, and `orphans` is what record `j - 1` has beyond the block. */
  datatype Loss = Loss(i: nat, j: nat, q: nat, e: nat, blocks: nat, n: nat, gave: seq<nat>, orphans: seq<Fragment>)

  ghost predicate Lost(off: nat, rs: seq<Bytes>, p: nat, l: Loss) {
    off <= BLOCK && l.i < l.j <= |rs| && off + l.e == BLOCK * l.blocks &&
    Holding(Size(off, rs[..l.i]), Size(off, rs[..l.i + 1]), p, l.q, l.e) && Gave(l.gave, Size(off, rs[..l.i]), l.q, |rs[l.i]|) &&
    StartBy(off, rs, l.j, l.e, l.orphans)
  }

  /** The other records are returned.  What is reported: the rest of the block from
      the damaged fragment on, what there was of its record, and each fragment
      that has no start. */
  function Returned(rs: seq<Bytes>, l: Loss): (r: Contents)
    requires l.i <= |rs| && l.j <= |rs|
  {
    Contents(rs[..l.i] + rs[l.j..], [l.n] + l.gave + Lengths(l.orphans))
  }

  /** The first `j` records start in front of `e`, and `orphans` is what the last of
      them has behind it. */
  ghost predicate StartBy(off: nat, rs: seq<Bytes>, j: nat, e: nat, orphans: seq<Fragment>) {
    off <= BLOCK && 0 < j <= |rs| &&
    Size(off, rs[..j - 1]) + HEADER <= e && (j < |rs| ==> Size(off, rs[..j]) + HEADER > e) &&
    EndsWith(rs[j - 1], Payload(orphans)) && (orphans == [] <==> Size(off, rs[..j]) <= e)
  }

  /** A record from `first` to `last` holds the four bytes from `p` on, in a
      fragment that starts at `q`, in a block that ends at `e`. */
  predicate Holding(first: nat, last: nat, p: nat, q: nat, e: nat) {
    first <= q && q + HEADER <= p && p + 4 <= e <= q + BLOCK && p + 4 <= last
  }

  /** Of a record that starts before its damaged fragment, so many bytes are reported. */
  predicate Gave(gave: seq<nat>, first: nat, q: nat, length: nat) {
    if q < first + HEADER then gave == [] else |gave| == 1 && gave[0] <= length
  }

  lemma {:induction false} PayloadEnds(fs: seq<Fragment>, m: nat)
    requires m < |fs|
    ensures EndsWith(Payload(fs), Payload(fs[m + 1..])) && |Payload(fs[..m])| <= |Payload(fs)|
    decreases m
  {
    if m > 0 {
      PayloadEnds(fs[1..], m - 1);
      assert fs[1..][m..] == fs[m + 1..];
      assert fs[..m][1..] == fs[1..][..m - 1];
      EndsFurther(fs[0].data, Payload(fs[1..]), Payload(fs[m + 1..]));
    } else {
      assert fs[..0] == [];
    }
  }

  lemma EndsTwice(a: Bytes, b: Bytes, c: Bytes)
    requires EndsWith(a, b) && EndsWith(b, c)
    ensures EndsWith(a, c)
  {}

  /** A record of fragments `fs`, damaged in fragment `m`. */
  lemma PiecesAround(off: nat, data: Bytes, m: nat)
    requires off <= BLOCK && m < |FragmentsOf(off, data, true)|
    ensures var fs := FragmentsOf(off, data, true);
            Opens(fs[..m], true) && GoOn(fs[m + 1..]) && EndsWith(data, Payload(fs[m + 1..])) && |Payload(fs[..m])| <= |data|
  {
    var fs := FragmentsOf(off, data, true);
    PiecesOpen(off, data, true);
    forall k | 0 <= k < m ensures fs[..m][k] == fs[..|fs| - 1][k] {}
    PiecesGoOn(off, data, true);
    assert fs[m + 1..] == fs[1..][m..];
    PayloadEnds(fs, m);
  }

  /** The sizes of a record and of what it has before and after fragment `m`. */
  lemma Places(off: nat, fs: seq<Fragment>, m: nat)
    requires off <= BLOCK && Fits(off, fs) && m < |fs|
    ensures Fits(off, fs[..m]) && GoodFragment(End(off, fs[..m]), fs[m])
    ensures var l, o := |Layout(off, fs[..m])|, End(off, fs[..m]); var next := OffsetAfter(o, fs[m]);
            Fits(next, fs[m + 1..]) && End(next, fs[m + 1..]) == End(off, fs) &&
            |Layout(off, fs)| == l + |Trailer(o)| + HEADER + |fs[m].data| + |Layout(next, fs[m + 1..])|
  {
    Splits(off, fs, m);
  }

  lemma BlockEnds(off: nat, fs: seq<Fragment>, m: nat, q: nat, e: nat)
    requires Starts(off, fs, m, q, e)
    ensures off + e == BLOCK * BlocksTo(off, fs, m)
  {
    Advances(off, fs[..m]);
  }

  /** How many blocks have begun when fragment `m` does. */
  function BlocksTo(off: nat, fs: seq<Fragment>, m: nat): (n: nat)
    requires off <= BLOCK && m <= |fs| && Fits(off, fs[..m])
  {
    Crossed(off, fs[..m]) + if BLOCK - End(off, fs[..m]) < HEADER then 2 else 1
  }

  lemma HoldingFirst(off: nat, rs: seq<Bytes>, p: nat, m: nat, q: nat, e: nat)
    requires rs != [] && off <= BLOCK && Starts(off, FragmentsOf(off, rs[0], true), m, q, e) && Holds(off, FragmentsOf(off, rs[0], true), p, m)
    ensures Holding(Size(off, rs[..0]), Size(off, rs[..1]), p, q, e)
    ensures Gave(GivenUp(m > 0, Payload(FragmentsOf(off, rs[0], true)[..m])), Size(off, rs[..0]), q, |rs[0]|)
  {
    var fs := FragmentsOf(off, rs[0], true);
    Places(off, fs, m);
    PiecesAround(off, rs[0], m);
    Advances(off, fs[..m]);
    SizeStep(off, rs, 1);
    assert rs[..0] == [] && rs[1..][..0] == [];
    if m == 0 { assert fs[..0] == []; }
  }

  lemma StartByFirst(off: nat, rs: seq<Bytes>, m: nat, q: nat, e: nat, k: nat, orphans: seq<Fragment>)
    requires rs != [] && off <= BLOCK && Starts(off, FragmentsOf(off, rs[0], true), m, q, e)
    requires var fs := FragmentsOf(off, rs[0], true);
             LostAfter(OffsetAfter(End(off, fs[..m]), fs[m]), fs[m + 1..], rs[1..], k, orphans)
    ensures StartBy(off, rs, k + 1, e, orphans)
  {
    var fs := FragmentsOf(off, rs[0], true);
    Places(off, fs, m);
    PiecesAround(off, rs[0], m);
    SizeStep(off, rs, k + 1);
    if k == 0 {
      EndsTwice(rs[0], Payload(fs[m + 1..]), Payload(orphans));
      assert rs[..0] == [];
    } else {
      SizeStep(off, rs, k);
    }
  }

  lemma LostFirst(off: nat, rs: seq<Bytes>, p: nat, m: nat, l: Loss)
    requires rs != [] && off <= BLOCK && Starts(off, FragmentsOf(off, rs[0], true), m, l.q, l.e) && Holds(off, FragmentsOf(off, rs[0], true), p, m)
    requires l.blocks == BlocksTo(off, FragmentsOf(off, rs[0], true), m)
    requires l.i == 0 && l.gave == GivenUp(m > 0, Payload(FragmentsOf(off, rs[0], true)[..m]))
    requires StartBy(off, rs, l.j, l.e, l.orphans)
    ensures Lost(off, rs, p, l)
  {
    HoldingFirst(off, rs, p, m, l.q, l.e);
    BlockEnds(off, FragmentsOf(off, rs[0], true), m, l.q, l.e);
  }

  lemma BreaksFirst(s: State, off: nat, rs: seq<Bytes>, p: nat, m: nat, q: nat, e: nat)
    returns (t: State, n: nat, gave: seq<nat>)
    requires At(s, off) && rs != [] && Hurt(Rest(s), Layout(off, Stream(off, rs)), p)
    requires Holds(off, FragmentsOf(off, rs[0], true), p, m) && Starts(off, FragmentsOf(off, rs[0], true), m, q, e)
    ensures n == DroppedFrom(|Rest(s)|, q, e) && gave == GivenUp(m > 0, Payload(FragmentsOf(off, rs[0], true)[..m]))
    ensures var fs, e0 := FragmentsOf(off, rs[0], true), End(off, FragmentsOf(off, rs[0], true));
            var next := OffsetAfter(End(off, fs[..m]), fs[m]);
            Fits(next, fs[m + 1..]) && End(next, fs[m + 1..]) == e0 && GoOn(fs[m + 1..]) &&
            Dropped(t, next, Layout(next, fs[m + 1..]) + Layout(e0, Stream(e0, rs[1..])))
    ensures ReadAll(s, []) == ReadAll(t, [n] + gave)
  {
    var fs := FragmentsOf(off, rs[0], true);
    StreamStep(off, rs);
    PiecesAround(off, rs[0], m);
    Places(off, fs, m);
    t, n, gave := BreaksRecord(s, off, fs, Layout(End(off, fs), Stream(End(off, fs), rs[1..])), p, m, q, e);
  }

  /** The reader's outcome, from the offset on. */
  ghost predicate Loses(s: State, off: nat, rs: seq<Bytes>, p: nat, l: Loss) {
    Lost(off, rs, p, l) && l.n == DroppedFrom(|Rest(s)|, l.q, l.e) && ReadAll(s, []) == Returned(rs, l)
  }

  /** The first record is damaged. */
  lemma DamagedFirst(s: State, off: nat, rs: seq<Bytes>, p: nat) returns (l: Loss)
    requires At(s, off) && rs != [] && Hurt(Rest(s), Layout(off, Stream(off, rs)), p)
    requires InPayload(off, FragmentsOf(off, rs[0], true), p)
    ensures Loses(s, off, rs, p, l)
  {
    var fs := FragmentsOf(off, rs[0], true);
    var m := FindsDamage(off, fs, p);
    Places(off, fs, m);
    var o := End(off, fs[..m]);
    var q := |Layout(off, fs[..m])| + |Trailer(o)|;
    var e := q + BLOCK - Start(o);
    var t, n, gave := BreaksFirst(s, off, rs, p, m, q, e);
    var k, orphans := AfterDamage(t, OffsetAfter(o, fs[m]), fs[m + 1..], rs[1..], [n] + gave);
    StartByFirst(off, rs, m, q, e, k, orphans);
    l := Loss(0, k + 1, q, e, BlocksTo(off, fs, m), n, gave, orphans);
    LostFirst(off, rs, p, m, l);
    NoneBefore(rs, k);
  }

  lemma NoneBefore(rs: seq<Bytes>, k: nat)
    requires k < |rs|
    ensures rs[..0] + rs[k + 1..] == rs[1..][k..]
  {}

  /** One record on, and `size` bytes. */
  function Later(l: Loss, size: nat, blocks: nat): (r: Loss) {
    l.(i := l.i + 1, j := l.j + 1, q := l.q + size, e := l.e + size, blocks := l.blocks + blocks)
  }

  lemma HoldingLater(off: nat, rs: seq<Bytes>, n: nat, p: nat, o: nat, l: Loss, m: Loss)
    requires off <= BLOCK && rs != [] && n == |Layout(off, FragmentsOf(off, rs[0], true))| && p >= n
    requires o == End(off, FragmentsOf(off, rs[0], true)) && o <= BLOCK && l.i + 1 < |rs|
    requires m.i == l.i + 1 && m.q == l.q + n && m.e == l.e + n && m.gave == l.gave
    requires Holding(Size(o, rs[1..][..l.i]), Size(o, rs[1..][..l.i + 1]), p - n, l.q, l.e)
    requires Gave(l.gave, Size(o, rs[1..][..l.i]), l.q, |rs[1..][l.i]|)
    ensures Holding(Size(off, rs[..m.i]), Size(off, rs[..m.i + 1]), p, m.q, m.e)
    ensures Gave(m.gave, Size(off, rs[..m.i]), m.q, |rs[m.i]|)
  {
    SizeStep(off, rs, m.i);
    SizeStep(off, rs, m.i + 1);
  }

  lemma StartByLater(off: nat, rs: seq<Bytes>, n: nat, o: nat, l: Loss, m: Loss)
    requires off <= BLOCK && rs != [] && n == |Layout(off, FragmentsOf(off, rs[0], true))|
    requires o == End(off, FragmentsOf(off, rs[0], true)) && StartBy(o, rs[1..], l.j, l.e, l.orphans)
    requires m.j == l.j + 1 && m.e == l.e + n && m.orphans == l.orphans
    ensures StartBy(off, rs, m.j, m.e, m.orphans)
  {
    SizeStep(off, rs, l.j);
    SizeStep(off, rs, m.j);
  }

  lemma LostLater(off: nat, rs: seq<Bytes>, n: nat, p: nat, o: nat, l: Loss, m: Loss)
    requires off <= BLOCK && rs != [] && n == |Layout(off, FragmentsOf(off, rs[0], true))| && p >= n
    requires o == End(off, FragmentsOf(off, rs[0], true)) && Lost(o, rs[1..], p - n, l)
    requires m == Later(l, n, Crossed(off, FragmentsOf(off, rs[0], true)))
    ensures Lost(off, rs, p, m)
  {
    Advances(off, FragmentsOf(off, rs[0], true));
    HoldingLater(off, rs, n, p, o, l, m);
    StartByLater(off, rs, n, o, l, m);
  }

  /** The reader comes to damage. */
  ghost predicate Faces(s: State, off: nat, rs: seq<Bytes>, p: nat) {
    At(s, off) && Hurt(Rest(s), Layout(off, Stream(off, rs)), p) && InPayload(off, Stream(off, rs), p)
  }

  lemma NotEmpty(off: nat, rs: seq<Bytes>, p: nat)
    requires off <= BLOCK && InPayload(off, Stream(off, rs), p)
    ensures rs != []
  {}

  /** The bytes and the fragments after the first record. */
  lemma AfterFirst(x: Bytes, off: nat, rs: seq<Bytes>, p: nat, o: nat, n: nat)
    requires off <= BLOCK && rs != [] && o == End(off, FragmentsOf(off, rs[0], true)) && n == |Layout(off, FragmentsOf(off, rs[0], true))|
    requires Hurt(x, Layout(off, Stream(off, rs)), p) && InPayload(off, Stream(off, rs), p) && p >= n
    ensures n <= |x| && x == Layout(off, FragmentsOf(off, rs[0], true)) + x[n..]
    ensures Hurt(x[n..], Layout(o, Stream(o, rs[1..])), p - n) && InPayload(o, Stream(o, rs[1..]), p - n)
  {
    var fs := FragmentsOf(off, rs[0], true);
    StreamStep(off, rs);
    InPayloadOf(off, fs, Stream(o, rs[1..]), p);
    HurtLater(x, Layout(off, fs), Layout(o, Stream(o, rs[1..])), p);
  }

  /** The first record is whole. */
  lemma WholeFirst(s: State, off: nat, rs: seq<Bytes>, p: nat, o: nat, n: nat) returns (t: State)
    requires Faces(s, off, rs, p) && rs != [] && o == End(off, FragmentsOf(off, rs[0], true))
    requires n == |Layout(off, FragmentsOf(off, rs[0], true))| && p >= n
    ensures Faces(t, o, rs[1..], p - n) && |Rest(s)| == |Rest(t)| + n
    ensures ReadAll(s, []) == Onto([rs[0]], ReadAll(t, []))
  {
    AfterFirst(Rest(s), off, rs, p, o, n);
    t := OneReads(s, off, rs[0], Rest(s)[n..]);
  }

  lemma OneReads(s: State, off: nat, data: Bytes, x: Bytes) returns (t: State)
    requires At(s, off) && Rest(s) == Layout(off, FragmentsOf(off, data, true)) + x
    ensures At(t, End(off, FragmentsOf(off, data, true))) && Rest(t) == x
    ensures ReadAll(s, []) == Onto([data], ReadAll(t, []))
  {
    t := RecordReads(s, off, data, true, x, [], []);
    assert [] + data == data;
    ReadAllStep(s, []);
  }

  lemma OntoLost(rs: seq<Bytes>, l: Loss, size: nat, blocks: nat)
    requires rs != [] && l.i < |rs| && l.j < |rs|
    ensures Onto([rs[0]], Returned(rs[1..], l)) == Returned(rs, Later(l, size, blocks))
  {
    assert [rs[0]] + (rs[1..][..l.i] + rs[1..][l.j..]) == rs[..l.i + 1] + rs[l.j + 1..];
  }

  lemma DroppedLater(all: nat, q: nat, e: nat, n: nat)
    ensures DroppedFrom(all + n, q + n, e + n) == DroppedFrom(all, q, e)
  {}

  lemma LosesHere(s: State, off: nat, rs: seq<Bytes>, p: nat) returns (l: Loss)
    requires Faces(s, off, rs, p) && rs != [] && p < |Layout(off, FragmentsOf(off, rs[0], true))|
    ensures Loses(s, off, rs, p, l)
  {
    var fs := FragmentsOf(off, rs[0], true);
    StreamStep(off, rs);
    InPayloadOf(off, fs, Stream(End(off, fs), rs[1..]), p);
    l := DamagedFirst(s, off, rs, p);
  }

  lemma LosesLater(s: State, off: nat, rs: seq<Bytes>, p: nat, t: State, o: nat, size: nat, l: Loss, m: Loss)
    requires off <= BLOCK && rs != [] && o == End(off, FragmentsOf(off, rs[0], true))
    requires size == |Layout(off, FragmentsOf(off, rs[0], true))| && p >= size
    requires |Rest(s)| == |Rest(t)| + size && ReadAll(s, []) == Onto([rs[0]], ReadAll(t, []))
    requires Loses(t, o, rs[1..], p - size, l) && m == Later(l, size, Crossed(off, FragmentsOf(off, rs[0], true)))
    ensures Loses(s, off, rs, p, m)
  {
    OntoLost(rs, l, size, Crossed(off, FragmentsOf(off, rs[0], true)));
    LostLater(off, rs, size, p, o, l, m);
    DroppedLater(|Rest(t)|, l.q, l.e, size);
  }

  lemma {:induction false} DamagedReads(s: State, off: nat, rs: seq<Bytes>, p: nat) returns (l: Loss)
    requires Faces(s, off, rs, p)
    ensures Loses(s, off, rs, p, l)
    decreases |rs|
  {
    NotEmpty(off, rs, p);
    if p < |Layout(off, FragmentsOf(off, rs[0], true))| {
      l := LosesHere(s, off, rs, p);
    } else {
      l := DamagedLater(s, off, rs, p);
    }
  }

  lemma {:induction false} DamagedLater(s: State, off: nat, rs: seq<Bytes>, p: nat) returns (l: Loss)
    requires Faces(s, off, rs, p) && rs != [] && p >= |Layout(off, FragmentsOf(off, rs[0], true))|
    ensures Loses(s, off, rs, p, l)
    decreases |rs|, 0
  {
    var fs := FragmentsOf(off, rs[0], true);
    var o, size := End(off, fs), |Layout(off, fs)|;
    var t := WholeFirst(s, off, rs, p, o, size);
    var rest := DamagedReads(t, o, rs[1..], p - size);
    l := Later(rest, size, Crossed(off, fs));
    LosesLater(s, off, rs, p, t, o, size, rest, l);
  }

  // ----- from the start of the file -----

  lemma SizeFromStart(rs: seq<Bytes>)
    ensures Size(BLOCK, rs) == |LogOf(rs)|
  {
    StartOfBlock(rs);
    SizeOf(BLOCK, rs);
  }

  lemma PayloadFromStart(fs: seq<Fragment>, p: nat)
    requires Fits(0, fs) && InPayload(0, fs, p)
    ensures Fits(BLOCK, fs) && InPayload(BLOCK, fs, p)
  {
    assert OffsetAfter(BLOCK, fs[0]) == OffsetAfter(0, fs[0]);
  }

  lemma LastBlock(p: nat, q: nat, e: nat, blocks: nat)
    requires BLOCK + e == BLOCK * blocks && p < e <= q + BLOCK && q <= p
    ensures e == (p / BLOCK + 1) * BLOCK
  {}

  lemma StartByOfLog(records: seq<Bytes>, j: nat, e: nat, orphans: seq<Fragment>)
    requires StartBy(BLOCK, records, j, e, orphans)
    ensures |LogOf(records[..j - 1])| + HEADER <= e && (j < |records| ==> |LogOf(records[..j])| + HEADER > e)
    ensures EndsWith(records[j - 1], Payload(orphans)) && (orphans == [] <==> |LogOf(records[..j])| <= e)
  {
    SizeFromStart(records[..j - 1]);
    SizeFromStart(records[..j]);
  }

  lemma LostOfLog(records: seq<Bytes>, p: nat, l: Loss)
    requires Lost(BLOCK, records, p, l)
    ensures l.e == (p / BLOCK + 1) * BLOCK
    ensures Holding(|LogOf(records[..l.i])|, |LogOf(records[..l.i + 1])|, p, l.q, l.e)
    ensures Gave(l.gave, |LogOf(records[..l.i])|, l.q, |records[l.i]|)
  {
    LastBlock(p, l.q, l.e, l.blocks);
    SizeFromStart(records[..l.i]);
    SizeFromStart(records[..l.i + 1]);
  }

  lemma FacesFromStart(records: seq<Bytes>, damaged: Bytes, p: nat)
    requires Hurt(damaged, LogOf(records), p) && InPayload(0, Stream(0, records), p)
    ensures Faces(State([], damaged, false), BLOCK, records, p) && Rest(State([], damaged, false)) == damaged
  {
    assert [] + damaged == damaged;
    StartOfBlock(records);
    PayloadFromStart(Stream(0, records), p);
  }

  lemma LosesFromStart(records: seq<Bytes>, damaged: Bytes, p: nat) returns (l: Loss)
    requires Hurt(damaged, LogOf(records), p) && InPayload(0, Stream(0, records), p)
    ensures Lost(BLOCK, records, p, l) && l.n == DroppedFrom(|damaged|, l.q, l.e)
    ensures ReadAll(State([], damaged, false), []) ==
            Contents(records[..l.i] + records[l.j..], [l.n] + l.gave + Lengths(l.orphans))
  {
    FacesFromStart(records, damaged, p);
    l := DamagedReads(State([], damaged, false), BLOCK, records, p);
  }

  /** A log of which some of four consecutive payload bytes of one fragment, those
      from `p` on, are damaged.  What is returned is records that were written: those
      before record `i`, which holds the damaged bytes, and those from record `j`
      on, the first that starts behind the block of these bytes.  What is reported
      is the rest of the block, from the start `q` of the damaged fragment to the
      end of the block or of the file, what the reader had of record `i`, and the
      fragments that record `j - 1` has in later blocks, each by its length. */
  lemma DamagedLogLosesOnlyItsBlock(records: seq<Bytes>, damaged: Bytes, p: nat) returns (l: Loss)
    requires Hurt(damaged, LogOf(records), p) && InPayload(0, Stream(0, records), p)
    ensures l.i < l.j <= |records| && l.e == (p / BLOCK + 1) * BLOCK
    ensures Holding(|LogOf(records[..l.i])|, |LogOf(records[..l.i + 1])|, p, l.q, l.e)
    ensures Gave(l.gave, |LogOf(records[..l.i])|, l.q, |records[l.i]|)
    ensures |LogOf(records[..l.j - 1])| + HEADER <= l.e && (l.j < |records| ==> |LogOf(records[..l.j])| + HEADER > l.e)
    ensures EndsWith(records[l.j - 1], Payload(l.orphans)) && (l.orphans == [] <==> |LogOf(records[..l.j])| <= l.e)
    ensures l.n == DroppedFrom(|damaged|, l.q, l.e)
    ensures ReadAll(State([], damaged, false), []) ==
            Contents(records[..l.i] + records[l.j..], [l.n] + l.gave + Lengths(l.orphans))
  {
    l := LosesFromStart(records, damaged, p);
    LostOfLog(records, p, l);
    StartByOfLog(records, l.j, l.e, l.orphans);
  }

  // ----- records without an end, and fragments of no known type -----

  /** A fragment that begins a record gives up what was being assembled. */
  lemma StartsAfresh(s: State, inFragment: bool, scratch: Bytes, told: seq<nat>)
    requires (NextPhysical(s).kind == FULL || NextPhysical(s).kind == FIRST) && NextPhysical(s).drops == []
    ensures NextRecord(s, inFragment, scratch, told) == NextRecord(s, false, [], told + Partial(inFragment, scratch))
  {
    PhysicalShrinks(s);
    assert told + [] + Partial(inFragment, scratch) == told + Partial(inFragment, scratch) + [] + [];
  }

  lemma BeginsRecord(s: State, off: nat, rs: seq<Bytes>)
    requires At(s, off) && rs != [] && Rest(s) == Layout(off, Stream(off, rs))
    ensures (NextPhysical(s).kind == FULL || NextPhysical(s).kind == FIRST) && NextPhysical(s).drops == []
  {
    var fs, f := FragmentsOf(off, rs[0], true), Piece(off, rs[0], true);
    var rest := Layout(End(off, fs), Stream(End(off, fs), rs[1..]));
    StreamStep(off, rs);
    PiecesOf(off, rs[0], true);
    LayoutStep(off, fs);
    Rejoin(Trailer(off) + Physical(f), Layout(OffsetAfter(off, f), TailPieces(off, rs[0], true)), rest);
    var t := ReadsPresent(s, off, f, Layout(OffsetAfter(off, f), TailPieces(off, rs[0], true)) + rest);
  }

  lemma LeadsToRecords(s: State, t: State, f: bool, had: Bytes, off: nat, rs: seq<Bytes>)
    requires Leads(s, false, [], t, f, had, []) && At(t, off) && rs != [] && Rest(t) == Layout(off, Stream(off, rs))
    ensures ReadAll(s, []) == Contents(rs, Partial(f, had))
  {
    BeginsRecord(t, off, rs);
    StartsAfresh(t, f, had, []);
    ReadAllStep(s, []);
    ReadAllStep(t, Partial(f, had));
    var none: seq<nat> := [];
    assert none + [] == none && none + Partial(f, had) == Partial(f, had);
    ReadsTheRest(t, off, rs, Partial(f, had));
  }

  /** A writer that died between two fragments of a record, and one that went on
      behind it: the new records are read, and the bytes of the record without an
      end are reported, if there are any. */
  lemma AbandonedRecord(s: State, off: nat, pieces: seq<Fragment>, rs: seq<Bytes>)
    requires At(s, off) && Fits(off, pieces) && Opens(pieces, true) && rs != []
    requires Rest(s) == Layout(off, pieces) + Layout(End(off, pieces), Stream(End(off, pieces), rs))
    ensures ReadAll(s, []) == Contents(rs, if Payload(pieces) == [] then [] else [|Payload(pieces)|])
  {
    var e := End(off, pieces);
    var t := PiecesReadFirst(s, off, pieces, Layout(e, Stream(e, rs)));
    LeadsToRecords(s, t, pieces != [], Payload(pieces), e, rs);
  }

  lemma UnknownStep(s: State, inFragment: bool, scratch: Bytes, told: seq<nat>, n: nat)
    requires var p := NextPhysical(s); (p.kind == 0 || p.kind > BAD) && p.drops == [] && n == |p.data| + if inFragment then |scratch| else 0
    ensures NextRecord(s, inFragment, scratch, told) == NextRecord(NextPhysical(s).state, false, [], told + [n])
  {
    PhysicalShrinks(s);
    var p := NextPhysical(s);
    assert Judge(p.kind, p.data, inFragment, scratch) == Continue(false, [], [n]);
    assert told + p.drops + [n] == told + [n];
  }

  lemma UnknownGoesOn(s: State, inFragment: bool, scratch: Bytes, t: State, n: nat)
    requires var p := NextPhysical(s); (p.kind == 0 || p.kind > BAD) && p.drops == [] && n == |p.data| + if inFragment then |scratch| else 0
    requires t == NextPhysical(s).state
    ensures Leads(s, inFragment, scratch, t, false, [], [n])
  {
    forall told: seq<nat> ensures NextRecord(s, inFragment, scratch, told) == NextRecord(t, false, [], told + [n]) {
      UnknownStep(s, inFragment, scratch, told, n);
    }
  }

  lemma UnknownReads(s: State, off: nat, f: Fragment, x: Bytes, inFragment: bool, scratch: Bytes, n: nat) returns (t: State)
    requires At(s, off) && OffsetAfter(off, f) <= BLOCK && ((f.kind == 0 && f.data != []) || f.kind > BAD)
    requires Rest(s) == (Trailer(off) + Physical(f)) + x && n == |f.data| + if inFragment then |scratch| else 0
    ensures Leads(s, inFragment, scratch, t, false, [], [n])
    ensures At(t, OffsetAfter(off, f)) && Rest(t) == x
  {
    t := ReadsPresent(s, off, f, x);
    UnknownGoesOn(s, inFragment, scratch, t, n);
  }

  /** A fragment of a type that the format does not have: it is reported together
      with what there was of the record it stands in, and reading goes on behind it. */
  lemma UnknownFragment(s: State, off: nat, pieces: seq<Fragment>, f: Fragment, rs: seq<Bytes>, n: nat)
    requires At(s, off) && Fits(off, pieces) && Opens(pieces, true)
    requires (f.kind == 0 && f.data != []) || f.kind > BAD
    requires var o := End(off, pieces);
             OffsetAfter(o, f) <= BLOCK &&
             Rest(s) == Layout(off, pieces) + ((Trailer(o) + Physical(f)) + Layout(OffsetAfter(o, f), Stream(OffsetAfter(o, f), rs)))
    requires n == |f.data| + |Payload(pieces)|
    ensures ReadAll(s, []) == Contents(rs, [n])
  {
    var o, had := End(off, pieces), Payload(pieces);
    var rest := Layout(OffsetAfter(o, f), Stream(OffsetAfter(o, f), rs));
    var t := PiecesReadFirst(s, off, pieces, (Trailer(o) + Physical(f)) + rest);
    var u := UnknownReads(t, o, f, rest, pieces != [], had, n);
    LeadsAll(s, t, pieces != [], had, u, [n]);
    ReadsTheRest(u, OffsetAfter(o, f), rs, [n]);
  }

  lemma PiecesReadFirst(s: State, off: nat, fs: seq<Fragment>, x: Bytes) returns (t: State)
    requires At(s, off) && Fits(off, fs) && Opens(fs, true) && Rest(s) == Layout(off, fs) + x
    ensures Leads(s, false, [], t, fs != [], Payload(fs), []) && (fs == [] ==> Payload(fs) == [])
    ensures At(t, End(off, fs)) && Rest(t) == x
  {
    t := PiecesRead(s, off, fs, x, true, []);
    assert [] + Payload(fs) == Payload(fs);
  }
}
