/** VersionSet::Builder: replaying version edits (db/version_set.cc:570-760). */
module Manifest {
  import opened Keys
  import opened Lookup
  import opened Versions
  import opened Install

  /** What one edit says about one level. */
  datatype LevelEdit = LevelEdit(deleted: set<nat>, added: seq<File>)

  /** What a builder remembers about one level. */
  datatype LevelState = LevelState(deleted: set<nat>, added: seq<File>)

  const CLEAR := LevelState({}, [])

  // ----- std::set<FileMetaData*, BySmallestKey> -----

  function Insert(fs: seq<File>, f: File): (r: seq<File>) {
    if fs == [] || BySmallestKey(f, fs[0]) then [f] + fs
    else if BySmallestKey(fs[0], f) then [fs[0]] + Insert(fs[1..], f)
    else fs
  }

  ghost predicate FreshNumber(fs: seq<File>, f: File) {
    forall g :: g in fs ==> g.number != f.number
  }

  lemma {:induction false} InsertAdds(fs: seq<File>, f: File)
    requires SortedLevel(fs) && FreshNumber(fs, f)
    ensures SortedLevel(Insert(fs, f))
    ensures forall g :: g in Insert(fs, f) <==> g in fs || g == f
  {
    if fs != [] {
      assert fs[0] in fs;
      if !BySmallestKey(f, fs[0]) {
        var rest := fs[1..];
        InsertAdds(rest, f);
        assert forall g :: g in fs <==> g == fs[0] || g in rest;
        forall g | g in Insert(rest, f) ensures BySmallestKey(fs[0], g) {
          if g in rest {
            var i :| 0 <= i < |rest| && rest[i] == g;
            assert BySmallestKey(fs[0], fs[i + 1]);
          }
        }
      } else {
        forall g | g in fs ensures BySmallestKey(f, g) {
          var i :| 0 <= i < |fs| && fs[i] == g;
          assert i == 0 || BySmallestKey(fs[0], fs[i]);
        }
      }
    }
  }

  /** A sorted list of files is determined by its members. */
  lemma {:induction false} SortedIsUnique(a: seq<File>, b: seq<File>)
    requires SortedLevel(a) && SortedLevel(b) && forall f :: f in a <==> f in b
    ensures a == b
  {
    assert b == [] || b[0] in b;
    assert a == [] || a[0] in a;
    if a != [] {
      FirstOfSorted(a, b);
      FirstOfSorted(b, a);
      forall f ensures f in a[1..] <==> f in b[1..] {
        TailMembers(a, f);
        TailMembers(b, f);
      }
      SortedIsUnique(a[1..], b[1..]);
    }
  }

  lemma FirstOfSorted(a: seq<File>, b: seq<File>)
    requires SortedLevel(a) && a != [] && b != [] && b[0] in a
    ensures b[0] == a[0] || BySmallestKey(a[0], b[0])
  {}

  lemma TailMembers(a: seq<File>, f: File)
    requires SortedLevel(a) && a != []
    ensures f in a[1..] <==> f in a && f != a[0]
  {
    assert a == [a[0]] + a[1..];
    if f in a[1..] {
      var i :| 0 <= i < |a| - 1 && a[1..][i] == f;
      assert BySmallestKey(a[0], a[i + 1]);
    }
  }

  // ----- applying edits -----

  function Numbers(fs: seq<File>): (r: set<nat>) {
    set f | f in fs :: f.number
  }

  function InsertAll(fs: seq<File>, added: seq<File>): (r: seq<File>) {
    if added == [] then fs else Insert(InsertAll(fs, added[..|added| - 1]), added[|added| - 1])
  }

  /** Builder::Apply on one level: deletions first, then additions, which revive
      their numbers. */
  function ApplyEdit(st: LevelState, e: LevelEdit): (r: LevelState) {
    LevelState(st.deleted + e.deleted - Numbers(e.added), InsertAll(st.added, e.added))
  }

  function ApplyAll(es: seq<LevelEdit>): (r: LevelState) {
    if es == [] then CLEAR else ApplyEdit(ApplyAll(es[..|es| - 1]), es[|es| - 1])
  }

  // ----- saving -----

  function Merge(base: seq<File>, added: seq<File>): (r: seq<File>)
    decreases |base| + |added|
  {
    if added == [] then base
    else if base != [] && !BySmallestKey(added[0], base[0]) then [base[0]] + Merge(base[1..], added)
    else [added[0]] + Merge(base, added[1..])
  }

  function Keep(fs: seq<File>, deleted: set<nat>): (r: seq<File>) {
    if fs == [] then []
    else (if fs[0].number in deleted then [] else [fs[0]]) + Keep(fs[1..], deleted)
  }

  /** Builder::SaveTo on one level. */
  function Save(base: seq<File>, st: LevelState): (r: seq<File>) {
    Keep(Merge(base, st.added), st.deleted)
  }

  lemma {:induction false} MergeIsSortedUnion(base: seq<File>, added: seq<File>)
    requires SortedLevel(base) && SortedLevel(added)
    requires forall f, g :: f in base && g in added ==> f.number != g.number
    ensures SortedLevel(Merge(base, added))
    ensures forall f :: f in Merge(base, added) <==> f in base || f in added
    decreases |base| + |added|
  {
    if added != [] {
      if base != [] && !BySmallestKey(added[0], base[0]) {
        assert base == [base[0]] + base[1..];
        MergeIsSortedUnion(base[1..], added);
        assert base[0] in base && added[0] in added;
        HeadBelow(base[0], base[1..], added, Merge(base[1..], added));
      } else {
        assert added == [added[0]] + added[1..];
        MergeIsSortedUnion(base, added[1..]);
        HeadBelow(added[0], added[1..], base, Merge(base, added[1..]));
      }
    }
  }

  lemma HeadBelow(head: File, tail: seq<File>, other: seq<File>, merged: seq<File>)
    requires SortedLevel([head] + tail) && SortedLevel(other) && SortedLevel(merged)
    requires other != [] ==> BySmallestKey(head, other[0])
    requires forall f :: f in merged <==> f in tail || f in other
    ensures SortedLevel([head] + merged)
  {
    forall i | 0 <= i < |merged| ensures BySmallestKey(head, merged[i]) {
      assert merged[i] in merged;
      if merged[i] in tail {
        var j :| 0 <= j < |tail| && tail[j] == merged[i];
        assert ([head] + tail)[0] == head && ([head] + tail)[j + 1] == tail[j];
      }
    }
  }

  lemma {:induction false} KeepIsSortedFilter(fs: seq<File>, deleted: set<nat>)
    requires SortedLevel(fs)
    ensures SortedLevel(Keep(fs, deleted))
    ensures forall f :: f in Keep(fs, deleted) <==> f in fs && f.number !in deleted
  {
    if fs != [] {
      KeepIsSortedFilter(fs[1..], deleted);
      assert fs == [fs[0]] + fs[1..];
      var kept := Keep(fs[1..], deleted);
      forall i | 0 <= i < |kept| ensures BySmallestKey(fs[0], kept[i]) {
        assert kept[i] in kept;
        var j :| 0 <= j < |fs| - 1 && fs[1..][j] == kept[i];
        assert BySmallestKey(fs[0], fs[j + 1]);
      }
    }
  }

  /** Every added file of the next edit has a number unseen in `seen`, and the
      edit's own numbers differ. */
  ghost predicate FreshAdds(seen: seq<File>, added: seq<File>) {
    (forall f, g :: f in seen && g in added ==> f.number != g.number) &&
    forall i, j :: 0 <= i < j < |added| ==> added[i].number != added[j].number
  }

  /** No file number is ever added twice to the level. */
  ghost predicate NeverReadded(base: seq<File>, es: seq<LevelEdit>) {
    es == [] ||
    (NeverReadded(base, es[..|es| - 1]) && FreshAdds(base + ApplyAll(es[..|es| - 1]).added, es[|es| - 1].added))
  }

  lemma {:induction false} InsertAllAdds(fs: seq<File>, added: seq<File>)
    requires SortedLevel(fs) && FreshAdds(fs, added)
    ensures SortedLevel(InsertAll(fs, added))
    ensures forall f :: f in InsertAll(fs, added) <==> f in fs || f in added
  {
    if added != [] {
      var front, last := added[..|added| - 1], added[|added| - 1];
      InsertAllAdds(fs, front);
      assert added == front + [last];
      InsertAdds(InsertAll(fs, front), last);
    }
  }

  lemma {:induction false} AddedStaySorted(base: seq<File>, es: seq<LevelEdit>)
    requires NeverReadded(base, es)
    ensures SortedLevel(ApplyAll(es).added)
    ensures forall f, g :: f in base && g in ApplyAll(es).added ==> f.number != g.number
  {
    if es != [] {
      var front := es[..|es| - 1];
      AddedStaySorted(base, front);
      InsertAllAdds(ApplyAll(front).added, es[|es| - 1].added);
    }
  }

  lemma SaveMembers(base: seq<File>, st: LevelState)
    requires SortedLevel(base) && SortedLevel(st.added)
    requires forall f, g :: f in base && g in st.added ==> f.number != g.number
    ensures SortedLevel(Save(base, st))
    ensures forall f :: f in Save(base, st) <==> (f in base || f in st.added) && f.number !in st.deleted
  {
    MergeIsSortedUnion(base, st.added);
    KeepIsSortedFilter(Merge(base, st.added), st.deleted);
  }

  /** The level after each edit was saved on its own. */
  function History(base: seq<File>, es: seq<LevelEdit>): (r: seq<File>) {
    if es == [] then base else Save(History(base, es[..|es| - 1]), ApplyEdit(CLEAR, es[|es| - 1]))
  }

  /** One builder fed all edits and saved once gives the level that saving after
      every edit would have given. */
  lemma {:induction false} ReplayEqualsHistory(base: seq<File>, es: seq<LevelEdit>)
    requires SortedLevel(base) && NeverReadded(base, es)
    ensures Save(base, ApplyAll(es)) == History(base, es)
    ensures SortedLevel(History(base, es))
  {
    if es == [] {
      SaveMembers(base, CLEAR);
      SortedIsUnique(Save(base, CLEAR), base);
    } else {
      var front, e := es[..|es| - 1], es[|es| - 1];
      ReplayEqualsHistory(base, front);
      AddedStaySorted(base, front);
      AddedStaySorted(base, es);
      SaveMembers(base, ApplyAll(front));
      SaveMembers(base, ApplyAll(es));
      ReplayStep(base, front, e);
    }
  }

  lemma ReplayStep(base: seq<File>, front: seq<LevelEdit>, e: LevelEdit)
    requires SortedLevel(base) && NeverReadded(base, front) && FreshAdds(base + ApplyAll(front).added, e.added)
    requires SortedLevel(History(base, front)) && Save(base, ApplyAll(front)) == History(base, front)
    ensures Save(base, ApplyEdit(ApplyAll(front), e)) == Save(History(base, front), ApplyEdit(CLEAR, e))
    ensures SortedLevel(Save(History(base, front), ApplyEdit(CLEAR, e)))
  {
    var st, one, before := ApplyAll(front), ApplyEdit(CLEAR, e), History(base, front);
    AddedStaySorted(base, front);
    SaveMembers(base, st);
    InsertAllAdds(st.added, e.added);
    InsertAllAdds([], e.added);
    assert forall f :: f in before ==> f in base + st.added;
    SaveMembers(before, one);
    SaveMembers(base, ApplyEdit(st, e));
    forall f ensures f in Save(base, ApplyEdit(st, e)) <==> f in Save(before, one) {
      if f in e.added { assert f.number in Numbers(e.added); }
      if f.number in Numbers(e.added) && f !in e.added {
        var g :| g in e.added && g.number == f.number;
        assert f !in base + st.added;
      }
    }
    SortedIsUnique(Save(base, ApplyEdit(st, e)), Save(before, one));
  }

  /** Saving one edit is exactly the level change that flushes and compactions ask for. */
  lemma SavedEditInstalls(before: seq<File>, deleted: seq<File>, added: seq<File>)
    requires SortedLevel(before) && FreshAdds(before, added)
    requires forall f, g :: f in before && g in before && f.number == g.number ==> f == g
    requires forall f :: f in deleted ==> f in before
    ensures LevelEdited(before, deleted, added, Save(before, ApplyEdit(CLEAR, LevelEdit(Numbers(deleted), added))))
  {
    var st := ApplyEdit(CLEAR, LevelEdit(Numbers(deleted), added));
    InsertAllAdds([], added);
    SaveMembers(before, st);
    forall f ensures f in Save(before, st) <==> (f in before && f !in deleted) || f in added {
      if f in added { assert f.number in Numbers(added); }
      if f in deleted { assert f.number in Numbers(deleted); }
    }
  }

  // ----- numbers that come back -----

  ghost predicate OneFilePerNumber(fs: seq<File>) {
    forall f, g :: f in fs && g in fs && f.number == g.number ==> f == g
  }

  /** Each edit adds files of different numbers, none of them live at the time. */
  ghost predicate AddsDeadNumbers(base: seq<File>, es: seq<LevelEdit>) {
    es == [] ||
    (AddsDeadNumbers(base, es[..|es| - 1]) && FreshAdds(History(base, es[..|es| - 1]), es[|es| - 1].added))
  }

  /** All additions, in the order they were made. */
  function AllAdded(es: seq<LevelEdit>): (r: seq<File>) {
    if es == [] then [] else AllAdded(es[..|es| - 1]) + es[|es| - 1].added
  }

  /** The builder's set of added files cannot tell the two apart. */
  predicate Alike(f: File, g: File) {
    f.number == g.number && f.smallest == g.smallest
  }

  /** `f` was added, and no file like it was added before. */
  ghost predicate FirstAlike(added: seq<File>, f: File) {
    exists i :: 0 <= i < |added| && added[i] == f && NoneAlike(added[..i], f)
  }

  ghost predicate NoneAlike(fs: seq<File>, f: File) {
    forall g :: g in fs ==> !Alike(g, f)
  }

  lemma {:induction false} InsertUnlessAlike(fs: seq<File>, f: File)
    requires SortedLevel(fs)
    ensures SortedLevel(Insert(fs, f))
    ensures forall g :: g in Insert(fs, f) <==> g in fs || (g == f && NoneAlike(fs, f))
  {
    if fs != [] {
      var head, rest := fs[0], fs[1..];
      assert fs == [head] + rest;
      if BySmallestKey(f, head) {
        forall g | g in fs ensures BySmallestKey(f, g) {
          var i :| 0 <= i < |fs| && fs[i] == g;
          assert i == 0 || BySmallestKey(head, fs[i]);
        }
      } else if BySmallestKey(head, f) {
        InsertUnlessAlike(rest, f);
        forall g | g in Insert(rest, f) ensures BySmallestKey(head, g) {
          if g in rest {
            var i :| 0 <= i < |rest| && rest[i] == g;
            assert BySmallestKey(head, fs[i + 1]);
          }
        }
      } else {
        assert head in fs && Alike(head, f);
      }
    }
  }

  /** The builder's set holds the first of each kind of file that was added. */
  lemma {:induction false} InsertedAreFirst(added: seq<File>)
    ensures SortedLevel(InsertAll([], added))
    ensures forall f :: f in InsertAll([], added) <==> FirstAlike(added, f)
  {
    if added != [] {
      var front, last := added[..|added| - 1], added[|added| - 1];
      var before := InsertAll([], front);
      assert added == front + [last];
      InsertedAreFirst(front);
      InsertUnlessAlike(before, last);
      FirstsCover(front, last);
      forall f ensures FirstAlike(added, f) <==> FirstAlike(front, f) || (f == last && NoneAlike(front, last)) {
        FirstAlikeSnoc(front, last, f);
      }
      assert NoneAlike(before, last) <==> NoneAlike(front, last);
    }
  }

  lemma FirstAlikeSnoc(front: seq<File>, last: File, f: File)
    ensures FirstAlike(front + [last], f) <==> FirstAlike(front, f) || (f == last && NoneAlike(front, last))
  {
    var added := front + [last];
    forall i | 0 <= i <= |front| ensures added[..i] == front[..i] {}
    assert front[..|front|] == front;
    if FirstAlike(front, f) {
      var i :| 0 <= i < |front| && front[i] == f && NoneAlike(front[..i], f);
      assert added[i] == f && NoneAlike(added[..i], f);
    }
    if f == last && NoneAlike(front, last) {
      assert added[|front|] == f && NoneAlike(added[..|front|], f);
    }
  }

  /** Each added file is like the first one of its kind. */
  lemma {:induction false} FirstOfKind(added: seq<File>, f: File) returns (g: File)
    requires f in added
    ensures Alike(g, f) && FirstAlike(added, g) && g in added
  {
    var front, last := added[..|added| - 1], added[|added| - 1];
    assert added == front + [last];
    if h :| h in front && Alike(h, f) {
      g := FirstOfKind(front, h);
    } else {
      g := last;
    }
    FirstAlikeSnoc(front, last, g);
  }

  lemma FirstsCover(front: seq<File>, last: File)
    ensures (forall g :: FirstAlike(front, g) ==> !Alike(g, last)) <==> NoneAlike(front, last)
  {
    if g :| g in front && Alike(g, last) {
      var h := FirstOfKind(front, g);
    }
    if g :| FirstAlike(front, g) && Alike(g, last) {
      assert g in front;
    }
  }

  lemma {:induction false} InsertAllConcat(fs: seq<File>, a: seq<File>, b: seq<File>)
    ensures InsertAll(fs, a + b) == InsertAll(InsertAll(fs, a), b)
  {
    if b == [] {
      assert a + b == a;
    } else {
      InsertAllConcat(fs, a, b[..|b| - 1]);
      assert (a + b)[..|a + b| - 1] == a + b[..|b| - 1];
    }
  }

  lemma {:induction false} GatheredAre(es: seq<LevelEdit>)
    ensures ApplyAll(es).added == InsertAll([], AllAdded(es))
  {
    if es != [] {
      GatheredAre(es[..|es| - 1]);
      InsertAllConcat([], AllAdded(es[..|es| - 1]), es[|es| - 1].added);
    }
  }

  // ----- what is live -----

  /** Some file of the base, or some added file, bears the number. */
  ghost predicate Mentioned(base: seq<File>, es: seq<LevelEdit>, n: nat) {
    exists f :: f in base + AllAdded(es) && f.number == n
  }

  ghost predicate Live(fs: seq<File>, n: nat) {
    exists f :: f in fs && f.number == n
  }

  lemma StillOneFile(before: seq<File>, added: seq<File>, after: seq<File>)
    requires OneFilePerNumber(before) && FreshAdds(before, added)
    requires forall f :: f in after ==> f in before || f in added
    ensures OneFilePerNumber(after)
  {
    forall f, g | f in added && g in added && f.number == g.number ensures f == g {
      var i :| 0 <= i < |added| && added[i] == f;
      var j :| 0 <= j < |added| && added[j] == g;
      assert i < j ==> added[i].number != added[j].number;
    }
  }

  lemma SavedEditAre(before: seq<File>, e: LevelEdit)
    requires SortedLevel(before) && FreshAdds(before, e.added)
    ensures var after := Save(before, ApplyEdit(CLEAR, e));
            SortedLevel(after) && forall f :: f in after <==> (f in before && f.number !in e.deleted) || f in e.added
  {
    var st, after := ApplyEdit(CLEAR, e), Save(before, ApplyEdit(CLEAR, e));
    InsertAllAdds([], e.added);
    assert forall f, g :: f in before && g in st.added ==> f.number != g.number;
    SaveMembers(before, st);
    forall f ensures f in after <==> (f in before && f.number !in e.deleted) || f in e.added {
      if f in e.added { assert f.number in Numbers(e.added); }
    }
  }

  lemma HistoryStep(before: seq<File>, e: LevelEdit)
    requires SortedLevel(before) && OneFilePerNumber(before) && FreshAdds(before, e.added)
    ensures var after := Save(before, ApplyEdit(CLEAR, e));
            SortedLevel(after) && OneFilePerNumber(after) &&
            forall f :: f in after <==> (f in before && f.number !in e.deleted) || f in e.added
  {
    SavedEditAre(before, e);
    StillOneFile(before, e.added, Save(before, ApplyEdit(CLEAR, e)));
  }

  /** `f` was there, or was added, and no later edit deletes its number. */
  ghost predicate Stands(base: seq<File>, es: seq<LevelEdit>, f: File) {
    (f in base && NotDeleted(es, 0, f.number)) || exists j :: 0 <= j < |es| && f in es[j].added && NotDeleted(es, j + 1, f.number)
  }

  predicate NotDeleted(es: seq<LevelEdit>, from: nat, n: nat) {
    forall i :: from <= i < |es| ==> n !in es[i].deleted
  }

  lemma StandsStep(base: seq<File>, es: seq<LevelEdit>, f: File)
    requires es != []
    ensures Stands(base, es, f) <==>
            (Stands(base, es[..|es| - 1], f) && f.number !in es[|es| - 1].deleted) || f in es[|es| - 1].added
  {
    var front, n := es[..|es| - 1], |es| - 1;
    if Stands(base, front, f) && f.number !in es[n].deleted {
      if !(f in base && NotDeleted(front, 0, f.number)) {
        var j :| 0 <= j < n && f in front[j].added && NotDeleted(front, j + 1, f.number);
        assert f in es[j].added && NotDeleted(es, j + 1, f.number);
      }
    }
    if f in es[n].added {
      assert NotDeleted(es, n + 1, f.number);
    } else if Stands(base, es, f) && !(f in base && NotDeleted(es, 0, f.number)) {
      var j :| 0 <= j < |es| && f in es[j].added && NotDeleted(es, j + 1, f.number);
      assert f in front[j].added && NotDeleted(front, j + 1, f.number);
    }
  }

  /** What the levels hold after a history of edits, said without replaying it. */
  lemma {:induction false} HistoryHolds(base: seq<File>, es: seq<LevelEdit>)
    requires SortedLevel(base) && NeverReadded(base, es)
    ensures forall f :: f in History(base, es) <==> Stands(base, es, f)
  {
    if es != [] {
      var front, e := es[..|es| - 1], es[|es| - 1];
      HistoryHolds(base, front);
      ReplayEqualsHistory(base, front);
      AddedStaySorted(base, front);
      SaveMembers(base, ApplyAll(front));
      SavedEditAre(History(base, front), e);
      forall f ensures f in History(base, es) <==> Stands(base, es, f) {
        StandsStep(base, es, f);
      }
    }
  }

  /** A number is live at the end exactly when a file bore it and the builder does
      not hold it for deleted. */
  lemma {:induction false} LiveNumbers(base: seq<File>, es: seq<LevelEdit>)
    requires SortedLevel(base) && OneFilePerNumber(base) && AddsDeadNumbers(base, es)
    ensures SortedLevel(History(base, es)) && OneFilePerNumber(History(base, es))
    ensures forall f :: f in History(base, es) ==> f in base || f in AllAdded(es)
    ensures forall n :: Live(History(base, es), n) <==> Mentioned(base, es, n) && n !in ApplyAll(es).deleted
  {
    if es == [] {
      forall n ensures Live(base, n) <==> Mentioned(base, es, n) {
        assert base + [] == base;
      }
    } else {
      var front, e := es[..|es| - 1], es[|es| - 1];
      LiveNumbers(base, front);
      HistoryStep(History(base, front), e);
      forall n ensures Live(History(base, es), n) <==> Mentioned(base, es, n) && n !in ApplyAll(es).deleted {
        LiveStep(base, front, e, n);
      }
    }
  }

  lemma LiveStep(base: seq<File>, front: seq<LevelEdit>, e: LevelEdit, n: nat)
    requires var before := History(base, front);
             SortedLevel(before) && OneFilePerNumber(before) && FreshAdds(before, e.added) &&
             (Live(before, n) <==> Mentioned(base, front, n) && n !in ApplyAll(front).deleted)
    ensures Live(History(base, front + [e]), n) <==>
            Mentioned(base, front + [e], n) && n !in ApplyAll(front + [e]).deleted
  {
    var es, before := front + [e], History(base, front);
    assert es[..|es| - 1] == front;
    HistoryStep(before, e);
    var after := History(base, es);
    assert AllAdded(es) == AllAdded(front) + e.added;
    assert ApplyAll(es).deleted == ApplyAll(front).deleted + e.deleted - Numbers(e.added);
    if n in Numbers(e.added) {
      var f :| f in e.added && f.number == n;
      assert f in after && f in base + AllAdded(es);
    } else {
      if Live(before, n) && n !in e.deleted {
        var f :| f in before && f.number == n;
        assert f in after;
      }
      if f :| f in after && f.number == n {
        assert f in e.added ==> n in Numbers(e.added);
      }
      if Mentioned(base, front, n) {
        var f :| f in base + AllAdded(front) && f.number == n;
        assert f in base + AllAdded(es);
      }
      if f :| f in base + AllAdded(es) && f.number == n {
        assert f in e.added ==> n in Numbers(e.added);
        assert f in base + AllAdded(front);
      }
    }
  }

  // ----- keeping before merging -----

  lemma KeepHead(fs: seq<File>, deleted: set<nat>)
    requires SortedLevel(fs) && Keep(fs, deleted) != []
    ensures fs != [] && (Keep(fs, deleted)[0] == fs[0] || BySmallestKey(fs[0], Keep(fs, deleted)[0]))
  {
    KeepIsSortedFilter(fs, deleted);
    assert Keep(fs, deleted)[0] in Keep(fs, deleted);
    var i :| 0 <= i < |fs| && fs[i] == Keep(fs, deleted)[0];
  }

  lemma KeepCons(head: File, tail: seq<File>, deleted: set<nat>)
    ensures Keep([head] + tail, deleted) == if head.number in deleted then Keep(tail, deleted) else [head] + Keep(tail, deleted)
  {
    assert ([head] + tail)[1..] == tail;
  }

  lemma MergeBaseFirst(f: File, base: seq<File>, added: seq<File>)
    requires added == [] || !BySmallestKey(added[0], f)
    ensures Merge([f] + base, added) == [f] + Merge(base, added)
  {
    assert ([f] + base)[1..] == base;
  }

  lemma MergeAddedFirst(f: File, base: seq<File>, added: seq<File>)
    requires base == [] || BySmallestKey(f, base[0])
    ensures Merge(base, [f] + added) == [f] + Merge(base, added)
  {
    assert ([f] + added)[1..] == added;
  }

  lemma KeepOfBaseFirst(f: File, base: seq<File>, added: seq<File>, deleted: set<nat>)
    requires SortedLevel(added) && added != [] && !BySmallestKey(added[0], f)
    requires Keep(Merge(base, added), deleted) == Merge(Keep(base, deleted), Keep(added, deleted))
    ensures Keep(Merge([f] + base, added), deleted) == Merge(Keep([f] + base, deleted), Keep(added, deleted))
  {
    if Keep(added, deleted) != [] { KeepHead(added, deleted); }
    KeepCons(f, base, deleted);
    MergeBaseFirst(f, base, added);
    KeepCons(f, Merge(base, added), deleted);
    MergeBaseFirst(f, Keep(base, deleted), Keep(added, deleted));
  }

  lemma KeepOfAddedFirst(f: File, base: seq<File>, added: seq<File>, deleted: set<nat>)
    requires SortedLevel(base) && (base == [] || BySmallestKey(f, base[0]))
    requires Keep(Merge(base, added), deleted) == Merge(Keep(base, deleted), Keep(added, deleted))
    ensures Keep(Merge(base, [f] + added), deleted) == Merge(Keep(base, deleted), Keep([f] + added, deleted))
  {
    if Keep(base, deleted) != [] { KeepHead(base, deleted); }
    KeepCons(f, added, deleted);
    MergeAddedFirst(f, base, added);
    KeepCons(f, Merge(base, added), deleted);
    MergeAddedFirst(f, Keep(base, deleted), Keep(added, deleted));
  }

  /** Dropping files before merging is dropping them after. */
  lemma {:induction false} KeepOfMerge(base: seq<File>, added: seq<File>, deleted: set<nat>)
    requires SortedLevel(base) && SortedLevel(added)
    ensures Keep(Merge(base, added), deleted) == Merge(Keep(base, deleted), Keep(added, deleted))
    decreases |base| + |added|
  {
    if added != [] {
      if base != [] && !BySmallestKey(added[0], base[0]) {
        assert base == [base[0]] + base[1..];
        KeepOfMerge(base[1..], added, deleted);
        KeepOfBaseFirst(base[0], base[1..], added, deleted);
      } else {
        assert added == [added[0]] + added[1..];
        KeepOfMerge(base, added[1..], deleted);
        KeepOfAddedFirst(added[0], base, added[1..], deleted);
      }
    }
  }

  lemma {:induction false} MergeMembers(base: seq<File>, added: seq<File>)
    ensures forall f :: f in Merge(base, added) <==> f in base || f in added
    decreases |base| + |added|
  {
    if added != [] {
      if base != [] && !BySmallestKey(added[0], base[0]) {
        assert base == [base[0]] + base[1..];
        MergeMembers(base[1..], added);
      } else {
        assert added == [added[0]] + added[1..];
        MergeMembers(base, added[1..]);
      }
    }
  }

  /** A merge that comes out strictly sorted had no file twice. */
  lemma {:induction false} SortedMergeIsDisjoint(base: seq<File>, added: seq<File>)
    requires SortedLevel(Merge(base, added))
    ensures forall f :: f in base ==> f !in added
    decreases |base| + |added|
  {
    if added != [] {
      var merged := Merge(base, added);
      assert merged == [merged[0]] + merged[1..];
      MergeMembers(base, added);
      if base != [] && !BySmallestKey(added[0], base[0]) {
        assert base == [base[0]] + base[1..];
        MergeMembers(base[1..], added);
        SortedMergeIsDisjoint(base[1..], added);
      } else {
        assert added == [added[0]] + added[1..];
        MergeMembers(base, added[1..]);
        SortedMergeIsDisjoint(base, added[1..]);
      }
      forall f | f in merged[1..] ensures f != merged[0] {
        var i :| 0 <= i < |merged| - 1 && merged[1..][i] == f;
        assert BySmallestKey(merged[0], merged[i + 1]);
      }
    }
  }

  // ----- exactly when a replay equals the history -----

  /** `h` is the first added file that bears its number. */
  ghost predicate FirstBearer(added: seq<File>, h: File) {
    exists i :: 0 <= i < |added| && added[i] == h && forall g :: g in added[..i] ==> g.number != h.number
  }

  /** Its number tells the live file `h` from all others: a file of the base whose
      number was never added; or the first file added under a number that no file of
      the base bears, with all the files of that number starting at the same key. */
  ghost predicate StandsAlone(base: seq<File>, added: seq<File>, h: File) {
    if h in base then forall f :: f in added ==> f.number != h.number
    else (forall f :: f in base ==> f.number != h.number) && FirstBearer(added, h) &&
         forall f :: f in added && f.number == h.number ==> f.smallest == h.smallest
  }

  /** What the builder saves, by its members. */
  lemma SavedAre(base: seq<File>, es: seq<LevelEdit>)
    requires SortedLevel(base)
    ensures var st := ApplyAll(es);
            SortedLevel(st.added) && (forall f :: f in st.added <==> FirstAlike(AllAdded(es), f)) &&
            (forall f :: f in Save(base, st) <==> (f in base || f in st.added) && f.number !in st.deleted) &&
            Save(base, st) == Merge(Keep(base, st.deleted), Keep(st.added, st.deleted))
  {
    var st := ApplyAll(es);
    GatheredAre(es);
    InsertedAreFirst(AllAdded(es));
    KeepOfMerge(base, st.added, st.deleted);
    MergeMembers(Keep(base, st.deleted), Keep(st.added, st.deleted));
    KeepIsSortedFilter(base, st.deleted);
    KeepIsSortedFilter(st.added, st.deleted);
  }

  lemma FirstBearerIsAlike(added: seq<File>, h: File)
    requires FirstBearer(added, h)
    ensures h in added && FirstAlike(added, h)
  {
    var i :| 0 <= i < |added| && added[i] == h && forall g :: g in added[..i] ==> g.number != h.number;
    assert NoneAlike(added[..i], h);
  }

  /** Among files of one number that all start alike there is one first. */
  lemma FirstAlikeIsFirst(added: seq<File>, f: File)
    requires FirstAlike(added, f)
    requires forall g :: g in added && g.number == f.number ==> g.smallest == f.smallest
    ensures FirstBearer(added, f)
    ensures forall h :: FirstBearer(added, h) && h.number == f.number ==> h == f
  {
    var i :| 0 <= i < |added| && added[i] == f && NoneAlike(added[..i], f);
    forall g | g in added[..i] ensures g.number != f.number {
      assert g in added;
      assert !Alike(g, f);
    }
    forall h | FirstBearer(added, h) && h.number == f.number ensures h == f {
      var j :| 0 <= j < |added| && added[j] == h && forall g :: g in added[..j] ==> g.number != h.number;
    }
  }

  lemma AloneIsSaved(base: seq<File>, es: seq<LevelEdit>)
    requires SortedLevel(base) && OneFilePerNumber(base) && AddsDeadNumbers(base, es)
    requires forall h :: h in History(base, es) ==> StandsAlone(base, AllAdded(es), h)
    ensures Save(base, ApplyAll(es)) == History(base, es)
  {
    var st, added, live := ApplyAll(es), AllAdded(es), History(base, es);
    LiveNumbers(base, es);
    SavedAre(base, es);
    forall f | (f in base || f in st.added) && f.number !in st.deleted ensures f in live && !(f in base && f in st.added) {
      SavedIsLive(base, es, f);
    }
    forall h | h in live ensures h in Save(base, st) {
      assert Live(live, h.number);
      if h !in base { FirstBearerIsAlike(added, h); }
    }
    var kept, gathered := Keep(base, st.deleted), Keep(st.added, st.deleted);
    KeepIsSortedFilter(base, st.deleted);
    KeepIsSortedFilter(st.added, st.deleted);
    MergeIsSortedUnion(kept, gathered);
    SortedIsUnique(Save(base, st), live);
  }

  lemma SavedIsLive(base: seq<File>, es: seq<LevelEdit>, f: File)
    requires SortedLevel(base) && OneFilePerNumber(base) && AddsDeadNumbers(base, es)
    requires forall h :: h in History(base, es) ==> StandsAlone(base, AllAdded(es), h)
    requires (f in base || f in ApplyAll(es).added) && f.number !in ApplyAll(es).deleted
    ensures f in History(base, es) && !(f in base && f in ApplyAll(es).added)
  {
    var added, live := AllAdded(es), History(base, es);
    LiveNumbers(base, es);
    SavedAre(base, es);
    assert f in base + added;
    assert Live(live, f.number);
    var h :| h in live && h.number == f.number;
    assert StandsAlone(base, added, h);
    if f in ApplyAll(es).added {
      FirstAlikeIsFirst(added, f);
    }
  }

  lemma SavedStandsAlone(base: seq<File>, es: seq<LevelEdit>, h: File)
    requires SortedLevel(base) && OneFilePerNumber(base) && AddsDeadNumbers(base, es)
    requires Save(base, ApplyAll(es)) == History(base, es) && h in History(base, es)
    ensures StandsAlone(base, AllAdded(es), h)
  {
    var st, added, live := ApplyAll(es), AllAdded(es), History(base, es);
    LiveNumbers(base, es);
    SavedAre(base, es);
    SortedMergeIsDisjoint(Keep(base, st.deleted), Keep(st.added, st.deleted));
    KeepIsSortedFilter(base, st.deleted);
    KeepIsSortedFilter(st.added, st.deleted);
    assert h.number !in st.deleted;
    forall f | f in added && f.number == h.number ensures h in st.added && h !in base && f.smallest == h.smallest {
      var g := FirstOfKind(added, f);
      assert g in live;
    }
    if h !in base {
      FirstAlikeIsFirst(added, h);
    }
  }

  /** Edits that never add a live number: one replay gives the level that saving after
      every edit would have given exactly when each live file stands alone under
      its number. */
  lemma ReplayIff(base: seq<File>, es: seq<LevelEdit>)
    requires SortedLevel(base) && OneFilePerNumber(base) && AddsDeadNumbers(base, es)
    ensures Save(base, ApplyAll(es)) == History(base, es)
            <==> forall h :: h in History(base, es) ==> StandsAlone(base, AllAdded(es), h)
  {
    if Save(base, ApplyAll(es)) == History(base, es) {
      forall h | h in History(base, es) ensures StandsAlone(base, AllAdded(es), h) {
        SavedStandsAlone(base, es, h);
      }
    } else if forall h :: h in History(base, es) ==> StandsAlone(base, AllAdded(es), h) {
      AloneIsSaved(base, es);
    }
  }

  const OLD_FILE := File(1, 1, IKey(1.0, 1, Value), IKey(1.0, 1, Value), [Entry(IKey(1.0, 1, Value), [])])
  const NEW_FILE := File(1, 1, IKey(2.0, 2, Value), IKey(2.0, 2, Value), [Entry(IKey(2.0, 2, Value), [])])

  /** If a deleted number came back for another table, one replay would revive the
      old file too. */
  lemma ReaddingBreaksReplay()
    ensures ValidFile(OLD_FILE) && ValidFile(NEW_FILE)
    ensures var es := [LevelEdit({1}, []), LevelEdit({}, [NEW_FILE])];
            AddsDeadNumbers([OLD_FILE], es) &&
            Save([OLD_FILE], ApplyAll(es)) == [OLD_FILE, NEW_FILE] && History([OLD_FILE], es) == [NEW_FILE]
  {
    var e, f := LevelEdit({1}, []), LevelEdit({}, [NEW_FILE]);
    var es := [e, f];
    assert es[..1] == [e] && [e][..0] == [] && [NEW_FILE][..0] == [];
    assert ApplyAll([e]) == ApplyEdit(CLEAR, e) == LevelState({1}, []);
    assert Numbers([NEW_FILE]) == {1} by { assert NEW_FILE in [NEW_FILE]; }
    assert InsertAll([], [NEW_FILE]) == [NEW_FILE];
    assert ApplyAll(es) == LevelState({}, [NEW_FILE]);
    assert Merge([OLD_FILE], [NEW_FILE]) == [OLD_FILE] + Merge([], [NEW_FILE]);
    assert Merge([], [NEW_FILE]) == [NEW_FILE] + Merge([], []);
    assert Keep([NEW_FILE], {}) == [NEW_FILE] + Keep([], {});
    assert Merge([OLD_FILE], []) == [OLD_FILE] && Keep([OLD_FILE], {1}) == Keep([], {1}) == [];
    assert History([OLD_FILE], [e]) == [];
    assert ApplyEdit(CLEAR, f) == LevelState({}, [NEW_FILE]);
    assert AddsDeadNumbers([OLD_FILE], []) && AddsDeadNumbers([OLD_FILE], [e]);
  }

  // ----- the builder -----

  /** The file changes of a version edit. */
  datatype Edit = Edit(deleted: set<(nat, nat)>, added: seq<(nat, File)>)

  function DeletedAt(deleted: set<(nat, nat)>, level: nat): (r: set<nat>) {
    set d | d in deleted && d.0 == level :: d.1
  }

  function AddedAt(added: seq<(nat, File)>, level: nat): (r: seq<File>) {
    if added == [] then []
    else
      var last := added[|added| - 1];
      AddedAt(added[..|added| - 1], level) + if last.0 == level then [last.1] else []
  }

  function EditAt(e: Edit, level: nat): (r: LevelEdit) {
    LevelEdit(DeletedAt(e.deleted, level), AddedAt(e.added, level))
  }

  function EditsAt(es: seq<Edit>, level: nat): (r: seq<LevelEdit>)
    ensures |r| == |es| && forall i :: 0 <= i < |es| ==> r[i] == EditAt(es[i], level)
  {
    seq(|es|, i requires 0 <= i < |es| => EditAt(es[i], level))
  }

  predicate ValidLevels(e: Edit) {
    (forall d :: d in e.deleted ==> d.0 < NUM_LEVELS) && forall i :: 0 <= i < |e.added| ==> e.added[i].0 < NUM_LEVELS
  }

  class Builder {
    const base: Version
    var levels: seq<LevelState>

    constructor (base: Version)
      ensures this.base == base && |levels| == NUM_LEVELS && forall l :: 0 <= l < NUM_LEVELS ==> levels[l] == CLEAR
    {
      this.base := base;
      this.levels := seq(NUM_LEVELS, _ => CLEAR);
    }

    method ApplyDeletions(deleted: set<(nat, nat)>)
      requires |levels| == NUM_LEVELS && forall d :: d in deleted ==> d.0 < NUM_LEVELS
      modifies this
      ensures |levels| == NUM_LEVELS
      ensures forall l :: 0 <= l < NUM_LEVELS ==>
                levels[l] == LevelState(old(levels[l].deleted) + DeletedAt(deleted, l), old(levels[l].added))
    {
      var rest := deleted;
      while rest != {}
        invariant rest <= deleted && |levels| == NUM_LEVELS
        invariant forall l :: 0 <= l < NUM_LEVELS ==>
                    levels[l] == LevelState(old(levels[l].deleted) + DeletedAt(deleted - rest, l), old(levels[l].added))
        decreases rest
      {
        var d :| d in rest;
        var (level, number) := d;
        DeletedStep(deleted, rest, d);
        levels := levels[level := levels[level].(deleted := levels[level].deleted + {number})];
        rest := rest - {d};
      }
      assert deleted - {} == deleted;
    }

    method Apply(e: Edit)
      requires |levels| == NUM_LEVELS && ValidLevels(e)
      modifies this
      ensures |levels| == NUM_LEVELS
      ensures forall l :: 0 <= l < NUM_LEVELS ==> levels[l] == ApplyEdit(old(levels[l]), EditAt(e, l))
    {
      ApplyDeletions(e.deleted);
      ghost var mid := levels;
      for i := 0 to |e.added|
        invariant |levels| == NUM_LEVELS
        invariant forall l :: 0 <= l < NUM_LEVELS ==> levels[l] == AddTo(mid[l], AddedAt(e.added[..i], l))
      {
        var (level, f) := e.added[i];
        AddedStep(e.added, i);
        AddOne(mid[level], AddedAt(e.added[..i], level), f);
        levels := levels[level := LevelState(levels[level].deleted - {f.number}, Insert(levels[level].added, f))];
      }
      assert e.added[..|e.added|] == e.added;
    }

    /** Merges the base files and the added files of one level in order. */
    method SaveLevel(level: nat) returns (files: seq<File>)
      requires level < |base.files| == |levels|
      ensures files == Save(base.files[level], levels[level])
    {
      var baseFiles, added, deleted := base.files[level], levels[level].added, levels[level].deleted;
      ghost var all := Save(baseFiles, levels[level]);
      files := [];
      var b := 0;
      PendingStart(baseFiles, added, deleted);
      for a := 0 to |added|
        invariant 0 <= b <= |baseFiles|
        invariant files + Pending(baseFiles, b, added, a, deleted) == all
      {
        while b < |baseFiles| && !BySmallestKey(added[a], baseFiles[b])
          invariant 0 <= b <= |baseFiles|
          invariant files + Pending(baseFiles, b, added, a, deleted) == all
        {
          MergeBase(files, baseFiles, b, added, a, deleted);
          files := files + MaybeAdd(baseFiles[b], deleted);
          b := b + 1;
        }
        MergeAdded(files, baseFiles, b, added, a, deleted);
        files := files + MaybeAdd(added[a], deleted);
      }
      while b < |baseFiles|
        invariant 0 <= b <= |baseFiles|
        invariant files + Pending(baseFiles, b, added, |added|, deleted) == all
      {
        MergeBase(files, baseFiles, b, added, |added|, deleted);
        files := files + MaybeAdd(baseFiles[b], deleted);
        b := b + 1;
      }
      PendingEnd(files, baseFiles, added, deleted);
    }

    method SaveTo() returns (v: Version)
      requires |levels| == |base.files| == NUM_LEVELS
      ensures |v.files| == NUM_LEVELS
      ensures forall l :: 0 <= l < NUM_LEVELS ==> v.files[l] == Save(base.files[l], levels[l])
    {
      var files := [];
      for l := 0 to NUM_LEVELS
        invariant |files| == l && forall m :: 0 <= m < l ==> files[m] == Save(base.files[m], levels[m])
      {
        var level := SaveLevel(l);
        files := files + [level];
      }
      v := Version(files);
    }
  }

  lemma DeletedStep(deleted: set<(nat, nat)>, rest: set<(nat, nat)>, d: (nat, nat))
    requires d in rest && rest <= deleted
    ensures forall l: nat :: DeletedAt(deleted - (rest - {d}), l) == DeletedAt(deleted - rest, l) + if d.0 == l then {d.1} else {}
  {
    assert deleted - (rest - {d}) == (deleted - rest) + {d};
    forall l: nat ensures DeletedAt(deleted - (rest - {d}), l) == DeletedAt(deleted - rest, l) + if d.0 == l then {d.1} else {} {
      forall n ensures n in DeletedAt((deleted - rest) + {d}, l) <==> n in DeletedAt(deleted - rest, l) || (d.0 == l && n == d.1) {
        if n in DeletedAt(deleted - rest, l) { assert (l, n) in deleted - rest; }
        if d.0 == l && n == d.1 { assert d == (l, n); }
      }
    }
  }

  lemma AddedStep(added: seq<(nat, File)>, i: nat)
    requires i < |added|
    ensures forall l: nat :: AddedAt(added[..i + 1], l) ==
              if added[i].0 == l then AddedAt(added[..i], l) + [added[i].1] else AddedAt(added[..i], l)
  {
    assert added[..i + 1][..i] == added[..i];
  }

  function AddTo(st: LevelState, added: seq<File>): (r: LevelState) {
    LevelState(st.deleted - Numbers(added), InsertAll(st.added, added))
  }

  lemma AddOne(st: LevelState, added: seq<File>, f: File)
    ensures AddTo(st, added + [f])
            == LevelState(AddTo(st, added).deleted - {f.number}, Insert(AddTo(st, added).added, f))
  {
    assert (added + [f])[..|added|] == added;
    assert Numbers(added + [f]) == Numbers(added) + {f.number} by {
      forall n | n in Numbers(added) + {f.number} ensures n in Numbers(added + [f]) {
        if n == f.number {
          assert f in added + [f];
        } else {
          var g :| g in added && g.number == n;
          assert g in added + [f];
        }
      }
    }
  }

  /** MaybeAddFile. */
  function MaybeAdd(f: File, deleted: set<nat>): (r: seq<File>) {
    if f.number in deleted then [] else [f]
  }

  ghost function Pending(base: seq<File>, b: nat, added: seq<File>, a: nat, deleted: set<nat>): (r: seq<File>)
    requires b <= |base| && a <= |added|
  {
    Keep(Merge(base[b..], added[a..]), deleted)
  }

  lemma PendingStart(base: seq<File>, added: seq<File>, deleted: set<nat>)
    ensures [] + Pending(base, 0, added, 0, deleted) == Keep(Merge(base, added), deleted)
  {
    assert base[0..] == base && added[0..] == added;
  }

  lemma PendingEnd(files: seq<File>, base: seq<File>, added: seq<File>, deleted: set<nat>)
    ensures files + Pending(base, |base|, added, |added|, deleted) == files
  {
    assert base[|base|..] == [] && added[|added|..] == [];
  }

  lemma KeepStep(files: seq<File>, f: File, rest: seq<File>, deleted: set<nat>)
    ensures files + Keep([f] + rest, deleted) == (files + MaybeAdd(f, deleted)) + Keep(rest, deleted)
  {
    assert ([f] + rest)[1..] == rest;
  }

  lemma MergeBase(files: seq<File>, base: seq<File>, b: nat, added: seq<File>, a: nat, deleted: set<nat>)
    requires b < |base| && a <= |added| && (a < |added| ==> !BySmallestKey(added[a], base[b]))
    ensures files + Pending(base, b, added, a, deleted)
            == (files + MaybeAdd(base[b], deleted)) + Pending(base, b + 1, added, a, deleted)
  {
    var rest := Merge(base[b + 1..], added[a..]);
    assert base[b..][1..] == base[b + 1..];
    assert base[b..] == [base[b]] + base[b + 1..];
    assert Merge(base[b..], added[a..]) == [base[b]] + rest;
    KeepStep(files, base[b], rest, deleted);
  }

  lemma MergeAdded(files: seq<File>, base: seq<File>, b: nat, added: seq<File>, a: nat, deleted: set<nat>)
    requires b <= |base| && a < |added| && (b < |base| ==> BySmallestKey(added[a], base[b]))
    ensures files + Pending(base, b, added, a, deleted)
            == (files + MaybeAdd(added[a], deleted)) + Pending(base, b, added, a + 1, deleted)
  {
    var rest := Merge(base[b..], added[a + 1..]);
    assert added[a..][1..] == added[a + 1..];
    assert Merge(base[b..], added[a..]) == [added[a]] + rest;
    KeepStep(files, added[a], rest, deleted);
  }

  ghost predicate CleanHistory(base: Version, es: seq<Edit>) {
    |base.files| == NUM_LEVELS &&
    forall l :: 0 <= l < NUM_LEVELS ==> SortedLevel(base.files[l]) && NeverReadded(base.files[l], EditsAt(es, l))
  }

  /** Recovery's use of the builder: all edits applied, saved once. */
  method Replay(base: Version, es: seq<Edit>) returns (v: Version)
    requires CleanHistory(base, es) && forall i :: 0 <= i < |es| ==> ValidLevels(es[i])
    ensures |v.files| == NUM_LEVELS
    ensures forall l :: 0 <= l < NUM_LEVELS ==> v.files[l] == History(base.files[l], EditsAt(es, l))
  {
    var builder := new Builder(base);
    for i := 0 to |es|
      invariant builder.base == base && |builder.levels| == NUM_LEVELS
      invariant forall l :: 0 <= l < NUM_LEVELS ==> builder.levels[l] == ApplyAll(EditsAt(es[..i], l))
    {
      builder.Apply(es[i]);
      forall l | 0 <= l < NUM_LEVELS ensures EditsAt(es[..i + 1], l)[..i] == EditsAt(es[..i], l) {}
    }
    assert es[..|es|] == es;
    v := builder.SaveTo();
    forall l | 0 <= l < NUM_LEVELS ensures v.files[l] == History(base.files[l], EditsAt(es, l)) {
      ReplayEqualsHistory(base.files[l], EditsAt(es, l));
    }
  }
}
