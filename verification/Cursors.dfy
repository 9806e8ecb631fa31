/** The Iterator interface over a sorted run of entries (include/leveldb/iterator.h).

    The lemmas here say where a child of the merging iterator (table/merger.cc)
    has to stand: `From` places it on its first entry at or after a place in the
    merged order, `UpTo` on its last entry at or before one.  The smallest or
    largest such child shows the merged entry. */
module Cursors {
  import opened Keys
  import opened Lookup
  import opened Versions

  /** An iterator over one sorted run; `pos` is the run's length when not valid. */
  class Cursor {
    const entries: seq<Entry>
    var pos: nat

    constructor (entries: seq<Entry>)
      requires Sorted(entries)
      ensures this.entries == entries && Ok() && !Valid()
    {
      this.entries, this.pos := entries, |entries|;
    }

    ghost predicate Ok() reads this {
      Sorted(entries) && pos <= |entries|
    }

    predicate Valid() reads this {
      pos < |entries|
    }

    function Key(): (r: IKey)
      requires Valid()
      reads this
    {
      entries[pos].key
    }

    function Value(): (r: Bytes)
      requires Valid()
      reads this
    {
      entries[pos].value
    }

    method Next()
      requires Ok() && Valid()
      modifies this
      ensures Ok() && pos == old(pos) + 1
    {
      pos := pos + 1;
    }

    method Prev()
      requires Ok() && Valid()
      modifies this
      ensures Ok() && pos == if old(pos) == 0 then |entries| else old(pos) - 1
    {
      pos := if pos == 0 then |entries| else pos - 1;
    }

    method Seek(target: IKey)
      requires Ok()
      modifies this
      ensures Ok() && pos == LowerBound(entries, target)
    {
      pos := 0;
      while pos < |entries| && Less(entries[pos].key, target)
        invariant pos <= |entries|
        invariant pos + LowerBound(entries[pos..], target) == LowerBound(entries, target)
      {
        assert entries[pos..][1..] == entries[pos + 1..];
        pos := pos + 1;
      }
    }

    method SeekToFirst()
      requires Ok()
      modifies this
      ensures Ok() && pos == 0
    {
      pos := 0;
    }

    method SeekToLast()
      requires Ok()
      modifies this
      ensures Ok() && pos == if entries == [] then 0 else |entries| - 1
    {
      pos := if |entries| == 0 then 0 else |entries| - 1;
    }

    /** To the first entry after `key` (merger.cc, Next). */
    method SeekAfter(key: IKey)
      requires Ok()
      modifies this
      ensures Ok() && pos == PastKey(entries, key)
    {
      Seek(key);
      if Valid() && Key() == key {
        Next();
      }
    }

    /** To the last entry before `key` (merger.cc, Prev). */
    method SeekBefore(key: IKey)
      requires Ok()
      modifies this
      ensures Ok() && pos == Back(entries, LowerBound(entries, key))
    {
      Seek(key);
      if Valid() {
        Prev();
      } else {
        SeekToLast();
      }
    }
  }

  /** The first entry at or after `key` that is not `key` itself. */
  function PastKey(es: seq<Entry>, key: IKey): (p: nat)
    ensures p <= |es|
  {
    var p := LowerBound(es, key);
    if p < |es| && es[p].key == key then p + 1 else p
  }

  // ----- several runs and their merge -----

  ghost predicate Covered(merged: seq<Entry>, runs: seq<seq<Entry>>, i: nat, j: nat) {
    i < |runs| && j < |runs[i]| ==> runs[i][j] in merged
  }

  ghost predicate HasHome(merged: seq<Entry>, runs: seq<seq<Entry>>, m: nat) {
    m < |merged| ==> exists i :: 0 <= i < |runs| && merged[m] in runs[i]
  }

  ghost predicate DisjointRuns(runs: seq<seq<Entry>>) {
    forall i, j, e :: 0 <= i < |runs| && 0 <= j < |runs| && e in runs[i] && e in runs[j] ==> i == j
  }

  /** `merged` is the sorted union of the runs, and no entry occurs in two runs. */
  ghost predicate MergeOf(merged: seq<Entry>, runs: seq<seq<Entry>>) {
    Sorted(merged) &&
    (forall i: nat, j: nat {:trigger Covered(merged, runs, i, j)} :: Covered(merged, runs, i, j)) &&
    (forall m: nat {:trigger HasHome(merged, runs, m)} :: HasHome(merged, runs, m)) &&
    (forall i :: 0 <= i < |runs| ==> Sorted(runs[i])) &&
    DisjointRuns(runs)
  }

  /** `pos` is where run `es` continues from position `at` of the merge. */
  ghost predicate From(es: seq<Entry>, pos: nat, merged: seq<Entry>, at: nat) {
    pos <= |es| && at <= |merged| &&
    if at == |merged| then pos == |es|
    else (forall j :: 0 <= j < pos ==> Before(es[j].key, merged[at].key)) &&
         (pos < |es| ==> !Before(es[pos].key, merged[at].key))
  }

  /** `pos` is the last entry of run `es` up to position `at` of the merge. */
  ghost predicate UpTo(es: seq<Entry>, pos: nat, merged: seq<Entry>, at: nat) {
    pos <= |es| && at < |merged| &&
    (pos < |es| ==> !Before(merged[at].key, es[pos].key)) &&
    (forall j :: 0 <= j < |es| && (pos == |es| || pos < j) ==> Before(merged[at].key, es[j].key))
  }

  lemma MergeOrder(merged: seq<Entry>, i: nat, j: nat)
    requires Sorted(merged) && i < |merged| && j < |merged|
    ensures Before(merged[i].key, merged[j].key) <==> i < j
    ensures Less(merged[i].key, merged[j].key) <==> i < j
  {}

  lemma BoundSplits(merged: seq<Entry>, target: IKey, m: nat)
    requires Sorted(merged) && m < |merged|
    ensures Less(merged[m].key, target) <==> m < LowerBound(merged, target)
  {}

  lemma InMerge(merged: seq<Entry>, runs: seq<seq<Entry>>, i: nat, j: nat) returns (m: nat)
    requires MergeOf(merged, runs) && i < |runs| && j < |runs[i]|
    ensures m < |merged| && merged[m] == runs[i][j]
  {
    assert Covered(merged, runs, i, j);
    m :| 0 <= m < |merged| && merged[m] == runs[i][j];
  }

  lemma FromSeek(merged: seq<Entry>, runs: seq<seq<Entry>>, i: nat, target: IKey)
    requires MergeOf(merged, runs) && i < |runs|
    ensures From(runs[i], LowerBound(runs[i], target), merged, LowerBound(merged, target))
  {
    var es, pos, at := runs[i], LowerBound(runs[i], target), LowerBound(merged, target);
    forall j | 0 <= j < |es|
      ensures Less(es[j].key, target) <==> at == |merged| || Before(es[j].key, merged[at].key)
    {
      var m := InMerge(merged, runs, i, j);
      BoundSplits(merged, target, m);
      if at < |merged| { MergeOrder(merged, m, at); }
    }
  }

  /** Seeking to a key of the merge. */
  lemma SeekToMerged(merged: seq<Entry>, at: nat)
    requires Sorted(merged) && at < |merged|
    ensures LowerBound(merged, merged[at].key) == at
  {
    BoundSplits(merged, merged[at].key, at);
    if at > 0 { BoundSplits(merged, merged[at].key, at - 1); }
  }

  lemma FromHit(merged: seq<Entry>, runs: seq<seq<Entry>>, at: nat, i: nat, pos: nat)
    requires MergeOf(merged, runs) && at < |merged| && i < |runs| && merged[at] in runs[i]
    requires From(runs[i], pos, merged, at)
    ensures pos < |runs[i]| && runs[i][pos] == merged[at]
  {
    var es := runs[i];
    var j :| 0 <= j < |es| && es[j] == merged[at];
    assert pos <= j;
  }

  lemma FromStep(merged: seq<Entry>, runs: seq<seq<Entry>>, at: nat, i: nat, pos: nat)
    requires MergeOf(merged, runs) && at < |merged| && i < |runs| && From(runs[i], pos, merged, at)
    ensures if merged[at] in runs[i] then From(runs[i], pos + 1, merged, at + 1) else From(runs[i], pos, merged, at + 1)
  {
    var es := runs[i];
    if merged[at] in es {
      FromHit(merged, runs, at, i, pos);
    }
    var next := if merged[at] in es then pos + 1 else pos;
    if next < |es| {
      var m := InMerge(merged, runs, i, next);
      if merged[at] in es { assert Before(es[pos].key, es[next].key); }
      MergeOrder(merged, at, m);
      assert at < m;
    }
    if at + 1 < |merged| {
      forall j | 0 <= j < next ensures Before(es[j].key, merged[at + 1].key) {
        assert j == pos || Before(es[j].key, merged[at].key);
      }
    }
  }

  lemma UpToHit(merged: seq<Entry>, runs: seq<seq<Entry>>, at: nat, i: nat, pos: nat)
    requires MergeOf(merged, runs) && at < |merged| && i < |runs| && merged[at] in runs[i]
    requires UpTo(runs[i], pos, merged, at)
    ensures pos < |runs[i]| && runs[i][pos] == merged[at]
  {
    var es := runs[i];
    var j :| 0 <= j < |es| && es[j] == merged[at];
    assert pos < |es| && j <= pos;
  }

  /** The position before `pos` in a run. */
  function Back(es: seq<Entry>, pos: nat): (r: nat) {
    if pos == 0 then |es| else pos - 1
  }

  lemma UpToStep(merged: seq<Entry>, runs: seq<seq<Entry>>, at: nat, i: nat, pos: nat)
    requires MergeOf(merged, runs) && 0 < at < |merged| && i < |runs| && UpTo(runs[i], pos, merged, at)
    ensures if merged[at] in runs[i] then UpTo(runs[i], Back(runs[i], pos), merged, at - 1)
            else UpTo(runs[i], pos, merged, at - 1)
  {
    var es := runs[i];
    if merged[at] in es {
      UpToHit(merged, runs, at, i, pos);
    }
    forall j | 0 <= j < |es|
      ensures Before(merged[at].key, es[j].key) || es[j] == merged[at] || !Before(merged[at - 1].key, es[j].key)
      ensures Before(merged[at].key, es[j].key) ==> Before(merged[at - 1].key, es[j].key)
    {
      var m := InMerge(merged, runs, i, j);
      MergeOrder(merged, at, m);
      MergeOrder(merged, at - 1, m);
    }
    assert Before(merged[at - 1].key, merged[at].key);
  }

  /** Nothing is left before the first entry of the merge. */
  lemma UpToFirst(merged: seq<Entry>, runs: seq<seq<Entry>>, i: nat, pos: nat)
    requires MergeOf(merged, runs) && merged != [] && i < |runs| && UpTo(runs[i], pos, merged, 0)
    ensures if merged[0] in runs[i] then Back(runs[i], pos) == |runs[i]| else pos == |runs[i]|
  {
    var es := runs[i];
    if merged[0] in es {
      UpToHit(merged, runs, 0, i, pos);
      NoneBefore(merged, runs, i, 0);
    } else if pos < |es| {
      NoneBefore(merged, runs, i, pos);
    }
  }

  lemma NoneBefore(merged: seq<Entry>, runs: seq<seq<Entry>>, i: nat, j: nat)
    requires MergeOf(merged, runs) && merged != [] && i < |runs| && j < |runs[i]|
    ensures runs[i][j] == merged[0] || Before(merged[0].key, runs[i][j].key)
  {
    var m := InMerge(merged, runs, i, j);
    MergeOrder(merged, 0, m);
  }

  /** Turning around: the entries of a run before a key that is not in the run. */
  lemma FromToUpTo(merged: seq<Entry>, runs: seq<seq<Entry>>, at: nat, i: nat, pos: nat)
    requires MergeOf(merged, runs) && at < |merged| && i < |runs| && merged[at] !in runs[i]
    requires From(runs[i], pos, merged, at)
    ensures UpTo(runs[i], Back(runs[i], pos), merged, at)
  {
    var es := runs[i];
    forall j | pos <= j < |es| ensures Before(merged[at].key, es[j].key) {
      var m := InMerge(merged, runs, i, j);
      assert j == pos || Before(es[pos].key, es[j].key);
      MergeOrder(merged, m, at);
    }
  }

  lemma LastUpTo(merged: seq<Entry>, runs: seq<seq<Entry>>, i: nat)
    requires MergeOf(merged, runs) && merged != [] && i < |runs|
    ensures UpTo(runs[i], if runs[i] == [] then 0 else |runs[i]| - 1, merged, |merged| - 1)
  {
    var es := runs[i];
    if es != [] {
      var m := InMerge(merged, runs, i, |es| - 1);
      MergeOrder(merged, |merged| - 1, m);
    }
  }
}
