/** Iterators over a whole database (db/db_impl.cc NewInternalIterator, NewIterator):
    whatever runs they merge, they show what was written. */
module OpenIterators {
  import opened Keys
  import opened Lookup
  import opened Cursors
  import opened Merging
  import opened Databases
  import DbIterator

  /** The runs of memtables and files, together, hold the store. */
  ghost predicate HoldStore(runs: seq<seq<Entry>>, db: DB) {
    forall e :: e in Store(db) <==> exists i :: 0 <= i < |runs| && e in runs[i]
  }

  lemma MergedAre(merged: seq<Entry>, runs: seq<seq<Entry>>, e: Entry)
    requires MergeOf(merged, runs)
    ensures e in merged <==> exists i :: 0 <= i < |runs| && e in runs[i]
  {
    if e in merged {
      var m: nat :| m < |merged| && merged[m] == e;
      assert HasHome(merged, runs, m);
    }
    if i: nat :| i < |runs| && e in runs[i] {
      var j: nat :| j < |runs[i]| && runs[i][j] == e;
      assert Covered(merged, runs, i, j);
    }
  }

  /** In every run whose compactions were harmless, an iterator opened over the
      memtables and files, at the current sequence number or at a live snapshot, walks
      exactly the keys and values that all the writes ever made give at it. */
  lemma IteratorsSurvive(steps: seq<Step>, runs: seq<seq<Entry>>, merged: seq<Entry>, s: SequenceNumber, k: UserKey, value: Bytes)
    requires Legal(EMPTY, steps) && HarmlessRun(EMPTY, steps)
    requires var db := Final(EMPTY, steps); (s == db.last || s in db.snapshots) && HoldStore(runs, db)
    requires MergeOf(merged, runs)
    ensures DbIterator.Pair(k, value) in DbIterator.View(merged, s)
            <==> Answer(AsSet(Final(EMPTY, steps).all), k, s) == Some(value)
  {
    var db := Final(EMPTY, steps);
    ReadsSurvive(steps, k, s);
    forall e ensures e in AsSet(merged) <==> e in Store(db) {
      MergedAre(merged, runs, e);
    }
    assert AsSet(merged) == Store(db);
    DbIterator.ViewIsSnapshot(merged, s, k, value);
  }

  // ----- opening one -----

  ghost predicate ReadyChildren(children: seq<Cursor>, runs: seq<seq<Entry>>) reads children {
    |children| <= |runs| && (forall i :: 0 <= i < |children| ==> children[i].Ok() && children[i].entries == runs[i]) &&
    forall i, j :: 0 <= i < j < |children| ==> children[i] != children[j]
  }

  /** A child for each run. */
  method OpenChildren(runs: seq<seq<Entry>>) returns (children: seq<Cursor>)
    requires forall i :: 0 <= i < |runs| ==> Sorted(runs[i])
    ensures |children| == |runs| && ReadyChildren(children, runs) && fresh(children)
  {
    children := [];
    for n := 0 to |runs|
      invariant |children| == n && ReadyChildren(children, runs) && fresh(children)
    {
      var child := new Cursor(runs[n]);
      children := children + [child];
    }
  }

  /** NewIterator: an iterator for users over an internal one over the runs. */
  method Open(runs: seq<seq<Entry>>, ghost merged: seq<Entry>, s: SequenceNumber) returns (it: DbIterator.DBIter)
    requires MergeOf(merged, runs)
    ensures fresh(it) && fresh(it.iter) && fresh(it.iter.children)
    ensures it.Inv() && !it.valid && it.Entries() == merged && it.sequence == s
  {
    var children := OpenChildren(runs);
    var iter := new MergingIterator(children, runs, merged);
    it := new DbIterator.DBIter(iter, s);
  }

  /** The iterator has shown the first `n` pairs of the view. */
  ghost predicate Shown(it: DbIterator.DBIter, view: seq<DbIterator.Pair>, n: nat) reads it, it.iter, it.iter.children {
    it.Inv() && view == DbIterator.View(it.Entries(), it.sequence) && it.At() == n <= |view| && (it.valid <==> n < |view|)
  }

  method Rewind(it: DbIterator.DBIter, ghost view: seq<DbIterator.Pair>)
    requires it.Inv() && view == DbIterator.View(it.Entries(), it.sequence)
    modifies it, it.iter, it.iter.children
    ensures Shown(it, view, 0)
  {
    it.SeekToFirst();
    it.ValidIsInView();
  }

  method ShowNext(it: DbIterator.DBIter, ghost view: seq<DbIterator.Pair>, ghost n: nat) returns (pair: DbIterator.Pair)
    requires Shown(it, view, n) && it.valid
    modifies it, it.iter, it.iter.children
    ensures pair == view[n] && Shown(it, view, n + 1)
  {
    var key := it.Key();
    var value := it.Value();
    pair := DbIterator.Pair(key, value);
    it.Next();
    it.ValidIsInView();
  }

  method ShowRest(it: DbIterator.DBIter, ghost view: seq<DbIterator.Pair>, ghost n: nat) returns (rest: seq<DbIterator.Pair>)
    requires Shown(it, view, n)
    modifies it, it.iter, it.iter.children
    ensures rest == view[n..]
    decreases |view| - n
  {
    rest := [];
    if it.valid {
      var pair := ShowNext(it, view, n);
      var more := ShowRest(it, view, n + 1);
      rest := [pair] + more;
    }
  }

  /** From the first key to the last. */
  method Walk(it: DbIterator.DBIter) returns (pairs: seq<DbIterator.Pair>)
    requires it.Inv()
    modifies it, it.iter, it.iter.children
    ensures pairs == old(DbIterator.View(it.Entries(), it.sequence))
  {
    ghost var view := DbIterator.View(it.Entries(), it.sequence);
    Rewind(it, view);
    pairs := ShowRest(it, view, 0);
  }

  /** Reading the whole database at the current sequence number or a live snapshot
      gives exactly what all the writes ever made give there. */
  method ReadDatabase(ghost steps: seq<Step>, runs: seq<seq<Entry>>, ghost merged: seq<Entry>, s: SequenceNumber)
    returns (pairs: seq<DbIterator.Pair>)
    requires Legal(EMPTY, steps) && HarmlessRun(EMPTY, steps)
    requires var db := Final(EMPTY, steps); (s == db.last || s in db.snapshots) && HoldStore(runs, db)
    requires MergeOf(merged, runs)
    ensures forall k, value :: DbIterator.Pair(k, value) in pairs <==> Answer(AsSet(Final(EMPTY, steps).all), k, s) == Some(value)
    ensures forall p, q :: 0 <= p < q < |pairs| ==> pairs[p].key < pairs[q].key
  {
    var it := Open(runs, merged, s);
    pairs := Walk(it);
    forall k, value ensures DbIterator.Pair(k, value) in pairs <==> Answer(AsSet(Final(EMPTY, steps).all), k, s) == Some(value) {
      IteratorsSurvive(steps, runs, merged, s, k, value);
    }
    DbIterator.ViewIsSnapshot(merged, s, 0.0, []);
  }
}
