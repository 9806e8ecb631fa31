/** MergingIterator (table/merger.cc): several sorted runs read as one.

    The children stand on the next entry of their own run in the direction of
    travel.  Every operation, and every change of direction, leaves the merged
    cursor where a cursor over the sorted union would be; `MergeExists` shows
    that there is such a union. */
module Merging {
  import opened Keys
  import opened Lookup
  import opened Versions
  import opened Cursors

  class MergingIterator {
    const children: seq<Cursor>
    var current: int  // index of the current child, -1 for none
    var forward: bool

    /** The sorted union of the children, and the position in it. */
    ghost const runs: seq<seq<Entry>>
    ghost const merged: seq<Entry>
    ghost var at: nat

    ghost predicate Children() reads this, children {
      |runs| == |children| && (forall i :: 0 <= i < |children| ==> children[i].entries == runs[i]) &&
      (forall i :: 0 <= i < |children| ==> children[i].Ok()) &&
      forall i, j :: 0 <= i < j < |children| ==> children[i] != children[j]
    }

    ghost predicate Positioned() reads this, children
      requires |runs| == |children|
    {
      forall i :: 0 <= i < |children| ==>
        if forward then From(runs[i], children[i].pos, merged, at) else UpTo(runs[i], children[i].pos, merged, at)
    }

    ghost predicate Inv() reads this, children {
      Children() && MergeOf(merged, runs) && at <= |merged| && -1 <= current < |children| &&
      (current == -1 <==> at == |merged|) &&
      (at < |merged| ==> Positioned() && merged[at] in runs[current])
    }

    constructor (children: seq<Cursor>, ghost runs: seq<seq<Entry>>, ghost merged: seq<Entry>)
      requires forall i :: 0 <= i < |children| ==> children[i].Ok()
      requires forall i, j :: 0 <= i < j < |children| ==> children[i] != children[j]
      requires |runs| == |children| && forall i :: 0 <= i < |children| ==> children[i].entries == runs[i]
      requires MergeOf(merged, runs)
      ensures Inv() && this.children == children && this.runs == runs && this.merged == merged && at == |merged|
    {
      this.children, this.runs, this.merged := children, runs, merged;
      this.current, this.forward, this.at := -1, true, |merged|;
    }

    predicate Valid() reads this {
      current != -1
    }

    /** The current child shows the entry at the current position of the merge. */
    ghost predicate Shows() reads this, children {
      Valid() ==> at < |merged| && 0 <= current < |children| && children[current].pos < |children[current].entries|
                  && children[current].entries[children[current].pos] == merged[at]
    }

    lemma InvShows()
      requires Inv()
      ensures Shows()
    {
      if at < |merged| {
        if forward {
          FromHit(merged, runs, at, current, children[current].pos);
        } else {
          UpToHit(merged, runs, at, current, children[current].pos);
        }
      }
    }

    method Key() returns (k: IKey)
      requires Inv() && Valid()
      ensures k == merged[at].key
    {
      InvShows();
      k := children[current].Key();
    }

    method Value() returns (value: Bytes)
      requires Inv() && Valid()
      ensures value == merged[at].value
    {
      InvShows();
      value := children[current].Value();
    }

    /** The child with the smallest key; all children stand at `at` or just after. */
    method SmallestChild() returns (smallest: int)
      requires Children()
      ensures -1 <= smallest < |children|
      ensures smallest == -1 ==> forall j :: 0 <= j < |children| ==> !children[j].Valid()
      ensures smallest != -1 ==> children[smallest].Valid()
                                 && forall j :: 0 <= j < |children| && children[j].Valid() ==> !Less(children[j].Key(), children[smallest].Key())
    {
      smallest := -1;
      for i := 0 to |children|
        invariant -1 <= smallest < i
        invariant smallest == -1 ==> forall j :: 0 <= j < i ==> !children[j].Valid()
        invariant smallest != -1 ==> children[smallest].Valid()
                                     && forall j :: 0 <= j < i && children[j].Valid() ==> !Less(children[j].Key(), children[smallest].Key())
      {
        if children[i].Valid() && (smallest == -1 || Less(children[i].Key(), children[smallest].Key())) {
          smallest := i;
        }
      }
    }

    method FindSmallest(ghost target: nat)
      requires Children() && MergeOf(merged, runs) && target <= |merged|
      requires forall i :: 0 <= i < |children| ==> From(runs[i], children[i].pos, merged, target)
      modifies this
      ensures at == target && forward && Inv()
    {
      var smallest := SmallestChild();
      if target < |merged| {
        assert HasHome(merged, runs, target);
        ghost var h :| 0 <= h < |children| && merged[target] in runs[h];
        FromHit(merged, runs, target, h, children[h].pos);
        ghost var m := InMerge(merged, runs, smallest, children[smallest].pos);
        MergeOrder(merged, m, target);
      }
      current, at, forward := smallest, target, true;
    }

    /** The child with the largest key; all children stand at `target` or just
        before.  A target of -1 says that nothing is left. */
    method FindLargest(ghost target: int)
      requires Children() && MergeOf(merged, runs) && -1 <= target < |merged|
      requires if target == -1 then forall i :: 0 <= i < |children| ==> !children[i].Valid()
               else forall i :: 0 <= i < |children| ==> UpTo(runs[i], children[i].pos, merged, target)
      modifies this
      ensures at == (if target == -1 then |merged| else target) && !forward && Inv()
    {
      current := LargestChild();
      forward := false;
      if target == -1 {
        at := |merged|;
      } else {
        at := target;
        assert HasHome(merged, runs, target);
        ghost var h :| 0 <= h < |children| && merged[target] in runs[h];
        UpToHit(merged, runs, target, h, children[h].pos);
        ghost var m := InMerge(merged, runs, current, children[current].pos);
        MergeOrder(merged, target, m);
      }
    }

    method LargestChild() returns (largest: int)
      requires Children()
      ensures -1 <= largest < |children|
      ensures largest == -1 ==> forall j :: 0 <= j < |children| ==> !children[j].Valid()
      ensures largest != -1 ==> children[largest].Valid()
                                && forall j :: 0 <= j < |children| && children[j].Valid() ==> !Less(children[largest].Key(), children[j].Key())
    {
      largest := -1;
      var i := |children|;
      while i > 0
        invariant 0 <= i <= |children| && -1 <= largest < |children|
        invariant largest == -1 ==> forall j :: i <= j < |children| ==> !children[j].Valid()
        invariant largest != -1 ==> children[largest].Valid()
                                    && forall j :: i <= j < |children| && children[j].Valid() ==> !Less(children[largest].Key(), children[j].Key())
      {
        i := i - 1;
        if children[i].Valid() && (largest == -1 || Less(children[largest].Key(), children[i].Key())) {
          largest := i;
        }
      }
    }

    method SeekToFirst()
      requires Inv()
      modifies this, children
      ensures Inv() && at == 0
    {
      for i := 0 to |children|
        invariant Children()
        invariant forall j :: 0 <= j < i ==> children[j].pos == 0
      {
        children[i].SeekToFirst();
      }
      forall i | 0 <= i < |children| ensures From(runs[i], children[i].pos, merged, 0) {
        FromStart(merged, runs, i);
      }
      FindSmallest(0);
    }

    method Seek(target: IKey)
      requires Inv()
      modifies this, children
      ensures Inv() && at == LowerBound(merged, target)
    {
      for i := 0 to |children|
        invariant Children()
        invariant forall j :: 0 <= j < i ==> children[j].pos == LowerBound(children[j].entries, target)
      {
        children[i].Seek(target);
      }
      forall i | 0 <= i < |children| ensures From(runs[i], children[i].pos, merged, LowerBound(merged, target)) {
        FromSeek(merged, runs, i, target);
      }
      FindSmallest(LowerBound(merged, target));
    }

    method SeekToLast()
      requires Inv()
      modifies this, children
      ensures Inv() && at == if merged == [] then 0 else |merged| - 1
    {
      for i := 0 to |children|
        invariant Children()
        invariant forall j :: 0 <= j < i ==> children[j].pos == Last(children[j].entries)
      {
        children[i].SeekToLast();
      }
      if merged != [] {
        forall i | 0 <= i < |children| ensures UpTo(runs[i], children[i].pos, merged, |merged| - 1) {
          LastUpTo(merged, runs, i);
        }
      } else {
        forall i | 0 <= i < |children| ensures runs[i] == [] {
          if runs[i] != [] { var m := InMerge(merged, runs, i, 0); }
        }
      }
      FindLargest(|merged| - 1);
    }

    /** Repositions every child but the current one after the key. */
    method SeekOthersAfter(key: IKey)
      requires Children() && 0 <= current < |children|
      modifies children
      ensures Children() && children[current].pos == old(children[current].pos)
      ensures forall j :: 0 <= j < |children| && j != current ==> children[j].pos == PastKey(runs[j], key)
    {
      for i := 0 to |children|
        invariant Children() && children[current].pos == old(children[current].pos)
        invariant forall j :: 0 <= j < i && j != current ==> children[j].pos == PastKey(runs[j], key)
      {
        if i != current {
          children[i].SeekAfter(key);
        }
      }
    }

    method TurnForward()
      requires Inv() && at < |merged| && !forward
      modifies this`forward, children
      ensures Inv() && forward
    {
      InvShows();
      var key := Key();
      SeekOthersAfter(key);
      forall j | 0 <= j < |children| ensures From(runs[j], children[j].pos, merged, at) {
        if j != current { AfterCurrent(merged, runs, at, current, j); } else { FromAtKey(merged, runs, at, j, children[j].pos); }
      }
      forward := true;
    }

    /** Repositions every child but the current one before the key. */
    method SeekOthersBefore(key: IKey)
      requires Children() && 0 <= current < |children|
      modifies children
      ensures Children() && children[current].pos == old(children[current].pos)
      ensures forall j :: 0 <= j < |children| && j != current ==> children[j].pos == Back(runs[j], LowerBound(runs[j], key))
    {
      for i := 0 to |children|
        invariant Children() && children[current].pos == old(children[current].pos)
        invariant forall j :: 0 <= j < i && j != current ==> children[j].pos == Back(runs[j], LowerBound(runs[j], key))
      {
        if i != current {
          children[i].SeekBefore(key);
        }
      }
    }

    method TurnBackward()
      requires Inv() && at < |merged| && forward
      modifies this`forward, children
      ensures Inv() && !forward
    {
      InvShows();
      var key := Key();
      SeekOthersBefore(key);
      forall j | 0 <= j < |children| ensures UpTo(runs[j], children[j].pos, merged, at) {
        if j != current { BeforeCurrent(merged, runs, at, current, j); } else { UpToAtKey(merged, runs, at, j, children[j].pos); }
      }
      forward := false;
    }

    /** Where child `i` stands once the current child has moved on. */
    ghost function Ahead(i: nat): (r: int) reads this, children
      requires i < |children|
    {
      if i == current then children[i].pos + 1 else children[i].pos
    }

    ghost function Behind(i: nat): (r: nat) reads this, children
      requires i < |children| == |runs|
    {
      if i == current then Back(runs[i], children[i].pos) else children[i].pos
    }

    lemma AheadIsFrom(i: nat)
      requires Inv() && Valid() && forward && i < |children|
      ensures From(runs[i], Ahead(i), merged, at + 1)
    {
      FromStep(merged, runs, at, i, children[i].pos);
      if i != current { OnlyRun(merged, runs, at, current, i); }
    }

    lemma BehindIsUpTo(i: nat)
      requires Inv() && Valid() && !forward && i < |children|
      ensures if at == 0 then Behind(i) == |runs[i]| else UpTo(runs[i], Behind(i), merged, at - 1)
    {
      if at == 0 {
        UpToFirst(merged, runs, i, children[i].pos);
      } else {
        UpToStep(merged, runs, at, i, children[i].pos);
      }
      if i != current { OnlyRun(merged, runs, at, current, i); }
    }

    method Next()
      requires Inv() && Valid()
      modifies this, children
      ensures Inv() && at == old(at) + 1
    {
      if !forward {
        TurnForward();
      }
      InvShows();
      forall i | 0 <= i < |children| ensures From(runs[i], Ahead(i), merged, at + 1) {
        AheadIsFrom(i);
      }
      children[current].Next();
      FindSmallest(at + 1);
    }

    method Prev()
      requires Inv() && Valid()
      modifies this, children
      ensures Inv() && at == if old(at) == 0 then |merged| else old(at) - 1
    {
      if forward {
        TurnBackward();
      }
      InvShows();
      forall i | 0 <= i < |children|
        ensures if at == 0 then Behind(i) == |runs[i]| else UpTo(runs[i], Behind(i), merged, at - 1)
      {
        BehindIsUpTo(i);
      }
      children[current].Prev();
      FindLargest(at - 1);
    }
  }

  function Last(es: seq<Entry>): (r: nat) {
    if es == [] then 0 else |es| - 1
  }

  lemma FromStart(merged: seq<Entry>, runs: seq<seq<Entry>>, i: nat)
    requires MergeOf(merged, runs) && i < |runs|
    ensures From(runs[i], 0, merged, 0)
  {
    if runs[i] != [] {
      var m := InMerge(merged, runs, i, 0);
      MergeOrder(merged, m, 0);
    }
  }

  /** An entry of the merge belongs to one run only. */
  lemma OnlyRun(merged: seq<Entry>, runs: seq<seq<Entry>>, at: nat, i: nat, j: nat)
    requires MergeOf(merged, runs) && at < |merged| && i < |runs| && j < |runs| && i != j && merged[at] in runs[i]
    ensures merged[at] !in runs[j]
  {}

  lemma KeyElsewhere(merged: seq<Entry>, runs: seq<seq<Entry>>, at: nat, i: nat, j: nat, pos: nat)
    requires MergeOf(merged, runs) && at < |merged| && i < |runs| && j < |runs| && i != j && merged[at] in runs[i]
    requires pos < |runs[j]|
    ensures runs[j][pos].key != merged[at].key
  {
    OnlyRun(merged, runs, at, i, j);
    var m := InMerge(merged, runs, j, pos);
    MergeOrder(merged, m, at);
    MergeOrder(merged, at, m);
  }

  /** Where the other children land when the direction changes. */
  lemma AfterCurrent(merged: seq<Entry>, runs: seq<seq<Entry>>, at: nat, i: nat, j: nat)
    requires MergeOf(merged, runs) && at < |merged| && i < |runs| && j < |runs| && i != j && merged[at] in runs[i]
    ensures From(runs[j], PastKey(runs[j], merged[at].key), merged, at)
  {
    SeekToMerged(merged, at);
    FromSeek(merged, runs, j, merged[at].key);
    var pos := LowerBound(runs[j], merged[at].key);
    if pos < |runs[j]| { KeyElsewhere(merged, runs, at, i, j, pos); }
  }

  lemma BeforeCurrent(merged: seq<Entry>, runs: seq<seq<Entry>>, at: nat, i: nat, j: nat)
    requires MergeOf(merged, runs) && at < |merged| && i < |runs| && j < |runs| && i != j && merged[at] in runs[i]
    ensures UpTo(runs[j], Back(runs[j], LowerBound(runs[j], merged[at].key)), merged, at)
  {
    SeekToMerged(merged, at);
    FromSeek(merged, runs, j, merged[at].key);
    OnlyRun(merged, runs, at, i, j);
    FromToUpTo(merged, runs, at, j, LowerBound(runs[j], merged[at].key));
  }

  lemma FromAtKey(merged: seq<Entry>, runs: seq<seq<Entry>>, at: nat, i: nat, pos: nat)
    requires MergeOf(merged, runs) && at < |merged| && i < |runs| && pos < |runs[i]| && runs[i][pos] == merged[at]
    ensures From(runs[i], pos, merged, at)
  {}

  lemma UpToAtKey(merged: seq<Entry>, runs: seq<seq<Entry>>, at: nat, i: nat, pos: nat)
    requires MergeOf(merged, runs) && at < |merged| && i < |runs| && pos < |runs[i]| && runs[i][pos] == merged[at]
    ensures UpTo(runs[i], pos, merged, at)
  {}

  // ----- every family of runs has a merge -----

  ghost function Union2(a: seq<Entry>, b: seq<Entry>): (r: seq<Entry>) {
    if a == [] then b
    else if b == [] then a
    else if Before(a[0].key, b[0].key) then [a[0]] + Union2(a[1..], b)
    else [b[0]] + Union2(a, b[1..])
  }

  ghost function Union(runs: seq<seq<Entry>>): (r: seq<Entry>) {
    if runs == [] then [] else Union2(runs[0], Union(runs[1..]))
  }

  ghost predicate Apart(a: seq<Entry>, b: seq<Entry>) {
    forall d, e :: d in a && e in b ==> Before(d.key, e.key) || Before(e.key, d.key)
  }

  lemma {:induction false} Union2Members(a: seq<Entry>, b: seq<Entry>, e: Entry)
    ensures e in Union2(a, b) <==> e in a || e in b
  {
    if a != [] && b != [] {
      if Before(a[0].key, b[0].key) { Union2Members(a[1..], b, e); } else { Union2Members(a, b[1..], e); }
    }
  }

  ghost predicate Leads(d: Entry, es: seq<Entry>) {
    forall e :: e in es ==> Before(d.key, e.key)
  }

  lemma LeadSorted(d: Entry, es: seq<Entry>)
    requires Sorted(es) && Leads(d, es)
    ensures Sorted([d] + es)
  {}

  lemma LeadsUnion(a: seq<Entry>, b: seq<Entry>, d: Entry)
    requires Leads(d, a) && Leads(d, b)
    ensures Leads(d, Union2(a, b))
  {
    forall e | e in Union2(a, b) ensures Before(d.key, e.key) {
      Union2Members(a, b, e);
    }
  }

  lemma HeadLeads(a: seq<Entry>, d: Entry)
    requires Sorted(a) && a != [] && (d == a[0] || Before(d.key, a[0].key))
    ensures Leads(d, a[1..]) && (d != a[0] ==> Leads(d, a))
  {}

  lemma {:induction false} Union2Sorted(a: seq<Entry>, b: seq<Entry>)
    requires Sorted(a) && Sorted(b) && Apart(a, b)
    ensures Sorted(Union2(a, b))
  {
    if a != [] && b != [] {
      assert a[0] in a && b[0] in b;
      if Before(a[0].key, b[0].key) {
        Union2Sorted(a[1..], b);
        HeadLeads(a, a[0]);
        HeadLeads(b, a[0]);
        LeadsUnion(a[1..], b, a[0]);
        LeadSorted(a[0], Union2(a[1..], b));
      } else {
        Union2Sorted(a, b[1..]);
        HeadLeads(a, b[0]);
        HeadLeads(b, b[0]);
        LeadsUnion(a, b[1..], b[0]);
        LeadSorted(b[0], Union2(a, b[1..]));
      }
    }
  }

  lemma {:induction false} UnionMembers(runs: seq<seq<Entry>>, e: Entry)
    ensures e in Union(runs) <==> exists i :: 0 <= i < |runs| && e in runs[i]
  {
    if runs != [] {
      Union2Members(runs[0], Union(runs[1..]), e);
      UnionMembers(runs[1..], e);
      if i :| 0 <= i < |runs| && e in runs[i] {
        assert i == 0 || e in runs[1..][i - 1];
      }
    }
  }

  lemma {:induction false} UnionSorted(runs: seq<seq<Entry>>)
    requires forall i :: 0 <= i < |runs| ==> Sorted(runs[i])
    requires forall i, j :: 0 <= i < j < |runs| ==> Apart(runs[i], runs[j])
    ensures Sorted(Union(runs))
  {
    if runs != [] {
      UnionSorted(runs[1..]);
      forall d, e | d in runs[0] && e in Union(runs[1..]) ensures Before(d.key, e.key) || Before(e.key, d.key) {
        UnionMembers(runs[1..], e);
        var j :| 0 <= j < |runs| - 1 && e in runs[1..][j];
        assert Apart(runs[0], runs[j + 1]);
      }
      Union2Sorted(runs[0], Union(runs[1..]));
    }
  }

  lemma OneRun(runs: seq<seq<Entry>>, i: nat, j: nat, e: Entry)
    requires forall i, j :: 0 <= i < j < |runs| ==> Apart(runs[i], runs[j])
    requires i < |runs| && j < |runs| && e in runs[i] && e in runs[j]
    ensures i == j
  {}

  lemma UnionCovers(runs: seq<seq<Entry>>, i: nat, j: nat)
    ensures Covered(Union(runs), runs, i, j)
  {
    if i < |runs| && j < |runs[i]| { UnionMembers(runs, runs[i][j]); }
  }

  lemma UnionHasHomes(runs: seq<seq<Entry>>, m: nat)
    ensures HasHome(Union(runs), runs, m)
  {
    if m < |Union(runs)| { UnionMembers(runs, Union(runs)[m]); }
  }

  /** Sorted runs with no version in common always have a merge. */
  lemma MergeExists(runs: seq<seq<Entry>>)
    requires forall i :: 0 <= i < |runs| ==> Sorted(runs[i])
    requires forall i, j :: 0 <= i < j < |runs| ==> Apart(runs[i], runs[j])
    ensures MergeOf(Union(runs), runs)
  {
    UnionSorted(runs);
    var u := Union(runs);
    forall i: nat, j: nat ensures Covered(u, runs, i, j) {
      UnionCovers(runs, i, j);
    }
    forall m: nat ensures HasHome(u, runs, m) {
      UnionHasHomes(runs, m);
    }
    forall i, j, e | 0 <= i < |runs| && 0 <= j < |runs| && e in runs[i] && e in runs[j] ensures i == j {
      OneRun(runs, i, j, e);
    }
  }
}
