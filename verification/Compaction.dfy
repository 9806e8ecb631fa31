/** The compaction loop, its drop rules, and what a compaction does to reads
    (db/db_impl.cc DoCompactionWork; db/version_set.cc IsBaseLevelForKey). */
module Compaction {
  import opened Keys
  import opened Lookup
  import opened Versions
  import opened Inputs
  import opened Install

  /** No file below the output level covers the user key. */
  ghost predicate BaseLevel(v: Version, level: nat, k: UserKey) {
    forall l, f :: level + 2 <= l < |v.files| && f in v.files[l] ==> !CoversUser(f, k)
  }

  // ----- the drop rules -----

  /** Rule (A): a newer entry of the same user key is visible at the oldest snapshot. */
  ghost predicate Hidden(input: seq<Entry>, i: nat, smallest: SequenceNumber)
    requires i < |input|
  {
    i > 0 && input[i - 1].key.user == input[i].key.user && input[i - 1].key.sn <= smallest
  }

  /** The deletion rule: a marker everybody sees, with nothing below to hide. */
  ghost predicate Obsolete(v: Version, level: nat, e: Entry, smallest: SequenceNumber) {
    e.key.kind.Deletion? && e.key.sn <= smallest && BaseLevel(v, level, e.key.user)
  }

  ghost predicate Keeps(v: Version, level: nat, input: seq<Entry>, i: nat, smallest: SequenceNumber)
    requires i < |input|
  {
    !Hidden(input, i, smallest) && !Obsolete(v, level, input[i], smallest)
  }

  /** The entries of the first `n` inputs that survive, in order. */
  ghost function Kept(v: Version, level: nat, input: seq<Entry>, n: nat, smallest: SequenceNumber): (r: seq<Entry>)
    requires n <= |input|
  {
    if n == 0 then []
    else Kept(v, level, input, n - 1, smallest) + if Keeps(v, level, input, n - 1, smallest) then [input[n - 1]] else []
  }

  lemma {:induction false} KeptMembers(v: Version, level: nat, input: seq<Entry>, n: nat, smallest: SequenceNumber)
    requires n <= |input|
    ensures forall e :: e in Kept(v, level, input, n, smallest) <==>
              exists i :: 0 <= i < n && input[i] == e && Keeps(v, level, input, i, smallest)
  {
    if n > 0 {
      KeptMembers(v, level, input, n - 1, smallest);
    }
  }

  lemma {:induction false} KeptIsSorted(v: Version, level: nat, input: seq<Entry>, n: nat, smallest: SequenceNumber)
    requires n <= |input| && Sorted(input)
    ensures Sorted(Kept(v, level, input, n, smallest))
    ensures forall e, j :: e in Kept(v, level, input, n, smallest) && n <= j < |input| ==> Before(e.key, input[j].key)
  {
    KeptMembers(v, level, input, n, smallest);
    if n > 0 {
      KeptIsSorted(v, level, input, n - 1, smallest);
      var front := Kept(v, level, input, n - 1, smallest);
      KeptMembers(v, level, input, n - 1, smallest);
      forall j | 0 <= j < |front| ensures Before(front[j].key, input[n - 1].key) {
        assert front[j] in front;
      }
    }
  }

  // ----- the loop -----

  ghost function Flatten(outputs: seq<File>): (r: seq<Entry>) {
    if outputs == [] then [] else Flatten(outputs[..|outputs| - 1]) + outputs[|outputs| - 1].entries
  }

  /** Finished tables: well formed, numbered upwards from `first`. */
  ghost predicate OutputsOk(outputs: seq<File>, first: nat, next: nat) {
    first <= next &&
    (forall i :: 0 <= i < |outputs| ==> ValidFile(outputs[i]) && first <= outputs[i].number < next) &&
    forall i, j :: 0 <= i < j < |outputs| ==> outputs[i].number < outputs[j].number
  }

  lemma AppendOutput(outputs: seq<File>, first: nat, next: nat, size: nat, es: seq<Entry>) returns (f: File)
    requires OutputsOk(outputs, first, next) && es != [] && Sorted(Flatten(outputs) + es)
    ensures f == File(next, size, es[0].key, es[|es| - 1].key, es)
    ensures OutputsOk(outputs + [f], first, next + 1)
    ensures Flatten(outputs + [f]) == Flatten(outputs) + es
  {
    SuffixIsSorted(Flatten(outputs), es);
    f := File(next, size, es[0].key, es[|es| - 1].key, es);
    assert (outputs + [f])[..|outputs|] == outputs;
  }

  /** The state of a running compaction. */
  class CompactionState {
    const version: Version
    const level: nat
    const smallestSnapshot: SequenceNumber
    const firstNumber: nat
    var levelPtrs: seq<nat>
    var outputs: seq<File>
    var builder: seq<Entry>
    var nextNumber: nat

    constructor (version: Version, level: nat, smallestSnapshot: SequenceNumber, nextNumber: nat)
      requires ValidVersion(version) && level + 1 < NUM_LEVELS
      ensures this.version == version && this.level == level && this.smallestSnapshot == smallestSnapshot
      ensures firstNumber == this.nextNumber == nextNumber && OutputsValid() && outputs == [] && builder == []
      ensures Unmoved()
    {
      this.version := version;
      this.level := level;
      this.smallestSnapshot := smallestSnapshot;
      this.levelPtrs := seq(NUM_LEVELS, _ => 0);
      this.outputs, this.builder, this.firstNumber, this.nextNumber := [], [], nextNumber, nextNumber;
    }

    ghost predicate PtrsInRange() reads this {
      |version.files| == NUM_LEVELS && |levelPtrs| == NUM_LEVELS && level + 1 < NUM_LEVELS &&
      forall l :: 0 <= l < NUM_LEVELS ==> levelPtrs[l] <= |version.files[l]|
    }

    ghost predicate Unmoved() reads this {
      PtrsInRange() && forall l :: 0 <= l < NUM_LEVELS ==> levelPtrs[l] == 0
    }

    /** Every file a pointer has moved past ends before `k`. */
    ghost predicate PassedBelow(k: UserKey) reads this {
      PtrsInRange() &&
      forall l, i :: 0 <= l < NUM_LEVELS && 0 <= i < levelPtrs[l] ==> version.files[l][i].largest.user < k
    }

    /** The pointers only move forward: `k` may not fall below earlier arguments. */
    method IsBaseLevelForKey(k: UserKey) returns (base: bool)
      requires ValidVersion(version) && PassedBelow(k)
      modifies this`levelPtrs
      ensures PassedBelow(k)
      ensures base <==> BaseLevel(version, level, k)
    {
      for l := level + 2 to NUM_LEVELS
        invariant PassedBelow(k)
        invariant forall m, f :: level + 2 <= m < l && f in version.files[m] ==> !CoversUser(f, k)
      {
        var files := version.files[l];
        while levelPtrs[l] < |files|
          invariant PassedBelow(k)
          decreases |files| - levelPtrs[l]
        {
          var f := files[levelPtrs[l]];
          if k <= f.largest.user {
            if f.smallest.user <= k {
              assert !BaseLevel(version, level, k) by {
                assert f in version.files[l] && CoversUser(f, k);
              }
              return false;
            }
            break;
          }
          levelPtrs := levelPtrs[l := levelPtrs[l] + 1];
        }
        forall f | f in files ensures !CoversUser(f, k) {
          var i :| 0 <= i < |files| && files[i] == f;
          if levelPtrs[l] < i { BoundsOrder(files, levelPtrs[l], i); }
        }
      }
      base := true;
    }

    ghost predicate OutputsValid() reads this {
      OutputsOk(outputs, firstNumber, nextNumber)
    }

    /** Everything written so far, the open table included. */
    ghost function Written(): (r: seq<Entry>) reads this {
      Flatten(outputs) + builder
    }

    /** Closes the current output table. */
    method FinishCompactionOutputFile(fileSize: nat)
      requires builder != [] && Sorted(Written()) && OutputsValid()
      modifies this`outputs, this`builder, this`nextNumber
      ensures builder == [] && OutputsValid() && Written() == old(Written())
    {
      ghost var g := AppendOutput(outputs, firstNumber, nextNumber, fileSize, builder);
      var f := File(nextNumber, fileSize, builder[0].key, builder[|builder| - 1].key, builder);
      outputs, builder, nextNumber := outputs + [f], [], nextNumber + 1;
    }

    /** What the loop has to write after `n` inputs is written. */
    ghost predicate WroteKept(input: seq<Entry>, n: nat) reads this {
      n <= |input| && OutputsValid() && Written() == Kept(version, level, input, n, smallestSnapshot)
    }

    method FinishIf(stop: bool, fileSize: nat, ghost input: seq<Entry>, ghost n: nat)
      requires Sorted(input) && WroteKept(input, n)
      modifies this`outputs, this`builder, this`nextNumber
      ensures WroteKept(input, n) && (stop ==> builder == [])
    {
      if stop && builder != [] {
        KeptIsSorted(version, level, input, n, smallestSnapshot);
        FinishCompactionOutputFile(fileSize);
      }
    }

    method AddUnless(drop: bool, input: seq<Entry>, i: nat)
      requires i < |input| && WroteKept(input, i)
      requires drop <==> !Keeps(version, level, input, i, smallestSnapshot)
      modifies this`builder
      ensures WroteKept(input, i + 1)
    {
      if !drop {
        assert Flatten(outputs) + (builder + [input[i]]) == Written() + [input[i]];
        builder := builder + [input[i]];
      }
    }

    /** The loop is about to handle input `i` and remembers input `i - 1`. */
    ghost predicate At(input: seq<Entry>, i: nat, hasKey: bool, key: UserKey, last: SequenceNumber) reads this {
      ValidVersion(version) && smallestSnapshot < MAX_SEQUENCE && Sorted(input) && WroteKept(input, i) &&
      (hasKey <==> i > 0) && (i > 0 ==> key == input[i - 1].key.user && last == input[i - 1].key.sn) &&
      if i == 0 then Unmoved() else PassedBelow(key)
    }

    /** The drop decision for input `i`. */
    method DropEntry(input: seq<Entry>, i: nat, hasKey: bool, key: UserKey, last: SequenceNumber) returns (drop: bool)
      requires i < |input| && At(input, i, hasKey, key, last)
      modifies this`levelPtrs
      ensures drop <==> !Keeps(version, level, input, i, smallestSnapshot)
      ensures PassedBelow(input[i].key.user)
    {
      var e := input[i];
      var lastSequenceForKey := last;
      if !hasKey || e.key.user != key {
        lastSequenceForKey := MAX_SEQUENCE;
      }
      drop := false;
      if lastSequenceForKey <= smallestSnapshot {
        drop := true;
      } else if e.key.kind.Deletion? && e.key.sn <= smallestSnapshot {
        drop := IsBaseLevelForKey(e.key.user);
      }
    }

    /** One round of the loop. */
    method HandleEntry(input: seq<Entry>, i: nat, hasKey: bool, key: UserKey, last: SequenceNumber,
                       stopBefore: bool, full: bool, size: nat)
      requires i < |input| && At(input, i, hasKey, key, last)
      modifies this
      ensures At(input, i + 1, true, input[i].key.user, input[i].key.sn)
    {
      FinishIf(stopBefore, size, input, i);
      var drop := DropEntry(input, i, hasKey, key, last);
      AddUnless(drop, input, i);
      FinishIf(!drop && full, size, input, i + 1);
    }

    /** The compaction loop over the merged input.  `stopBefore` and `full` are the
        decisions of ShouldStopBefore and of the file-size test; any decisions do. */
    method DoCompactionWork(input: seq<Entry>, stopBefore: seq<bool>, full: seq<bool>, sizes: seq<nat>)
      requires ValidVersion(version) && Unmoved() && smallestSnapshot < MAX_SEQUENCE
      requires Sorted(input) && |stopBefore| == |full| == |sizes| == |input|
      requires outputs == [] && builder == [] && OutputsValid()
      modifies this
      ensures builder == [] && OutputsValid()
      ensures Flatten(outputs) == Kept(version, level, input, |input|, smallestSnapshot)
    {
      var hasCurrentUserKey, currentUserKey := false, 0.0;
      var lastSequenceForKey: SequenceNumber := MAX_SEQUENCE;
      for i := 0 to |input|
        invariant At(input, i, hasCurrentUserKey, currentUserKey, lastSequenceForKey)
      {
        HandleEntry(input, i, hasCurrentUserKey, currentUserKey, lastSequenceForKey, stopBefore[i], full[i], sizes[i]);
        hasCurrentUserKey, currentUserKey, lastSequenceForKey := true, input[i].key.user, input[i].key.sn;
      }
      FinishIf(true, if input == [] then 0 else sizes[|input| - 1], input, |input|);
    }
  }

  lemma SuffixIsSorted(a: seq<Entry>, b: seq<Entry>)
    requires Sorted(a + b)
    ensures Sorted(b)
  {
    forall i, j | 0 <= i < j < |b| ensures Before(b[i].key, b[j].key) {
      assert b[i] == (a + b)[|a| + i] && b[j] == (a + b)[|a| + j];
    }
  }
}
