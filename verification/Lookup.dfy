/** What a read must return: the newest entry of a user key whose sequence number
    is at most the snapshot's (doc/impl.md of LevelDB; db/db_impl.cc Get). */
module Lookup {
  import opened Keys

  datatype Option<T> = None | Some(value: T)

  predicate Visible(e: Entry, k: UserKey, s: SequenceNumber) {
    e.key.user == k && e.key.sn <= s
  }

  ghost function AsSet(es: seq<Entry>): (r: set<Entry>) {
    set e | e in es
  }

  ghost predicate IsNewest(es: set<Entry>, k: UserKey, s: SequenceNumber, e: Entry) {
    e in es && Visible(e, k, s) && forall d :: d in es && Visible(d, k, s) ==> d.key.sn <= e.key.sn
  }

  /** No two entries carry the same user key and sequence number. */
  ghost predicate DistinctVersions(es: set<Entry>) {
    forall d, e :: d in es && e in es && d.key.user == e.key.user && d.key.sn == e.key.sn ==> d == e
  }

  function Content(e: Entry): (r: Option<Bytes>) {
    if e.key.kind.Value? then Some(e.value) else None
  }

  ghost function Answer(es: set<Entry>, k: UserKey, s: SequenceNumber): (r: Option<Bytes>) {
    if exists e :: IsNewest(es, k, s, e) then
      var e :| IsNewest(es, k, s, e);
      Content(e)
    else None
  }

  lemma AnswerIs(es: set<Entry>, k: UserKey, s: SequenceNumber, e: Entry)
    requires DistinctVersions(es) && IsNewest(es, k, s, e)
    ensures Answer(es, k, s) == Content(e)
  {}

  lemma {:induction false} NewestExists(es: set<Entry>, k: UserKey, s: SequenceNumber, d: Entry)
    requires d in es && Visible(d, k, s)
    ensures exists e :: IsNewest(es, k, s, e)
    decreases es
  {
    if !IsNewest(es, k, s, d) {
      var b :| b in es && Visible(b, k, s) && b.key.sn > d.key.sn;
      NewestExists(es - {d}, k, s, b);
      var e :| IsNewest(es - {d}, k, s, e);
      assert b in es - {d};
      assert IsNewest(es, k, s, e);
    }
  }

  /** Either some entry is the newest visible one, or none is visible. */
  lemma AnswerCases(es: set<Entry>, k: UserKey, s: SequenceNumber)
    ensures (exists e :: IsNewest(es, k, s, e)) || (forall d :: d in es ==> !Visible(d, k, s))
  {
    if d :| d in es && Visible(d, k, s) {
      NewestExists(es, k, s, d);
    }
  }

  /** Sequence numbers rise along the entries, from above `low` to at most `high`. */
  ghost predicate Rising(es: seq<Entry>, low: nat, high: nat) {
    (forall i :: 0 <= i < |es| ==> low < es[i].key.sn <= high) &&
    forall i, j :: 0 <= i < j < |es| ==> es[i].key.sn < es[j].key.sn
  }

  lemma RisingConcat(a: seq<Entry>, b: seq<Entry>, low: nat, mid: nat, high: nat)
    requires Rising(a, low, mid) && Rising(b, mid, high) && low <= mid <= high
    ensures Rising(a + b, low, high)
  {}

  lemma RisingIsDistinct(es: seq<Entry>, low: nat, high: nat)
    requires Rising(es, low, high)
    ensures DistinctVersions(AsSet(es))
  {
    forall d, e | d in AsSet(es) && e in AsSet(es) && d.key.sn == e.key.sn ensures d == e {
      var i :| 0 <= i < |es| && es[i] == d;
      var j :| 0 <= j < |es| && es[j] == e;
    }
  }
}
