/** `sorted(instance_to_block_hash[instance])` in recinder.py. Python 2
    compares two single-entry dicts by their keys and, when the keys are
    equal, by their values, so the entries are ordered by device path with
    ties broken by the raw volume id. */
module Ordering {
  import opened PyStrings
  import opened Inventory

  /** Python 2 `{d1: v1} <= {d2: v2}`. */
  predicate EntryLe(x: Entry, y: Entry) {
    if x.device != y.device then StrLe(x.device, y.device) else StrLe(x.volumeId, y.volumeId)
  }

  lemma EntryLeTotal(x: Entry, y: Entry)
    ensures EntryLe(x, y) || EntryLe(y, x)
  {
    StrLeTotal(x.device, y.device);
    StrLeTotal(x.volumeId, y.volumeId);
  }

  lemma EntryLeReflexive(x: Entry)
    ensures EntryLe(x, x)
  {
    StrLeReflexive(x.volumeId);
  }

  lemma EntryLeAntisymmetric(x: Entry, y: Entry)
    requires EntryLe(x, y) && EntryLe(y, x)
    ensures x == y
  {
    if x.device != y.device {
      StrLeAntisymmetric(x.device, y.device);
    } else {
      StrLeAntisymmetric(x.volumeId, y.volumeId);
    }
  }

  lemma EntryLeTransitive(x: Entry, y: Entry, z: Entry)
    requires EntryLe(x, y) && EntryLe(y, z)
    ensures EntryLe(x, z)
  {
    if x.device == y.device && y.device == z.device {
      StrLeTransitive(x.volumeId, y.volumeId, z.volumeId);
    } else if x.device == z.device {
      // x.device < y.device < x.device cannot happen
      StrLeAntisymmetric(x.device, y.device);
    } else if x.device == y.device {
    } else if y.device == z.device {
    } else {
      StrLeTransitive(x.device, y.device, z.device);
    }
  }

  /** Ascending by device path, then by volume id. */
  predicate Sorted(s: seq<Entry>) {
    forall i, j :: 0 <= i < j < |s| ==> EntryLe(s[i], s[j])
  }

  /** Insert `e` in front of the first element it is at most. */
  function Insert(e: Entry, s: seq<Entry>): seq<Entry> {
    if s == [] then [e]
    else if EntryLe(e, s[0]) then [e] + s
    else [s[0]] + Insert(e, s[1..])
  }

  /** Inserting into an ascending sequence keeps it ascending and adds `e`. */
  lemma {:induction false} InsertSorted(e: Entry, s: seq<Entry>)
    requires Sorted(s)
    ensures Sorted(Insert(e, s))
    ensures multiset(Insert(e, s)) == multiset(s) + multiset{e}
    decreases |s|
  {
    if s == [] {
    } else if EntryLe(e, s[0]) {
      BelowHead(e, s);
      SortedPrepend(e, s);
    } else {
      var rest := Insert(e, s[1..]);
      InsertSorted(e, s[1..]);
      EntryLeTotal(e, s[0]);
      assert s == [s[0]] + s[1..];
      assert forall j :: 0 <= j < |rest| ==> rest[j] in multiset(s[1..]) + multiset{e};
      SortedPrepend(s[0], rest);
    }
  }

  /** Below the head of an ascending sequence is below all of it. */
  lemma BelowHead(e: Entry, s: seq<Entry>)
    requires Sorted(s) && s != [] && EntryLe(e, s[0])
    ensures forall j :: 0 <= j < |s| ==> EntryLe(e, s[j])
  {
    forall j | 0 < j < |s| ensures EntryLe(e, s[j]) {
      EntryLeTransitive(e, s[0], s[j]);
    }
  }

  lemma SortedPrepend(x: Entry, s: seq<Entry>)
    requires Sorted(s)
    requires forall j :: 0 <= j < |s| ==> EntryLe(x, s[j])
    ensures Sorted([x] + s)
  {
    forall i, j | 0 <= i < j < |s| + 1 ensures EntryLe(([x] + s)[i], ([x] + s)[j]) {
      if i > 0 {
        assert ([x] + s)[i] == s[i - 1] && ([x] + s)[j] == s[j - 1];
      } else {
        assert ([x] + s)[j] == s[j - 1];
      }
    }
  }

  /** The processing order of one instance's entries, by insertion. */
  function SortEntries(s: seq<Entry>): seq<Entry> {
    if s == [] then [] else Insert(s[0], SortEntries(s[1..]))
  }

  /** `sorted` yields the entries ascending, each as often as it was listed. */
  lemma {:induction false} SortEntriesSorted(s: seq<Entry>)
    ensures Sorted(SortEntries(s))
    ensures multiset(SortEntries(s)) == multiset(s)
    decreases |s|
  {
    if s != [] {
      SortEntriesSorted(s[1..]);
      InsertSorted(s[0], SortEntries(s[1..]));
      assert s == [s[0]] + s[1..];
    }
  }

  /** An ascending permutation is unique, so any correct sort of the entries
      (Python's own included) yields the same sequence, whatever order the
      entries were listed in. */
  lemma {:induction false} SortedUnique(a: seq<Entry>, b: seq<Entry>)
    requires Sorted(a) && Sorted(b) && multiset(a) == multiset(b)
    ensures a == b
    decreases |a|
  {
    if a != [] {
      assert |b| == |multiset(b)| == |multiset(a)| == |a|;
      SameHead(a, b);
      assert multiset(a[1..]) == multiset(b[1..]) by {
        assert a == [a[0]] + a[1..] && b == [b[0]] + b[1..];
        assert multiset(a[1..]) == multiset(a) - multiset{a[0]};
        assert multiset(b[1..]) == multiset(b) - multiset{b[0]};
      }
      SortedUnique(a[1..], b[1..]);
      assert a == [a[0]] + a[1..] && b == [b[0]] + b[1..];
    }
  }

  /** Two ascending permutations of each other start with the same entry. */
  lemma SameHead(a: seq<Entry>, b: seq<Entry>)
    requires Sorted(a) && Sorted(b) && multiset(a) == multiset(b) && a != [] && b != []
    ensures a[0] == b[0]
  {
    assert a[0] in multiset(b) && b[0] in multiset(a);
    assert EntryLe(b[0], a[0]) by { AtMostAll(b, a[0]); }
    assert EntryLe(a[0], b[0]) by { AtMostAll(a, b[0]); }
    EntryLeAntisymmetric(a[0], b[0]);
  }

  /** The head of an ascending sequence is at most any of its elements. */
  lemma AtMostAll(s: seq<Entry>, x: Entry)
    requires Sorted(s) && x in s
    ensures EntryLe(s[0], x)
  {
    var i :| 0 <= i < |s| && s[i] == x;
    if i == 0 {
      EntryLeReflexive(x);
    }
  }

  /** The processing order depends only on the entries, not on the order in
      which the listing named them. */
  lemma SortIgnoresListingOrder(s: seq<Entry>, t: seq<Entry>)
    requires multiset(s) == multiset(t)
    ensures SortEntries(s) == SortEntries(t)
  {
    SortEntriesSorted(s);
    SortEntriesSorted(t);
    SortedUnique(SortEntries(s), SortEntries(t));
  }
}
