/** Mapping a function over a sequence, and how mapping interacts with
    permutations. */
module Sequences {

  /** `f` applied to every element, in order. */
  function MapSeq<A, B>(f: A -> B, s: seq<A>): (r: seq<B>)
    ensures |r| == |s|
  {
    if s == [] then [] else [f(s[0])] + MapSeq(f, s[1..])
  }

  lemma {:induction false} MapSeqAt<A, B>(f: A -> B, s: seq<A>, i: nat)
    requires i < |s|
    ensures MapSeq(f, s)[i] == f(s[i])
    decreases |s|
  {
    if i > 0 {
      MapSeqAt(f, s[1..], i - 1);
    }
  }

  lemma {:induction false} MapSeqConcat<A, B>(f: A -> B, s: seq<A>, t: seq<A>)
    ensures MapSeq(f, s + t) == MapSeq(f, s) + MapSeq(f, t)
    decreases |s|
  {
    if s == [] {
      assert s + t == t;
    } else {
      assert (s + t)[1..] == s[1..] + t;
      MapSeqConcat(f, s[1..], t);
    }
  }

  /** Taking out the element at `j`. */
  lemma RemoveAt<A>(t: seq<A>, j: nat)
    requires j < |t|
    ensures multiset(t[..j] + t[j + 1..]) == multiset(t) - multiset{t[j]}
  {
    assert t == t[..j] + [t[j]] + t[j + 1..];
  }

  /** Taking out the element at `j` before or after mapping. */
  lemma MapRemoveAt<A, B>(f: A -> B, t: seq<A>, j: nat)
    requires j < |t|
    ensures multiset(MapSeq(f, t)) == multiset(MapSeq(f, t[..j] + t[j + 1..])) + multiset{f(t[j])}
  {
    var pre, post := t[..j], t[j + 1..];
    assert t == pre + ([t[j]] + post);
    MapSeqConcat(f, pre, [t[j]] + post);
    MapSeqConcat(f, [t[j]], post);
    MapSeqConcat(f, pre, post);
    assert MapSeq(f, [t[j]]) == [f(t[j])] by {
      assert [t[j]][1..] == [];
    }
    var fa, fb := MapSeq(f, pre), MapSeq(f, post);
    assert MapSeq(f, t) == fa + ([f(t[j])] + fb);
    assert MapSeq(f, pre + post) == fa + fb;
  }

  /** Mapping a permutation gives a permutation. */
  lemma {:induction false} MapPermutation<A, B>(f: A -> B, s: seq<A>, t: seq<A>)
    requires multiset(s) == multiset(t)
    ensures multiset(MapSeq(f, s)) == multiset(MapSeq(f, t))
    decreases |s|
  {
    if s == [] {
      assert |t| == |multiset(t)| == 0;
    } else {
      var x := s[0];
      assert x in multiset(t);
      var j :| 0 <= j < |t| && t[j] == x;
      RemoveAt(t, j);
      assert s == [x] + s[1..];
      assert multiset(s[1..]) == multiset(s) - multiset{x};
      MapPermutation(f, s[1..], t[..j] + t[j + 1..]);
      MapRemoveAt(f, t, j);
    }
  }
}
