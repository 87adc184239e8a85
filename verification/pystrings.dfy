/** The few Python 2 `str` operations the script relies on, over `seq<char>`:
    `split` on a one-character separator, the `in` substring test, `strip()`
    and the ordinary `<=` comparison of two strings. `sep.join` is here too,
    although the script never calls it: it is what `split` inverts, and it
    describes the printed line. */
module PyStrings {

  /** `str.isspace()` for one character under Python 2: space, tab, line feed,
      carriage return, vertical tab and form feed. */
  predicate IsSpace(c: char) {
    c == ' ' || c == '\t' || c == '\n' || c == '\r' || c == '\U{B}' || c == '\U{C}'
  }

  /** Number of occurrences of `c` in `s`. */
  function Count(s: string, c: char): nat {
    if s == [] then 0 else (if s[0] == c then 1 else 0) + Count(s[1..], c)
  }

  /** `sep.join(parts)` for a one-character separator. */
  function Join(parts: seq<string>, sep: char): string {
    if |parts| == 0 then ""
    else if |parts| == 1 then parts[0]
    else parts[0] + [sep] + Join(parts[1..], sep)
  }

  /** `s.split(sep)` for a one-character separator: every piece is kept,
      empty ones included, so there is always one more piece than there are
      separators, and joining the pieces gives `s` back. */
  function Split(s: string, sep: char): (r: seq<string>)
    ensures |r| == Count(s, sep) + 1
    ensures forall i :: 0 <= i < |r| ==> sep !in r[i]
    ensures Join(r, sep) == s
  {
    if s == [] then [""]
    else
      var rest := Split(s[1..], sep);
      if s[0] == sep then
        assert s == [] + [sep] + Join(rest, sep);
        [""] + rest
      else
        var r := [[s[0]] + rest[0]] + rest[1..];
        assert Join(r, sep) == s by {
          if |rest| == 1 {
            assert s == [s[0]] + s[1..];
          } else {
            assert Join(rest, sep) == rest[0] + [sep] + Join(rest[1..], sep);
            assert r[1..] == rest[1..];
            assert s == [s[0]] + s[1..];
          }
        }
        r
  }

  /** A separator in front of the remainder starts a new piece. */
  lemma {:induction false} SplitConcat(p: string, sep: char, t: string)
    requires sep !in p
    ensures Split(p + [sep] + t, sep) == [p] + Split(t, sep)
    decreases |p|
  {
    var s := p + [sep] + t;
    if p == [] {
      assert s[1..] == t;
    } else {
      assert s[1..] == p[1..] + [sep] + t;
      SplitConcat(p[1..], sep, t);
      assert [p[0]] + p[1..] == p;
    }
  }

  /** A string without the separator splits into itself alone. */
  lemma {:induction false} SplitNoSep(s: string, sep: char)
    requires sep !in s
    ensures Split(s, sep) == [s]
    decreases |s|
  {
    if s != [] {
      SplitNoSep(s[1..], sep);
      assert [s[0]] + s[1..] == s;
    }
  }

  /** `split` is the only way of cutting `s` into separator-free pieces that
      join back to `s`: it inverts `join` on such pieces. */
  lemma {:induction false} SplitJoin(parts: seq<string>, sep: char)
    requires |parts| >= 1
    requires forall i :: 0 <= i < |parts| ==> sep !in parts[i]
    ensures Split(Join(parts, sep), sep) == parts
    decreases |parts|
  {
    if |parts| == 1 {
      SplitNoSep(parts[0], sep);
    } else {
      assert sep !in parts[0];
      SplitJoin(parts[1..], sep);
      SplitConcat(parts[0], sep, Join(parts[1..], sep));
      assert [parts[0]] + parts[1..] == parts;
    }
  }

  /** `c` occurs in `s` exactly when it is counted there. */
  lemma {:induction false} CountZero(s: string, c: char)
    ensures Count(s, c) == 0 <==> c !in s
    decreases |s|
  {
    if s != [] {
      CountZero(s[1..], c);
      assert s == [s[0]] + s[1..];
    }
  }

  /** A character of one of the pieces is a character of their join. */
  lemma {:induction false} JoinHasPieces(parts: seq<string>, sep: char, i: nat, c: char)
    requires i < |parts| && c in parts[i]
    ensures c in Join(parts, sep)
    decreases |parts|
  {
    if i > 0 {
      JoinHasPieces(parts[1..], sep, i - 1, c);
    }
  }

  /** `s` has `sub` starting at index `i`. */
  predicate OccursAt(s: string, sub: string, i: nat) {
    i + |sub| <= |s| && s[i..i + |sub|] == sub
  }

  /** Python's `sub in s`. */
  predicate Contains(s: string, sub: string)
    decreases |s|
  {
    (|sub| <= |s| && s[..|sub|] == sub) || (|s| > 0 && Contains(s[1..], sub))
  }

  /** `sub in s` holds exactly when `sub` occurs somewhere in `s`. */
  lemma ContainsOccurs(s: string, sub: string)
    ensures Contains(s, sub) <==> exists i: nat :: OccursAt(s, sub, i)
  {
    if Contains(s, sub) {
      var i := ContainsAt(s, sub);
    }
    if exists i: nat :: OccursAt(s, sub, i) {
      var i: nat :| OccursAt(s, sub, i);
      OccursContains(s, sub, i);
    }
  }

  /** Where `sub in s` finds `sub`. */
  lemma {:induction false} ContainsAt(s: string, sub: string) returns (i: nat)
    requires Contains(s, sub)
    ensures OccursAt(s, sub, i)
    decreases |s|
  {
    if |sub| <= |s| && s[..|sub|] == sub {
      i := 0;
    } else {
      var j := ContainsAt(s[1..], sub);
      assert s[1..][j..j + |sub|] == s[j + 1..j + 1 + |sub|];
      i := j + 1;
    }
  }

  /** An occurrence anywhere makes `sub in s` hold. */
  lemma {:induction false} OccursContains(s: string, sub: string, i: nat)
    requires OccursAt(s, sub, i)
    ensures Contains(s, sub)
    decreases i
  {
    if i > 0 {
      assert s[1..][i - 1..i - 1 + |sub|] == s[i..i + |sub|];
      OccursContains(s[1..], sub, i - 1);
    }
  }

  /** `s` has only whitespace. */
  predicate AllSpace(s: string) {
    forall i :: 0 <= i < |s| ==> IsSpace(s[i])
  }

  /** `s` is `r` with whitespace before and after, the leading part `lo` long. */
  predicate Pads(s: string, r: string, lo: nat) {
    lo + |r| <= |s| && s[lo..lo + |r|] == r && AllSpace(s[..lo]) && AllSpace(s[lo + |r|..])
  }

  /** `s.lstrip()`: drop the leading whitespace. */
  function TrimLeft(s: string): (r: string)
    ensures |r| <= |s| && r == s[|s| - |r|..]
    ensures AllSpace(s[..|s| - |r|])
    ensures r != [] ==> !IsSpace(r[0])
  {
    if s != [] && IsSpace(s[0]) then
      var r := TrimLeft(s[1..]);
      assert s[..|s| - |r|] == [s[0]] + s[1..][..|s| - 1 - |r|];
      r
    else s
  }

  /** `s.rstrip()`: drop the trailing whitespace. */
  function TrimRight(s: string): (r: string)
    ensures |r| <= |s| && r == s[..|r|]
    ensures AllSpace(s[|r|..])
    ensures r != [] ==> !IsSpace(r[|r| - 1])
  {
    if s != [] && IsSpace(s[|s| - 1]) then
      var r := TrimRight(s[..|s| - 1]);
      assert s[|r|..] == s[..|s| - 1][|r|..] + [s[|s| - 1]];
      r
    else s
  }

  /** `r` sits inside `s` between two runs of whitespace and neither begins
      nor ends with whitespace. */
  ghost predicate StripOf(s: string, r: string) {
    (exists lo: nat :: Pads(s, r, lo)) && (r != [] ==> !IsSpace(r[0]) && !IsSpace(r[|r| - 1]))
  }

  /** `s.strip()`: leading whitespace off, then trailing whitespace off. */
  function Strip(s: string): (r: string)
    ensures StripOf(s, r)
  {
    StripPads(s);
    TrimRight(TrimLeft(s))
  }

  lemma StripPads(s: string)
    ensures StripOf(s, TrimRight(TrimLeft(s)))
  {
    var t := TrimLeft(s);
    var r := TrimRight(t);
    TrimmedPads(s, t, r);
  }

  /** Whitespace cut from both ends of `s` leaves a slice padded by it. */
  lemma TrimmedPads(s: string, t: string, r: string)
    requires |t| <= |s| && t == s[|s| - |t|..] && AllSpace(s[..|s| - |t|])
    requires |r| <= |t| && r == t[..|r|] && AllSpace(t[|r|..])
    requires t != [] ==> !IsSpace(t[0])
    requires r != [] ==> !IsSpace(r[|r| - 1])
    ensures Pads(s, r, |s| - |t|)
    ensures r != [] ==> !IsSpace(r[0]) && !IsSpace(r[|r| - 1])
  {
    var lo := |s| - |t|;
    assert s[lo..lo + |r|] == t[..|r|];
    assert s[lo + |r|..] == t[|r|..];
  }

  /** Python 2 `a <= b` on two byte strings: lexicographic order. */
  predicate StrLe(a: string, b: string) {
    if a == [] then true
    else if b == [] then false
    else if a[0] != b[0] then a[0] < b[0]
    else StrLe(a[1..], b[1..])
  }

  lemma {:induction false} StrLeReflexive(a: string)
    ensures StrLe(a, a)
    decreases |a|
  {
    if a != [] {
      StrLeReflexive(a[1..]);
    }
  }

  /** Any two strings are comparable. */
  lemma {:induction false} StrLeTotal(a: string, b: string)
    ensures StrLe(a, b) || StrLe(b, a)
    decreases |a|
  {
    if a != [] && b != [] && a[0] == b[0] {
      StrLeTotal(a[1..], b[1..]);
    }
  }

  /** Two strings each at most the other are equal. */
  lemma {:induction false} StrLeAntisymmetric(a: string, b: string)
    requires StrLe(a, b) && StrLe(b, a)
    ensures a == b
    decreases |a|
  {
    if a != [] {
      StrLeAntisymmetric(a[1..], b[1..]);
      assert a == [a[0]] + a[1..] && b == [b[0]] + b[1..];
    }
  }

  lemma {:induction false} StrLeTransitive(a: string, b: string, c: string)
    requires StrLe(a, b) && StrLe(b, c)
    ensures StrLe(a, c)
    decreases |a|
  {
    if a != [] && a[0] == b[0] && b[0] == c[0] {
      StrLeTransitive(a[1..], b[1..], c[1..]);
    }
  }

  /** After a common prefix, the first differing character decides. */
  lemma {:induction false} StrLeAfterCommonPrefix(a: string, b: string, n: nat)
    requires n < |a| && n < |b| && a[..n] == b[..n] && a[n] > b[n]
    ensures !StrLe(a, b)
    decreases n
  {
    if n > 0 {
      assert a[1..][..n - 1] == a[..n][1..] && b[1..][..n - 1] == b[..n][1..];
      assert a[0] == a[..n][0] && b[0] == b[..n][0];
      StrLeAfterCommonPrefix(a[1..], b[1..], n - 1);
    }
  }

  /** An occurrence in `p` is one in `p + s` at the same index. */
  lemma OccursPrefix(p: string, s: string, sub: string, i: nat)
    requires OccursAt(p, sub, i)
    ensures OccursAt(p + s, sub, i)
  {
    assert (p + s)[i..i + |sub|] == p[i..i + |sub|];
  }

  /** An occurrence in `s` is one in `p + s`, shifted by `|p|`. */
  lemma OccursSuffix(p: string, s: string, sub: string, i: nat)
    requires OccursAt(s, sub, i)
    ensures OccursAt(p + s, sub, |p| + i)
  {
    assert (p + s)[|p| + i..|p| + i + |sub|] == s[i..i + |sub|];
  }

  /** A join begins with its first piece. */
  lemma JoinStartsWith(parts: seq<string>, sep: char)
    requires |parts| >= 1
    ensures OccursAt(Join(parts, sep), parts[0], 0)
  {
    if |parts| > 1 {
      assert OccursAt(parts[0], parts[0], 0);
      OccursPrefix(parts[0], [sep] + Join(parts[1..], sep), parts[0], 0);
      assert parts[0] + [sep] + Join(parts[1..], sep) == parts[0] + ([sep] + Join(parts[1..], sep));
    }
  }

  /** A join ends with its last piece. */
  lemma {:induction false} JoinEndsWith(parts: seq<string>, sep: char)
    requires |parts| >= 1
    ensures |parts[|parts| - 1]| <= |Join(parts, sep)|
    ensures OccursAt(Join(parts, sep), parts[|parts| - 1], |Join(parts, sep)| - |parts[|parts| - 1]|)
    decreases |parts|
  {
    var last := parts[|parts| - 1];
    if |parts| == 1 {
      assert Join(parts, sep)[0..|last|] == last;
    } else {
      var rest := Join(parts[1..], sep);
      JoinEndsWith(parts[1..], sep);
      OccursSuffix(parts[0] + [sep], rest, last, |rest| - |last|);
    }
  }

  /** A character in no piece and other than the separator is not in the join. */
  lemma {:induction false} JoinAvoids(parts: seq<string>, sep: char, c: char)
    requires c != sep && forall i :: 0 <= i < |parts| ==> c !in parts[i]
    ensures c !in Join(parts, sep)
    decreases |parts|
  {
    if |parts| > 1 {
      JoinAvoids(parts[1..], sep, c);
    }
  }

  /** A substring of one piece is a substring of the join. */
  lemma {:induction false} JoinContains(parts: seq<string>, sep: char, k: nat, sub: string)
    requires k < |parts| && Contains(parts[k], sub)
    ensures Contains(Join(parts, sep), sub)
    decreases |parts|
  {
    var joined := Join(parts, sep);
    ContainsOccurs(joined, sub);
    if |parts| > 1 {
      var head := parts[0] + [sep];
      assert joined == head + Join(parts[1..], sep);
      if k == 0 {
        ContainsOccurs(parts[0], sub);
        var i: nat :| OccursAt(parts[0], sub, i);
        OccursPrefix(parts[0], [sep] + Join(parts[1..], sep), sub, i);
        assert parts[0] + ([sep] + Join(parts[1..], sep)) == joined;
      } else {
        JoinContains(parts[1..], sep, k - 1, sub);
        ContainsOccurs(Join(parts[1..], sep), sub);
        var i: nat :| OccursAt(Join(parts[1..], sep), sub, i);
        OccursSuffix(head, Join(parts[1..], sep), sub, i);
      }
    }
  }
}
