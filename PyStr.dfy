/** The Python string operations the plotting core relies on: `w in s`,
    `s.split(sep)`, `sep.join(parts)`, `s.startswith(p)` and `s.endswith(p)`. */
module PyStr {
  import opened Wrappers

  /** `w` occurs in `s` starting at index `i`. */
  predicate IsAt(s: string, w: string, i: int) {
    0 <= i && i + |w| <= |s| && s[i..i + |w|] == w
  }

  /** Python's substring test `w in s`. */
  predicate Contains(s: string, w: string) {
    exists i :: 0 <= i <= |s| - |w| && IsAt(s, w, i)
  }

  predicate StartsWith(s: string, p: string) {
    |p| <= |s| && s[..|p|] == p
  }

  predicate EndsWith(s: string, p: string) {
    |p| <= |s| && s[|s| - |p|..] == p
  }

  /** `r` is the index of the leftmost occurrence of `w` in `s`, or None when there is none. */
  ghost predicate IsLeftmost(s: string, w: string, r: Option<nat>) {
    && (r.Some? ==> IsAt(s, w, r.value) && forall j :: 0 <= j < r.value ==> !IsAt(s, w, j))
    && (r.None? <==> !Contains(s, w))
  }

  /** The index of the leftmost occurrence of `w` in `s` (Python's `s.find(w)`, with None for -1). */
  function Find(s: string, w: string): (r: Option<nat>)
    ensures r.Some? ==> IsAt(s, w, r.value)
    decreases |s|
  {
    if |s| < |w| then None
    else if s[..|w|] == w then
      assert IsAt(s, w, 0);
      Some(0)
    else
      match Find(s[1..], w)
      case None => None
      case Some(i) =>
        assert s[1..][i..i + |w|] == s[i + 1..i + 1 + |w|];
        Some(i + 1)
  }

  /** `Find` returns the leftmost occurrence, and None exactly when there is none. */
  lemma {:induction false} FindLeftmost(s: string, w: string)
    ensures IsLeftmost(s, w, Find(s, w))
    decreases |s|
  {
    if |s| >= |w| && s[..|w|] != w {
      FindLeftmost(s[1..], w);
      FindStep(s, w, Find(s[1..], w));
    } else if |s| >= |w| {
      assert IsAt(s, w, 0);
    }
  }

  /** Occurrences in `s[1..]` are the occurrences in `s` shifted by one, so the
      leftmost one of `s[1..]`, shifted, is the leftmost one of `s` when `s` does not start with `w`. */
  lemma FindStep(s: string, w: string, tail: Option<nat>)
    requires |s| >= |w| && s[..|w|] != w
    requires IsLeftmost(s[1..], w, tail)
    ensures IsLeftmost(s, w, match tail case None => None case Some(i) => Some(i + 1))
  {
    forall j | 0 <= j
      ensures IsAt(s[1..], w, j) <==> IsAt(s, w, j + 1)
    {
      if j + |w| <= |s| - 1 {
        assert s[1..][j..j + |w|] == s[j + 1..j + 1 + |w|];
      }
    }
    assert !IsAt(s, w, 0);
    if Contains(s, w) {
      var i :| 0 <= i <= |s| - |w| && IsAt(s, w, i);
      assert IsAt(s[1..], w, i - 1);
    }
    if tail.Some? {
      forall j | 0 <= j < tail.value + 1
        ensures !IsAt(s, w, j)
      {
        if j > 0 {
          assert !IsAt(s[1..], w, j - 1);
        }
      }
    }
  }

  /** An occurrence before which the word's first character never appears is the leftmost. */
  lemma FindAt(s: string, w: string, i: nat)
    requires |w| > 0 && IsAt(s, w, i) && forall j :: 0 <= j < i ==> s[j] != w[0]
    ensures Find(s, w) == Some(i)
  {
    FindLeftmost(s, w);
    LeftmostAt(s, w, i, Find(s, w));
  }

  lemma LeftmostAt(s: string, w: string, i: nat, r: Option<nat>)
    requires |w| > 0 && IsAt(s, w, i) && forall j :: 0 <= j < i ==> s[j] != w[0]
    requires IsLeftmost(s, w, r)
    ensures r == Some(i)
  {
    assert Contains(s, w);
    var v := r.value;
    assert s[v] == s[v..v + |w|][0];
  }

  /** A word whose first character is absent does not occur. */
  lemma FindNone(s: string, w: string)
    requires |w| > 0 && w[0] !in s
    ensures Find(s, w) == None
  {
    FindLeftmost(s, w);
    forall i | 0 <= i <= |s| - |w|
      ensures !IsAt(s, w, i)
    {
      assert s[i..i + |w|][0] == s[i];
    }
  }

  /** Python's `s.split(sep)` for a non-empty separator: the pieces between the
      leftmost non-overlapping occurrences of `sep`. */
  function Split(s: string, sep: string): (r: seq<string>)
    requires |sep| > 0
    ensures |r| >= 1
    decreases |s|
  {
    match Find(s, sep)
    case None => [s]
    case Some(i) => [s[..i]] + Split(s[i + |sep|..], sep)
  }

  /** Splitting at the leftmost separator: the piece before it, then the split of the rest. */
  lemma SplitAt(s: string, sep: string, i: nat)
    requires |sep| > 0 && Find(s, sep) == Some(i)
    ensures Split(s, sep) == [s[..i]] + Split(s[i + |sep|..], sep)
  {
  }

  /** A first piece without the separator's first character is split off whole. */
  lemma SplitFirst(s: string, a: string, sep: string, rest: string)
    requires |sep| > 0 && sep[0] !in a && s == a + sep + rest
    ensures Split(s, sep) == [a] + Split(rest, sep)
  {
    assert s[|a|..|a| + |sep|] == sep;
    assert forall j :: 0 <= j < |a| ==> s[j] == a[j];
    FindAt(s, sep, |a|);
    SplitAt(s, sep, |a|);
    assert s[..|a|] == a;
    assert s[|a| + |sep|..] == rest;
  }

  /** Three pieces none of which holds the separator's first character split back apart. */
  lemma SplitThree(a: string, b: string, c: string, sep: string)
    requires |sep| > 0 && sep[0] !in a && sep[0] !in b && sep[0] !in c
    ensures Split(a + sep + b + sep + c, sep) == [a, b, c]
  {
    var rest := b + sep + c;
    SplitTwo(b, c, sep);
    SplitFirst(a + sep + b + sep + c, a, sep, rest);
    assert [a] + [b, c] == [a, b, c];
  }

  lemma SplitTwo(b: string, c: string, sep: string)
    requires |sep| > 0 && sep[0] !in b && sep[0] !in c
    ensures Split(b + sep + c, sep) == [b, c]
  {
    SplitFirst(b + sep + c, b, sep, c);
    FindNone(c, sep);
    assert Split(c, sep) == [c];
  }

  /** Python's `sep.join(parts)`. */
  function Join(parts: seq<string>, sep: string): string
  {
    if |parts| == 0 then ""
    else if |parts| == 1 then parts[0]
    else parts[0] + sep + Join(parts[1..], sep)
  }

  /** Python's `s.split(w)[0]`: everything before the first occurrence of `w`. */
  function Before(s: string, w: string): string
    requires |w| > 0
  {
    Split(s, w)[0]
  }

  /** Joining the pieces of a split with the same separator restores the string. */
  lemma {:induction false} SplitJoin(s: string, sep: string)
    requires |sep| > 0
    ensures Join(Split(s, sep), sep) == s
    decreases |s|
  {
    var f := Find(s, sep);
    if f.Some? {
      var i := f.value;
      var rest := s[i + |sep|..];
      SplitJoin(rest, sep);
      var tail := Split(rest, sep);
      JoinCons(s[..i], tail, sep);
      assert Split(s, sep) == [s[..i]] + tail;
      SliceAround(s, i, |sep|);
    }
  }

  lemma SliceAround(s: string, i: nat, n: nat)
    requires i + n <= |s|
    ensures s == s[..i] + s[i..i + n] + s[i + n..]
  {
  }

  lemma JoinCons(head: string, tail: seq<string>, sep: string)
    requires |tail| >= 1
    ensures Join([head] + tail, sep) == head + sep + Join(tail, sep)
  {
    assert ([head] + tail)[1..] == tail;
  }

  /** No piece of a split contains the separator. */
  lemma {:induction false} SplitPiecesLackSeparator(s: string, sep: string)
    requires |sep| > 0
    ensures forall p :: p in Split(s, sep) ==> !Contains(p, sep)
    decreases |s|
  {
    FindLeftmost(s, sep);
    match Find(s, sep)
    case None =>
    case Some(i) =>
      SplitPiecesLackSeparator(s[i + |sep|..], sep);
      PiecesAfterLeftmost(s, sep, i);
  }

  /** The step of `SplitPiecesLackSeparator`: the piece before the leftmost
      separator lacks it, and so do the pieces of the rest. */
  lemma PiecesAfterLeftmost(s: string, sep: string, i: nat)
    requires |sep| > 0 && Find(s, sep) == Some(i) && IsLeftmost(s, sep, Some(i))
    requires forall p :: p in Split(s[i + |sep|..], sep) ==> !Contains(p, sep)
    ensures forall p :: p in Split(s, sep) ==> !Contains(p, sep)
  {
    NothingBeforeLeftmost(s, sep, i);
    SplitAt(s, sep, i);
    var rest := Split(s[i + |sep|..], sep);
    forall p | p in [s[..i]] + rest
      ensures !Contains(p, sep)
    {
      if p != s[..i] {
        assert p in rest;
      }
    }
  }

  /** The text before the leftmost occurrence does not contain the word. */
  lemma NothingBeforeLeftmost(s: string, w: string, i: nat)
    requires |w| > 0 && IsLeftmost(s, w, Some(i))
    ensures !Contains(s[..i], w)
  {
    forall j | 0 <= j <= i - |w|
      ensures !IsAt(s[..i], w, j)
    {
      assert j < Some(i).value;
      assert !IsAt(s, w, j);
      assert s[..i][j..j + |w|] == s[j..j + |w|];
    }
  }

  /** An occurrence of a word that does not hold the character `c` lies on one side of `c`. */
  lemma ContainsAroundSeparator(a: string, c: char, b: string, w: string)
    requires |w| > 0 && c !in w
    ensures Contains(a + [c] + b, w) <==> Contains(a, w) || Contains(b, w)
  {
    var s := a + [c] + b;
    if Contains(a, w) {
      var i :| 0 <= i <= |a| - |w| && IsAt(a, w, i);
      assert s[i..i + |w|] == a[i..i + |w|];
      assert IsAt(s, w, i);
    }
    if Contains(b, w) {
      var i :| 0 <= i <= |b| - |w| && IsAt(b, w, i);
      var j := |a| + 1 + i;
      assert s[j..j + |w|] == b[i..i + |w|];
      assert IsAt(s, w, j);
    }
    if Contains(s, w) {
      var i :| 0 <= i <= |s| - |w| && IsAt(s, w, i);
      if i + |w| <= |a| {
        assert a[i..i + |w|] == s[i..i + |w|];
        assert IsAt(a, w, i);
      } else if i > |a| {
        var j := i - |a| - 1;
        assert b[j..j + |w|] == s[i..i + |w|];
        assert IsAt(b, w, j);
      } else {
        CharOfOccurrence(s, w, i, |a| - i);
        assert false;
      }
    }
  }

  /** Every character of an occurrence of `w` is a character of `w`. */
  lemma CharOfOccurrence(s: string, w: string, i: int, k: int)
    requires IsAt(s, w, i) && 0 <= k < |w|
    ensures s[i + k] in w
  {
    assert s[i + k] == s[i..i + |w|][k];
  }

  /** A word free of the character `c` occurs in the `c`-join of some strings
      exactly when it occurs in one of them. */
  lemma {:induction false} JoinContains(parts: seq<string>, c: char, w: string)
    requires |w| > 0 && c !in w
    ensures Contains(Join(parts, [c]), w) <==> exists i :: 0 <= i < |parts| && Contains(parts[i], w)
  {
    if |parts| == 1 {
      assert Join(parts, [c]) == parts[0];
    } else if |parts| > 1 {
      var rest := parts[1..];
      JoinContains(rest, c, w);
      ContainsAroundSeparator(parts[0], c, Join(rest, [c]), w);
      assert Join(parts, [c]) == parts[0] + [c] + Join(rest, [c]);
      if exists i :: 0 <= i < |parts| && Contains(parts[i], w) {
        var i :| 0 <= i < |parts| && Contains(parts[i], w);
        if i > 0 {
          assert rest[i - 1] == parts[i];
        }
      }
      if exists i :: 0 <= i < |rest| && Contains(rest[i], w) {
        var i :| 0 <= i < |rest| && Contains(rest[i], w);
        assert parts[i + 1] == rest[i];
      }
    }
  }

  /** A one-character word occurs exactly when the character does. */
  lemma ContainsChar(s: string, c: char)
    ensures Contains(s, [c]) <==> c in s
  {
    if c in s {
      var i :| 0 <= i < |s| && s[i] == c;
      assert s[i..i + 1] == [c];
      assert IsAt(s, [c], i);
    }
    if Contains(s, [c]) {
      var i :| 0 <= i <= |s| - 1 && IsAt(s, [c], i);
      assert s[i] == s[i..i + 1][0] == c;
    }
  }
}
