/** The ordinal .NET string operations the search handler relies on:
    `String.Contains`, `String.Replace` with an empty replacement and
    `String.Join`, with `Split` on one character as the inverse of `Join`. */
module Strings {

  /** `pat` occurs in `s` starting at position `i`. */
  predicate OccursAt(s: string, pat: string, i: int) {
    0 <= i && i + |pat| <= |s| && s[i..i + |pat|] == pat
  }

  predicate StartsWith(s: string, pat: string) {
    |pat| <= |s| && s[..|pat|] == pat
  }

  /** Ordinal `s.Contains(pat)`: some position of `s` starts a copy of `pat`. */
  predicate Contains(s: string, pat: string)
    decreases |s|
  {
    StartsWith(s, pat) || (|s| > 0 && Contains(s[1..], pat))
  }

  /** The left-to-right scan of `Contains` finds an occurrence exactly when there is one. */
  lemma {:induction false} ContainsIffOccurs(s: string, pat: string)
    ensures Contains(s, pat) <==> exists i :: OccursAt(s, pat, i)
    decreases |s|
  {
    if StartsWith(s, pat) {
      assert OccursAt(s, pat, 0);
    } else if |s| > 0 {
      ContainsIffOccurs(s[1..], pat);
      if i :| OccursAt(s[1..], pat, i) {
        assert s[1..][i..i + |pat|] == s[i + 1..i + 1 + |pat|];
        assert OccursAt(s, pat, i + 1);
      }
      if i :| OccursAt(s, pat, i) {
        assert i != 0;
        assert s[1..][i - 1..i - 1 + |pat|] == s[i..i + |pat|];
        assert OccursAt(s[1..], pat, i - 1);
      }
    }
  }

  lemma {:induction false} ContainsNeedsRoom(s: string, pat: string)
    requires Contains(s, pat)
    ensures |pat| <= |s|
    decreases |s|
  {
    if !StartsWith(s, pat) {
      ContainsNeedsRoom(s[1..], pat);
    }
  }

  /** Text placed before or after a string that contains `pat` still contains it. */
  lemma {:induction false} ContainsExtend(x: string, y: string, pat: string)
    ensures Contains(x, pat) ==> Contains(x + y, pat)
    ensures Contains(y, pat) ==> Contains(x + y, pat)
    decreases |x|
  {
    if StartsWith(x, pat) {
      assert (x + y)[..|pat|] == x[..|pat|];
    }
    if |x| == 0 {
      assert x + y == y;
    } else {
      ContainsExtend(x[1..], y, pat);
      assert (x + y)[1..] == x[1..] + y;
    }
  }

  /** A copy of `pat` placed anywhere in a string is found. */
  lemma {:induction false} ContainsInfix(a: string, pat: string, b: string)
    ensures Contains(a + pat + b, pat)
  {
    assert StartsWith(pat + b, pat);
    ContainsExtend(a, pat + b, pat);
    assert a + pat + b == a + (pat + b);
  }

  /** `s.Replace(pat, string.Empty)`: scans from the left and deletes every
      occurrence it meets, resuming after the deleted text. */
  function RemoveAll(s: string, pat: string): (r: string)
    requires |pat| > 0
    ensures |r| <= |s|
    ensures !Contains(s, pat) ==> r == s
    decreases |s|
  {
    if StartsWith(s, pat) then RemoveAll(s[|pat|..], pat)
    else if s == [] then []
    else [s[0]] + RemoveAll(s[1..], pat)
  }

  /** Text without the first character of `pat` is left alone, and so is
      such text in front of any other text. */
  lemma {:induction false} RemoveAllAfterNoHead(a: string, b: string, pat: string)
    requires |pat| > 0 && pat[0] !in a
    ensures RemoveAll(a + b, pat) == a + RemoveAll(b, pat)
    decreases |a|
  {
    if a == [] {
      assert a + b == b;
    } else {
      var s := a + b;
      assert s[0] == a[0] != pat[0];
      assert s[1..] == a[1..] + b;
      RemoveAllAfterNoHead(a[1..], b, pat);
      assert [a[0]] + (a[1..] + RemoveAll(b, pat)) == a + RemoveAll(b, pat);
    }
  }

  lemma RemoveAllWithoutHead(s: string, pat: string)
    requires |pat| > 0 && pat[0] !in s
    ensures RemoveAll(s, pat) == s
  {
    RemoveAllAfterNoHead(s, [], pat);
    assert s + [] == s;
  }

  /** A copy of `pat` at the front is deleted and the scan resumes after it. */
  lemma RemoveAllAfterCopy(pat: string, s: string)
    requires |pat| > 0
    ensures RemoveAll(pat + s, pat) == RemoveAll(s, pat)
  {
    assert (pat + s)[..|pat|] == pat && (pat + s)[|pat|..] == s;
  }

  /** No occurrence of `pat` in `a + b` starts inside `a` and ends inside `b`. */
  predicate NoOccurrenceAcross(a: string, b: string, pat: string) {
    forall i :: 0 <= i < |a| < i + |pat| ==> !OccursAt(a + b, pat, i)
  }

  /** The first character of `pat` appears nowhere else in `pat`. */
  predicate HeadUnique(pat: string) {
    |pat| > 0 && forall j :: 0 < j < |pat| ==> pat[j] != pat[0]
  }

  lemma NoOccurrenceAcrossDrop(a: string, b: string, pat: string, n: nat)
    requires n <= |a|
    requires NoOccurrenceAcross(a, b, pat)
    ensures NoOccurrenceAcross(a[n..], b, pat)
  {
    assert a[n..] + b == (a + b)[n..];
    forall i | 0 <= i < |a[n..]| < i + |pat|
      ensures !OccursAt(a[n..] + b, pat, i)
    {
      assert !OccursAt(a + b, pat, n + i);
      if i + |pat| <= |a[n..] + b| {
        assert (a + b)[n..][i..i + |pat|] == (a + b)[n + i..n + i + |pat|];
      }
    }
  }

  /** When `b` starts with the head of a head-unique pattern, no copy of the
      pattern can straddle the join. */
  lemma NoOccurrenceAcrossBeforeHead(a: string, b: string, pat: string)
    requires HeadUnique(pat) && |b| > 0 && b[0] == pat[0]
    ensures NoOccurrenceAcross(a, b, pat)
  {
    forall i | 0 <= i < |a| < i + |pat|
      ensures !OccursAt(a + b, pat, i)
    {
      assert (a + b)[|a|] == pat[0];
    }
  }

  /** Deleting from a concatenation deletes from each side, provided no
      occurrence straddles the join. */
  lemma {:induction false} RemoveAllAppend(a: string, b: string, pat: string)
    requires |pat| > 0
    requires NoOccurrenceAcross(a, b, pat)
    ensures RemoveAll(a + b, pat) == RemoveAll(a, pat) + RemoveAll(b, pat)
    decreases |a|
  {
    if a == [] {
      assert a + b == b;
    } else if StartsWith(a, pat) {
      assert (a + b)[..|pat|] == a[..|pat|];
      assert (a + b)[|pat|..] == a[|pat|..] + b;
      NoOccurrenceAcrossDrop(a, b, pat, |pat|);
      RemoveAllAppend(a[|pat|..], b, pat);
    } else {
      if |pat| <= |a| {
        assert (a + b)[..|pat|] == a[..|pat|];
      } else {
        assert !OccursAt(a + b, pat, 0);
      }
      assert !StartsWith(a + b, pat);
      assert (a + b)[1..] == a[1..] + b;
      NoOccurrenceAcrossDrop(a, b, pat, 1);
      RemoveAllAppend(a[1..], b, pat);
    }
  }

  /** Text that starts with the head of a head-unique pattern can be split off
      before removing the pattern. */
  lemma RemoveAllSplitAtHead(a: string, b: string, pat: string)
    requires HeadUnique(pat) && |b| > 0 && b[0] == pat[0]
    ensures RemoveAll(a + b, pat) == RemoveAll(a, pat) + RemoveAll(b, pat)
  {
    NoOccurrenceAcrossBeforeHead(a, b, pat);
    RemoveAllAppend(a, b, pat);
  }

  /** `string.Join(sep, parts)`: the parts in order with `sep` between neighbours. */
  function Join(sep: string, parts: seq<string>): (r: string)
    decreases |parts|
  {
    if |parts| == 0 then ""
    else if |parts| == 1 then parts[0]
    else parts[0] + sep + Join(sep, parts[1..])
  }

  /** The parts one after the other, with nothing between them. */
  function Concat(parts: seq<string>): (r: string)
    ensures |parts| == 1 ==> r == parts[0]
    decreases |parts|
  {
    if |parts| == 0 then "" else parts[0] + Concat(parts[1..])
  }

  /** Removing a head-unique pattern from parts joined with that pattern
      deletes exactly the separators, however many there are, when no part
      holds the pattern itself. */
  lemma {:induction false} RemoveAllOfJoin(parts: seq<string>, pat: string)
    requires HeadUnique(pat) && |parts| > 0
    requires forall k :: 0 <= k < |parts| ==> !Contains(parts[k], pat)
    ensures RemoveAll(Join(pat, parts), pat) == Concat(parts)
    decreases |parts|
  {
    if |parts| > 1 {
      var rest := Join(pat, parts[1..]);
      RemoveAllOfJoin(parts[1..], pat);
      assert parts[0] + pat + rest == parts[0] + (pat + rest);
      RemoveAllSplitAtHead(parts[0], pat + rest, pat);
      RemoveAllAfterCopy(pat, rest);
    }
  }


  /** Splits `s` at every occurrence of `c`; the reference inverse of `Join([c], _)`. */
  function Split(s: string, c: char): (r: seq<string>)
    ensures |r| > 0
    ensures forall k :: 0 <= k < |r| ==> c !in r[k]
    ensures Join([c], r) == s
    decreases |s|
  {
    if s == [] then [""]
    else
      var rest := Split(s[1..], c);
      if s[0] == c then [""] + rest
      else
        assert |rest| > 1 ==> Join([c], rest) == rest[0] + [c] + Join([c], rest[1..]);
        [[s[0]] + rest[0]] + rest[1..]
  }

  lemma SplitNoSeparator(x: string, c: char)
    requires c !in x
    ensures Split(x, c) == [x]
  {
  }

  lemma {:induction false} SplitAtFirstSeparator(x: string, c: char, y: string)
    requires c !in x
    ensures Split(x + [c] + y, c) == [x] + Split(y, c)
    decreases |x|
  {
    if x == [] {
      assert x + [c] + y == [c] + y;
    } else {
      var s := x + [c] + y;
      assert s[0] == x[0] && s[1..] == x[1..] + [c] + y;
      SplitAtFirstSeparator(x[1..], c, y);
      assert Split(s[1..], c) == [x[1..]] + Split(y, c);
      assert [x[0]] + x[1..] == x;
    }
  }

  /** Joining parts that do not contain the one-character separator and
      splitting the result at that character gives the parts back. */
  lemma {:induction false} SplitJoin(parts: seq<string>, c: char)
    requires |parts| > 0
    requires forall k :: 0 <= k < |parts| ==> c !in parts[k]
    ensures Split(Join([c], parts), c) == parts
    decreases |parts|
  {
    if |parts| == 1 {
      SplitNoSeparator(parts[0], c);
    } else {
      SplitJoin(parts[1..], c);
      SplitAtFirstSeparator(parts[0], c, Join([c], parts[1..]));
    }
  }
}
