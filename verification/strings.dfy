/**
 The string operations the commit viewer relies on, written with Python's
 semantics: slicing that clamps at the ends, `str.split` on a character or on
 a substring, `str.replace`, and substring search.
 */
module Strings {
  import opened Wrappers

  /** Python's `s[0:n]` for a non-negative `n`: the first min(n, |s|) characters. */
  function Take(s: string, n: nat): (r: string)
    ensures |r| == (if n < |s| then n else |s|)
    ensures r <= s
  {
    if n < |s| then s[..n] else s
  }

  /** Python's `s[1:]`: everything but the first character, empty for empty `s`. */
  function DropFirst(s: string): (r: string)
    ensures |s| > 0 ==> [s[0]] + r == s
    ensures |s| == 0 ==> r == ""
  {
    if |s| == 0 then "" else s[1..]
  }

  /** Python's `s[:-1]`: everything but the last character, empty for empty `s`. */
  function DropLast(s: string): (r: string)
    ensures |s| > 0 ==> r + [s[|s| - 1]] == s
    ensures |s| == 0 ==> r == ""
  {
    if |s| == 0 then "" else s[..|s| - 1]
  }

  /** Python's `s.replace(from, to)` for one-character arguments. */
  function ReplaceChar(s: string, from: char, to: char): (r: string)
    ensures |r| == |s|
    ensures forall i :: 0 <= i < |s| ==> r[i] == (if s[i] == from then to else s[i])
    ensures from != to ==> from !in r
  {
    if |s| == 0 then ""
    else [if s[0] == from then to else s[0]] + ReplaceChar(s[1..], from, to)
  }

  /** Joins one or more parts with `sep` between neighbours: Python's `sep.join(parts)`. */
  function Join(parts: seq<string>, sep: char): string
    requires |parts| >= 1
  {
    if |parts| == 1 then parts[0] else parts[0] + [sep] + Join(parts[1..], sep)
  }

  /**
   Python's `s.split(sep)` for a one-character separator: the maximal runs
   between separators, including empty ones, so there is always one more part
   than there are separators.
   */
  function Split(s: string, sep: char): (parts: seq<string>)
    ensures |parts| >= 1
    ensures forall i :: 0 <= i < |parts| ==> sep !in parts[i]
    ensures Join(parts, sep) == s
  {
    if |s| == 0 then [""]
    else
      var rest := Split(s[1..], sep);
      assert s == [s[0]] + s[1..];
      if s[0] == sep then
        JoinAfterEmpty(rest, sep);
        [""] + rest
      else
        JoinExtendFirst(s[0], rest, sep);
        [[s[0]] + rest[0]] + rest[1..]
  }

  /** Joining behind an empty first part puts one separator in front. */
  lemma JoinAfterEmpty(rest: seq<string>, sep: char)
    requires |rest| >= 1
    ensures Join([""] + rest, sep) == [sep] + Join(rest, sep)
  {
    assert ([""] + rest)[1..] == rest;
  }

  /** Extending the first part by one character extends the join by that character. */
  lemma JoinExtendFirst(c: char, rest: seq<string>, sep: char)
    requires |rest| >= 1
    ensures Join([[c] + rest[0]] + rest[1..], sep) == [c] + Join(rest, sep)
  {
    var parts := [[c] + rest[0]] + rest[1..];
    if |rest| > 1 {
      assert parts[1..] == rest[1..];
    }
  }

  /** There is exactly one more part than there are separators in the string. */
  lemma {:induction false} SplitPartCount(s: string, sep: char)
    ensures |Split(s, sep)| == multiset(s)[sep] + 1
  {
    if |s| > 0 {
      SplitPartCount(s[1..], sep);
      assert s == [s[0]] + s[1..];
      SplitStep(s[0], s[1..], sep);
    }
  }

  /** Splitting a join of separator-free parts gives the parts back. */
  lemma {:induction false} SplitJoin(parts: seq<string>, sep: char)
    requires |parts| >= 1
    requires forall i :: 0 <= i < |parts| ==> sep !in parts[i]
    ensures Split(Join(parts, sep), sep) == parts
  {
    if |parts| == 1 {
      SplitWithoutSeparator(parts[0], sep);
    } else {
      SplitJoin(parts[1..], sep);
      SplitAfterPart(parts[0], Join(parts[1..], sep), sep);
      assert parts == [parts[0]] + parts[1..];
    }
  }

  /** A string without the separator splits into itself alone. */
  lemma SplitWithoutSeparator(s: string, sep: char)
    requires sep !in s
    ensures Split(s, sep) == [s]
  {
    var parts := Split(s, sep);
    SplitPartCount(s, sep);
    assert multiset(s)[sep] == 0;
    assert |parts| == 1;
  }

  /** A separator-free first part followed by the separator becomes the first piece of the split. */
  lemma {:induction false} SplitAfterPart(first: string, rest: string, sep: char)
    requires sep !in first
    ensures Split(first + [sep] + rest, sep) == [first] + Split(rest, sep)
    decreases |first|
  {
    if |first| == 0 {
      assert first + [sep] + rest == [sep] + rest;
      SplitStep(sep, rest, sep);
    } else {
      var c := first[0];
      var s' := first[1..] + [sep] + rest;
      var s := first + [sep] + rest;
      assert s == [c] + s';
      SplitAfterPart(first[1..], rest, sep);
      var x := Split(s', sep);
      SplitStep(c, s', sep);
      assert first == [c] + x[0];
      assert x[1..] == Split(rest, sep);
    }
  }

  /** One step of the split: a leading separator opens an empty part, any other character joins the first part. */
  lemma SplitStep(c: char, s: string, sep: char)
    ensures c == sep ==> Split([c] + s, sep) == [""] + Split(s, sep)
    ensures c != sep ==> Split([c] + s, sep) == [[c] + Split(s, sep)[0]] + Split(s, sep)[1..]
  {
    assert ([c] + s)[1..] == s;
  }

  /** A string holding the separator splits into at least two parts. */
  lemma SplitOfSeparated(s: string, sep: char)
    requires sep in s
    ensures |Split(s, sep)| >= 2
  {
    var parts := Split(s, sep);
    if |parts| == 1 {
      assert false;
    }
  }

  /** Python's `s.split(c)[0]`: the text before the first `c`, or all of `s` when there is none. */
  function BeforeFirst(s: string, c: char): (r: string)
    ensures r <= s
    ensures c !in r
    ensures |r| < |s| ==> s[|r|] == c
    ensures c !in s ==> r == s
  {
    var parts := Split(s, c);
    assert |parts| > 1 ==> s == parts[0] + [c] + Join(parts[1..], c);
    parts[0]
  }

  /** Whatever follows the first `c`, the text before it is the leading `c`-free part. */
  lemma BeforeFirstOf(head: string, c: char, tail: string)
    requires c !in head
    ensures BeforeFirst(head + [c] + tail, c) == head
  {
    var s := head + [c] + tail;
    var r := BeforeFirst(s, c);
    assert s[..|head|] == head;
    assert s[|head|] == c;
  }

  /** True when `pat` occurs in `s` starting at index `j`. */
  predicate OccursAt(s: string, pat: string, j: nat) {
    j + |pat| <= |s| && s[j..j + |pat|] == pat
  }

  /** The index of the first occurrence of the non-empty `pat` in `s` (Python's `s.find(pat)`). */
  function Find(s: string, pat: string): (r: Option<nat>)
    requires |pat| > 0
    ensures r.Some? ==> OccursAt(s, pat, r.value)
    ensures r.Some? ==> forall j: nat :: j < r.value ==> !OccursAt(s, pat, j)
    ensures r.None? ==> forall j: nat :: !OccursAt(s, pat, j)
    decreases |s|
  {
    if |s| < |pat| then None
    else if s[..|pat|] == pat then Some(0)
    else
      var tail := Find(s[1..], pat);
      ShiftOccurrence(s, pat);
      match tail
      case None => None
      case Some(i) => Some(i + 1)
  }

  /** Occurrences in `s[1..]` are exactly the occurrences in `s` shifted left by one. */
  lemma ShiftOccurrence(s: string, pat: string)
    requires |s| > 0
    ensures forall j: nat :: OccursAt(s[1..], pat, j) ==> OccursAt(s, pat, j + 1)
    ensures forall j: nat :: j > 0 && OccursAt(s, pat, j) ==> OccursAt(s[1..], pat, j - 1)
  {
    forall j: nat | OccursAt(s[1..], pat, j)
      ensures OccursAt(s, pat, j + 1)
    {
      assert s[1..][j..j + |pat|] == s[j + 1..j + 1 + |pat|];
    }
    forall j: nat | j > 0 && OccursAt(s, pat, j)
      ensures OccursAt(s[1..], pat, j - 1)
    {
      assert s[1..][j - 1..j - 1 + |pat|] == s[j..j + |pat|];
    }
  }

  /** Python's `pat in s`. */
  predicate Contains(s: string, pat: string)
    requires |pat| > 0
  {
    Find(s, pat).Some?
  }

  /** A string that has `pat` written somewhere inside it contains `pat`. */
  lemma ContainsInfix(head: string, pat: string, tail: string)
    requires |pat| > 0
    ensures Contains(head + pat + tail, pat)
  {
    var s := head + pat + tail;
    assert s[|head|..|head| + |pat|] == pat;
    assert OccursAt(s, pat, |head|);
  }

  /** Python's `s.split(pat)` for a non-empty separator string, scanning left to right. */
  function SplitOn(s: string, pat: string): (parts: seq<string>)
    requires |pat| > 0
    ensures |parts| >= 1
    ensures Find(s, pat).None? ==> parts == [s]
    ensures Find(s, pat).Some? ==> |parts| >= 2 && parts[0] == s[..Find(s, pat).value]
    decreases |s|
  {
    match Find(s, pat)
    case None => [s]
    case Some(i) => [s[..i]] + SplitOn(s[i + |pat|..], pat)
  }
}
