/** The string operations of JavaScript that the bot uses: substring search
    (`indexOf`), `String.prototype.split` with a string separator and
    `Array.prototype.join`. */
module Text {
  import opened Js

  /** `pat` occurs in `s` starting at index `i`. */
  predicate MatchAt(s: string, pat: string, i: int) {
    0 <= i && i + |pat| <= |s| && s[i..i + |pat|] == pat
  }

  /** `pat` occurs somewhere in `s`. */
  predicate Contains(s: string, pat: string) {
    exists i :: 0 <= i <= |s| - |pat| && MatchAt(s, pat, i)
  }

  /** The first index at or after `from` where `pat` occurs in `s`, or `|s|`
      when there is none (JavaScript's `s.indexOf(pat, from)`, with -1 read as `|s|`). */
  function FirstMatch(s: string, pat: string, from: nat): (k: nat)
    requires |pat| > 0 && from <= |s|
    ensures from <= k <= |s|
    ensures k < |s| <==> MatchAt(s, pat, k)
    ensures forall j :: from <= j < k ==> !MatchAt(s, pat, j)
    decreases |s| - from
  {
    if from + |pat| > |s| then |s|
    else if MatchAt(s, pat, from) then from
    else FirstMatch(s, pat, from + 1)
  }

  /** The last index of character `c` in `s` (JavaScript's `lastIndexOf`). */
  function LastIndexOf(s: string, c: char): (r: Option<nat>)
    ensures r.Some? ==> r.value < |s| && s[r.value] == c
    ensures r.Some? ==> forall i :: r.value < i < |s| ==> s[i] != c
    ensures r.None? <==> c !in s
  {
    if |s| == 0 then None
    else if s[|s| - 1] == c then Some(|s| - 1)
    else
      var r := LastIndexOf(s[..|s| - 1], c);
      assert s == s[..|s| - 1] + [s[|s| - 1]];
      r
  }

  /** The last `c` of `a + [c] + b`, when `b` has none, is the one after `a`. */
  lemma LastIndexAfter(a: string, c: char, b: string)
    requires c !in b
    ensures LastIndexOf(a + [c] + b, c) == Some(|a|)
  {
    var s := a + [c] + b;
    assert s[|a|] == c;
    forall i | |a| < i < |s|
      ensures s[i] != c
    {
      assert s[i] == b[i - |a| - 1];
    }
    var r := LastIndexOf(s, c);
    assert r.value >= |a|;
    assert r.value <= |a|;
  }

  /** `parts.join(sep)`: "" for no parts; otherwise it starts with the first
      part. */
  function Join(parts: seq<string>, sep: string): (s: string)
    ensures |parts| == 0 ==> s == ""
    ensures |parts| > 0 ==> parts[0] <= s
  {
    if |parts| == 0 then ""
    else if |parts| == 1 then parts[0]
    else
      parts[0] + sep + Join(parts[1..], sep)
  }
  /** `s.split(sep)` for a non-empty separator: the pieces between the
      successive occurrences of `sep`, scanning from the left. */
  function Split(s: string, sep: string): (parts: seq<string>)
    requires |sep| > 0
    ensures |parts| >= 1
    ensures forall i :: 0 <= i < |parts| ==> !Contains(parts[i], sep)
    decreases |s|
  {
    var k := FirstMatch(s, sep, 0);
    PrefixHasNoMatch(s, sep, k);
    if k == |s| then [s] else [s[..k]] + Split(s[k + |sep|..], sep)
  }

  /** No occurrence of `pat` starts before `k`, so the prefix `s[..k]` holds none. */
  lemma PrefixHasNoMatch(s: string, pat: string, k: nat)
    requires |pat| > 0 && k <= |s|
    requires forall j :: 0 <= j < k ==> !MatchAt(s, pat, j)
    ensures !Contains(s[..k], pat)
  {
    forall j | MatchAt(s[..k], pat, j)
      ensures MatchAt(s, pat, j) && j < k
    {
      assert s[..k][j..j + |pat|] == s[j..j + |pat|];
    }
  }

  /** A string that lacks the first character of `pat` does not contain `pat`. */
  lemma NoMatchWithoutFirstChar(s: string, pat: string)
    requires |pat| > 0 && pat[0] !in s
    ensures !Contains(s, pat)
  {
    forall i | 0 <= i && i + |pat| <= |s|
      ensures !MatchAt(s, pat, i)
    {
      assert s[i..i + |pat|][0] == s[i];
    }
  }

  /** When no character of `p` from index `from` on is the first character
      of `pat`, no occurrence of `pat` starts there. */
  lemma NoMatchFrom(p: string, pat: string, from: nat)
    requires |pat| > 0
    requires forall j :: from <= j < |p| ==> p[j] != pat[0]
    ensures forall j :: from <= j ==> !MatchAt(p, pat, j)
  {
    forall j | from <= j && j + |pat| <= |p|
      ensures !MatchAt(p, pat, j)
    {
      assert p[j..j + |pat|][0] == p[j];
    }
  }

  /** When the first character of `pat` does not recur in `pat`, two
      occurrences cannot overlap: in `p + pat + t`, where `p` has no
      occurrence at or after `from`, the first one at or after `from` is
      the one right after `p`. */
  lemma FirstMatchAfter(p: string, pat: string, t: string, from: nat)
    requires |pat| > 0 && pat[0] !in pat[1..]
    requires from <= |p|
    requires forall j :: from <= j ==> !MatchAt(p, pat, j)
    ensures FirstMatch(p + pat + t, pat, from) == |p|
  {
    var s := p + pat + t;
    assert s[|p|..|p| + |pat|] == pat;
    assert MatchAt(s, pat, |p|);
    forall j | from <= j < |p|
      ensures !MatchAt(s, pat, j)
    {
      if j + |pat| <= |p| {
        assert s[j..j + |pat|] == p[j..j + |pat|];
        assert !MatchAt(p, pat, j);
      } else if j + |pat| <= |s| {
        var d := |p| - j;
        assert 0 < d < |pat|;
        assert s[|p|] == pat[0];
        assert s[j..j + |pat|][d] == s[|p|];
        assert pat[1..][d - 1] in pat[1..];
        assert pat[d] != pat[0];
      }
    }
  }

  /** Splitting and joining back gives the original string. */
  lemma {:induction false} JoinSplit(s: string, sep: string)
    requires |sep| > 0
    ensures Join(Split(s, sep), sep) == s
    decreases |s|
  {
    var k := FirstMatch(s, sep, 0);
    if k < |s| {
      var rest := s[k + |sep|..];
      var parts := Split(rest, sep);
      JoinSplit(rest, sep);
      assert Split(s, sep) == [s[..k]] + parts;
      JoinCons(s[..k], parts, sep);
      SplitAround(s, sep, k);
    }
  }

  /** An occurrence of `sep` at `k` cuts `s` into three pieces. */
  lemma SplitAround(s: string, sep: string, k: nat)
    requires MatchAt(s, sep, k)
    ensures s == s[..k] + sep + s[k + |sep|..]
  {
    assert s == s[..k] + s[k..k + |sep|] + s[k + |sep|..];
  }

  /** Joining `[head] + parts` puts the separator after `head`. */
  lemma JoinCons(head: string, parts: seq<string>, sep: string)
    requires |parts| >= 1
    ensures Join([head] + parts, sep) == head + sep + Join(parts, sep)
  {
    assert ([head] + parts)[1..] == parts;
  }

  /** Joining lines that do not contain a one-character separator and
      splitting the result again gives back exactly those lines. */
  lemma {:induction false} SplitJoin(lines: seq<string>, sep: string)
    requires |sep| == 1 && |lines| > 0
    requires forall i :: 0 <= i < |lines| ==> !Contains(lines[i], sep)
    ensures Split(Join(lines, sep), sep) == lines
    decreases |lines|
  {
    var head := lines[0];
    if |lines| == 1 {
      var k := FirstMatch(head, sep, 0);
      assert k < |head| ==> MatchAt(head, sep, k);
    } else {
      var rest := lines[1..];
      assert Join(lines, sep) == head + sep + Join(rest, sep);
      SplitAfterFirst(head, sep, Join(rest, sep));
      SplitJoin(rest, sep);
      assert lines == [head] + rest;
    }
  }

  /** Splitting `head + sep + tail`, where `head` holds no one-character
      separator, cuts off exactly `head`. */
  lemma SplitAfterFirst(head: string, sep: string, tail: string)
    requires |sep| == 1 && !Contains(head, sep)
    ensures Split(head + sep + tail, sep) == [head] + Split(tail, sep)
  {
    var s := head + sep + tail;
    FirstMatchAfter(head, sep, tail, 0);
    assert s[..|head|] == head;
    assert s[|head| + |sep|..] == tail;
  }

  /** For a one-character pattern, containment is membership of the character. */
  lemma ContainsChar(s: string, c: char)
    ensures Contains(s, [c]) <==> c in s
  {
    if c in s {
      var i :| 0 <= i < |s| && s[i] == c;
      assert s[i..i + 1] == [c];
      assert MatchAt(s, [c], i);
    }
    if Contains(s, [c]) {
      var i :| 0 <= i <= |s| - 1 && MatchAt(s, [c], i);
      assert s[i..i + 1][0] == s[i];
    }
  }
}
