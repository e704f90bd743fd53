/** The JavaScript string operations the client and the proxies rely on:
    `startsWith`, `includes`, `indexOf`, `split` with a non-empty separator,
    `split(...).pop()`, and the decimal rendering of a status code. */
module Text {
  import opened Wrappers

  /** `s.startsWith(p)` */
  predicate StartsWith(s: string, p: string) {
    |p| <= |s| && s[..|p|] == p
  }

  /** `pat` occurs in `s` at index `i`. */
  predicate OccursAt(s: string, pat: string, i: int) {
    0 <= i && i + |pat| <= |s| && s[i..i + |pat|] == pat
  }

  /** `s.includes(pat)` */
  predicate Contains(s: string, pat: string) {
    exists i | 0 <= i <= |s| :: OccursAt(s, pat, i)
  }

  /** `s.indexOf(pat, from)`, with "not found" as `None`. */
  function IndexFrom(s: string, pat: string, from: nat): (r: Option<nat>)
    requires from <= |s|
    ensures r.Some? ==> from <= r.value && OccursAt(s, pat, r.value)
    ensures forall j :: from <= j && (r.None? || j < r.value) ==> !OccursAt(s, pat, j)
    decreases |s| - from
  {
    if OccursAt(s, pat, from) then Some(from)
    else if from == |s| then None
    else IndexFrom(s, pat, from + 1)
  }

  /** `s.indexOf(pat)`: the first occurrence. */
  function IndexOf(s: string, pat: string): (r: Option<nat>)
    ensures r.Some? <==> Contains(s, pat)
    ensures r.Some? ==> OccursAt(s, pat, r.value)
    ensures forall j :: 0 <= j && (r.None? || j < r.value) ==> !OccursAt(s, pat, j)
  {
    IndexFrom(s, pat, 0)
  }

  /** A prefix that ends before the first occurrence does not contain the pattern. */
  lemma NoOccurrenceBefore(s: string, pat: string, i: nat)
    requires |pat| > 0 && i <= |s|
    requires forall j :: 0 <= j < i ==> !OccursAt(s, pat, j)
    ensures !Contains(s[..i], pat)
  {
    forall j | 0 <= j
      ensures !OccursAt(s[..i], pat, j)
    {
      if j + |pat| <= i {
        assert s[..i][j..j + |pat|] == s[j..j + |pat|];
        assert !OccursAt(s, pat, j);
      }
    }
  }

  /** `s.split(sep)` for a non-empty separator: the pieces between successive
      non-overlapping occurrences, scanning from the left. */
  function Split(s: string, sep: string): (parts: seq<string>)
    requires |sep| > 0
    ensures |parts| >= 1
    ensures forall i :: 0 <= i < |parts| ==> !Contains(parts[i], sep)
    decreases |s|
  {
    match IndexOf(s, sep)
    case None => [s]
    case Some(i) =>
      NoOccurrenceBefore(s, sep, i);
      [s[..i]] + Split(s[i + |sep|..], sep)
  }

  /** `parts.join(sep)` */
  function Join(parts: seq<string>, sep: string): string
    requires |parts| >= 1
  {
    if |parts| == 1 then parts[0] else parts[0] + sep + Join(parts[1..], sep)
  }

  /** Splitting loses nothing: joining the pieces rebuilds the string. */
  lemma {:induction false} JoinSplit(s: string, sep: string)
    requires |sep| > 0
    ensures Join(Split(s, sep), sep) == s
    decreases |s|
  {
    match IndexOf(s, sep)
    case None =>
    case Some(i) =>
      var rest := s[i + |sep|..];
      var parts := Split(s, sep);
      assert parts == [s[..i]] + Split(rest, sep);
      assert parts[1..] == Split(rest, sep);
      JoinSplit(rest, sep);
      assert Join(parts, sep) == s[..i] + sep + rest;
      assert s == s[..i] + s[i..i + |sep|] + rest;
  }

  /** `s` ends with `sep` followed by `tail`. */
  predicate EndsWithSeparatorThen(s: string, sep: string, tail: string) {
    |tail| + |sep| <= |s| && s[|s| - |tail| - |sep|..] == sep + tail
  }

  /** What follows an occurrence at `i`, or any tail that what follows
      ends with after a separator, is a tail `s` ends with after a separator. */
  lemma SuffixAfterOccurrence(s: string, sep: string, i: nat, tail: string)
    requires OccursAt(s, sep, i)
    requires tail == s[i + |sep|..] || EndsWithSeparatorThen(s[i + |sep|..], sep, tail)
    ensures EndsWithSeparatorThen(s, sep, tail)
  {
    var rest := s[i + |sep|..];
    if tail == rest {
      assert s[i..] == s[i..i + |sep|] + rest;
    } else {
      assert s[|s| - |tail| - |sep|..] == rest[|rest| - |tail| - |sep|..];
    }
  }

  /** `split` gives a single piece exactly when the separator does not occur. */
  lemma SplitSingleIff(s: string, sep: string)
    requires |sep| > 0
    ensures |Split(s, sep)| == 1 <==> !Contains(s, sep)
  {
    match IndexOf(s, sep)
    case None =>
      assert Split(s, sep) == [s];
    case Some(i) =>
      assert |Split(s, sep)| == 1 + |Split(s[i + |sep|..], sep)|;
  }

  /** With more than one piece, the last one directly follows a separator at the end of `s`. */
  lemma {:induction false} LastPieceFollowsSeparator(s: string, sep: string)
    requires |sep| > 0
    ensures |Split(s, sep)| > 1 ==> EndsWithSeparatorThen(s, sep, Split(s, sep)[|Split(s, sep)| - 1])
    decreases |s|
  {
    match IndexOf(s, sep)
    case None =>
    case Some(i) =>
      var rest := s[i + |sep|..];
      var rs := Split(rest, sep);
      assert Split(s, sep) == [s[..i]] + rs;
      var tail := rs[|rs| - 1];
      if |rs| == 1 {
        SplitSingleIff(rest, sep);
        SplitWithoutSeparator(rest, sep);
        SuffixAfterOccurrence(s, sep, i, tail);
      } else {
        LastPieceFollowsSeparator(rest, sep);
        SuffixAfterOccurrence(s, sep, i, tail);
      }
  }

  /** When the separator occurs in `s`, the last piece is what follows its last occurrence. */
  lemma SplitLastIsSuffix(s: string, sep: string)
    requires |sep| > 0
    ensures |Split(s, sep)| == 1 <==> !Contains(s, sep)
    ensures var parts := Split(s, sep);
            var tail := parts[|parts| - 1];
            |parts| > 1 ==> |tail| + |sep| <= |s| && s[|s| - |tail| - |sep|..] == sep + tail
  {
    SplitSingleIff(s, sep);
    LastPieceFollowsSeparator(s, sep);
  }

  /** A string without the separator is a single piece. */
  lemma SplitWithoutSeparator(s: string, sep: string)
    requires |sep| > 0 && !Contains(s, sep)
    ensures Split(s, sep) == [s]
  {
    assert IndexOf(s, sep).None?;
  }

  /** `s.split(sep).pop()`: the text after the last separator, or all of `s`. */
  function AfterLast(s: string, sep: string): (tail: string)
    requires |sep| > 0
    ensures !Contains(tail, sep)
    ensures !Contains(s, sep) ==> tail == s
    ensures Contains(s, sep) ==> |tail| + |sep| <= |s| && s[|s| - |tail| - |sep|..] == sep + tail
  {
    var parts := Split(s, sep);
    SplitLastIsSuffix(s, sep);
    parts[|parts| - 1]
  }

  /** `parts[i]`, which is `undefined` past the end. */
  function Nth(parts: seq<string>, i: nat): Option<string> {
    if i < |parts| then Some(parts[i]) else None
  }

  /** If `sep` starts with a character that does not recur inside it and `a`
      does not contain it, the first occurrence in `a + sep + b` is the
      displayed one, so `split` cuts exactly there. */
  lemma SplitAfterPrefix(a: string, sep: string, b: string)
    requires |sep| > 0
    requires forall k :: 0 < k < |sep| ==> sep[k] != sep[0]
    requires !Contains(a, sep)
    ensures Split(a + sep + b, sep) == [a] + Split(b, sep)
  {
    var s := a + sep + b;
    assert s[|a|..|a| + |sep|] == sep;
    assert OccursAt(s, sep, |a|);
    forall j | 0 <= j < |a|
      ensures !OccursAt(s, sep, j)
    {
      if j + |sep| <= |a| {
        assert s[j..j + |sep|] == a[j..j + |sep|];
        assert !OccursAt(a, sep, j);
      } else if j + |sep| <= |s| {
        var k := |a| - j;
        assert s[j..j + |sep|][k] == s[|a|] == sep[0];
        assert sep[k] != sep[0];
      }
    }
    assert IndexOf(s, sep) == Some(|a|);
    assert s[..|a|] == a;
    assert s[|a| + |sep|..] == b;
  }

  /** A string ending in its only separator has nothing after it. */
  lemma AfterLastOfTrailing(a: string, sep: string)
    requires |sep| > 0
    requires forall k :: 0 < k < |sep| ==> sep[k] != sep[0]
    requires !Contains(a, sep)
    ensures AfterLast(a + sep, sep) == ""
  {
    SplitAfterPrefix(a, sep, "");
    SplitWithoutLead("", sep);
    assert a + sep + "" == a + sep;
  }

  /** A string in which the separator's first character never appears does not contain it. */
  lemma NoLeadNoOccurrence(s: string, sep: string)
    requires |sep| > 0
    requires forall i :: 0 <= i < |s| ==> s[i] != sep[0]
    ensures !Contains(s, sep)
  {
    forall i | 0 <= i <= |s|
      ensures !OccursAt(s, sep, i)
    {
      if i + |sep| <= |s| {
        assert s[i..i + |sep|][0] == s[i];
      }
    }
  }

  /** Prefixing text free of the separator's first character cannot create an occurrence. */
  lemma PrefixWithoutLead(x: string, y: string, sep: string)
    requires |sep| > 0
    requires forall i :: 0 <= i < |x| ==> x[i] != sep[0]
    requires !Contains(y, sep)
    ensures !Contains(x + y, sep)
  {
    var s := x + y;
    forall i | 0 <= i <= |s|
      ensures !OccursAt(s, sep, i)
    {
      if i + |sep| <= |s| {
        if i < |x| {
          assert s[i..i + |sep|][0] == x[i];
        } else {
          assert s[i..i + |sep|] == y[i - |x|..i - |x| + |sep|];
          assert !OccursAt(y, sep, i - |x|);
        }
      }
    }
  }

  /** A string in which the separator's first character never appears is one piece. */
  lemma SplitWithoutLead(s: string, sep: string)
    requires |sep| > 0
    requires forall i :: 0 <= i < |s| ==> s[i] != sep[0]
    ensures Split(s, sep) == [s]
  {
    NoLeadNoOccurrence(s, sep);
    assert IndexOf(s, sep) == None;
  }

  function DigitChar(d: nat): char
    requires d < 10
  {
    ('0' as int + d) as char
  }

  predicate IsDigits(s: string) {
    forall i :: 0 <= i < |s| ==> '0' <= s[i] <= '9'
  }

  /** `String(n)` for a non-negative integer. */
  function DecimalString(n: nat): (r: string)
    ensures |r| >= 1 && IsDigits(r)
    decreases n
  {
    if n < 10 then [DigitChar(n)] else DecimalString(n / 10) + [DigitChar(n % 10)]
  }

  /** The number a string of decimal digits denotes. */
  function DigitsValue(s: string): nat
    requires IsDigits(s)
  {
    if |s| == 0 then 0 else DigitsValue(s[..|s| - 1]) * 10 + (s[|s| - 1] as int - '0' as int)
  }

  /** The rendering of a status code reads back as that code. */
  lemma {:induction false} DecimalStringRoundTrip(n: nat)
    ensures DigitsValue(DecimalString(n)) == n
    decreases n
  {
    if n >= 10 {
      DecimalStringRoundTrip(n / 10);
      var r := DecimalString(n);
      assert r[..|r| - 1] == DecimalString(n / 10);
    }
  }
}
