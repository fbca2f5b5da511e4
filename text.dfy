/** The handful of Python `str` operations the caption code relies on:
    `p in s`, `startswith`, `endswith`, `split`, `join`, `strip` and
    `isdigit`, over strings as sequences of characters. */
module Text {
  import opened Results

  /** `p` occurs in `s` starting at index `k`. */
  predicate OccursAt(s: string, p: string, k: nat)
  {
    k + |p| <= |s| && s[k..k + |p|] == p
  }

  lemma OccursAtTail(s: string, p: string, j: nat)
    requires |s| > 0
    ensures OccursAt(s[1..], p, j) <==> OccursAt(s, p, j + 1)
  {
    if j + |p| <= |s[1..]| {
      assert s[1..][j..j + |p|] == s[j + 1..j + 1 + |p|];
    }
  }

  /** Python's `s.find(p)`: the index of the first occurrence of `p`, if any. */
  function Find(s: string, p: string): (r: Option<nat>)
    ensures r.Some? ==> OccursAt(s, p, r.value)
    ensures r.Some? ==> forall j :: 0 <= j < r.value ==> !OccursAt(s, p, j)
    ensures r.None? ==> forall j :: 0 <= j <= |s| ==> !OccursAt(s, p, j)
    decreases |s|
  {
    if OccursAt(s, p, 0) then Some(0)
    else if |s| == 0 then None
    else
      var rest := Find(s[1..], p);
      forall j | 1 <= j <= |s|
        ensures OccursAt(s[1..], p, j - 1) <==> OccursAt(s, p, j)
      {
        OccursAtTail(s, p, j - 1);
      }
      match rest
      case Some(k) => Some(k + 1)
      case None => None
  }

  /** Python's `p in s`. */
  predicate Contains(s: string, p: string)
  {
    Find(s, p).Some?
  }

  /** An occurrence that no earlier one precedes is the one `Find` reports. */
  lemma FindFirst(s: string, p: string, k: nat)
    requires OccursAt(s, p, k)
    requires forall j :: 0 <= j < k ==> !OccursAt(s, p, j)
    ensures Find(s, p) == Some(k)
  {
  }

  lemma ContainsAt(s: string, p: string, k: nat)
    requires OccursAt(s, p, k)
    ensures Contains(s, p)
  {
  }

  /** Python's `s.startswith(p)`. */
  predicate StartsWith(s: string, p: string)
  {
    |p| <= |s| && s[..|p|] == p
  }

  /** Python's `s.endswith(p)`. */
  predicate EndsWith(s: string, p: string)
  {
    |p| <= |s| && s[|s| - |p|..] == p
  }

  function Last<T>(xs: seq<T>): T
    requires |xs| > 0
  {
    xs[|xs| - 1]
  }

  /** Python's `sep.join(parts)`. */
  function Join(parts: seq<string>, sep: string): string
    decreases |parts|
  {
    if |parts| == 0 then ""
    else if |parts| == 1 then parts[0]
    else parts[0] + sep + Join(parts[1..], sep)
  }

  /** Python's `s.split(sep)` for a non-empty separator: the pieces between
      the non-overlapping occurrences of `sep`, scanned from the left. */
  function Split(s: string, sep: string): (r: seq<string>)
    requires sep != ""
    ensures |r| >= 1
    decreases |s|
  {
    var f := Find(s, sep);
    if f.None? then [s]
    else [s[..f.value]] + Split(s[f.value + |sep|..], sep)
  }

  /** Joining the pieces of a split with the same separator gives back the
      string. */
  lemma {:induction false} JoinSplit(s: string, sep: string)
    requires sep != ""
    ensures Join(Split(s, sep), sep) == s
    decreases |s|
  {
    match Find(s, sep)
    case None =>
    case Some(k) =>
      var rest := s[k + |sep|..];
      assert Split(s, sep) == [s[..k]] + Split(rest, sep);
      AroundOccurrence(s, sep, k);
      JoinSplit(rest, sep);
      JoinCons(s[..k], Split(rest, sep), sep);
  }

  /** A string is what precedes an occurrence, the occurrence, and what
      follows it. */
  lemma AroundOccurrence(s: string, p: string, k: nat)
    requires OccursAt(s, p, k)
    ensures s == s[..k] + p + s[k + |p|..]
  {
    assert s == s[..k] + s[k..k + |p|] + s[k + |p|..];
  }

  lemma JoinCons(a: string, xs: seq<string>, sep: string)
    requires |xs| >= 1
    ensures Join([a] + xs, sep) == a + sep + Join(xs, sep)
  {
    assert ([a] + xs)[1..] == xs;
  }

  /** No piece of a split holds the separator. */
  lemma {:induction false} SplitPiecesLackSeparator(s: string, sep: string)
    requires sep != ""
    ensures forall i :: 0 <= i < |Split(s, sep)| ==> !Contains(Split(s, sep)[i], sep)
    decreases |s|
  {
    match Find(s, sep)
    case None =>
    case Some(k) =>
      var rest := s[k + |sep|..];
      SplitPiecesLackSeparator(rest, sep);
      NoEarlierOccurrence(s, sep, k);
      assert Split(s, sep) == [s[..k]] + Split(rest, sep);
  }

  lemma NoEarlierOccurrence(s: string, p: string, k: nat)
    requires k <= |s|
    requires forall j :: 0 <= j < k ==> !OccursAt(s, p, j)
    requires p != ""
    ensures !Contains(s[..k], p)
  {
    forall j | 0 <= j <= k
      ensures !OccursAt(s[..k], p, j)
    {
      if OccursAt(s[..k], p, j) {
        assert s[..k][j..j + |p|] == s[j..j + |p|];
        assert OccursAt(s, p, j);
      }
    }
  }

  /** A string that lacks the first character of `p` cannot contain `p`. */
  lemma AbsentHeadNotContained(s: string, p: string)
    requires p != "" && p[0] !in s
    ensures !Contains(s, p)
  {
  }

  /** For a one-character pattern, Python's substring test is membership. */
  lemma ContainsChar(s: string, c: char)
    ensures Contains(s, [c]) <==> c in s
  {
    if c in s {
      var k :| 0 <= k < |s| && s[k] == c;
      assert s[k..k + 1] == [c];
      ContainsAt(s, [c], k);
    } else {
      AbsentHeadNotContained(s, [c]);
    }
  }

  /** Splitting on a one-character separator undoes joining on it, provided
      no piece contains the separator. */
  lemma {:induction false} SplitJoin(parts: seq<string>, c: char)
    requires |parts| >= 1
    requires forall i :: 0 <= i < |parts| ==> c !in parts[i]
    ensures Split(Join(parts, [c]), [c]) == parts
    decreases |parts|
  {
    var p0 := parts[0];
    ContainsChar(p0, c);
    if |parts| == 1 {
      assert Join(parts, [c]) == p0;
    } else {
      var rest := Join(parts[1..], [c]);
      var s := p0 + [c] + rest;
      assert Join(parts, [c]) == s;
      assert s[|p0|..|p0| + 1] == [c];
      forall j | 0 <= j < |p0|
        ensures !OccursAt(s, [c], j)
      {
        assert s[j] == p0[j];
        assert p0[j] != c;
      }
      FindFirst(s, [c], |p0|);
      assert s[..|p0|] == p0;
      assert s[|p0| + 1..] == rest;
      SplitJoin(parts[1..], c);
      assert parts == [p0] + parts[1..];
    }
  }

  /** A join of non-empty pieces is empty exactly when there are no pieces. */
  lemma JoinEmpty(parts: seq<string>, sep: string)
    requires forall i :: 0 <= i < |parts| ==> parts[i] != ""
    ensures Join(parts, sep) == "" <==> parts == []
  {
    if |parts| > 1 {
      assert |Join(parts, sep)| >= |parts[0]|;
    }
  }

  /** Python's `str.isspace()` on one character, restricted to ASCII:
      tab, line feed, vertical tab, form feed, carriage return, the four
      information separators 0x1C-0x1F and the space. */
  predicate IsSpace(c: char)
  {
    9 <= c as int <= 13 || 28 <= c as int <= 32
  }

  predicate IsDigit(c: char)
  {
    '0' <= c <= '9'
  }

  /** Python's `s.isdigit()`, restricted to ASCII digits: false on "". */
  predicate IsDigits(s: string)
  {
    |s| > 0 && forall k :: 0 <= k < |s| ==> IsDigit(s[k])
  }

  /** Python's `any(ch.isdigit() for ch in s)`. */
  predicate HasDigit(s: string)
  {
    exists k :: 0 <= k < |s| && IsDigit(s[k])
  }

  /** The index of the first non-space character at or after `i`. */
  function SkipSpaces(s: string, i: nat): nat
    requires i <= |s|
    decreases |s| - i
  {
    if i < |s| && IsSpace(s[i]) then SkipSpaces(s, i + 1) else i
  }

  /** The end of `s[i..j]` once its trailing spaces are dropped. */
  function TrimSpaces(s: string, i: nat, j: nat): nat
    requires i <= j <= |s|
    decreases j
  {
    if i < j && IsSpace(s[j - 1]) then TrimSpaces(s, i, j - 1) else j
  }

  lemma {:induction false} SkipSpacesSpec(s: string, i: nat)
    requires i <= |s|
    ensures i <= SkipSpaces(s, i) <= |s|
    ensures forall k :: i <= k < SkipSpaces(s, i) ==> IsSpace(s[k])
    ensures SkipSpaces(s, i) == |s| || !IsSpace(s[SkipSpaces(s, i)])
    decreases |s| - i
  {
    if i < |s| && IsSpace(s[i]) {
      SkipSpacesSpec(s, i + 1);
    }
  }

  lemma {:induction false} TrimSpacesSpec(s: string, i: nat, j: nat)
    requires i <= j <= |s|
    ensures i <= TrimSpaces(s, i, j) <= j
    ensures forall k :: TrimSpaces(s, i, j) <= k < j ==> IsSpace(s[k])
    ensures TrimSpaces(s, i, j) == i || !IsSpace(s[TrimSpaces(s, i, j) - 1])
    decreases j
  {
    if i < j && IsSpace(s[j - 1]) {
      TrimSpacesSpec(s, i, j - 1);
    }
  }

  /** Python's `s.strip()`: drops whitespace at both ends. */
  function Strip(s: string): string
  {
    var i := SkipSpaces(s, 0);
    SkipSpacesSpec(s, 0);
    var e := TrimSpaces(s, i, |s|);
    TrimSpacesSpec(s, i, |s|);
    s[i..e]
  }

  /** What `strip` removes: whitespace only, and all of it at both ends. */
  lemma StripSpec(s: string)
    ensures exists i, e :: 0 <= i <= e <= |s| && Strip(s) == s[i..e]
              && (forall k :: 0 <= k < i ==> IsSpace(s[k]))
              && (forall k :: e <= k < |s| ==> IsSpace(s[k]))
    ensures IsStripped(Strip(s))
  {
    var i := SkipSpaces(s, 0);
    SkipSpacesSpec(s, 0);
    var e := TrimSpaces(s, i, |s|);
    TrimSpacesSpec(s, i, |s|);
    assert Strip(s) == s[i..e];
  }

  /** A string is stripped when it has no whitespace at either end. */
  predicate IsStripped(s: string)
  {
    s == "" || (!IsSpace(s[0]) && !IsSpace(s[|s| - 1]))
  }

  /** Fragments as the caption parsers emit them: each non-empty and
      stripped. */
  ghost predicate CleanFragments(parts: seq<string>)
  {
    forall k :: 0 <= k < |parts| ==> parts[k] != "" && IsStripped(parts[k])
  }

  /** A stripped string is left alone by `strip`. */
  lemma StripOfStripped(s: string)
    requires IsStripped(s)
    ensures Strip(s) == s
  {
    SkipSpacesSpec(s, 0);
    TrimSpacesSpec(s, SkipSpaces(s, 0), |s|);
  }

  /** `strip` yields a stripped string, and stripping is idempotent. */
  lemma StripStripped(s: string)
    ensures IsStripped(Strip(s))
    ensures Strip(Strip(s)) == Strip(s)
  {
    StripSpec(s);
    StripOfStripped(Strip(s));
  }

  /** Stripping leaves the string unchanged exactly when it is stripped. */
  lemma StrippedFixpoint(s: string)
    ensures Strip(s) == s <==> IsStripped(s)
  {
    StripStripped(s);
  }

  /** The first piece of a split is a prefix of the string. */
  lemma SplitHeadIsPrefix(s: string, sep: string)
    requires sep != ""
    ensures Split(s, sep)[0] <= s
  {
  }

  /** The first piece of a split runs up to the first occurrence of the
      separator, or to the end when there is none. */
  lemma SplitHeadExact(s: string, sep: string, n: nat)
    requires sep != "" && n <= |s|
    requires forall j :: 0 <= j < n ==> !OccursAt(s, sep, j)
    requires n == |s| || OccursAt(s, sep, n)
    ensures Split(s, sep)[0] == s[..n]
  {
    if OccursAt(s, sep, n) {
      FindFirst(s, sep, n);
    } else {
      assert s[..n] == s;
    }
  }

  /** The first piece of a split ends where the string ends or where the
      separator occurs. */
  lemma SplitHeadEnd(s: string, sep: string)
    requires sep != ""
    ensures |Split(s, sep)[0]| == |s| || OccursAt(s, sep, |Split(s, sep)[0]|)
  {
  }

  /** An occurrence inside a prefix is an occurrence in the whole string. */
  lemma OccursInPrefix(t: string, s: string, p: string, k: nat)
    requires t <= s && OccursAt(t, p, k)
    ensures OccursAt(s, p, k)
  {
    assert s[k..k + |p|] == t[k..k + |p|];
  }

  /** When the separator does not start before index `n`, the first piece
      covers at least the first `n` characters. */
  lemma SplitHeadCovers(s: string, sep: string, n: nat)
    requires sep != "" && n <= |s|
    requires forall j :: 0 <= j < n ==> !OccursAt(s, sep, j)
    ensures s[..n] <= Split(s, sep)[0]
  {
    match Find(s, sep)
    case None =>
    case Some(k) =>
      assert n <= k;
      assert Split(s, sep)[0] == s[..k];
  }

  /** The piece after the first occurrence of the separator. */
  lemma SplitSecond(s: string, sep: string, k: nat)
    requires sep != ""
    requires OccursAt(s, sep, k)
    requires forall j :: 0 <= j < k ==> !OccursAt(s, sep, j)
    ensures |Split(s, sep)| >= 2
    ensures Split(s, sep)[1] == Split(s[k + |sep|..], sep)[0]
  {
    FindFirst(s, sep, k);
    SplitAtFirst(s, sep, k);
    var rest := Split(s[k + |sep|..], sep);
    assert ([s[..k]] + rest)[1] == rest[0];
  }

  lemma SplitAtFirst(s: string, sep: string, k: nat)
    requires sep != "" && Find(s, sep) == Some(k)
    ensures Split(s, sep) == [s[..k]] + Split(s[k + |sep|..], sep)
  {
  }

  /** The last piece of a split on a one-character separator is what follows
      the last occurrence of that character. */
  lemma {:induction false} SplitLastAfter(a: string, c: char, b: string)
    requires c !in b
    ensures Last(Split(a + [c] + b, [c])) == b
    decreases |a|
  {
    var s := a + [c] + b;
    assert OccursAt(s, [c], |a|) by { assert s[|a|..|a| + 1] == [c]; }
    var k := Find(s, [c]).value;
    var tail := s[k + 1..];
    assert Split(s, [c]) == [s[..k]] + Split(tail, [c]);
    if k == |a| {
      assert tail == b;
      ContainsChar(b, c);
      assert Split(b, [c]) == [b];
      assert Split(s, [c]) == [s[..k], b];
    } else {
      assert tail == a[k + 1..] + [c] + b;
      SplitLastAfter(a[k + 1..], c, b);
      var rest := Split(tail, [c]);
      assert Last(Split(s, [c])) == Last(rest);
    }
  }

  /** A prefix of a string that lacks `p` lacks it too. */
  lemma PrefixAbsent(s: string, p: string, n: nat)
    requires p != "" && n <= |s|
    requires !Contains(s, p)
    ensures !Contains(s[..n], p)
  {
    NoEarlierOccurrence(s, p, n);
  }

  /** No occurrence of a one-character pattern starts where that character
      is absent. */
  lemma NoCharBefore(s: string, c: char, n: nat)
    requires n <= |s|
    requires forall j :: 0 <= j < n ==> s[j] != c
    ensures forall j :: 0 <= j < n ==> !OccursAt(s, [c], j)
  {
    forall j | 0 <= j < n
      ensures !OccursAt(s, [c], j)
    {
      assert s[j..j + 1][0] == s[j];
    }
  }
}
