/**
 * The operations of Python's `str` that the modelled code relies on:
 * `strip`, `lower`, `in`, `startswith`, `split`, `join`, `str(int)` and `int(str)`.
 * Characters are Unicode scalar values; whitespace and case are ASCII only.
 */
module Text {
  import opened Wrappers

  // ----- whitespace and case -----

  /** The ASCII characters Python's `str.isspace` accepts: space, tab, the line breaks,
      vertical tab, form feed and the separators U+001C to U+001F. */
  predicate IsSpace(c: char) {
    c == ' ' || c == '\t' || c == '\n' || c == '\r' || c == '\U{000B}' || c == '\U{000C}'
    || ('\U{001C}' <= c <= '\U{001F}')
  }

  function TrimStart(s: string): (r: string)
    ensures |r| <= |s| && r == s[|s| - |r|..]
    ensures r == [] || !IsSpace(r[0])
    ensures forall i :: 0 <= i < |s| - |r| ==> IsSpace(s[i])
  {
    if |s| > 0 && IsSpace(s[0]) then TrimStart(s[1..]) else s
  }

  function TrimEnd(s: string): (r: string)
    ensures |r| <= |s| && r == s[..|r|]
    ensures r == [] || !IsSpace(r[|r| - 1])
    ensures forall i :: |r| <= i < |s| ==> IsSpace(s[i])
  {
    if |s| > 0 && IsSpace(s[|s| - 1]) then TrimEnd(s[..|s| - 1]) else s
  }

  /** Every character is whitespace (so `s.strip()` is empty). */
  predicate AllSpace(s: string) {
    forall i :: 0 <= i < |s| ==> IsSpace(s[i])
  }

  /** `r` is `s` with the white-space prefix `s[..i]` and a white-space suffix cut off. */
  predicate StrippedAt(s: string, r: string, i: int)
  {
    0 <= i <= |s| - |r| && r == s[i..i + |r|] && AllSpace(s[..i]) && AllSpace(s[i + |r|..])
  }

  /** Python's `s.strip()`: `s` with a whitespace prefix and a whitespace suffix cut off; the
      result neither starts nor ends with whitespace, and is empty exactly when `s` is all
      whitespace. */
  function Strip(s: string): (r: string)
    ensures |r| <= |s|
    ensures exists i :: StrippedAt(s, r, i)
    ensures r == [] || (!IsSpace(r[0]) && !IsSpace(r[|r| - 1]))
    ensures r == [] <==> AllSpace(s)
  {
    TrimBothAt(s);
    TrimEnd(TrimStart(s))
  }

  /** Trimming the start and then the end cuts a white-space prefix and suffix off `s`. */
  lemma {:induction false} TrimBothAt(s: string)
    ensures StrippedAt(s, TrimEnd(TrimStart(s)), |s| - |TrimStart(s)|)
  {
    var t := TrimStart(s);
    var r := TrimEnd(t);
    assert |t| <= |s| && t == s[|s| - |t|..] && forall k :: 0 <= k < |s| - |t| ==> IsSpace(s[k]);
    assert |r| <= |t| && r == t[..|r|] && forall k :: |r| <= k < |t| ==> IsSpace(t[k]);
    CutBothEnds(s, t, r);
  }

  lemma {:induction false} CutBothEnds(s: string, t: string, r: string)
    requires |t| <= |s| && t == s[|s| - |t|..]
    requires |r| <= |t| && r == t[..|r|]
    requires forall k :: 0 <= k < |s| - |t| ==> IsSpace(s[k])
    requires forall k :: |r| <= k < |t| ==> IsSpace(t[k])
    ensures StrippedAt(s, r, |s| - |t|)
  {
    var i := |s| - |t|;
    assert r == s[i..i + |r|];
    assert AllSpace(s[..i]);
    forall k | i + |r| <= k < |s|
      ensures IsSpace(s[k])
    {
      assert s[k] == t[k - i];
    }
    assert AllSpace(s[i + |r|..]);
  }

  /** A string that neither starts nor ends with whitespace is its own strip. */
  lemma StripUnchanged(s: string)
    requires s == [] || (!IsSpace(s[0]) && !IsSpace(s[|s| - 1]))
    ensures Strip(s) == s
  {
    assert TrimStart(s) == s;
    assert TrimEnd(s) == s;
  }

  function LowerChar(c: char): char {
    if 'A' <= c <= 'Z' then (c as int + 32) as char else c
  }

  /** Python's `s.lower()` on ASCII letters: each of 'A'..'Z' becomes its lower-case letter and
      nothing else changes. */
  function Lower(s: string): (r: string)
    ensures |r| == |s|
    ensures forall i :: 0 <= i < |r| ==> !('A' <= r[i] <= 'Z')
    ensures forall i :: 0 <= i < |s| && !('A' <= s[i] <= 'Z') ==> r[i] == s[i]
    ensures forall i :: 0 <= i < |s| && 'A' <= s[i] <= 'Z' ==> r[i] as int == s[i] as int + 32
  {
    seq(|s|, i requires 0 <= i < |s| => LowerChar(s[i]))
  }

  // ----- substrings -----

  /** `t` occurs in `s` starting at index `i`. */
  predicate OccursAt(s: string, t: string, i: int) {
    0 <= i && i + |t| <= |s| && s[i..i + |t|] == t
  }

  /** The first index at or after `k` where `t` occurs in `s`. */
  function IndexFrom(s: string, t: string, k: nat): (r: Option<nat>)
    decreases |s| - k
    ensures r.Some? ==> k <= r.value && OccursAt(s, t, r.value)
    ensures r.Some? ==> forall j :: k <= j < r.value ==> !OccursAt(s, t, j)
    ensures r.None? ==> forall j :: k <= j ==> !OccursAt(s, t, j)
  {
    if k + |t| > |s| then None
    else if s[k..k + |t|] == t then Some(k)
    else IndexFrom(s, t, k + 1)
  }

  /** Python's `s.find(t)`, as an option. */
  function IndexOf(s: string, t: string): Option<nat> {
    IndexFrom(s, t, 0)
  }

  /** Python's `t in s`. */
  predicate Contains(s: string, t: string) {
    IndexOf(s, t).Some?
  }

  /** An occurrence with none before it is the one `find` reports. */
  lemma IndexOfFirst(s: string, t: string, i: nat)
    requires OccursAt(s, t, i)
    requires forall j :: 0 <= j < i ==> !OccursAt(s, t, j)
    ensures IndexOf(s, t) == Some(i)
  {
  }

  /** `t in s` holds exactly when `t` occurs somewhere in `s`. */
  lemma ContainsIff(s: string, t: string, i: int)
    ensures OccursAt(s, t, i) ==> Contains(s, t)
    ensures Contains(s, t) ==> OccursAt(s, t, IndexOf(s, t).value)
  {
  }

  predicate StartsWith(s: string, p: string) {
    |p| <= |s| && s[..|p|] == p
  }

  predicate EndsWith(s: string, p: string) {
    |p| <= |s| && s[|s| - |p|..] == p
  }

  // ----- split and join -----

  /** Python's `s.split(sep)` for a non-empty separator: cut at each leftmost,
      non-overlapping occurrence of `sep`. */
  function Split(s: string, sep: string): (r: seq<string>)
    requires |sep| > 0
    ensures |r| >= 1
    decreases |s|
  {
    match IndexOf(s, sep)
    case None => [s]
    case Some(i) => [s[..i]] + Split(s[i + |sep|..], sep)
  }

  /** Python's `sep.join(parts)`. */
  function Join(parts: seq<string>, sep: string): string
    decreases |parts|
  {
    if |parts| == 0 then ""
    else if |parts| == 1 then parts[0]
    else parts[0] + sep + Join(parts[1..], sep)
  }

  function Last<T>(s: seq<T>): T
    requires |s| > 0
  {
    s[|s| - 1]
  }

  lemma JoinCons(x: string, p: seq<string>, sep: string)
    requires |p| >= 1
    ensures Join([x] + p, sep) == x + sep + Join(p, sep)
  {
    assert ([x] + p)[1..] == p;
  }

  /** Joining the pieces of a split gives back the string. */
  lemma {:induction false} JoinSplit(s: string, sep: string)
    requires |sep| > 0
    ensures Join(Split(s, sep), sep) == s
    decreases |s|
  {
    match IndexOf(s, sep)
    case None =>
    case Some(i) =>
      var rest := s[i + |sep|..];
      var p := Split(rest, sep);
      assert Split(s, sep) == [s[..i]] + p;
      JoinSplit(rest, sep);
      JoinCons(s[..i], p, sep);
      assert s[i..i + |sep|] == sep;
      assert s == s[..i] + s[i..i + |sep|] + rest;
  }

  /** No occurrence of `sep` starts inside `x` when `x` is followed by `sep`, so a split of
      `x + sep + ...` cuts exactly after `x`. */
  predicate Clean(x: string, sep: string) {
    forall j :: 0 <= j < |x| ==> !OccursAt(x + sep, sep, j)
  }

  lemma CleanHasNoSep(x: string, sep: string)
    requires |sep| > 0 && Clean(x, sep)
    ensures !Contains(x, sep)
  {
    if Contains(x, sep) {
      var j := IndexOf(x, sep).value;
      assert (x + sep)[j..j + |sep|] == x[j..j + |sep|];
      assert OccursAt(x + sep, sep, j);
      assert false;
    }
  }

  lemma SplitNoSep(s: string, sep: string)
    requires |sep| > 0 && !Contains(s, sep)
    ensures Split(s, sep) == [s]
  {
  }

  /** For the separator `" - "`, a part is clean when it does not contain the separator and
      does not end with `" -"` (which would run into a following separator). */
  lemma DashClean(x: string)
    requires !Contains(x, " - ") && !EndsWith(x, " -")
    ensures Clean(x, " - ")
  {
    var y := x + " - ";
    forall j | 0 <= j < |x|
      ensures !OccursAt(y, " - ", j)
    {
      if j + 3 <= |x| {
        assert y[j..j + 3] == x[j..j + 3];
        ContainsIff(x, " - ", j);
      } else if j + 2 == |x| {
        assert y[j..j + 3][..2] == x[|x| - 2..];
      } else {
        assert y[j..j + 3][1] == y[j + 1] == ' ';
      }
    }
  }

  /** A clean first segment is cut off exactly. */
  lemma SplitAfterClean(x: string, sep: string, y: string)
    requires |sep| > 0 && Clean(x, sep)
    ensures Split(x + sep + y, sep) == [x] + Split(y, sep)
  {
    var s := x + sep + y;
    assert OccursAt(s, sep, |x|) by {
      assert s[|x|..|x| + |sep|] == sep;
    }
    forall j | 0 <= j < |x|
      ensures !OccursAt(s, sep, j)
    {
      assert !OccursAt(x + sep, sep, j);
      assert s[j..j + |sep|] == (x + sep)[j..j + |sep|];
    }
    assert IndexOf(s, sep) == Some(|x|);
    assert s[..|x|] == x;
    assert s[|x| + |sep|..] == y;
  }

  /** Splitting a join gives back the parts, when every part but the last is clean and the
      last contains no separator. */
  lemma {:induction false} SplitJoin(q: seq<string>, sep: string)
    requires |sep| > 0 && |q| >= 1
    requires forall k :: 0 <= k < |q| - 1 ==> Clean(q[k], sep)
    requires !Contains(q[|q| - 1], sep)
    ensures Split(Join(q, sep), sep) == q
    decreases |q|
  {
    if |q| == 1 {
      SplitNoSep(q[0], sep);
    } else {
      SplitJoin(q[1..], sep);
      SplitAfterClean(q[0], sep, Join(q[1..], sep));
      assert q == [q[0]] + q[1..];
    }
  }

  /** Every segment of a split is free of the separator, and every segment but the last is clean. */
  lemma {:induction false} SplitSegments(s: string, sep: string)
    requires |sep| > 0
    ensures forall k :: 0 <= k < |Split(s, sep)| ==> !Contains(Split(s, sep)[k], sep)
    ensures forall k :: 0 <= k < |Split(s, sep)| - 1 ==> Clean(Split(s, sep)[k], sep)
    decreases |s|
  {
    match IndexOf(s, sep)
    case None =>
    case Some(i) =>
      var x, rest := s[..i], s[i + |sep|..];
      SplitSegments(rest, sep);
      PrefixBeforeFirstIsClean(s, sep, i);
      CleanHasNoSep(x, sep);
      var r, t := Split(s, sep), Split(rest, sep);
      assert r == [x] + t;
      assert forall k :: 1 <= k < |r| ==> r[k] == t[k - 1];
  }

  /** The text before the first occurrence of the separator is clean. */
  lemma PrefixBeforeFirstIsClean(s: string, sep: string, i: nat)
    requires |sep| > 0 && IndexOf(s, sep) == Some(i)
    ensures Clean(s[..i], sep)
  {
    var x := s[..i];
    assert OccursAt(s, sep, i);
    assert x + sep == s[..i + |sep|];
    forall j | 0 <= j < |x|
      ensures !OccursAt(x + sep, sep, j)
    {
      assert !OccursAt(s, sep, j);
      assert (x + sep)[j..j + |sep|] == s[j..j + |sep|];
    }
  }

  /** The last segment of a split is the part after the last cut: a suffix of the string,
      preceded by the separator unless it is the whole string. */
  predicate IsLastSegment(s: string, l: string, sep: string) {
    |l| <= |s| && s[|s| - |l|..] == l && (|l| == |s| || EndsWith(s[..|s| - |l|], sep))
  }

  lemma {:induction false} LastSegmentIsSuffix(s: string, sep: string)
    requires |sep| > 0
    ensures IsLastSegment(s, Last(Split(s, sep)), sep)
    decreases |s|
  {
    if IndexOf(s, sep).None? {
      assert Split(s, sep) == [s];
    } else {
      var i := IndexOf(s, sep).value;
      LastSegmentIsSuffix(s[i + |sep|..], sep);
      LastSegmentAfterCut(s, sep, i);
    }
  }

  lemma LastSegmentAfterCut(s: string, sep: string, i: nat)
    requires |sep| > 0 && IndexOf(s, sep) == Some(i)
    requires IsLastSegment(s[i + |sep|..], Last(Split(s[i + |sep|..], sep)), sep)
    ensures IsLastSegment(s, Last(Split(s, sep)), sep)
  {
    FirstCut(s, sep, i);
    var rest := s[i + |sep|..];
    SuffixAfterSeparator(s, s[..i + |sep|], rest, Last(Split(rest, sep)), sep);
  }

  /** Where a split first cuts. */
  lemma FirstCut(s: string, sep: string, i: nat)
    requires |sep| > 0 && IndexOf(s, sep) == Some(i)
    ensures Split(s, sep) == [s[..i]] + Split(s[i + |sep|..], sep)
    ensures Last(Split(s, sep)) == Last(Split(s[i + |sep|..], sep))
    ensures s == s[..i + |sep|] + s[i + |sep|..]
    ensures EndsWith(s[..i + |sep|], sep)
  {
    var head := s[..i + |sep|];
    assert head[|head| - |sep|..] == s[i..i + |sep|];
    assert s == head + s[i + |sep|..];
  }

  lemma SuffixAfterSeparator(s: string, head: string, rest: string, l: string, sep: string)
    requires s == head + rest && EndsWith(head, sep) && IsLastSegment(rest, l, sep)
    ensures IsLastSegment(s, l, sep)
  {
    var cut := |rest| - |l|;
    assert s[|s| - |l|..] == rest[cut..];
    assert s[..|s| - |l|] == head + rest[..cut];
    if cut > 0 {
      var pre := rest[..cut];
      assert (head + pre)[|head + pre| - |sep|..] == pre[|pre| - |sep|..];
    } else {
      assert s[..|s| - |l|] == head;
    }
  }

  // ----- sequences -----

  function Reverse<T>(s: seq<T>): (r: seq<T>)
    ensures |r| == |s|
    ensures forall i :: 0 <= i < |s| ==> r[i] == s[|s| - 1 - i]
  {
    if |s| == 0 then [] else Reverse(s[1..]) + [s[0]]
  }

  lemma ReverseReverse<T>(s: seq<T>)
    ensures Reverse(Reverse(s)) == s
  {
    assert forall i :: 0 <= i < |s| ==> Reverse(Reverse(s))[i] == s[i];
  }

  // ----- integers -----

  predicate IsDigit(c: char) {
    '0' <= c <= '9'
  }

  predicate AllDigits(s: string) {
    forall i :: 0 <= i < |s| ==> IsDigit(s[i])
  }

  function DigitChar(d: nat): (c: char)
    requires d < 10
    ensures IsDigit(c) && c as int - '0' as int == d
  {
    ('0' as int + d) as char
  }

  function DigitValue(c: char): nat
    requires IsDigit(c)
  {
    c as int - '0' as int
  }

  /** Python's `str(n)` for a natural number: decimal digits without a leading zero. */
  function NatToString(n: nat): (r: string)
    ensures |r| >= 1 && AllDigits(r)
    ensures r[0] == '0' ==> n == 0
    decreases n
  {
    if n < 10 then [DigitChar(n)] else NatToString(n / 10) + [DigitChar(n % 10)]
  }

  /** Python's `str(i)` for an integer. */
  function IntToString(i: int): string {
    if i < 0 then "-" + NatToString(-i) else NatToString(i)
  }

  /** The value of a string of decimal digits, most significant first. */
  function DigitsValue(s: string): nat
    requires AllDigits(s)
    decreases |s|
  {
    if |s| == 0 then 0 else DigitsValue(s[..|s| - 1]) * 10 + DigitValue(s[|s| - 1])
  }

  /** Python's `int(s)` on the forms the model admits: optional surrounding whitespace, an
      optional sign, then one or more decimal digits. Anything else is `None` (a ValueError). */
  function ParseInt(s: string): Option<int> {
    ParseStripped(Strip(s))
  }

  /** `int()` on text with the surrounding whitespace already removed. */
  function ParseStripped(t: string): Option<int> {
    if |t| > 0 && (t[0] == '-' || t[0] == '+') then
      var digits := t[1..];
      if |digits| > 0 && AllDigits(digits) then
        var v: int := if t[0] == '-' then 0 - DigitsValue(digits) else DigitsValue(digits);
        Some(v)
      else None
    else if |t| > 0 && AllDigits(t) then Some(DigitsValue(t))
    else None
  }

  lemma {:induction false} NatToStringValue(n: nat)
    ensures DigitsValue(NatToString(n)) == n
    decreases n
  {
    if n >= 10 {
      NatToStringValue(n / 10);
      var r := NatToString(n);
      assert r[..|r| - 1] == NatToString(n / 10);
    }
  }

  /** `int(str(i)) == i`: the decimal rendering of an integer parses back to it. */
  lemma ParseIntString(i: int)
    ensures ParseInt(IntToString(i)) == Some(i)
  {
    var n: nat := if i < 0 then -i else i;
    var d := NatToString(n);
    NatToStringValue(n);
    if i < 0 {
      ParseSignedDigits(d);
      assert IntToString(i) == "-" + d;
    } else {
      ParseDigits(d);
      assert IntToString(i) == d;
    }
  }

  /** A plain run of digits parses to its value. */
  lemma ParseDigits(d: string)
    requires |d| > 0 && AllDigits(d)
    ensures ParseInt(d) == Some(DigitsValue(d))
  {
    assert IsDigit(d[0]) && IsDigit(d[|d| - 1]);
    StripUnchanged(d);
    assert ParseStripped(d) == Some(DigitsValue(d));
  }

  /** A minus sign followed by a run of digits parses to the negated value. */
  lemma ParseSignedDigits(d: string)
    requires |d| > 0 && AllDigits(d)
    ensures ParseInt("-" + d) == Some(0 - DigitsValue(d))
  {
    var r := "-" + d;
    SignedShape(d);
    StripUnchanged(r);
    SignedStripped(r);
    assert ParseInt(r) == ParseStripped(r);
  }

  lemma SignedShape(d: string)
    requires |d| > 0 && AllDigits(d)
    ensures var r := "-" + d; r[0] == '-' && r[1..] == d && !IsSpace(r[|r| - 1])
  {
    assert IsDigit(d[|d| - 1]);
  }

  lemma SignedStripped(r: string)
    requires |r| > 1 && r[0] == '-' && AllDigits(r[1..])
    ensures ParseStripped(r) == Some(0 - DigitsValue(r[1..]))
  {
  }

  /** The decimal rendering of an integer has no line break, so it ends at the first `"\n"`. */
  lemma IntToStringHasNoNewline(i: int)
    ensures forall k :: 0 <= k < |IntToString(i)| ==> IntToString(i)[k] != '\n'
  {
    var r := IntToString(i);
    if i < 0 {
      assert forall k :: 1 <= k < |r| ==> r[k] == NatToString(-i)[k - 1];
    }
  }
}
