/**
 * The JavaScript string operations the extractors rely on, over `seq<char>`:
 * `trim`, `includes`/`indexOf`, `split` and `join` with a literal separator,
 * `replace` (first occurrence) and `replace(/.../g)` with a literal pattern,
 * character filtering, and the leftmost match of a call pattern `open(\d+)close`.
 */
module Strings {
  import opened Wrappers

  /** The characters of JavaScript's `\s` class, which are also what `String.prototype.trim` removes. */
  predicate IsSpace(c: char) {
    || c == ' ' || c == '\t' || c == '\n' || c == '\r'
    || c == '\U{000B}' || c == '\U{000C}' || c == '\U{00A0}' || c == '\U{1680}'
    || ('\U{2000}' <= c <= '\U{200A}')
    || c == '\U{2028}' || c == '\U{2029}' || c == '\U{202F}' || c == '\U{205F}'
    || c == '\U{3000}' || c == '\U{FEFF}'
  }

  predicate IsDigit(c: char) {
    '0' <= c <= '9'
  }

  predicate AllDigits(s: string) {
    forall i :: 0 <= i < |s| ==> IsDigit(s[i])
  }

  predicate AllSpace(s: string) {
    forall i :: 0 <= i < |s| ==> IsSpace(s[i])
  }

  // ---------------------------------------------------------------------------
  // trim

  /** `s` without its leading white space. */
  function TrimStart(s: string): (r: string)
    ensures |r| <= |s| && r == s[|s| - |r|..]
    ensures AllSpace(s[..|s| - |r|])
    ensures |r| > 0 ==> !IsSpace(r[0])
  {
    if |s| > 0 && IsSpace(s[0]) then TrimStart(s[1..]) else s
  }

  /** `s` without its trailing white space. */
  function TrimEnd(s: string): (r: string)
    ensures |r| <= |s| && r == s[..|r|]
    ensures AllSpace(s[|r|..])
    ensures |r| > 0 ==> !IsSpace(r[|r| - 1])
  {
    if |s| > 0 && IsSpace(s[|s| - 1]) then TrimEnd(s[..|s| - 1]) else s
  }

  /** `String.prototype.trim`: `s` without its leading and trailing white space. */
  function Trim(s: string): (r: string)
    ensures |r| <= |s|
    ensures |r| > 0 ==> !IsSpace(r[0]) && !IsSpace(r[|r| - 1])
  {
    TrimEnd(TrimStart(s))
  }

  /** The trim of `s` is the infix of `s` left between a leading and a trailing run of white space. */
  lemma TrimIsInfix(s: string) returns (i: nat)
    ensures i + |Trim(s)| <= |s| && Trim(s) == s[i..i + |Trim(s)|]
    ensures AllSpace(s[..i]) && AllSpace(s[i + |Trim(s)|..])
  {
    var t := TrimStart(s);
    var r := TrimEnd(t);
    i := |s| - |t|;
    assert t == s[i..] && AllSpace(s[..i]);
    assert r == t[..|r|] && AllSpace(t[|r|..]);
    SuffixSlices(s, i, |r|);
    assert Trim(s) == r;
  }

  /** Slicing a suffix of `s` is slicing `s` itself, shifted. */
  lemma SuffixSlices(s: string, i: nat, n: nat)
    requires i + n <= |s|
    ensures s[i..][..n] == s[i..i + n] && s[i..][n..] == s[i + n..]
  {
  }

  /** Only white space is ever removed, and a trimmed string is its own trim. */
  lemma TrimIdempotent(s: string)
    ensures Trim(Trim(s)) == Trim(s)
  {
    var t := Trim(s);
    if |t| > 0 {
      assert TrimStart(t) == t;
      assert TrimEnd(t) == t;
    }
  }

  /** A string trims to "" exactly when it is all white space. */
  lemma TrimEmptyIffAllSpace(s: string)
    ensures Trim(s) == "" <==> AllSpace(s)
  {
    if Trim(s) == "" {
      var i := TrimIsInfix(s);
      forall k | 0 <= k < |s|
        ensures IsSpace(s[k])
      {
        if k < i {
          assert s[k] == s[..i][k];
        } else {
          assert s[k] == s[i..][k - i];
        }
      }
    }
  }

  // ---------------------------------------------------------------------------
  // searching

  /** `p` occurs in `s` starting at index `i`. */
  predicate OccursAt(s: string, p: string, i: int) {
    0 <= i && i + |p| <= |s| && s[i..i + |p|] == p
  }

  /** `s.indexOf(p, from)`: the leftmost occurrence of `p` at or after `from`. */
  function IndexOfFrom(s: string, p: string, from: nat): (r: Option<nat>)
    decreases |s| - from
    ensures r.Some? ==> from <= r.value && OccursAt(s, p, r.value)
    ensures r.Some? ==> forall j :: from <= j < r.value ==> !OccursAt(s, p, j)
    ensures r.None? ==> forall j :: from <= j ==> !OccursAt(s, p, j)
  {
    if from + |p| > |s| then None
    else if s[from..from + |p|] == p then Some(from)
    else IndexOfFrom(s, p, from + 1)
  }

  /** `s.indexOf(p)`, with `None` for -1. */
  function IndexOf(s: string, p: string): (r: Option<nat>)
    ensures r.Some? ==> OccursAt(s, p, r.value) && forall j :: 0 <= j < r.value ==> !OccursAt(s, p, j)
    ensures r.None? ==> forall j :: 0 <= j ==> !OccursAt(s, p, j)
  {
    IndexOfFrom(s, p, 0)
  }

  /** `s.includes(p)`. */
  predicate Contains(s: string, p: string) {
    IndexOf(s, p).Some?
  }

  /** `s` does not contain a pattern when it lacks one of the pattern's characters. */
  lemma NotContainsWithoutChar(s: string, p: string, k: nat)
    requires k < |p| && p[k] !in s
    ensures IndexOf(s, p).None?
  {
  }

  /** An occurrence inside a prefix of `s` is an occurrence in `s`. */
  lemma OccursInPrefix(s: string, p: string, n: nat, j: int)
    requires n <= |s| && OccursAt(s[..n], p, j)
    ensures OccursAt(s, p, j)
  {
    assert s[..n][j..j + |p|] == s[j..j + |p|];
  }

  /** An occurrence inside a suffix of `s` is an occurrence in `s`, shifted. */
  lemma OccursInSuffix(s: string, p: string, n: nat, j: int)
    requires n <= |s| && OccursAt(s[n..], p, j)
    ensures OccursAt(s, p, n + j)
  {
    assert s[n..][j..j + |p|] == s[n + j..n + j + |p|];
  }

  /** The first `c` of `a + [c] + b` is the one after `a` when `a` holds none. */
  lemma IndexOfAfterFree(a: string, c: char, b: string)
    requires c !in a
    ensures IndexOf(a + [c] + b, [c]) == Some(|a|)
  {
    var s := a + [c] + b;
    assert OccursAt(s, [c], |a|) by {
      assert s[|a|..|a| + 1] == [c];
    }
    forall j | 0 <= j < |a|
      ensures !OccursAt(s, [c], j)
    {
      assert s[j] == a[j];
    }
  }

  /** Text appended after a match does not hide it. */
  lemma ContainsInPrefix(a: string, b: string, p: string)
    requires Contains(a, p)
    ensures Contains(a + b, p)
  {
    var j := IndexOf(a, p).value;
    assert (a + b)[..|a|] == a;
    OccursInPrefix(a + b, p, |a|, j);
  }

  // ---------------------------------------------------------------------------
  // split / join / replace

  /** `s.split(sep)` for a non-empty literal separator. */
  function Split(s: string, sep: string): (parts: seq<string>)
    requires |sep| > 0
    decreases |s|
    ensures |parts| >= 1
    ensures Contains(s, sep) ==> |parts| >= 2
  {
    match IndexOf(s, sep)
    case None => [s]
    case Some(i) => [s[..i]] + Split(s[i + |sep|..], sep)
  }

  /** `parts.join(sep)`. */
  function Join(parts: seq<string>, sep: string): string
  {
    if |parts| == 0 then ""
    else if |parts| == 1 then parts[0]
    else parts[0] + sep + Join(parts[1..], sep)
  }

  /** Splitting and re-joining with the same separator gives back the original string. */
  lemma {:induction false} JoinSplit(s: string, sep: string)
    requires |sep| > 0
    ensures Join(Split(s, sep), sep) == s
    decreases |s|
  {
    match IndexOf(s, sep)
    case None =>
    case Some(i) =>
      var rest := s[i + |sep|..];
      JoinSplit(rest, sep);
      SplitUnfold(s, sep, i);
      JoinCons(s[..i], Split(rest, sep), sep);
      assert s[i..i + |sep|] == sep;
      SliceConcat(s, i, i + |sep|);
  }

  /** One step of a split: the text before the first separator, then the split of the rest. */
  lemma SplitUnfold(s: string, sep: string, i: nat)
    requires |sep| > 0 && IndexOf(s, sep) == Some(i)
    ensures Split(s, sep) == [s[..i]] + Split(s[i + |sep|..], sep)
  {
    match IndexOf(s, sep)
    case Some(j) =>
      assert j == i;
  }

  /** A split gives one piece, the whole string, exactly when the separator does not occur. */
  lemma SplitWhole(s: string, sep: string)
    requires |sep| > 0
    ensures |Split(s, sep)| == 1 <==> !Contains(s, sep)
    ensures !Contains(s, sep) ==> Split(s, sep) == [s]
  {
    if Contains(s, sep) {
      var i := IndexOf(s, sep).value;
      SplitUnfold(s, sep, i);
    }
  }

  lemma SliceConcat(s: string, i: nat, j: nat)
    requires i <= j <= |s|
    ensures s[..i] + s[i..j] + s[j..] == s
  {
  }

  lemma JoinCons(head: string, tail: seq<string>, sep: string)
    requires |tail| >= 1
    ensures Join([head] + tail, sep) == head + sep + Join(tail, sep)
  {
    assert ([head] + tail)[1..] == tail;
  }

  /** No piece of a split contains the separator. */
  lemma {:induction false} SplitPiecesLackSeparator(s: string, sep: string)
    requires |sep| > 0
    ensures forall k :: 0 <= k < |Split(s, sep)| ==> !Contains(Split(s, sep)[k], sep)
    decreases |s|
  {
    match IndexOf(s, sep)
    case None =>
    case Some(i) =>
      var rest := s[i + |sep|..];
      SplitPiecesLackSeparator(rest, sep);
      SplitUnfold(s, sep, i);
      if Contains(s[..i], sep) {
        OccursInPrefix(s, sep, i, IndexOf(s[..i], sep).value);
      }
  }

  /** The first piece of a split is the text before the first separator, or the whole string. */
  lemma SplitHead(s: string, sep: string)
    requires |sep| > 0
    ensures IndexOf(s, sep).Some? ==> Split(s, sep)[0] == s[..IndexOf(s, sep).value]
    ensures IndexOf(s, sep).None? ==> Split(s, sep)[0] == s
  {
  }

  /** The second piece of a split is the text between the first and the second separator. */
  lemma SplitSecond(s: string, sep: string)
    requires |sep| > 0 && Contains(s, sep)
    ensures |Split(s, sep)| >= 2
    ensures Split(s, sep)[1] == Split(s[IndexOf(s, sep).value + |sep|..], sep)[0]
  {
  }

  /** The text of `s` before its first `c` (all of `s` when there is none). */
  function Before(s: string, c: char): (r: string)
    ensures |r| <= |s| && r == s[..|r|]
    ensures c !in r
    ensures |r| < |s| ==> s[|r|] == c
  {
    if |s| == 0 || s[0] == c then "" else [s[0]] + Before(s[1..], c)
  }

  /** A prefix free of `c` passes through `Before` unchanged. */
  lemma {:induction false} BeforeAppend(a: string, b: string, c: char)
    requires c !in a
    ensures Before(a + b, c) == a + Before(b, c)
    decreases |a|
  {
    if |a| == 0 {
      assert a + b == b;
    } else {
      assert (a + b)[1..] == a[1..] + b;
      BeforeAppend(a[1..], b, c);
    }
  }

  /** The first piece of a split on a one-character separator is the text before that character. */
  lemma SplitHeadIsBefore(s: string, c: char)
    ensures Split(s, [c])[0] == Before(s, c)
  {
    var b := Before(s, c);
    SplitHead(s, [c]);
    if |b| < |s| {
      assert OccursAt(s, [c], |b|) by {
        assert s[|b|..|b| + 1] == [c];
      }
      var i := IndexOf(s, [c]).value;
      assert s[i..i + 1] == [c];
    }
  }

  /** `s.replace(/p/g, r)` for a literal pattern: one left-to-right pass, non-overlapping. */
  function ReplaceAll(s: string, p: string, r: string): (res: string)
    requires |p| > 0
    decreases |s|
  {
    match IndexOf(s, p)
    case None => s
    case Some(i) => s[..i] + (r + ReplaceAll(s[i + |p|..], p, r))
  }

  /** Text without the pattern passes through a global replace unchanged. */
  lemma ReplaceAllAbsent(s: string, p: string, r: string)
    requires |p| > 0 && !Contains(s, p)
    ensures ReplaceAll(s, p, r) == s
  {
  }

  /** A global replace is a split on the pattern joined with the replacement (`s.split(p).join(r)`). */
  lemma {:induction false} ReplaceAllIsSplitJoin(s: string, p: string, r: string)
    requires |p| > 0
    ensures ReplaceAll(s, p, r) == Join(Split(s, p), r)
    decreases |s|
  {
    match IndexOf(s, p)
    case None =>
    case Some(i) =>
      var rest := s[i + |p|..];
      ReplaceAllIsSplitJoin(rest, p, r);
      var parts := Split(s, p);
      assert parts[1..] == Split(rest, p);
  }

  /** A pattern at the very start of the text is replaced and the scan resumes after it. */
  lemma ReplaceAllAtStart(p: string, rest: string, r: string)
    requires |p| > 0
    ensures ReplaceAll(p + rest, p, r) == r + ReplaceAll(rest, p, r)
  {
    var s := p + rest;
    assert OccursAt(s, p, 0) by {
      assert s[..|p|] == p;
    }
    assert s[|p|..] == rest;
  }

  /** An occurrence in `b` is an occurrence in `a + b`, shifted by `|a|`, and conversely. */
  lemma OccursShift(a: string, b: string, p: string, j: nat)
    ensures OccursAt(b, p, j) <==> OccursAt(a + b, p, j + |a|)
  {
    if j + |p| <= |b| {
      assert (a + b)[j + |a|..j + |a| + |p|] == b[j..j + |p|];
    }
  }

  /** When no occurrence starts in `a`, the first occurrence in `a + b` is the first one in `b`, shifted. */
  lemma IndexOfSkip(a: string, b: string, p: string)
    requires forall i :: 0 <= i < |a| ==> !OccursAt(a + b, p, i)
    ensures IndexOf(b, p).None? <==> IndexOf(a + b, p).None?
    ensures IndexOf(b, p).Some? ==> IndexOf(a + b, p) == Some(IndexOf(b, p).value + |a|)
  {
    if IndexOf(b, p).Some? {
      var v := IndexOf(b, p).value;
      OccursShift(a, b, p, v);
      forall j | 0 <= j < v + |a|
        ensures !OccursAt(a + b, p, j)
      {
        if j >= |a| {
          OccursShift(a, b, p, j - |a|);
        }
      }
    } else if IndexOf(a + b, p).Some? {
      var i := IndexOf(a + b, p).value;
      OccursShift(a, b, p, i - |a|);
    }
  }

  /** One step of a global replace: the text up to the first occurrence, the replacement, then the rest replaced. */
  lemma ReplaceAllAt(s: string, p: string, r: string, i: nat)
    requires |p| > 0 && IndexOf(s, p) == Some(i)
    ensures ReplaceAll(s, p, r) == s[..i] + (r + ReplaceAll(s[i + |p|..], p, r))
  {
  }

  /** A prefix in which no occurrence starts passes through a global replace unchanged. */
  lemma ReplaceAllSkip(a: string, b: string, p: string, r: string)
    requires |p| > 0
    requires forall i :: 0 <= i < |a| ==> !OccursAt(a + b, p, i)
    ensures ReplaceAll(a + b, p, r) == a + ReplaceAll(b, p, r)
  {
    IndexOfSkip(a, b, p);
    var s := a + b;
    match IndexOf(b, p)
    case None =>
    case Some(v) =>
      var i := v + |a|;
      var y := ReplaceAll(b[v + |p|..], p, r);
      ReplaceAllAt(b, p, r, v);
      assert s[i + |p|..] == b[v + |p|..];
      ReplaceAllAt(s, p, r, i);
      assert s[..i] == a + b[..v];
  }

  /** `s.replace(p, r)` with a literal pattern: only the first occurrence is replaced. */
  function ReplaceFirst(s: string, p: string, r: string): (res: string)
    ensures IndexOf(s, p).None? ==> res == s
    ensures IndexOf(s, p).Some? ==>
      var i := IndexOf(s, p).value;
      |res| == |s| - |p| + |r| && res[..i] == s[..i] && res[i..i + |r|] == r && res[i + |r|..] == s[i + |p|..]
  {
    match IndexOf(s, p)
    case None => s
    case Some(i) => s[..i] + r + s[i + |p|..]
  }

  /**
   * Replacing the first occurrence is splitting at every occurrence and joining
   * the first two pieces with the replacement, the rest with the pattern again.
   */
  lemma ReplaceFirstAsSplit(s: string, p: string, r: string)
    requires |p| > 0
    ensures !Contains(s, p) ==> Split(s, p) == [s] && ReplaceFirst(s, p, r) == s
    ensures Contains(s, p) ==> ReplaceFirst(s, p, r) == Split(s, p)[0] + r + Join(Split(s, p)[1..], p)
  {
    SplitWhole(s, p);
    if Contains(s, p) {
      var i := IndexOf(s, p).value;
      var rest := s[i + |p|..];
      var parts := Split(s, p);
      SplitUnfold(s, p, i);
      assert parts[0] == s[..i];
      assert parts[1..] == Split(rest, p);
      JoinSplit(rest, p);
      assert ReplaceFirst(s, p, r) == s[..i] + r + rest;
    }
  }

  // ---------------------------------------------------------------------------
  // filtering

  /** The characters of `s` that satisfy `keep`, in order (`s.replace(/[^...]/g, "")`). */
  function Filter(s: string, keep: char -> bool): (r: string)
    ensures |r| <= |s|
    ensures forall i :: 0 <= i < |r| ==> keep(r[i])
    ensures (forall i :: 0 <= i < |s| ==> keep(s[i])) ==> r == s
  {
    if |s| == 0 then ""
    else (if keep(s[0]) then [s[0]] else []) + Filter(s[1..], keep)
  }

  /** The images of the items under `f`, concatenated in order. */
  function ConcatMap<A>(xs: seq<A>, f: A -> string): (r: string)
    ensures xs == [] ==> r == ""
  {
    if |xs| == 0 then "" else ConcatMap(xs[..|xs| - 1], f) + f(xs[|xs| - 1])
  }

  /** Concatenating images distributes over concatenation of the items. */
  lemma {:induction false} ConcatMapAppend<A>(a: seq<A>, b: seq<A>, f: A -> string)
    ensures ConcatMap(a + b, f) == ConcatMap(a, f) + ConcatMap(b, f)
    decreases |b|
  {
    if |b| == 0 {
      assert a + b == a;
    } else {
      var b' := b[..|b| - 1];
      assert (a + b)[..|a + b| - 1] == a + b';
      assert (a + b)[|a + b| - 1] == b[|b| - 1];
      ConcatMapAppend(a, b', f);
    }
  }

  /** Filtering distributes over concatenation, so it keeps every kept character in order. */
  lemma {:induction false} FilterAppend(a: string, b: string, keep: char -> bool)
    ensures Filter(a + b, keep) == Filter(a, keep) + Filter(b, keep)
    decreases |a|
  {
    if |a| > 0 {
      assert (a + b)[1..] == a[1..] + b;
      FilterAppend(a[1..], b, keep);
    } else {
      assert a + b == b;
    }
  }

  /** `s.replace(/[^0-9]/g, "")`. */
  function KeepDigits(s: string): (r: string)
    ensures AllDigits(r) && |r| <= |s|
    ensures AllDigits(s) ==> r == s
  {
    Filter(s, IsDigit)
  }

  // ---------------------------------------------------------------------------
  // numbers and call patterns

  /** Length of the run of digits at the start of `s`. */
  function DigitRun(s: string): (n: nat)
    ensures n <= |s| && AllDigits(s[..n])
    ensures n < |s| ==> !IsDigit(s[n])
  {
    if |s| > 0 && IsDigit(s[0]) then 1 + DigitRun(s[1..]) else 0
  }

  /** The value of a string of decimal digits. */
  function DigitsValue(s: string): nat
    requires AllDigits(s)
  {
    if |s| == 0 then 0 else 10 * DigitsValue(s[..|s| - 1]) + (s[|s| - 1] as int - '0' as int)
  }

  /**
   * The regular expression `open(\d+)close` matches at index `i` of `s`. Because
   * `close` starts with a non-digit, the greedy digit run never backtracks.
   */
  predicate CallMatchesAt(s: string, open: string, close: string, i: int) {
    && OccursAt(s, open, i)
    && DigitRun(s[i + |open|..]) > 0
    && OccursAt(s, close, i + |open| + DigitRun(s[i + |open|..]))
  }

  /** The captured digits of a match of `open(\d+)close` at `i`. */
  function CallCapture(s: string, open: string, i: nat): (d: string)
    requires i + |open| <= |s|
    ensures AllDigits(d)
  {
    var rest := s[i + |open|..];
    rest[..DigitRun(rest)]
  }

  /** The leftmost match of `open(\d+)close` at or after `from`. */
  function FirstCallMatch(s: string, open: string, close: string, from: nat): (r: Option<nat>)
    decreases |s| - from
    ensures r.Some? ==> from <= r.value && CallMatchesAt(s, open, close, r.value)
    ensures r.Some? ==> forall j :: from <= j < r.value ==> !CallMatchesAt(s, open, close, j)
    ensures r.None? ==> forall j :: from <= j ==> !CallMatchesAt(s, open, close, j)
  {
    if from + |open| > |s| then None
    else if CallMatchesAt(s, open, close, from) then Some(from)
    else FirstCallMatch(s, open, close, from + 1)
  }

  /**
   * `href.match(/open(\d+)close/)?.[1] ?? ""` on an optional attribute: the digits
   * captured by the leftmost match, or "" when the attribute is missing or nothing matches.
   */
  function CallArgument(href: Option<string>, open: string, close: string): (d: string)
    requires |close| > 0 && !IsDigit(close[0])
    ensures AllDigits(d)
    ensures d != "" <==> href.Some? && FirstCallMatch(href.value, open, close, 0).Some?
  {
    match href
    case None => ""
    case Some(s) =>
      match FirstCallMatch(s, open, close, 0)
      case None => ""
      case Some(i) => CallCapture(s, open, i)
  }

  /** A call written as `open + d + close` at the start of the text yields exactly `d`. */
  lemma CallArgumentOfCall(open: string, d: string, close: string, rest: string)
    requires |close| > 0 && !IsDigit(close[0])
    requires |d| > 0 && AllDigits(d)
    ensures CallArgument(Some(open + d + close + rest), open, close) == d
  {
    var s := open + d + close + rest;
    var tail := s[|open|..];
    assert tail == d + (close + rest);
    DigitRunOfDigits(d, close + rest);
    assert DigitRun(s[0 + |open|..]) == |d|;
    assert OccursAt(s, open, 0) by {
      assert s[0..0 + |open|] == open;
    }
    assert OccursAt(s, close, 0 + |open| + |d|) by {
      assert s[|open| + |d|..|open| + |d| + |close|] == close;
    }
    assert CallMatchesAt(s, open, close, 0);
    assert FirstCallMatch(s, open, close, 0) == Some(0);
    assert tail[..|d|] == d;
  }

  /** The digit run of `d + t` is all of `d` when `t` does not start with a digit. */
  lemma {:induction false} DigitRunOfDigits(d: string, t: string)
    requires AllDigits(d) && (|t| > 0 ==> !IsDigit(t[0]))
    ensures DigitRun(d + t) == |d|
    decreases |d|
  {
    if |d| > 0 {
      assert (d + t)[1..] == d[1..] + t;
      DigitRunOfDigits(d[1..], t);
    } else {
      assert d + t == t;
    }
  }

  /**
   * Where every occurrence of `open` in `s` is followed by a quote, the pattern
   * `open(\d+)close` cannot match: the digits must follow `open` directly.
   */
  lemma QuotedCallNeverMatchesBare(s: string, open: string, close: string)
    requires |close| > 0 && !IsDigit(close[0])
    requires forall i :: OccursAt(s, open, i) ==> i + |open| < |s| && s[i + |open|] == '\''
    ensures CallArgument(Some(s), open, close) == ""
  {
  }
}
