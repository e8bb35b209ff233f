/**
 * Normalisation of long-form HTML fragments (song lyrics, album introductions):
 * each fragment has its `<!-- ... -->` comments removed (shortest match) and its
 * `<br>` tags turned into newlines and is trimmed; the fragments are concatenated
 * without a separator; then five HTML entities are decoded, one global replace
 * after another, `&amp;` first.
 */
module Markup {
  import opened Wrappers
  import opened Strings

  const COMMENT_OPEN: string := "<!--"
  const COMMENT_CLOSE: string := "-->"

  /**
   * `s.replace(/<!--[\s\S]*?-->/g, "")`. The regex matches first at the leftmost
   * `<!--` that has a `-->` somewhere after it, and takes the nearest such `-->`;
   * when the leftmost `<!--` has none, no later one can have one either.
   */
  function StripComments(s: string): (r: string)
    decreases |s|
    ensures |r| <= |s|
  {
    match IndexOf(s, COMMENT_OPEN)
    case None => s
    case Some(i) =>
      match IndexOfFrom(s, COMMENT_CLOSE, i + |COMMENT_OPEN|)
      case None => s
      case Some(j) => s[..i] + StripComments(s[j + |COMMENT_CLOSE|..])
  }

  /** Text without any `<` has no comment to strip. */
  lemma StripCommentsPlainText(s: string)
    requires '<' !in s
    ensures StripComments(s) == s
  {
    NotContainsWithoutChar(s, COMMENT_OPEN, 0);
  }

  /**
   * A comment is cut at its first `-->`: text before it without `<` is kept, the
   * comment `<!--c-->` (where `c` and the dashes after it hold no earlier `-->`)
   * disappears, and stripping continues after it.
   */
  lemma StripOneComment(p: string, c: string, rest: string)
    requires '<' !in p
    requires !Contains(c + "--", COMMENT_CLOSE)
    ensures StripComments(p + COMMENT_OPEN + c + COMMENT_CLOSE + rest) == p + StripComments(rest)
  {
    var s := p + COMMENT_OPEN + c + COMMENT_CLOSE + rest;
    var i := |p|;
    var j := |p| + 4 + |c|;
    OpenFoundAfterPlainText(p, c + COMMENT_CLOSE + rest);
    assert s == p + (COMMENT_OPEN + (c + COMMENT_CLOSE + rest));
    CloseFoundAfterBody(p + COMMENT_OPEN, c, rest);
    assert s == (p + COMMENT_OPEN) + c + COMMENT_CLOSE + rest;
    assert s[..i] == p;
    assert s[j + 3..] == rest;
  }

  /** Comment matching is lazy: the first `-->` ends the comment, and a later one stays in the text. */
  lemma CommentEndsAtFirstClose()
    ensures StripComments("<!--a-->b-->") == "b-->"
  {
    assert !Contains("a" + "--", COMMENT_CLOSE) by {
      assert "a" + "--" == "a--";
      NotContainsWithoutChar("a--", COMMENT_CLOSE, 2);
    }
    assert StripComments("b-->") == "b-->" by {
      StripCommentsPlainText("b-->");
    }
    assert "" + COMMENT_OPEN + "a" + COMMENT_CLOSE + "b-->" == "<!--a-->b-->";
    StripOneComment("", "a", "b-->");
    assert "" + "b-->" == "b-->";
  }

  /** The first `<!--` after text without `<` is the one that follows it. */
  lemma OpenFoundAfterPlainText(p: string, t: string)
    requires '<' !in p
    ensures IndexOf(p + (COMMENT_OPEN + t), COMMENT_OPEN) == Some(|p|)
  {
    var s := p + (COMMENT_OPEN + t);
    assert s[|p|..|p| + 4] == COMMENT_OPEN;
    assert OccursAt(s, COMMENT_OPEN, |p|);
    forall k | 0 <= k < |p|
      ensures !OccursAt(s, COMMENT_OPEN, k)
    {
      assert s[k] == p[k];
    }
  }

  /** The first `-->` after the body `c` of a comment is the one that follows it. */
  lemma CloseFoundAfterBody(q: string, c: string, rest: string)
    requires !Contains(c + "--", COMMENT_CLOSE)
    ensures IndexOfFrom(q + c + COMMENT_CLOSE + rest, COMMENT_CLOSE, |q|) == Some(|q| + |c|)
  {
    var s := q + c + COMMENT_CLOSE + rest;
    var j := |q| + |c|;
    var cd := c + "--";
    assert s[j..j + 3] == COMMENT_CLOSE;
    assert OccursAt(s, COMMENT_CLOSE, j);
    forall k | |q| <= k < j
      ensures !OccursAt(s, COMMENT_CLOSE, k)
    {
      if OccursAt(s, COMMENT_CLOSE, k) {
        assert s[k..k + 3] == cd[k - |q|..k - |q| + 3];
        assert OccursAt(cd, COMMENT_CLOSE, k - |q|);
        assert false;
      }
    }
  }

  // ---------------------------------------------------------------------------
  // <br> tags

  /** Index of the first character at or after `k` that is not white space. */
  function SkipSpaces(s: string, k: nat): (e: nat)
    requires k <= |s|
    decreases |s| - k
    ensures k <= e <= |s|
    ensures forall m :: k <= m < e ==> IsSpace(s[m])
    ensures e < |s| ==> !IsSpace(s[e])
  {
    if k < |s| && IsSpace(s[k]) then SkipSpaces(s, k + 1) else k
  }

  /**
   * The length of a match of `/<br\s*\/?>/i` at the start of `s`, if one starts there.
   * Backtracking never helps: after the longest run of spaces only `/` or `>` can follow.
   */
  function BreakAt(s: string): (n: Option<nat>)
    ensures n.Some? ==> 4 <= n.value <= |s| && s[0] == '<' && s[n.value - 1] == '>'
  {
    if |s| >= 3 && s[0] == '<' && (s[1] == 'b' || s[1] == 'B') && (s[2] == 'r' || s[2] == 'R') then
      var e := SkipSpaces(s, 3);
      var e' := if e < |s| && s[e] == '/' then e + 1 else e;
      if e' < |s| && s[e'] == '>' then Some(e' + 1) else None
    else None
  }

  /** `s.replace(/<br\s*\/?>/gi, "\n")`. */
  function ReplaceBreaks(s: string): (r: string)
    decreases |s|
    ensures |r| <= |s|
  {
    if |s| == 0 then ""
    else match BreakAt(s)
      case Some(n) => "\n" + ReplaceBreaks(s[n..])
      case None => [s[0]] + ReplaceBreaks(s[1..])
  }

  /**
   * The strings `/^<br\s*\/?>$/i` accepts: `<`, `b` or `B`, `r` or `R`, a run
   * of white space, an optional `/`, then `>`.
   */
  predicate IsBreakTag(t: string) {
    && |t| >= 4 && t[0] == '<' && (t[1] == 'b' || t[1] == 'B') && (t[2] == 'r' || t[2] == 'R')
    && exists k :: 3 <= k < |t| && AllSpace(t[3..k]) && (t[k..] == ">" || t[k..] == "/>")
  }

  /**
   * `BreakAt` finds exactly the break tags: a match of length `n` starts `s`
   * iff the first `n` characters form a break tag. A tag holds one `>`, at its
   * end, so at most one prefix qualifies.
   */
  lemma BreakAtIff(s: string, n: nat)
    requires n <= |s|
    ensures BreakAt(s) == Some(n) <==> IsBreakTag(s[..n])
  {
    if BreakAt(s) == Some(n) {
      BreakAtSound(s, n);
    }
    if IsBreakTag(s[..n]) {
      BreakAtComplete(s, n);
    }
  }

  /** What `BreakAt` matches is a break tag. */
  lemma BreakAtSound(s: string, n: nat)
    requires BreakAt(s) == Some(n)
    ensures IsBreakTag(s[..n])
  {
    BreakAtShape(s);
    var t := s[..n];
    var e := SkipSpaces(s, 3);
    forall m | 0 <= m < e - 3
      ensures IsSpace(t[3..e][m])
    {
      assert t[3..e][m] == s[m + 3];
    }
    assert t[e..][0] == s[e];
    if s[e] == '>' {
      assert t[e..] == ">";
    } else {
      assert t[e..][1] == s[e + 1];
      assert t[e..] == "/>";
    }
    assert t[0] == s[0] && t[1] == s[1] && t[2] == s[2];
    assert 3 <= e < |t| && AllSpace(t[3..e]);
  }

  /** A match is `<br` in either case, the longest run of spaces after it, then `>` or `/>`. */
  lemma BreakAtShape(s: string)
    requires BreakAt(s).Some?
    ensures |s| >= 4 && s[0] == '<' && (s[1] == 'b' || s[1] == 'B') && (s[2] == 'r' || s[2] == 'R')
    ensures var e := SkipSpaces(s, 3);
      || (e < |s| && s[e] == '>' && BreakAt(s).value == e + 1)
      || (e + 1 < |s| && s[e] == '/' && s[e + 1] == '>' && BreakAt(s).value == e + 2)
  {
  }

  /** A break tag at the start of `s` is what `BreakAt` matches. */
  lemma BreakAtComplete(s: string, n: nat)
    requires n <= |s| && IsBreakTag(s[..n])
    ensures BreakAt(s) == Some(n)
  {
    var t := s[..n];
    var k :| 3 <= k < |t| && AllSpace(t[3..k]) && (t[k..] == ">" || t[k..] == "/>");
    forall m | 3 <= m < k
      ensures IsSpace(s[m])
    {
      assert s[m] == t[3..k][m - 3];
    }
    assert s[0] == t[0] && s[1] == t[1] && s[2] == t[2];
    assert s[k] == t[k..][0];
    if t[k..] == ">" {
      assert n == k + 1;
    } else {
      assert n == k + 2 && s[k + 1] == t[k..][1];
    }
    BreakOfParts(s, k, n);
  }

  /** `<br`, spaces up to `k`, then `>` or `/>` ending at `n`: `BreakAt` matches `n` characters. */
  lemma BreakOfParts(s: string, k: nat, n: nat)
    requires |s| >= 3 && s[0] == '<' && (s[1] == 'b' || s[1] == 'B') && (s[2] == 'r' || s[2] == 'R')
    requires 3 <= k < |s| && forall m :: 3 <= m < k ==> IsSpace(s[m])
    requires || (n == k + 1 && s[k] == '>')
             || (n == k + 2 && k + 1 < |s| && s[k] == '/' && s[k + 1] == '>')
    ensures BreakAt(s) == Some(n)
  {
    SkipSpacesStops(s, 3, k);
    BreakAfterSpaces(s, k);
  }

  /** Once the run of spaces after `<br` is known to end at `k`, `>` or `/>` there closes the match. */
  lemma BreakAfterSpaces(s: string, k: nat)
    requires |s| >= 3 && s[0] == '<' && (s[1] == 'b' || s[1] == 'B') && (s[2] == 'r' || s[2] == 'R')
    requires 3 <= k < |s| && SkipSpaces(s, 3) == k
    ensures s[k] == '>' ==> BreakAt(s) == Some(k + 1)
    ensures s[k] == '/' && k + 1 < |s| && s[k + 1] == '>' ==> BreakAt(s) == Some(k + 2)
  {
  }

  /** The run of spaces from `from` ends at the first character that is not one. */
  lemma SkipSpacesStops(s: string, from: nat, k: nat)
    requires from <= k < |s| && !IsSpace(s[k])
    requires forall m :: from <= m < k ==> IsSpace(s[m])
    ensures SkipSpaces(s, from) == k
    decreases k - from
  {
    if from < k {
      SkipSpacesStops(s, from + 1, k);
    }
  }

  /** Every break tag at the start of the text becomes one newline, and the scan resumes after it. */
  lemma BreakTagReplaced(t: string, rest: string)
    requires IsBreakTag(t)
    ensures ReplaceBreaks(t + rest) == "\n" + ReplaceBreaks(rest)
  {
    var s := t + rest;
    assert s[..|t|] == t;
    BreakAtIff(s, |t|);
    assert s[|t|..] == rest;
  }

  /** Text before the first `<` passes through unchanged. */
  lemma {:induction false} ReplaceBreaksPlainPrefix(p: string, t: string)
    requires '<' !in p
    ensures ReplaceBreaks(p + t) == p + ReplaceBreaks(t)
    decreases |p|
  {
    if |p| > 0 {
      var s := p + t;
      assert s[0] == p[0];
      assert s[1..] == p[1..] + t;
      ReplaceBreaksPlainPrefix(p[1..], t);
    } else {
      assert p + t == t;
    }
  }

  /** Each spelling `<br>`, `<br/>`, `<BR />` and `<br \n>` becomes one newline. */
  lemma BreakSpellings(t: string)
    ensures ReplaceBreaks("<br>" + t) == "\n" + ReplaceBreaks(t)
    ensures ReplaceBreaks("<br/>" + t) == "\n" + ReplaceBreaks(t)
    ensures ReplaceBreaks("<BR />" + t) == "\n" + ReplaceBreaks(t)
    ensures ReplaceBreaks("<br \n>" + t) == "\n" + ReplaceBreaks(t)
  {
    var a := "<br>" + t;
    assert BreakAt(a) == Some(4) by {
      assert SkipSpaces(a, 3) == 3;
    }
    assert a[4..] == t;
    var b := "<br/>" + t;
    assert BreakAt(b) == Some(5) by {
      assert SkipSpaces(b, 3) == 3;
    }
    assert b[5..] == t;
    var c := "<BR />" + t;
    assert BreakAt(c) == Some(6) by {
      assert SkipSpaces(c, 4) == 4;
      assert SkipSpaces(c, 3) == 4;
    }
    assert c[6..] == t;
    var d := "<br \n>" + t;
    assert BreakAt(d) == Some(6) by {
      assert SkipSpaces(d, 5) == 5;
      assert SkipSpaces(d, 4) == 5;
      assert SkipSpaces(d, 3) == 5;
    }
    assert d[6..] == t;
  }

  /** A tag that is not a break, such as `<b>`, is left alone. */
  lemma OtherTagsKept(t: string)
    ensures ReplaceBreaks("<b>" + t) == "<" + ReplaceBreaks("b>" + t)
  {
    var s := "<b>" + t;
    assert BreakAt(s).None?;
    assert s[1..] == "b>" + t;
  }

  // ---------------------------------------------------------------------------
  // entities

  /**
   * The entity clean-up: `&amp;`, `&lt;`, `&gt;`, `&quot;`, `&#39;` replaced
   * globally in that order, each pass over the output of the previous one.
   */
  function DecodeEntities(s: string): (r: string)
    ensures '&' !in s ==> r == s
  {
    var a := ReplaceAll(s, "&amp;", "&");
    var b := ReplaceAll(a, "&lt;", "<");
    var c := ReplaceAll(b, "&gt;", ">");
    var d := ReplaceAll(c, "&quot;", "\"");
    assert '&' !in s ==> ReplaceAll(d, "&#39;", "'") == s by {
      if '&' !in s {
        NotContainsWithoutChar(s, "&amp;", 0);
        NotContainsWithoutChar(s, "&lt;", 0);
        NotContainsWithoutChar(s, "&gt;", 0);
        NotContainsWithoutChar(s, "&quot;", 0);
        NotContainsWithoutChar(s, "&#39;", 0);
      }
    }
    ReplaceAll(d, "&#39;", "'")
  }

  /** Replacing a pattern in text that lacks one of its characters changes nothing. */
  lemma ReplaceAbsent(s: string, p: string, k: nat, r: string)
    requires k < |p| && p[k] !in s
    ensures ReplaceAll(s, p, r) == s
  {
    NotContainsWithoutChar(s, p, k);
  }

  /** A pattern standing alone is replaced by its replacement. */
  lemma ReplaceWhole(p: string, r: string)
    requires |p| > 0
    ensures ReplaceAll(p, p, r) == r
  {
    ReplaceAllAtStart(p, "", r);
    assert p + "" == p;
  }

  /**
   * Each of the five entities, standing alone, decodes to its character. The
   * cases are proved in two halves below only to keep each proof small.
   */
  lemma EntitiesDecode()
    ensures DecodeEntities("&amp;") == "&"
    ensures DecodeEntities("&lt;") == "<"
    ensures DecodeEntities("&gt;") == ">"
    ensures DecodeEntities("&quot;") == "\""
    ensures DecodeEntities("&#39;") == "'"
  {
    BracketEntitiesDecode();
    QuoteEntitiesDecode();
  }

  lemma BracketEntitiesDecode()
    ensures DecodeEntities("&amp;") == "&"
    ensures DecodeEntities("&lt;") == "<"
    ensures DecodeEntities("&gt;") == ">"
  {
    ReplaceWhole("&amp;", "&");

    ReplaceAbsent("&lt;", "&amp;", 1, "&");
    ReplaceWhole("&lt;", "<");

    ReplaceAbsent("&gt;", "&amp;", 1, "&");
    ReplaceAbsent("&gt;", "&lt;", 1, "<");
    ReplaceWhole("&gt;", ">");
  }

  lemma QuoteEntitiesDecode()
    ensures DecodeEntities("&quot;") == "\""
    ensures DecodeEntities("&#39;") == "'"
  {
    ReplaceAbsent("&quot;", "&amp;", 1, "&");
    ReplaceAbsent("&quot;", "&lt;", 1, "<");
    ReplaceAbsent("&quot;", "&gt;", 1, ">");
    ReplaceWhole("&quot;", "\"");

    ReplaceAbsent("&#39;", "&amp;", 1, "&");
    ReplaceAbsent("&#39;", "&lt;", 1, "<");
    ReplaceAbsent("&#39;", "&gt;", 1, ">");
    ReplaceAbsent("&#39;", "&quot;", 1, "\"");
    ReplaceWhole("&#39;", "'");
  }

  // One pass of the decode over a text whose prefix holds at most one `&`.

  /** No occurrence of an entity starts in a prefix without `&`. */
  lemma PassPlain(a: string, t: string, q: string, r: string)
    requires |q| > 0 && q[0] == '&' && '&' !in a
    ensures ReplaceAll(a + t, q, r) == a + ReplaceAll(t, q, r)
  {
    var s := a + t;
    forall i | 0 <= i < |a|
      ensures !OccursAt(s, q, i)
    {
      assert s[i] == a[i];
      assert i + |q| <= |s| ==> s[i..i + |q|][0] == s[i];
    }
    ReplaceAllSkip(a, t, q, r);
  }

  /** A pass for entity `q` skips another entity `e`: both start with `&` and differ in their second character. */
  lemma PassOther(a: string, e: string, t: string, q: string, r: string)
    requires |q| >= 2 && q[0] == '&' && '&' !in a
    requires |e| >= 2 && e[0] == '&' && e[1] != q[1] && '&' !in e[1..]
    ensures ReplaceAll(a + e + t, q, r) == a + e + ReplaceAll(t, q, r)
  {
    var ae := a + e;
    var s := ae + t;
    forall i | 0 <= i < |ae|
      ensures !OccursAt(s, q, i)
    {
      if i + |q| <= |s| {
        assert s[i..i + |q|][0] == s[i];
        assert s[i..i + |q|][1] == s[i + 1];
        if i < |a| {
          assert s[i] == a[i];
        } else if i == |a| {
          assert s[i + 1] == e[1];
        } else {
          assert s[i] == e[1..][i - |a| - 1];
        }
      }
    }
    ReplaceAllSkip(ae, t, q, r);
  }

  /** The pass for entity `e` replaces an `e` that follows a prefix without `&`. */
  lemma PassMatch(a: string, e: string, t: string, r: string)
    requires |e| > 0 && e[0] == '&' && '&' !in a
    ensures ReplaceAll(a + e + t, e, r) == a + r + ReplaceAll(t, e, r)
  {
    PassPlain(a, e + t, e, r);
    assert a + e + t == a + (e + t);
    ReplaceAllAtStart(e, t, r);
  }

  /** `&lt;` after text without `&` decodes to `<`, and decoding continues after it. */
  lemma LtStep(p: string, t: string)
    requires '&' !in p
    ensures DecodeEntities(p + "&lt;" + t) == p + "<" + DecodeEntities(t)
  {
    var a := ReplaceAll(t, "&amp;", "&");
    PassOther(p, "&lt;", t, "&amp;", "&");
    PassMatch(p, "&lt;", a, "<");
    var b := ReplaceAll(a, "&lt;", "<");
    var c := ReplaceAll(b, "&gt;", ">");
    var d := ReplaceAll(c, "&quot;", "\"");
    PassPlain(p + "<", b, "&gt;", ">");
    PassPlain(p + "<", c, "&quot;", "\"");
    PassPlain(p + "<", d, "&#39;", "'");
  }

  /** `&gt;` after text without `&` decodes to `>`, and decoding continues after it. */
  lemma GtStep(p: string, t: string)
    requires '&' !in p
    ensures DecodeEntities(p + "&gt;" + t) == p + ">" + DecodeEntities(t)
  {
    var a := ReplaceAll(t, "&amp;", "&");
    var b := ReplaceAll(a, "&lt;", "<");
    PassOther(p, "&gt;", t, "&amp;", "&");
    PassOther(p, "&gt;", a, "&lt;", "<");
    PassMatch(p, "&gt;", b, ">");
    var c := ReplaceAll(b, "&gt;", ">");
    var d := ReplaceAll(c, "&quot;", "\"");
    PassPlain(p + ">", c, "&quot;", "\"");
    PassPlain(p + ">", d, "&#39;", "'");
  }

  /** `&quot;` after text without `&` decodes to a double quote, and decoding continues after it. */
  lemma QuotStep(p: string, t: string)
    requires '&' !in p
    ensures DecodeEntities(p + "&quot;" + t) == p + "\"" + DecodeEntities(t)
  {
    var a := ReplaceAll(t, "&amp;", "&");
    var b := ReplaceAll(a, "&lt;", "<");
    var c := ReplaceAll(b, "&gt;", ">");
    PassOther(p, "&quot;", t, "&amp;", "&");
    PassOther(p, "&quot;", a, "&lt;", "<");
    PassOther(p, "&quot;", b, "&gt;", ">");
    PassMatch(p, "&quot;", c, "\"");
    var d := ReplaceAll(c, "&quot;", "\"");
    PassPlain(p + "\"", d, "&#39;", "'");
  }

  /** `&#39;` after text without `&` decodes to an apostrophe, and decoding continues after it. */
  lemma AposStep(p: string, t: string)
    requires '&' !in p
    ensures DecodeEntities(p + "&#39;" + t) == p + "'" + DecodeEntities(t)
  {
    var a := ReplaceAll(t, "&amp;", "&");
    var b := ReplaceAll(a, "&lt;", "<");
    var c := ReplaceAll(b, "&gt;", ">");
    var d := ReplaceAll(c, "&quot;", "\"");
    PassOther(p, "&#39;", t, "&amp;", "&");
    PassOther(p, "&#39;", a, "&lt;", "<");
    PassOther(p, "&#39;", b, "&gt;", ">");
    PassOther(p, "&#39;", c, "&quot;", "\"");
    PassMatch(p, "&#39;", d, "'");
  }

  /**
   * The decode, step by step: an entity other than `&amp;` that follows text
   * without `&` becomes its character, and decoding continues after it.
   */
  lemma EntityStep(p: string, e: string, d: string, t: string)
    requires '&' !in p
    requires || (e == "&lt;" && d == "<") || (e == "&gt;" && d == ">")
             || (e == "&quot;" && d == "\"") || (e == "&#39;" && d == "'")
    ensures DecodeEntities(p + e + t) == p + d + DecodeEntities(t)
  {
    if e == "&lt;" {
      LtStep(p, t);
    } else if e == "&gt;" {
      GtStep(p, t);
    } else if e == "&quot;" {
      QuotStep(p, t);
    } else {
      AposStep(p, t);
    }
  }

  /** `t` starts with `x`. */
  predicate Begins(t: string, x: string) {
    |x| <= |t| && t[..|x|] == x
  }

  /** A pass for entity `q` leaves a lone `&` alone unless the text after it completes `q`. */
  lemma LoneAmpersand(p: string, t: string, q: string, r: string)
    requires '&' !in p && '&' !in t
    requires |q| >= 2 && q[0] == '&' && !Begins(t, q[1..])
    ensures ReplaceAll(p + "&" + t, q, r) == p + "&" + t
  {
    var s := p + "&" + t;
    forall i | 0 <= i
      ensures !OccursAt(s, q, i)
    {
      if i + |q| <= |s| {
        assert s[i..i + |q|][0] == s[i];
        if i < |p| {
          assert s[i] == p[i];
        } else if i == |p| {
          assert s[i..i + |q|][1..] == t[..|q| - 1];
        } else {
          assert s[i] == t[i - |p| - 1];
        }
      }
    }
  }

  /**
   * `&amp;` after text without `&` decodes to `&`. When the rest holds no
   * other `&` and does not continue that `&` into another entity, the rest is
   * kept as it is. With a continuation, `AmpersandDecodedFirst` shows the
   * second decode.
   */
  lemma AmpStep(p: string, t: string)
    requires '&' !in p && '&' !in t
    requires !Begins(t, "lt;") && !Begins(t, "gt;") && !Begins(t, "quot;") && !Begins(t, "#39;")
    ensures DecodeEntities(p + "&amp;" + t) == p + "&" + t
  {
    PassMatch(p, "&amp;", t, "&");
    ReplaceAbsent(t, "&amp;", 0, "&");
    LoneAmpersand(p, t, "&lt;", "<");
    LoneAmpersand(p, t, "&gt;", ">");
    LoneAmpersand(p, t, "&quot;", "\"");
    LoneAmpersand(p, t, "&#39;", "'");
  }

  /**
   * Because `&amp;` is decoded first, an escaped entity is decoded twice:
   * the text `&amp;lt;` (which displays as `&lt;`) comes out as `<`.
   */
  lemma AmpersandDecodedFirst()
    ensures DecodeEntities("&amp;lt;") == "<"
  {
    ReplaceAllAtStart("&amp;", "lt;", "&");
    ReplaceAbsent("lt;", "&amp;", 0, "&");
    assert "&amp;" + "lt;" == "&amp;lt;";
    assert "&" + "lt;" == "&lt;";
    ReplaceWhole("&lt;", "<");
  }

  // ---------------------------------------------------------------------------
  // long text

  /**
   * One fragment's `.html()?.replace(comments).replace(breaks).trim() || ""`:
   * a fragment without inner HTML contributes "".
   */
  function NormalizeFragment(html: Option<string>): (r: string)
    ensures html.None? ==> r == ""
    ensures |r| > 0 ==> !IsSpace(r[0]) && !IsSpace(r[|r| - 1])
  {
    match html
    case None => ""
    case Some(h) => Trim(ReplaceBreaks(StripComments(h)))
  }

  /** The normalised fragments, concatenated in document order without a separator. */
  function ConcatFragments(frags: seq<Option<string>>): (r: string)
    ensures frags == [] ==> r == ""
  {
    ConcatMap(frags, NormalizeFragment)
  }

  /** Concatenation is per fragment: the text of `a + b` is the text of `a` followed by that of `b`. */
  lemma ConcatFragmentsAppend(a: seq<Option<string>>, b: seq<Option<string>>)
    ensures ConcatFragments(a + b) == ConcatFragments(a) + ConcatFragments(b)
  {
    ConcatMapAppend(a, b, NormalizeFragment);
  }

  /** The lyrics / introduction text: concatenated normalised fragments, then entity-decoded. */
  function LongText(frags: seq<Option<string>>): (r: string)
    ensures frags == [] ==> r == ""
  {
    DecodeEntities(ConcatFragments(frags))
  }

  /** Plain fragments (no markup, no entities) are only trimmed and concatenated. */
  lemma LongTextOfPlainFragment(t: string)
    requires '<' !in t && '&' !in t
    ensures LongText([Some(t)]) == Trim(t)
  {
    StripCommentsPlainText(t);
    ReplaceBreaksPlainPrefix(t, "");
    assert t + "" == t;
    var frags := [Some(t)];
    assert frags[..0] == [];
    var tt := Trim(t);
    assert forall c :: c in tt ==> c in t;
  }
}
