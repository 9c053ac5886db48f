/**
 * The string operations the pipeline relies on, written out with the semantics of the
 * library calls they stand for: Python's `str.strip`, `str.split(",")`, `str.splitlines`
 * and `str.startswith`, and polars' `str.strip_chars`, `str.replace_all(literal=True)`
 * and `str.strip_suffix`.
 */
module Text {

  /** Which library's notion of whitespace a strip uses. */
  datatype Whitespace =
    | Polars  // Rust's `char::is_whitespace`, stripped by polars' `strip_chars()` without arguments
    | Python  // Python's `str.isspace`, stripped by `str.strip()`

  /** Rust accepts the Unicode White_Space characters; Python also counts the four
      information separators U+001C..U+001F. */
  predicate IsSpace(c: char, ws: Whitespace) {
    ('\t' <= c <= '\r') || c == ' ' || c == '\U{85}' || c == '\U{A0}' || c == '\U{1680}'
    || ('\U{2000}' <= c <= '\U{200A}') || c == '\U{2028}' || c == '\U{2029}' || c == '\U{202F}'
    || c == '\U{205F}' || c == '\U{3000}'
    || (ws == Python && '\U{1C}' <= c <= '\U{1F}')
  }

  /** The line boundaries of Python's `str.splitlines()` (`"\r\n"` counts as one). */
  predicate IsLineBreak(c: char) {
    ('\n' <= c <= '\r') || ('\U{1C}' <= c <= '\U{1E}') || c == '\U{85}' || c == '\U{2028}' || c == '\U{2029}'
  }

  predicate StartsWith(s: string, prefix: string) {
    |prefix| <= |s| && s[..|prefix|] == prefix
  }

  predicate EndsWith(s: string, suffix: string) {
    |suffix| <= |s| && s[|s| - |suffix|..] == suffix
  }

  /** `s` neither begins nor ends with a character of `ws`. */
  predicate IsStripped(s: string, ws: Whitespace) {
    s == [] || (!IsSpace(s[0], ws) && !IsSpace(s[|s| - 1], ws))
  }

  predicate AllIn(s: string, ws: Whitespace) {
    forall k :: 0 <= k < |s| ==> IsSpace(s[k], ws)
  }

  /** `s` without its leading characters from `ws` (Python `lstrip`). */
  function TrimLeft(s: string, ws: Whitespace): (r: string)
    ensures |r| <= |s|
    ensures r == [] || !IsSpace(r[0], ws)
  {
    if s != [] && IsSpace(s[0], ws) then TrimLeft(s[1..], ws) else s
  }

  /** `s` without its trailing characters from `ws` (Python `rstrip`). */
  function TrimRight(s: string, ws: Whitespace): (r: string)
    ensures |r| <= |s|
    ensures r != [] ==> r[0] == s[0]
    ensures r == [] || !IsSpace(r[|r| - 1], ws)
  {
    if s != [] && IsSpace(s[|s| - 1], ws) then TrimRight(s[..|s| - 1], ws) else s
  }

  /** `s` without leading and trailing characters from `ws` (Python `strip`, polars `strip_chars`). */
  function Strip(s: string, ws: Whitespace): (r: string)
    ensures IsStripped(r, ws)
    ensures |r| <= |s|
    ensures r != [] ==> TrimLeft(s, ws) != [] && r[0] == TrimLeft(s, ws)[0]
  {
    TrimRight(TrimLeft(s, ws), ws)
  }

  lemma {:induction false} TrimLeftPadded(pad: string, s: string, ws: Whitespace)
    requires AllIn(pad, ws)
    requires s == [] || !IsSpace(s[0], ws)
    ensures TrimLeft(pad + s, ws) == s
  {
    if pad != [] {
      var u := pad + s;
      assert u[0] == pad[0] && u[1..] == pad[1..] + s;
      TrimLeftPadded(pad[1..], s, ws);
    } else {
      assert pad + s == s;
    }
  }

  lemma {:induction false} TrimRightPadded(s: string, pad: string, ws: Whitespace)
    requires AllIn(pad, ws)
    requires s == [] || !IsSpace(s[|s| - 1], ws)
    ensures TrimRight(s + pad, ws) == s
  {
    if pad != [] {
      var u := s + pad;
      assert u[|u| - 1] == pad[|pad| - 1] && u[..|u| - 1] == s + pad[..|pad| - 1];
      TrimRightPadded(s, pad[..|pad| - 1], ws);
    } else {
      assert s + pad == s;
    }
  }

  /** Strip is characterised by what it removes: surrounding padding goes, a stripped core stays. */
  lemma StripPadded(pre: string, s: string, post: string, ws: Whitespace)
    requires AllIn(pre, ws) && AllIn(post, ws)
    requires IsStripped(s, ws)
    ensures Strip(pre + s + post, ws) == s
  {
    if s == [] {
      assert pre + s + post == pre + post;
      if post == [] {
        assert pre + post == pre + [];
        TrimLeftPadded(pre, [], ws);
      } else {
        TrimLeftPadded(pre, [], ws);
        assert TrimLeft(pre + post, ws) == TrimLeft(post, ws) by {
          TrimLeftSkip(pre, post, ws);
        }
        TrimLeftAll(post, ws);
      }
    } else {
      assert pre + s + post == pre + (s + post);
      TrimLeftPadded(pre, s + post, ws);
      TrimRightPadded(s, post, ws);
    }
  }

  lemma {:induction false} TrimLeftSkip(pre: string, t: string, ws: Whitespace)
    requires AllIn(pre, ws)
    ensures TrimLeft(pre + t, ws) == TrimLeft(t, ws)
  {
    if pre != [] {
      var u := pre + t;
      assert u[0] == pre[0] && IsSpace(u[0], ws);
      assert TrimLeft(u, ws) == TrimLeft(u[1..], ws);
      assert u[1..] == pre[1..] + t;
      TrimLeftSkip(pre[1..], t, ws);
    } else {
      assert pre + t == t;
    }
  }

  lemma {:induction false} TrimLeftAll(s: string, ws: Whitespace)
    requires AllIn(s, ws)
    ensures TrimLeft(s, ws) == []
  {
    if s != [] {
      TrimLeftAll(s[1..], ws);
    }
  }

  /** A string that is already stripped is left as it is, so Strip is idempotent. */
  lemma StripStripped(s: string, ws: Whitespace)
    requires IsStripped(s, ws)
    ensures Strip(s, ws) == s
  {
    assert [] + s + [] == s;
    StripPadded([], s, [], ws);
  }

  // ---- Python str.split(sep) with an explicit one-character separator ----

  /** `p` does not hold `sep`. */
  predicate Free(p: string, sep: char) {
    forall j :: 0 <= j < |p| ==> p[j] != sep
  }

  /** The pieces joined by `sep`: the inverse of `SplitOn`. */
  function Join(parts: seq<string>, sep: char): string {
    if parts == [] then ""
    else if |parts| == 1 then parts[0]
    else parts[0] + [sep] + Join(parts[1..], sep)
  }

  /** Index of the first `sep` in `s`, or `|s|` when there is none. */
  function IndexOf(s: string, sep: char): (i: nat)
    ensures i <= |s|
    ensures i < |s| ==> s[i] == sep
    ensures forall j :: 0 <= j < i ==> s[j] != sep
  {
    if s == [] then 0
    else if s[0] == sep then 0
    else 1 + IndexOf(s[1..], sep)
  }

  /** Python's `s.split(sep)`: never empty, an empty string gives `[""]`, adjacent
      separators give empty pieces. */
  function SplitOn(s: string, sep: char): (r: seq<string>)
    ensures |r| >= 1
    decreases |s|
  {
    var i := IndexOf(s, sep);
    if i == |s| then [s]
    else [s[..i]] + SplitOn(s[i + 1..], sep)
  }

  /** Joining the pieces of a split gives back the text. */
  lemma {:induction false} SplitOnJoin(s: string, sep: char)
    ensures Join(SplitOn(s, sep), sep) == s
    decreases |s|
  {
    var i := IndexOf(s, sep);
    if i < |s| {
      SplitPoint(s, sep);
      var head, rest := s[..i], s[i + 1..];
      SplitOnJoin(rest, sep);
      SplitAt(s, head, rest, sep);
      var pieces := SplitOn(rest, sep);
      assert SplitOn(s, sep) == [head] + pieces;
      assert Join([head] + pieces, sep) == head + [sep] + Join(pieces, sep) by {
        assert ([head] + pieces)[1..] == pieces;
      }
    } else {
      assert SplitOn(s, sep) == [s];
    }
  }

  lemma {:induction false} IndexOfJoin(p: string, sep: char, t: string)
    requires Free(p, sep)
    ensures IndexOf(p + [sep] + t, sep) == |p|
  {
    var u := p + [sep] + t;
    if p != [] {
      assert u[0] == p[0] && u[1..] == p[1..] + [sep] + t;
      IndexOfJoin(p[1..], sep, t);
    } else {
      assert u[0] == sep;
    }
  }

  lemma {:induction false} IndexOfAbsent(p: string, sep: char)
    requires Free(p, sep)
    ensures IndexOf(p, sep) == |p|
  {
    if p != [] {
      IndexOfAbsent(p[1..], sep);
    }
  }

  /** Splitting recovers the pieces that were joined, provided none of them holds the separator. */
  lemma {:induction false} SplitJoin(parts: seq<string>, sep: char)
    requires |parts| >= 1
    requires forall k :: 0 <= k < |parts| ==> Free(parts[k], sep)
    ensures SplitOn(Join(parts, sep), sep) == parts
  {
    var p := parts[0];
    if |parts| == 1 {
      IndexOfAbsent(p, sep);
      assert SplitOn(p, sep) == [p];
    } else {
      var t := Join(parts[1..], sep);
      var s := p + [sep] + t;
      assert Join(parts, sep) == s;
      IndexOfJoin(p, sep, t);
      assert s[..|p|] == p;
      assert s[|p| + 1..] == t;
      assert SplitOn(s, sep) == [p] + SplitOn(t, sep);
      SplitJoin(parts[1..], sep);
      assert parts == [p] + parts[1..];
    }
  }

  /** A piece free of the separator, then the separator, splits off as the first piece. */
  lemma SplitAt(s: string, p: string, t: string, sep: char)
    requires Free(p, sep) && s == p + [sep] + t
    ensures SplitOn(s, sep) == [p] + SplitOn(t, sep)
  {
    IndexOfJoin(p, sep, t);
    assert s[..|p|] == p && s[|p| + 1..] == t;
  }

  /** Appending to a text that was cut at a separator appends to its tail. */
  lemma Regroup(a: string, head: string, tail: string, b: string, sep: char)
    requires a == head + [sep] + tail
    ensures a + [sep] + b == head + [sep] + (tail + [sep] + b)
  {
  }

  /** A text holding the separator is its first piece, the separator and the rest. */
  lemma SplitPoint(a: string, sep: char)
    requires IndexOf(a, sep) < |a|
    ensures Free(a[..IndexOf(a, sep)], sep)
    ensures a == a[..IndexOf(a, sep)] + [sep] + a[IndexOf(a, sep) + 1..]
  {
  }

  /** Splitting a text at a separator it holds splits both sides: the pieces keep text order. */
  lemma {:induction false} SplitOnConcat(a: string, b: string, sep: char)
    ensures SplitOn(a + [sep] + b, sep) == SplitOn(a, sep) + SplitOn(b, sep)
    decreases |a|, 1
  {
    var i := IndexOf(a, sep);
    if i == |a| {
      SplitAt(a + [sep] + b, a, b, sep);
      IndexOfAbsent(a, sep);
    } else {
      SplitPoint(a, sep);
      SplitOnConcatCut(a, b, a[..i], a[i + 1..], sep);
    }
  }

  /** `SplitOnConcat` for a left side that holds the separator, cut at its first one. */
  lemma {:induction false} SplitOnConcatCut(a: string, b: string, head: string, tail: string, sep: char)
    requires Free(head, sep) && a == head + [sep] + tail
    ensures SplitOn(a + [sep] + b, sep) == SplitOn(a, sep) + SplitOn(b, sep)
    decreases |a|, 0
  {
    Regroup(a, head, tail, b, sep);
    SplitAt(a + [sep] + b, head, tail + [sep] + b, sep);
    SplitAt(a, head, tail, sep);
    SplitOnConcat(tail, b, sep);
  }

  // ---- Python str.splitlines() ----

  predicate NoLineBreak(l: string) {
    forall j :: 0 <= j < |l| ==> !IsLineBreak(l[j])
  }

  /** Index of the first line boundary of `s`, or `|s|`. */
  function LineEnd(s: string): (i: nat)
    ensures i <= |s|
    ensures i < |s| ==> IsLineBreak(s[i])
    ensures NoLineBreak(s[..i])
  {
    if s == [] || IsLineBreak(s[0]) then 0
    else
      assert s[..1 + LineEnd(s[1..])] == [s[0]] + s[1..][..LineEnd(s[1..])];
      1 + LineEnd(s[1..])
  }

  /** Python's `s.splitlines()`: the lines without their boundaries; a final boundary does not
      open an empty last line, and `"\r\n"` is a single boundary. */
  function SplitLines(s: string): (r: seq<string>)
    ensures forall k :: 0 <= k < |r| ==> NoLineBreak(r[k])
    decreases |s|
  {
    if s == [] then []
    else
      var i := LineEnd(s);
      if i == |s| then
        assert s[..i] == s;
        [s]
      else
        var width := if s[i] == '\r' && i + 1 < |s| && s[i + 1] == '\n' then 2 else 1;
        [s[..i]] + SplitLines(s[i + width..])
  }

  /** The text of a file holding `lines`, each terminated by `"\n"`. */
  function JoinLines(lines: seq<string>): string {
    if lines == [] then "" else lines[0] + "\n" + JoinLines(lines[1..])
  }

  /** A line without boundaries followed by a boundary: the first boundary is the one after it. */
  lemma {:induction false} LineEndAt(l: string, c: char, t: string)
    requires NoLineBreak(l) && IsLineBreak(c)
    ensures LineEnd(l + [c] + t) == |l|
  {
    if l != [] {
      assert (l + [c] + t)[1..] == l[1..] + [c] + t;
      LineEndAt(l[1..], c, t);
    }
  }

  /** A text without boundaries ends its only line at its end. */
  lemma {:induction false} LineEndWhole(l: string)
    requires NoLineBreak(l)
    ensures LineEnd(l) == |l|
  {
    if l != [] {
      LineEndWhole(l[1..]);
    }
  }

  /** A text without boundaries is one line, or no line when it is empty. */
  lemma SplitLinesNoBreak(l: string)
    requires NoLineBreak(l)
    ensures SplitLines(l) == if l == [] then [] else [l]
  {
    LineEndWhole(l);
  }

  /** A boundary character ends the line before it and splitting resumes right after it; for a
      `'\r'` this holds when no `'\n'` follows, for `"\r\n"` see `SplitLinesCrLf`. */
  lemma SplitLinesCut(l: string, c: char, t: string)
    requires NoLineBreak(l) && IsLineBreak(c)
    requires !(c == '\r' && t != [] && t[0] == '\n')
    ensures SplitLines(l + [c] + t) == [l] + SplitLines(t)
  {
    var s := l + [c] + t;
    LineEndAt(l, c, t);
    assert s[|l|] == c;
    assert |l| + 1 < |s| ==> s[|l| + 1] == t[0];
    assert s[..|l|] == l;
    assert s[|l| + 1..] == t;
  }

  /** `"\r\n"` ends the line before it as a single boundary. */
  lemma SplitLinesCrLf(l: string, t: string)
    requires NoLineBreak(l)
    ensures SplitLines(l + "\r\n" + t) == [l] + SplitLines(t)
  {
    var s := l + "\r\n" + t;
    assert s == l + ['\r'] + ("\n" + t);
    LineEndAt(l, '\r', "\n" + t);
    assert s[|l|] == '\r' && s[|l| + 1] == '\n';
    assert s[..|l|] == l;
    assert s[|l| + 2..] == t;
  }

  /** Reading back a file written line by line gives the lines written. */
  lemma {:induction false} SplitLinesJoin(lines: seq<string>)
    requires forall k :: 0 <= k < |lines| ==> NoLineBreak(lines[k])
    ensures SplitLines(JoinLines(lines)) == lines
  {
    if lines != [] {
      var s := JoinLines(lines);
      var l := lines[0];
      assert s == l + ['\n'] + JoinLines(lines[1..]);
      LineEndAt(l, '\n', JoinLines(lines[1..]));
      assert s[|l|] == '\n';
      assert s[..|l|] == l;
      assert s[|l| + 1..] == JoinLines(lines[1..]);
      SplitLinesJoin(lines[1..]);
      assert lines == [l] + lines[1..];
    }
  }

  // ---- polars str.replace_all(pattern, "", literal=True) ----

  /** `pat` occurs in `s` at position `i`. */
  predicate MatchAt(s: string, pat: string, i: nat) {
    i + |pat| <= |s| && s[i..i + |pat|] == pat
  }

  /** `pat` occurs somewhere in `s`. */
  ghost predicate ContainsInfix(s: string, pat: string) {
    exists i: nat :: MatchAt(s, pat, i)
  }

  /** The number of matches a left-to-right, non-overlapping scan for `pat` finds. */
  function Matches(s: string, pat: string): nat
    requires |pat| > 0
    decreases |s|
  {
    if |s| < |pat| then 0
    else if s[..|pat|] == pat then 1 + Matches(s[|pat|..], pat)
    else Matches(s[1..], pat)
  }

  /** `s` with every leftmost non-overlapping occurrence of `pat` deleted. */
  function RemoveAll(s: string, pat: string): (r: string)
    requires |pat| > 0
    ensures |r| <= |s|
    decreases |s|
  {
    if |s| < |pat| then s
    else if s[..|pat|] == pat then RemoveAll(s[|pat|..], pat)
    else [s[0]] + RemoveAll(s[1..], pat)
  }

  lemma MulSucc(q: int, m: int)
    ensures q * (1 + m) == q + q * m
  {
  }

  /** Each match found by the scan shortens the text by the pattern's length. */
  lemma {:induction false} RemoveAllLength(s: string, pat: string)
    requires |pat| > 0
    ensures |RemoveAll(s, pat)| == |s| - |pat| * Matches(s, pat)
    decreases |s|
  {
    var q := |pat|;
    if |s| < q {
      assert Matches(s, pat) == 0;
    } else if s[..q] == pat {
      var t := s[q..];
      RemoveAllLength(t, pat);
      var m := Matches(t, pat);
      assert Matches(s, pat) == 1 + m;
      assert RemoveAll(s, pat) == RemoveAll(t, pat);
      assert |t| == |s| - q;
      MulSucc(q, m);
    } else {
      var t := s[1..];
      RemoveAllLength(t, pat);
      assert Matches(s, pat) == Matches(t, pat);
      assert RemoveAll(s, pat) == [s[0]] + RemoveAll(t, pat);
    }
  }

  /** A text the pattern does not occur in is left as it is. */
  lemma {:induction false} NoMatchUnchanged(s: string, pat: string)
    requires |pat| > 0
    requires !ContainsInfix(s, pat)
    ensures RemoveAll(s, pat) == s
    decreases |s|
  {
    if |s| >= |pat| {
      assert s[0..0 + |pat|] == s[..|pat|];
      assert !MatchAt(s, pat, 0);
      assert !ContainsInfix(s[1..], pat) by {
        forall i: nat | MatchAt(s[1..], pat, i)
          ensures false
        {
          assert s[1..][i..i + |pat|] == s[i + 1..i + 1 + |pat|];
          assert MatchAt(s, pat, i + 1);
        }
      }
      NoMatchUnchanged(s[1..], pat);
    }
  }

  lemma {:induction false} FoundMatch(s: string, pat: string, i: nat)
    requires |pat| > 0
    requires MatchAt(s, pat, i)
    ensures Matches(s, pat) >= 1
    decreases i
  {
    if s[..|pat|] != pat {
      assert i != 0;
      assert s[1..][i - 1..i - 1 + |pat|] == s[i..i + |pat|];
      assert MatchAt(s[1..], pat, i - 1);
      FoundMatch(s[1..], pat, i - 1);
    }
  }

  /** The removal leaves a text unchanged exactly when the pattern does not occur in it. */
  lemma RemoveAllUnchangedIff(s: string, pat: string)
    requires |pat| > 0
    ensures RemoveAll(s, pat) == s <==> !ContainsInfix(s, pat)
  {
    if ContainsInfix(s, pat) {
      var i: nat :| MatchAt(s, pat, i);
      FoundMatch(s, pat, i);
      RemoveAllLength(s, pat);
    } else {
      NoMatchUnchanged(s, pat);
    }
  }

  /** Dropping the first character moves every occurrence one place to the left. */
  lemma MatchShift(s: string, pat: string, j: nat)
    requires s != []
    ensures MatchAt(s[1..], pat, j) <==> MatchAt(s, pat, j + 1)
  {
    if j + |pat| <= |s| - 1 {
      assert s[1..][j..j + |pat|] == s[j + 1..j + 1 + |pat|];
    }
  }

  /** The first occurrence of the pattern is deleted, the text before it is kept as it is and
      the scan resumes right after it. */
  lemma {:induction false} RemoveAllFirstMatch(s: string, pat: string, i: nat)
    requires |pat| > 0
    requires MatchAt(s, pat, i)
    requires forall j: nat :: j < i ==> !MatchAt(s, pat, j)
    ensures RemoveAll(s, pat) == s[..i] + RemoveAll(s[i + |pat|..], pat)
    decreases i, 1
  {
    if i == 0 {
      RemoveAllAtStart(s, pat);
    } else {
      FirstMatchShift(s, pat, i);
      RemoveAllKeepStep(s, pat, i);
    }
  }

  /** A match at the start is deleted. */
  lemma RemoveAllAtStart(s: string, pat: string)
    requires |pat| > 0 && MatchAt(s, pat, 0)
    ensures RemoveAll(s, pat) == s[..0] + RemoveAll(s[0 + |pat|..], pat)
  {
    assert s[0..0 + |pat|] == s[..|pat|];
    assert s[..0] + RemoveAll(s[|pat|..], pat) == RemoveAll(s[|pat|..], pat);
  }

  /** A character before the first match is kept. */
  lemma {:induction false} RemoveAllKeepStep(s: string, pat: string, i: nat)
    requires |pat| > 0 && 0 < i && i + |pat| <= |s| && !MatchAt(s, pat, 0)
    requires MatchAt(s[1..], pat, i - 1)
    requires forall j: nat :: j < i - 1 ==> !MatchAt(s[1..], pat, j)
    ensures RemoveAll(s, pat) == s[..i] + RemoveAll(s[i + |pat|..], pat)
    decreases i, 0
  {
    var t := s[1..];
    RemoveAllFirstMatch(t, pat, i - 1);
    assert s[0..0 + |pat|] == s[..|pat|];
    assert t[i - 1 + |pat|..] == s[i + |pat|..];
    assert RemoveAll(s, pat) == [s[0]] + RemoveAll(t, pat);
    ConsPrefix(s, i, RemoveAll(s[i + |pat|..], pat));
  }

  /** Dropping a character before the first match keeps it the first match. */
  lemma FirstMatchShift(s: string, pat: string, i: nat)
    requires i > 0 && MatchAt(s, pat, i)
    requires forall j: nat :: j < i ==> !MatchAt(s, pat, j)
    ensures !MatchAt(s, pat, 0)
    ensures MatchAt(s[1..], pat, i - 1)
    ensures forall j: nat :: j < i - 1 ==> !MatchAt(s[1..], pat, j)
  {
    MatchShift(s, pat, i - 1);
    forall j: nat | j < i - 1
      ensures !MatchAt(s[1..], pat, j)
    {
      MatchShift(s, pat, j);
    }
  }

  lemma ConsPrefix(s: string, k: nat, rest: string)
    requires 0 < k <= |s|
    ensures [s[0]] + (s[1..][..k - 1] + rest) == s[..k] + rest
  {
    assert [s[0]] + s[1..][..k - 1] == s[..k];
  }

  /** polars `str.strip_suffix`: one copy of `suffix` is removed from the end when present. */
  function StripSuffix(s: string, suffix: string): (r: string)
    ensures EndsWith(s, suffix) ==> r + suffix == s
    ensures !EndsWith(s, suffix) ==> r == s
  {
    if EndsWith(s, suffix) then s[..|s| - |suffix|] else s
  }
}
