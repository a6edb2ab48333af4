/**
 * String helpers shared by the JavaScript/TypeScript and Python code of the
 * site: the two runtimes' notions of whitespace, `trim`/`strip`, the
 * `\s+` -> ' ' collapse, ASCII case mapping, substring search, `split`/`join`,
 * `parseInt`, and order-keeping de-duplication.  Strings are `seq<char>`.
 */
module Text {

  datatype Option<T> = None | Some(value: T)

  /** A string column or field that is truthy: present (not NULL/None) and not empty. */
  predicate Given(v: Option<string>) { v.Some? && v.value != [] }

  /** Which runtime's whitespace class is meant. */
  datatype Dialect = Js | Py

  /** The characters `.` in a JavaScript regular expression does not match. */
  predicate IsLineTerminator(c: char) {
    c == '\n' || c == '\r' || c == '\U{2028}' || c == '\U{2029}'
  }

  /** `\s` of a JavaScript regular expression; also what `trim()` and `parseInt` skip. */
  predicate IsJsSpace(c: char) {
    c == '\t' || c == '\n' || c == '\U{B}' || c == '\U{C}' || c == '\r' || c == ' '
    || c == '\U{A0}' || c == '\U{1680}' || ('\U{2000}' <= c <= '\U{200A}')
    || c == '\U{2028}' || c == '\U{2029}' || c == '\U{202F}' || c == '\U{205F}'
    || c == '\U{3000}' || c == '\U{FEFF}'
  }

  /** `str.isspace()` in Python, which is also `\s` of Python's `re` on str patterns. */
  predicate IsPySpace(c: char) {
    c == '\t' || c == '\n' || c == '\U{B}' || c == '\U{C}' || c == '\r'
    || ('\U{1C}' <= c <= '\U{1F}') || c == ' ' || c == '\U{85}' || c == '\U{A0}'
    || c == '\U{1680}' || ('\U{2000}' <= c <= '\U{200A}') || c == '\U{2028}'
    || c == '\U{2029}' || c == '\U{202F}' || c == '\U{205F}' || c == '\U{3000}'
  }

  predicate IsSpace(d: Dialect, c: char) {
    if d == Js then IsJsSpace(c) else IsPySpace(c)
  }

  /** Every character is whitespace (so `trim()` gives the empty, falsy string). */
  predicate Blank(d: Dialect, s: string) {
    forall k :: 0 <= k < |s| ==> IsSpace(d, s[k])
  }

  function LeadingSpaces(d: Dialect, s: string): (n: nat)
    ensures n <= |s|
    ensures Blank(d, s[..n])
    ensures n < |s| ==> !IsSpace(d, s[n])
  {
    if s == [] || !IsSpace(d, s[0]) then 0 else 1 + LeadingSpaces(d, s[1..])
  }

  function TrailingSpaces(d: Dialect, s: string): (n: nat)
    ensures n <= |s|
    ensures Blank(d, s[|s| - n..])
    ensures n < |s| ==> !IsSpace(d, s[|s| - 1 - n])
  {
    if s == [] || !IsSpace(d, s[|s| - 1]) then 0
    else 1 + TrailingSpaces(d, s[..|s| - 1])
  }

  /** `s.trim()` (Js) or `s.strip()` (Py). */
  function Trim(d: Dialect, s: string): (r: string)
    ensures |r| <= |s|
    ensures r == [] <==> Blank(d, s)
    ensures r != [] ==> !IsSpace(d, r[0]) && !IsSpace(d, r[|r| - 1])
    ensures var i := LeadingSpaces(d, s);
      i + |r| <= |s| && s[i..i + |r|] == r && Blank(d, s[i + |r|..])
  {
    var i := LeadingSpaces(d, s);
    var t := s[i..];
    var j := TrailingSpaces(d, t);
    TrimParts(d, s, i, t, j);
    t[..|t| - j]
  }

  /** The facts `Trim` promises, about the cut it makes. */
  lemma TrimParts(d: Dialect, s: string, i: nat, t: string, j: nat)
    requires i == LeadingSpaces(d, s) && t == s[i..] && j == TrailingSpaces(d, t)
    ensures var r := t[..|t| - j];
      && (r == [] <==> Blank(d, s))
      && (r != [] ==> !IsSpace(d, r[0]) && !IsSpace(d, r[|r| - 1]))
      && i + |r| <= |s| && s[i..i + |r|] == r && Blank(d, s[i + |r|..])
  {
    var r := t[..|t| - j];
    assert s[i..i + |r|] == r;
    assert s[i + |r|..] == t[|t| - j..];
    assert Blank(d, s) <== r == [] by {
      if r == [] {
        assert t[|t| - j..] == t;
        assert s == s[..i] + t;
      }
    }
    assert r != [] ==> !IsSpace(d, r[0]) && !IsSpace(d, r[|r| - 1]) by {
      if r != [] {
        assert r[0] == s[i];
        assert r[|r| - 1] == t[|t| - 1 - j];
      }
    }
  }

  lemma {:induction false} TrimIdempotent(d: Dialect, s: string)
    ensures Trim(d, Trim(d, s)) == Trim(d, s)
  {
    var r := Trim(d, s);
    if r != [] {
      assert LeadingSpaces(d, r) == 0;
      assert TrailingSpaces(d, r) == 0;
    }
  }

  /** The trim of `s` is `t` when `t` sits at `i` between blank margins and has no space at its ends. */
  lemma TrimOf(d: Dialect, s: string, i: nat, t: string)
    requires i + |t| <= |s| && s[i..i + |t|] == t && t != []
    requires Blank(d, s[..i]) && Blank(d, s[i + |t|..])
    requires !IsSpace(d, t[0]) && !IsSpace(d, t[|t| - 1])
    ensures Trim(d, s) == t
  {
    LeadingSpacesIs(d, s, i);
    var r := Trim(d, s);
    assert s[i + |t| - 1] == t[|t| - 1];
    if |r| > 0 {
      assert s[i + |r| - 1] == r[|r| - 1];
    }
    assert |r| == |t|;
  }

  lemma {:induction false} LeadingSpacesIs(d: Dialect, s: string, i: nat)
    requires i < |s| && Blank(d, s[..i]) && !IsSpace(d, s[i])
    ensures LeadingSpaces(d, s) == i
  {
    if i > 0 {
      assert s[..i][0] == s[0];
      assert s[1..][..i - 1] == s[1..i];
      LeadingSpacesIs(d, s[1..], i - 1);
    }
  }

  /** The non-whitespace characters of `s`, in order. */
  function NonSpace(d: Dialect, s: string): string {
    if s == [] then [] else (if IsSpace(d, s[0]) then [] else [s[0]]) + NonSpace(d, s[1..])
  }

  lemma {:induction false} NonSpaceAppend(d: Dialect, a: string, b: string)
    ensures NonSpace(d, a + b) == NonSpace(d, a) + NonSpace(d, b)
  {
    if a == [] {
      assert a + b == b;
    } else {
      var head := if IsSpace(d, a[0]) then [] else [a[0]];
      assert (a + b)[0] == a[0];
      assert (a + b)[1..] == a[1..] + b;
      NonSpaceAppend(d, a[1..], b);
      calc {
        NonSpace(d, a + b);
        head + NonSpace(d, a[1..] + b);
        head + (NonSpace(d, a[1..]) + NonSpace(d, b));
        (head + NonSpace(d, a[1..])) + NonSpace(d, b);
      }
    }
  }

  lemma {:induction false} NonSpaceBlank(d: Dialect, s: string)
    requires Blank(d, s)
    ensures NonSpace(d, s) == []
  {
    if s != [] { NonSpaceBlank(d, s[1..]); }
  }

  /** `s.replace(/\s+/g, ' ')` (Js) or `re.sub(r'\s+', ' ', s)` (Py). */
  function Collapse(d: Dialect, s: string): (r: string)
    ensures |r| <= |s|
    ensures r != [] ==> s != [] && (IsSpace(d, r[0]) <==> IsSpace(d, s[0]))
    ensures forall k :: 0 <= k < |r| && IsSpace(d, r[k]) ==> r[k] == ' '
    ensures forall k :: 0 <= k < |r| - 1 ==> !(IsSpace(d, r[k]) && IsSpace(d, r[k + 1]))
    ensures NonSpace(d, r) == NonSpace(d, s)
    decreases |s|
  {
    if s == [] then []
    else if IsSpace(d, s[0]) then
      var n := LeadingSpaces(d, s);
      var rest := Collapse(d, s[n..]);
      assert s == s[..n] + s[n..];
      NonSpaceAppend(d, s[..n], s[n..]);
      NonSpaceBlank(d, s[..n]);
      assert IsSpace(d, ' ');
      NonSpaceAppend(d, [' '], rest);
      [' '] + rest
    else
      var rest := Collapse(d, s[1..]);
      NonSpaceAppend(d, [s[0]], rest);
      [s[0]] + rest
  }

  /** Whitespace-normal text: no whitespace but ' ', never two in a row, none at either end. */
  predicate Normalised(d: Dialect, r: string) {
    && (forall k :: 0 <= k < |r| && IsSpace(d, r[k]) ==> r[k] == ' ')
    && (forall k :: 0 <= k < |r| - 1 ==> !(IsSpace(d, r[k]) && IsSpace(d, r[k + 1])))
    && (r != [] ==> !IsSpace(d, r[0]) && !IsSpace(d, r[|r| - 1]))
  }

  /** Collapse then trim: the `\s+` -> ' ' then `trim()`/`strip()` idiom. */
  function Squeeze(d: Dialect, s: string): (r: string)
    ensures Normalised(d, r)
    ensures NonSpace(d, r) == NonSpace(d, s)
    ensures |r| <= |s|
  {
    var c := Collapse(d, s);
    TrimKeepsSpacing(d, c);
    NonSpaceTrim(d, c);
    Trim(d, c)
  }

  lemma TrimKeepsSpacing(d: Dialect, c: string)
    requires forall k :: 0 <= k < |c| && IsSpace(d, c[k]) ==> c[k] == ' '
    requires forall k :: 0 <= k < |c| - 1 ==> !(IsSpace(d, c[k]) && IsSpace(d, c[k + 1]))
    ensures Normalised(d, Trim(d, c))
  {
    var r := Trim(d, c);
    var i := LeadingSpaces(d, c);
    assert forall k :: 0 <= k < |r| ==> r[k] == c[i + k];
  }

  lemma NonSpaceTrim(d: Dialect, c: string)
    ensures NonSpace(d, Trim(d, c)) == NonSpace(d, c)
  {
    var r := Trim(d, c);
    var i := LeadingSpaces(d, c);
    var a := c[..i];
    var b := c[i + |r|..];
    assert c[i..] == r + b by {
      assert c[i..][..|r|] == r;
      assert c[i..][|r|..] == b;
    }
    assert c == a + (r + b) by {
      assert c == c[..i] + c[i..];
    }
    NonSpaceAppend(d, a, r + b);
    NonSpaceAppend(d, r, b);
    NonSpaceBlank(d, a);
    NonSpaceBlank(d, b);
    calc {
      NonSpace(d, c);
      NonSpace(d, a) + NonSpace(d, r + b);
      NonSpace(d, r + b);
      NonSpace(d, r) + NonSpace(d, b);
      NonSpace(d, r);
    }
  }

  /**
   * For each non-space character after the first, whether white space
   * separates it from the one before: with `NonSpace` this says what the
   * words of a text are, and white space at either end does not show.
   */
  function Gaps(d: Dialect, s: string): seq<bool> {
    if s == [] then []
    else if IsSpace(d, s[0]) then Gaps(d, s[1..])
    else [false] + GapsFrom(d, s[1..], false)
  }

  /** `Gaps` of the text after a non-space character, `after` saying whether white space was just seen. */
  function GapsFrom(d: Dialect, s: string, after: bool): seq<bool> {
    if s == [] then []
    else if IsSpace(d, s[0]) then GapsFrom(d, s[1..], true)
    else [after] + GapsFrom(d, s[1..], false)
  }

  /** A run of white space reads as one gap, however long it is. */
  lemma {:induction false} GapsFromSkipBlank(d: Dialect, s: string, m: nat, after: bool)
    requires 1 <= m <= |s| && Blank(d, s[..m])
    ensures GapsFrom(d, s, after) == GapsFrom(d, s[m..], true)
  {
    assert IsSpace(d, s[..m][0]);
    if m > 1 {
      assert s[1..][..m - 1] == s[..m][1..];
      GapsFromSkipBlank(d, s[1..], m - 1, true);
      assert s[1..][m - 1..] == s[m..];
    }
  }

  /** White space before the first word does not show in `Gaps`. */
  lemma {:induction false} GapsSkipBlank(d: Dialect, s: string, m: nat)
    requires m <= |s| && Blank(d, s[..m])
    ensures Gaps(d, s) == Gaps(d, s[m..])
  {
    if m > 0 {
      assert IsSpace(d, s[..m][0]);
      assert s[1..][..m - 1] == s[..m][1..];
      GapsSkipBlank(d, s[1..], m - 1);
      assert s[1..][m - 1..] == s[m..];
    }
  }

  /** White space after the last word does not show either. */
  lemma {:induction false} GapsFromAppendBlank(d: Dialect, t: string, b: string, after: bool)
    requires Blank(d, b)
    ensures GapsFrom(d, t + b, after) == GapsFrom(d, t, after)
  {
    if t == [] {
      assert t + b == b;
      GapsFromBlank(d, b, after);
    } else {
      assert (t + b)[0] == t[0] && (t + b)[1..] == t[1..] + b;
      GapsFromAppendBlank(d, t[1..], b, IsSpace(d, t[0]));
    }
  }

  lemma {:induction false} GapsFromBlank(d: Dialect, b: string, after: bool)
    requires Blank(d, b)
    ensures GapsFrom(d, b, after) == []
  {
    if b != [] {
      GapsFromBlank(d, b[1..], true);
    }
  }

  lemma {:induction false} GapsAppendBlank(d: Dialect, t: string, b: string)
    requires Blank(d, b)
    ensures Gaps(d, t + b) == Gaps(d, t)
  {
    if t == [] {
      assert t + b == b;
      GapsSkipBlank(d, b, |b|);
      assert b[|b|..] == [];
    } else {
      assert (t + b)[0] == t[0] && (t + b)[1..] == t[1..] + b;
      GapsAppendBlank(d, t[1..], b);
      GapsFromAppendBlank(d, t[1..], b, false);
    }
  }

  /** `Collapse` keeps every word and every gap between words: a run of white space becomes one ' '. */
  lemma {:induction false} CollapseKeepsGapsFrom(d: Dialect, s: string, after: bool)
    ensures GapsFrom(d, Collapse(d, s), after) == GapsFrom(d, s, after)
    decreases |s|
  {
    if s != [] {
      if IsSpace(d, s[0]) {
        var n := LeadingSpaces(d, s);
        CollapseKeepsGapsFrom(d, s[n..], true);
        GapsFromSkipBlank(d, s, n, after);
        assert IsSpace(d, ' ');
        assert ([' '] + Collapse(d, s[n..]))[1..] == Collapse(d, s[n..]);
      } else {
        CollapseKeepsGapsFrom(d, s[1..], false);
        assert ([s[0]] + Collapse(d, s[1..]))[1..] == Collapse(d, s[1..]);
      }
    }
  }

  lemma {:induction false} CollapseKeepsGaps(d: Dialect, s: string)
    ensures Gaps(d, Collapse(d, s)) == Gaps(d, s)
    decreases |s|
  {
    if s != [] {
      if IsSpace(d, s[0]) {
        var n := LeadingSpaces(d, s);
        CollapseKeepsGaps(d, s[n..]);
        GapsSkipBlank(d, s, n);
        assert IsSpace(d, ' ');
        assert ([' '] + Collapse(d, s[n..]))[1..] == Collapse(d, s[n..]);
      } else {
        CollapseKeepsGapsFrom(d, s[1..], false);
        assert ([s[0]] + Collapse(d, s[1..]))[1..] == Collapse(d, s[1..]);
      }
    }
  }

  lemma TrimKeepsGaps(d: Dialect, c: string)
    ensures Gaps(d, Trim(d, c)) == Gaps(d, c)
  {
    var r := Trim(d, c);
    var i := LeadingSpaces(d, c);
    var b := c[i + |r|..];
    assert c[i..] == r + b by {
      assert c[i..][..|r|] == r;
      assert c[i..][|r|..] == b;
    }
    GapsSkipBlank(d, c, i);
    GapsAppendBlank(d, r, b);
  }

  /**
   * `Squeeze` keeps the words of the text and which of them white space
   * separated: with its `ensures` (one ' ' per gap, none at either end)
   * the result is the words joined by single spaces.
   */
  lemma SqueezeKeepsGaps(d: Dialect, s: string)
    ensures Gaps(d, Squeeze(d, s)) == Gaps(d, s)
  {
    CollapseKeepsGaps(d, s);
    TrimKeepsGaps(d, Collapse(d, s));
  }

  /**
   * Words and gaps pin a whitespace-normal text down: two such texts with
   * the same non-space characters and the same gaps are equal, so
   * `Squeeze` has exactly one possible result.
   */
  lemma NormalisedDetermined(d: Dialect, a: string, b: string)
    requires Normalised(d, a) && Normalised(d, b)
    requires NonSpace(d, a) == NonSpace(d, b) && Gaps(d, a) == Gaps(d, b)
    ensures a == b
  {
    GapsNormalised(d, a);
    GapsNormalised(d, b);
    SpacedDetermined(d, a, b);
  }

  lemma GapsNormalised(d: Dialect, a: string)
    requires Normalised(d, a)
    ensures Gaps(d, a) == GapsFrom(d, a, false)
  {
  }

  lemma {:induction false} SpacedDetermined(d: Dialect, a: string, b: string)
    requires forall k :: 0 <= k < |a| && IsSpace(d, a[k]) ==> a[k] == ' '
    requires forall k :: 0 <= k < |a| - 1 ==> !(IsSpace(d, a[k]) && IsSpace(d, a[k + 1]))
    requires forall k :: 0 <= k < |b| && IsSpace(d, b[k]) ==> b[k] == ' '
    requires forall k :: 0 <= k < |b| - 1 ==> !(IsSpace(d, b[k]) && IsSpace(d, b[k + 1]))
    requires a != [] ==> !IsSpace(d, a[|a| - 1])
    requires b != [] ==> !IsSpace(d, b[|b| - 1])
    requires NonSpace(d, a) == NonSpace(d, b) && GapsFrom(d, a, false) == GapsFrom(d, b, false)
    ensures a == b
    decreases |a|
  {
    if a == [] || b == [] {
      if a != [] { SpacedHasWord(d, a); }
      if b != [] { SpacedHasWord(d, b); }
    } else if IsSpace(d, a[0]) {
      assert a[1..][1..] == a[2..];
      var ga := GapsFrom(d, a[2..], false);
      assert GapsFrom(d, a, false) == [true] + ga;
      if !IsSpace(d, b[0]) {
        GapsFromWordFirst(d, b);
        assert false;
      }
      assert b[1..][1..] == b[2..];
      var gb := GapsFrom(d, b[2..], false);
      assert GapsFrom(d, b, false) == [true] + gb;
      var na, nb := NonSpace(d, a[2..]), NonSpace(d, b[2..]);
      assert NonSpace(d, a) == [a[1]] + na;
      assert NonSpace(d, b) == [b[1]] + nb;
      assert ([a[1]] + na)[1..] == na && ([b[1]] + nb)[1..] == nb;
      assert ([true] + ga)[1..] == ga && ([true] + gb)[1..] == gb;
      SpacedDetermined(d, a[2..], b[2..]);
      assert a == a[..2] + a[2..] && b == b[..2] + b[2..];
    } else {
      var ga := GapsFrom(d, a[1..], false);
      if IsSpace(d, b[0]) {
        GapsFromSpaceFirst(d, b);
        assert false;
      }
      var gb := GapsFrom(d, b[1..], false);
      var na, nb := NonSpace(d, a[1..]), NonSpace(d, b[1..]);
      assert NonSpace(d, a) == [a[0]] + na;
      assert NonSpace(d, b) == [b[0]] + nb;
      assert ([a[0]] + na)[1..] == na && ([b[0]] + nb)[1..] == nb;
      assert ([false] + ga)[1..] == ga && ([false] + gb)[1..] == gb;
      SpacedDetermined(d, a[1..], b[1..]);
      assert a == [a[0]] + a[1..] && b == [b[0]] + b[1..];
    }
  }

  /** No gap shows before the first word when the text starts with it. */
  lemma GapsFromWordFirst(d: Dialect, b: string)
    requires b != [] && !IsSpace(d, b[0])
    ensures GapsFrom(d, b, false) != [] && !GapsFrom(d, b, false)[0]
  {
  }

  /** A gap before the first word shows as `true` when white space comes first. */
  lemma GapsFromSpaceFirst(d: Dialect, b: string)
    requires b != [] && IsSpace(d, b[0]) && !IsSpace(d, b[|b| - 1])
    requires forall k :: 0 <= k < |b| - 1 ==> !(IsSpace(d, b[k]) && IsSpace(d, b[k + 1]))
    ensures GapsFrom(d, b, false) != [] && GapsFrom(d, b, false)[0]
  {
    assert |b| >= 2 && !IsSpace(d, b[1]);
    assert b[1..][1..] == b[2..];
  }

  /** A non-empty text that does not end in white space has a word in it. */
  lemma SpacedHasWord(d: Dialect, a: string)
    requires a != [] && !IsSpace(d, a[|a| - 1])
    ensures NonSpace(d, a) != []
  {
    var n := |a| - 1;
    assert a == a[..n] + [a[n]];
    NonSpaceAppend(d, a[..n], [a[n]]);
  }

  // ---------------------------------------------------------------- case

  /** `toLowerCase` restricted to ASCII letters. */
  function LowerChar(c: char): char {
    if 'A' <= c <= 'Z' then (c as int + 32) as char else c
  }

  function UpperChar(c: char): char {
    if 'a' <= c <= 'z' then (c as int - 32) as char else c
  }

  function Lower(s: string): (r: string)
    ensures |r| == |s|
    ensures forall k :: 0 <= k < |s| ==> r[k] == LowerChar(s[k])
  {
    seq(|s|, k requires 0 <= k < |s| => LowerChar(s[k]))
  }

  function Upper(s: string): (r: string)
    ensures |r| == |s|
    ensures forall k :: 0 <= k < |s| ==> r[k] == UpperChar(s[k])
  {
    seq(|s|, k requires 0 <= k < |s| => UpperChar(s[k]))
  }

  predicate NoUpper(s: string) { forall k :: 0 <= k < |s| ==> !('A' <= s[k] <= 'Z') }

  lemma LowerNoUpper(s: string)
    ensures NoUpper(Lower(s)) && Lower(Lower(s)) == Lower(s)
  {
  }

  // ---------------------------------------------------------------- search

  /** `s.includes(p)`. */
  predicate Contains(s: string, p: string)
    decreases |s|
  {
    p <= s || (s != [] && Contains(s[1..], p))
  }

  /** `s.indexOf(p)`: the first position where `p` occurs, or -1. */
  function IndexOf(s: string, p: string): (r: int)
    ensures -1 <= r <= |s|
    ensures r == -1 <==> !Contains(s, p)
    ensures r >= 0 ==> p <= s[r..] && forall j :: 0 <= j < r ==> !(p <= s[j..])
    decreases |s|
  {
    if p <= s then 0
    else if s == [] then -1
    else
      var t := IndexOf(s[1..], p);
      if t == -1 then -1
      else
        assert forall j :: 1 <= j <= t ==> s[j..] == s[1..][j - 1..];
        t + 1
  }

  lemma ContainsAt(s: string, p: string, i: nat)
    requires i <= |s| && p <= s[i..]
    ensures Contains(s, p)
    decreases i
  {
    if i > 0 {
      assert s[1..][i - 1..] == s[i..];
      ContainsAt(s[1..], p, i - 1);
    }
  }

  lemma ContainsAppend(a: string, b: string, p: string)
    requires Contains(b, p)
    ensures Contains(a + b, p)
  {
    var i := IndexOf(b, p);
    assert (a + b)[|a| + i..] == b[i..];
    ContainsAt(a + b, p, |a| + i);
  }

  lemma ContainsPrefix(a: string, b: string, p: string)
    requires Contains(a, p)
    ensures Contains(a + b, p)
  {
    var i := IndexOf(a, p);
    assert (a + b)[i..] == a[i..] + b;
    ContainsAt(a + b, p, i);
  }

  /** `s.replace(p, r)` with a string pattern: only the first occurrence. */
  function ReplaceFirst(s: string, p: string, r: string): string {
    var i := IndexOf(s, p);
    if i == -1 then s else s[..i] + r + s[i + |p|..]
  }

  lemma ReplaceFirstAbsent(s: string, p: string, r: string)
    requires !Contains(s, p)
    ensures ReplaceFirst(s, p, r) == s
  {
  }

  // ---------------------------------------------------------------- split/join

  function FirstIndex<T(==)>(s: seq<T>, c: T): (i: nat)
    requires c in s
    ensures i < |s| && s[i] == c && c !in s[..i]
  {
    if s[0] == c then 0 else 1 + FirstIndex(s[1..], c)
  }

  lemma FirstIndexAt<T>(s: seq<T>, c: T, i: nat)
    requires i < |s| && s[i] == c && c !in s[..i]
    ensures FirstIndex(s, c) == i
  {
    if i > 0 {
      assert s[0] in s[..i];
      assert s[1..][..i - 1] == s[1..i];
      FirstIndexAt(s[1..], c, i - 1);
    }
  }

  /** `s.split(c)` for a one-character separator: always at least one piece. */
  function Split(s: string, c: char): (parts: seq<string>)
    ensures |parts| >= 1
    ensures forall i :: 0 <= i < |parts| ==> c !in parts[i]
    decreases |s|
  {
    if c !in s then [s]
    else
      var i := FirstIndex(s, c);
      [s[..i]] + Split(s[i + 1..], c)
  }

  /** `parts.join(sep)`. */
  function Join(parts: seq<string>, sep: string): string {
    if |parts| == 0 then []
    else if |parts| == 1 then parts[0]
    else parts[0] + sep + Join(parts[1..], sep)
  }

  lemma {:induction false} JoinSplit(s: string, c: char)
    ensures Join(Split(s, c), [c]) == s
    decreases |s|
  {
    if c in s {
      var i := FirstIndex(s, c);
      var rest := Split(s[i + 1..], c);
      JoinSplit(s[i + 1..], c);
      var parts := [s[..i]] + rest;
      assert Split(s, c) == parts;
      assert parts[1..] == rest;
      assert Join(parts, [c]) == s[..i] + [c] + Join(rest, [c]);
      assert s == s[..i] + [c] + s[i + 1..];
    }
  }

  lemma {:induction false} SplitJoin(parts: seq<string>, c: char)
    requires |parts| >= 1
    requires forall i :: 0 <= i < |parts| ==> c !in parts[i]
    ensures Split(Join(parts, [c]), c) == parts
    decreases |parts|
  {
    if |parts| > 1 {
      var tail := Join(parts[1..], [c]);
      var s := parts[0] + [c] + tail;
      assert s[|parts[0]|] == c;
      assert s[..|parts[0]|] == parts[0];
      FirstIndexAt(s, c, |parts[0]|);
      assert s[|parts[0]| + 1..] == tail;
      SplitJoin(parts[1..], c);
    }
  }

  function Repeat(s: string, n: nat): (r: string)
    ensures |r| == n * |s|
  {
    if n == 0 then [] else s + Repeat(s, n - 1)
  }

  // ---------------------------------------------------------------- numbers

  predicate IsDigit(c: char) { '0' <= c <= '9' }

  function DigitValue(c: char): nat requires IsDigit(c) { c as int - '0' as int }

  predicate IsHexDigit(c: char) { IsDigit(c) || 'a' <= c <= 'f' || 'A' <= c <= 'F' }

  function HexDigitValue(c: char): nat
    requires IsHexDigit(c)
  {
    if IsDigit(c) then DigitValue(c)
    else if 'a' <= c <= 'f' then c as int - 'a' as int + 10
    else c as int - 'A' as int + 10
  }

  /** Length of the longest prefix of digits in base 10 (or 16 when `hex`). */
  function DigitRun(s: string, hex: bool): (n: nat)
    ensures n <= |s|
    ensures forall k :: 0 <= k < n ==> (if hex then IsHexDigit(s[k]) else IsDigit(s[k]))
    ensures n < |s| ==> !(if hex then IsHexDigit(s[n]) else IsDigit(s[n]))
  {
    if s == [] || !(if hex then IsHexDigit(s[0]) else IsDigit(s[0])) then 0
    else 1 + DigitRun(s[1..], hex)
  }

  function DigitsValue(s: string, hex: bool): nat
    requires forall k :: 0 <= k < |s| ==> (if hex then IsHexDigit(s[k]) else IsDigit(s[k]))
  {
    if s == [] then 0
    else
      var last := s[|s| - 1];
      DigitsValue(s[..|s| - 1], hex) * (if hex then 16 else 10)
        + (if hex then HexDigitValue(last) else DigitValue(last))
  }

  /**
   * `parseInt(s)`: leading whitespace, an optional sign, an optional `0x`/`0X`
   * prefix selecting base 16, then the longest run of digits; `None` is NaN.
   */
  function ParseInt(s: string): (r: Option<int>)
    ensures r.None? <==> if HexPrefixed(SignFree(s)) then DigitRun(SignFree(s)[2..], true) == 0
                         else DigitRun(SignFree(s), false) == 0
  {
    var t := s[LeadingSpaces(Js, s)..];
    var sign := if t != [] && t[0] == '-' then -1 else 1;
    var u := SignFree(s);
    if HexPrefixed(u) then
      var n := DigitRun(u[2..], true);
      if n == 0 then None else Some(sign * DigitsValue(u[2..2 + n], true))
    else
      var n := DigitRun(u, false);
      if n == 0 then None else Some(sign * DigitsValue(u[..n], false))
  }

  /** What `parseInt` reads after skipping whitespace and one sign. */
  function SignFree(s: string): string {
    var t := s[LeadingSpaces(Js, s)..];
    if t != [] && (t[0] == '-' || t[0] == '+') then t[1..] else t
  }

  predicate HexPrefixed(u: string) {
    |u| >= 2 && u[0] == '0' && (u[1] == 'x' || u[1] == 'X')
  }

  /** `parseInt(s) || d`: NaN and zero are both falsy. */
  function ParseIntOr(s: string, d: int): (r: int)
    ensures r == d || (ParseInt(s) == Some(r) && r != 0)
    ensures r == d <== ParseInt(s).None? || ParseInt(s) == Some(0)
    ensures ParseInt(s).Some? && ParseInt(s).value != 0 ==> r == ParseInt(s).value
  {
    match ParseInt(s)
    case Some(v) => if v == 0 then d else v
    case None => d
  }

  /** `String(n)` for a natural number. */
  function NatToString(n: nat): (r: string)
    ensures |r| >= 1
    ensures forall k :: 0 <= k < |r| ==> IsDigit(r[k])
    ensures DigitsValue(r, false) == n
  {
    var d := ['0' + (n % 10) as char];
    if n < 10 then
      assert DigitsValue(d, false) == DigitsValue([], false) * 10 + DigitValue(d[0]);
      d
    else
      var r := NatToString(n / 10) + d;
      assert r[..|r| - 1] == NatToString(n / 10);
      r
  }

  lemma ParseNatToString(n: nat)
    ensures ParseInt(NatToString(n)) == Some(n)
  {
    var s := NatToString(n);
    assert LeadingSpaces(Js, s) == 0;
    assert SignFree(s) == s;
    assert !HexPrefixed(s);
    assert DigitRun(s, false) == |s|;
    assert s[..|s|] == s;
  }

  // ---------------------------------------------------------------- collections

  predicate Distinct<T(==)>(s: seq<T>) {
    forall i, j :: 0 <= i < j < |s| ==> s[i] != s[j]
  }

  /**
   * The elements of `s` in the order they first appear, each once: what
   * `[...new Set(s)]` gives.
   */
  function Dedup<T(==,!new)>(s: seq<T>): (r: seq<T>)
    ensures Distinct(r)
    ensures forall x :: x in r <==> x in s
    ensures |r| <= |s|
  {
    if s == [] then []
    else
      var init := Dedup(s[..|s| - 1]);
      var last := s[|s| - 1];
      assert forall x :: x in s <==> x in s[..|s| - 1] || x == last by {
        assert s == s[..|s| - 1] + [last];
      }
      if last in s[..|s| - 1] then init else init + [last]
  }

  lemma {:induction false} DedupDistinct<T(!new)>(s: seq<T>)
    requires Distinct(s)
    ensures Dedup(s) == s
  {
    if s != [] {
      var init := s[..|s| - 1];
      DedupDistinct(init);
      assert s[|s| - 1] !in init;
      assert s == init + [s[|s| - 1]];
    }
  }

  /** `Dedup` keeps the elements in the order they first appear in `s`. */
  lemma {:induction false} DedupOrder<T(!new)>(s: seq<T>)
    ensures forall i, j :: 0 <= i < j < |Dedup(s)| ==>
      Dedup(s)[i] in s && Dedup(s)[j] in s && FirstIndex(s, Dedup(s)[i]) < FirstIndex(s, Dedup(s)[j])
  {
    if s != [] {
      var init := s[..|s| - 1];
      var last := s[|s| - 1];
      DedupOrder(init);
      var r0 := Dedup(init);
      var r := Dedup(s);
      assert r == if last in init then r0 else r0 + [last];
      forall x | x in init
        ensures x in s && FirstIndex(s, x) == FirstIndex(init, x)
      {
        var k := FirstIndex(init, x);
        assert s[..k] == init[..k];
        FirstIndexAt(s, x, k);
      }
      if last !in init {
        FirstIndexAt(s, last, |s| - 1);
      }
      forall i, j | 0 <= i < j < |r|
        ensures r[i] in s && r[j] in s && FirstIndex(s, r[i]) < FirstIndex(s, r[j])
      {
        assert r[i] == r0[i] && r0[i] in init;
        assert FirstIndex(s, r0[i]) == FirstIndex(init, r0[i]) < |init|;
        if j < |r0| {
          assert r[j] == r0[j] && r0[j] in init;
          assert FirstIndex(s, r0[j]) == FirstIndex(init, r0[j]);
          assert FirstIndex(init, r0[i]) < FirstIndex(init, r0[j]);
        }
      }
    } else {
      assert Dedup(s) == [];
    }
  }
}
