/**
 * What the three AI batch commands (summaries, tags, Chinese translation)
 * share: the shapes a raw query result can take, the `task_progress`
 * cursor's reading of `last_id`, the choice of the next case, and the HTML
 * clean-up done before a case is sent to the model.
 */
module Tasks {
  import opened Text
  import opened Json

  /**
   * How the database driver hands back a raw query: a bare array of rows, an
   * object with a `rows` array, or something else (a format error for the
   * commands that check).
   */
  datatype Shape = ArrayResult | RowsResult | OtherResult

  /**
   * `Array.isArray(r) ? r[0] : r.rows ? r.rows[0] : <format error>`, where
   * `rows` are the rows the query selected.  `None` is the format error,
   * `Some(None)` is "no row".
   */
  function FirstRow<T>(shape: Shape, rows: seq<T>): (r: Option<Option<T>>)
    ensures r.None? <==> shape == OtherResult
    ensures r.Some? ==> (r.value.Some? <==> rows != []) && (rows != [] ==> r.value.value == rows[0])
  {
    if shape == OtherResult then None
    else if rows == [] then Some(None)
    else Some(Some(rows[0]))
  }

  /** `typeof last_id === 'number' ? last_id : 0`. */
  function LastId(v: Json): int {
    if v.JNum? then v.n else 0
  }

  /**
   * `WHERE id > last ORDER BY id ASC LIMIT 1`: the position of the row with
   * the smallest id above `last` (the earliest such row on a tie), or `None`
   * when every id is at most `last`.
   */
  function NextRow<T>(rows: seq<T>, idOf: T -> int, last: int): (r: Option<nat>)
    ensures r.None? <==> forall j :: 0 <= j < |rows| ==> idOf(rows[j]) <= last
    ensures r.Some? ==> (r.value < |rows| && idOf(rows[r.value]) > last
      && forall j :: 0 <= j < |rows| && idOf(rows[j]) > last ==> idOf(rows[r.value]) <= idOf(rows[j]))
  {
    if rows == [] then None
    else
      var init := rows[..|rows| - 1];
      var rest := NextRow(init, idOf, last);
      var x := idOf(rows[|rows| - 1]);
      assert forall j :: 0 <= j < |init| ==> rows[j] == init[j];
      if x <= last then rest
      else match rest
        case None => Some(|rows| - 1)
        case Some(k) => if idOf(rows[k]) <= x then Some(k) else Some(|rows| - 1)
  }

  // ------------------------------------------------------------------ cleanHtml

  /** No '<' is followed, anywhere later, by a '>': the text holds no complete tag. */
  predicate NoTag(s: string)
    decreases |s|
  {
    s == [] || ((s[0] == '<' ==> '>' !in s[1..]) && NoTag(s[1..]))
  }

  /** `html.replace(/<[^>]*>/g, ' ')`: each run from a '<' to the next '>' becomes one space. */
  function StripTags(s: string): (r: string)
    ensures NoTag(r)
    ensures '>' in r ==> '>' in s
    ensures '<' !in s || '>' !in s ==> r == s
    decreases |s|
  {
    if s == [] then []
    else if s[0] == '<' && '>' in s[1..] then
      var i := FirstIndex(s[1..], '>');
      [' '] + StripTags(s[i + 2..])
    else
      var rest := StripTags(s[1..]);
      assert s[0] == '<' ==> '>' !in rest;
      [s[0]] + rest
  }

  /** Text before the first '<' is kept as it is. */
  lemma {:induction false} StripTagsText(a: string, b: string)
    requires '<' !in a
    ensures StripTags(a + b) == a + StripTags(b)
  {
    if a != [] {
      var s := a + b;
      assert s[0] == a[0] && s[0] != '<';
      assert s[1..] == a[1..] + b;
      StripTagsText(a[1..], b);
      assert StripTags(s) == [s[0]] + StripTags(s[1..]);
      assert a == [a[0]] + a[1..];
    } else {
      assert a + b == b;
    }
  }

  /** A tag, from '<' to the first '>' after it, becomes one space. */
  lemma StripTagsTag(m: string, b: string)
    requires '>' !in m
    ensures StripTags(['<'] + m + ['>'] + b) == [' '] + StripTags(b)
  {
    var s := ['<'] + m + ['>'] + b;
    assert s[1..] == m + ['>'] + b;
    assert s[1..][|m|] == '>' && s[1..][..|m|] == m;
    FirstIndexAt(s[1..], '>', |m|);
    assert s[|m| + 2..] == b;
  }

  lemma {:induction false} NoTagPrefix(s: string, n: nat)
    requires NoTag(s) && n <= |s|
    ensures NoTag(s[..n])
    decreases |s|
  {
    if n > 0 {
      assert s[..n][1..] == s[1..][..n - 1];
      NoTagPrefix(s[1..], n - 1);
      assert forall c :: c in s[..n][1..] ==> c in s[1..];
    }
  }

  lemma {:induction false} GreaterNonSpace(d: Dialect, s: string)
    ensures '>' in s <==> '>' in NonSpace(d, s)
    decreases |s|
  {
    if s != [] {
      GreaterNonSpace(d, s[1..]);
      assert s == [s[0]] + s[1..];
      assert !IsSpace(d, '>');
    }
  }

  /** Whitespace never matters to `NoTag`: it holds of a text iff it holds of its non-space characters. */
  lemma {:induction false} NoTagNonSpace(d: Dialect, s: string)
    ensures NoTag(s) <==> NoTag(NonSpace(d, s))
    decreases |s|
  {
    if s != [] {
      NoTagNonSpace(d, s[1..]);
      GreaterNonSpace(d, s[1..]);
      var t := NonSpace(d, s[1..]);
      if !IsSpace(d, s[0]) {
        assert NonSpace(d, s) == [s[0]] + t;
        assert ([s[0]] + t)[1..] == t;
        assert NoTag([s[0]] + t) <==> ((s[0] == '<' ==> '>' !in t) && NoTag(t));
      } else {
        assert NonSpace(d, s) == t;
        assert s[0] != '<';
      }
    }
  }

  const MaxPromptText := 2000

  /**
   * `cleanHtml`: tags become one space, whitespace runs one space, the ends
   * are trimmed and at most the first 2000 characters are kept.
   */
  function CleanHtml(html: string): (r: string)
    ensures |r| <= MaxPromptText
    ensures r != [] ==> !IsJsSpace(r[0])
    ensures forall k :: 0 <= k < |r| && IsJsSpace(r[k]) ==> r[k] == ' '
    ensures forall k :: 0 <= k < |r| - 1 ==> !(IsJsSpace(r[k]) && IsJsSpace(r[k + 1]))
    ensures NoTag(r)
    ensures |r| < MaxPromptText ==> Normalised(Js, r)
    ensures NonSpace(Js, r) <= NonSpace(Js, StripTags(html))
    ensures |Squeeze(Js, StripTags(html))| <= MaxPromptText ==>
      NonSpace(Js, r) == NonSpace(Js, StripTags(html)) && Gaps(Js, r) == Gaps(Js, StripTags(html))
    ensures |Squeeze(Js, StripTags(html))| > MaxPromptText ==> |r| == MaxPromptText
  {
    var t := StripTags(html);
    var q := Squeeze(Js, t);
    NoTagNonSpace(Js, t);
    NoTagNonSpace(Js, q);
    SqueezeKeepsGaps(Js, t);
    var r := if |q| <= MaxPromptText then q else q[..MaxPromptText];
    TruncateKeeps(q, r);
    assert q == r + q[|r|..];
    NonSpaceAppend(Js, r, q[|r|..]);
    r
  }

  /** Cutting a whitespace-normal, tag-free text short keeps all but the no-trailing-space part. */
  lemma TruncateKeeps(q: string, r: string)
    requires Normalised(Js, q) && NoTag(q)
    requires r == if |q| <= MaxPromptText then q else q[..MaxPromptText]
    ensures r != [] ==> !IsJsSpace(r[0])
    ensures forall k :: 0 <= k < |r| && IsJsSpace(r[k]) ==> r[k] == ' '
    ensures forall k :: 0 <= k < |r| - 1 ==> !(IsJsSpace(r[k]) && IsJsSpace(r[k + 1]))
    ensures NoTag(r)
    ensures |r| < MaxPromptText ==> Normalised(Js, r)
  {
    NoTagPrefix(q, |r|);
    assert forall k :: 0 <= k < |r| ==> r[k] == q[k];
  }
}
