/**
 * `SeoAiService.analyze`: ask Gemini (through `generateMultiLangSummary`,
 * model index 0) for SEO names of a case's images, take the Chinese summary
 * as the reply text, read image records out of it line by line, keep those
 * whose original filename is one of the case's files, and normalise each new
 * filename to a `.webp` name over `[a-z0-9-_.]`.
 *
 * The reply is read by a small state machine: a numbered line `N.` opens an
 * image (closing the previous one), `field: value` lines fill the open
 * image, and before the first numbered line a `a|b|c|d` line is a whole
 * image.  The random three-character de-duplication suffix is a parameter:
 * `tags(k)` is what `Math.random().toString(36).substring(2, 5)` gave for
 * the k-th kept image.
 */
module SeoAiService {
  import opened Text
  import opened Json
  import G = GeminiService

  /** The model index `analyze` asks for. */
  const ModelIndex: int := 0

  /** An image record while it is being read: a field may still be unset. */
  datatype Draft = Draft(originalFilename: Option<string>, newFilename: Option<string>,
                         altZh: Option<string>, captionZh: Option<string>)

  const EmptyDraft: Draft := Draft(None, None, None, None)

  datatype SeoImage = SeoImage(originalFilename: string, newFilename: string,
                               altZh: string, captionZh: string)

  /** All four fields are non-empty strings (truthy). */
  predicate Full(img: SeoImage) {
    img.originalFilename != [] && img.newFilename != [] && img.altZh != [] && img.captionZh != []
  }

  /** The open image as a record, when all four fields are set and non-empty. */
  function Complete(d: Draft): (r: Option<SeoImage>)
    ensures r.Some? ==> Full(r.value)
  {
    if Given(d.originalFilename) && Given(d.newFilename) && Given(d.altZh) && Given(d.captionZh)
    then Some(SeoImage(d.originalFilename.value, d.newFilename.value, d.altZh.value, d.captionZh.value))
    else None
  }

  /** What closing the open image pushes: the image, or nothing when a field is missing. */
  function Closed(d: Draft): (r: seq<SeoImage>)
    ensures |r| <= 1 && forall k :: 0 <= k < |r| ==> Full(r[k])
  {
    match Complete(d)
    case Some(img) => [img]
    case None => []
  }

  // ------------------------------------------------------------------ lines

  /** `text.split('\n').filter(line => line.trim() !== '')`, given the pieces. */
  function NonBlankLines(parts: seq<string>): (r: seq<string>)
    ensures |r| <= |parts|
    ensures forall k :: 0 <= k < |r| ==> !Blank(Js, r[k]) && r[k] in parts
    ensures forall k :: 0 <= k < |parts| && !Blank(Js, parts[k]) ==> parts[k] in r
  {
    if parts == [] then []
    else
      var rest := NonBlankLines(parts[1..]);
      if Blank(Js, parts[0]) then rest else [parts[0]] + rest
  }

  /** The non-blank lines of the reply text, none holding a '\n'. */
  function Lines(text: string): (r: seq<string>)
    ensures forall k :: 0 <= k < |r| ==> !Blank(Js, r[k]) && '\n' !in r[k]
  {
    NonBlankLines(Split(text, '\n'))
  }

  const Boilerplate: seq<string> := [
    "the results are in the exact format specified",
    "after analyzing",
    "here are the results"
  ]

  /** A commentary line the parser skips. */
  predicate Ignored(line: string) {
    "note:" <= Lower(line) || "*" <= line
    || Contains(line, Boilerplate[0]) || Contains(line, Boilerplate[1]) || Contains(line, Boilerplate[2])
  }

  /** `line.match(/^(\d+)\./)` succeeds. */
  predicate Numbered(line: string) {
    var n := DigitRun(line, false);
    0 < n < |line| && line[n] == '.'
  }

  /** `line.replace(/^\d+\.\s*\/, '')`. */
  function DropNumber(line: string): (r: string)
    ensures !Numbered(line) ==> r == line
    ensures Numbered(line) ==>
      |r| < |line| && r == line[|line| - |r|..] && (r == [] || !IsJsSpace(r[0]))
  {
    if Numbered(line) then
      var rest := line[DigitRun(line, false) + 1..];
      rest[LeadingSpaces(Js, rest)..]
    else line
  }

  predicate IsQuote(c: char) { c == '"' || c == '\'' }

  /** `.replace(/["']/g, '')`. */
  function DropQuotes(s: string): (r: string)
    ensures |r| <= |s|
    ensures forall k :: 0 <= k < |r| ==> !IsQuote(r[k]) && r[k] in s
    ensures forall k :: 0 <= k < |s| && !IsQuote(s[k]) ==> s[k] in r
  {
    if s == [] then []
    else (if IsQuote(s[0]) then [] else [s[0]]) + DropQuotes(s[1..])
  }

  /** How a filename read from the reply is stored: lower-cased, quotes removed. */
  function CleanName(s: string): (r: string)
    ensures NoUpper(r) && forall k :: 0 <= k < |r| ==> !IsQuote(r[k])
  {
    LowerNoUpper(s);
    DropQuotes(Lower(s))
  }

  const OriginalKey: string := "original_filename:"

  /** The original filename given on the numbered line itself, if any. */
  function InlineOriginal(rest: string): (r: Option<string>)
    ensures r.Some? ==> CleanStored(r.value)
  {
    if Contains(rest, OriginalKey) then Some(CleanName(Trim(Js, ReplaceFirst(rest, OriginalKey, ""))))
    else None
  }

  predicate IsFieldNameChar(c: char) { 'a' <= c <= 'z' || 'A' <= c <= 'Z' || c == '_' }

  function FieldNameRun(s: string): (n: nat)
    ensures n <= |s|
    ensures forall k :: 0 <= k < n ==> IsFieldNameChar(s[k])
    ensures n < |s| ==> !IsFieldNameChar(s[n])
  {
    if s == [] || !IsFieldNameChar(s[0]) then 0 else 1 + FieldNameRun(s[1..])
  }

  predicate NoTerminator(s: string) { forall k :: 0 <= k < |s| ==> !IsLineTerminator(s[k]) }

  /**
   * `line.match(/^([a-z_]+):\s*(.+)$/i)`: the field name and the value.
   * `\s*` is greedy, `.` stops at line terminators and `$` is the end of the
   * line, so the value is what follows the whitespace after the colon; when
   * only whitespace follows, `\s*` gives back the last character.
   */
  function FieldLine(line: string): (r: Option<(string, string)>)
    ensures r.Some? ==> var (name, value) := r.value;
      name != [] && (forall k :: 0 <= k < |name| ==> IsFieldNameChar(name[k]))
      && value != [] && NoTerminator(value)
      && |name| + 1 + |value| <= |line| && line[..|name|] == name && line[|name|] == ':'
      && line[|line| - |value|..] == value && Blank(Js, line[|name| + 1..|line| - |value|])
  {
    var n := FieldNameRun(line);
    if n == 0 || n == |line| || line[n] != ':' then None
    else
      var rest := line[n + 1..];
      var w := LeadingSpaces(Js, rest);
      if rest == [] then None
      else if w < |rest| then
        if NoTerminator(rest[w..]) then
          assert line[n + 1..|line| - |rest[w..]|] == rest[..w];
          Some((line[..n], rest[w..]))
        else None
      else
        var last := rest[|rest| - 1];
        if IsLineTerminator(last) then None
        else
          assert line[n + 1..|line| - 1] == rest[..|rest| - 1];
          assert rest[..w] == rest;
          assert line[|line| - 1..] == [last];
          Some((line[..n], [last]))
  }

  /** A line laid out as `name:` + whitespace + a value that starts with a non-space is read that way. */
  lemma FieldLineReads(name: string, w: string, value: string)
    requires name != [] && forall k :: 0 <= k < |name| ==> IsFieldNameChar(name[k])
    requires Blank(Js, w)
    requires value != [] && !IsJsSpace(value[0]) && NoTerminator(value)
    ensures FieldLine(name + ":" + w + value) == Some((name, value))
  {
    var line := name + ":" + w + value;
    FieldNameRunExact(name, ":" + w + value);
    var rest := line[|name| + 1..];
    assert rest == w + value;
    LeadingSpacesExact(w, value);
    assert rest[|w|..] == value;
    assert line[..|name|] == name;
    assert line[|name|] == ':';
    assert FieldNameRun(line) == |name|;
    assert LeadingSpaces(Js, rest) == |w| < |rest|;
    assert NoTerminator(rest[|w|..]);
  }

  lemma {:induction false} FieldNameRunExact(name: string, tail: string)
    requires forall k :: 0 <= k < |name| ==> IsFieldNameChar(name[k])
    requires tail != [] && !IsFieldNameChar(tail[0])
    ensures FieldNameRun(name + tail) == |name|
  {
    if name != [] {
      assert (name + tail)[1..] == name[1..] + tail;
      FieldNameRunExact(name[1..], tail);
    }
  }

  lemma {:induction false} LeadingSpacesExact(w: string, value: string)
    requires Blank(Js, w)
    requires value != [] && !IsJsSpace(value[0])
    ensures LeadingSpaces(Js, w + value) == |w|
  {
    if w != [] {
      assert (w + value)[1..] == w[1..] + value;
      LeadingSpacesExact(w[1..], value);
    }
  }

  /** The four fields a `field: value` line can set. */
  datatype FieldKind = OriginalField | NewField | AltField | CaptionField

  /** Which field a (case-insensitive) field name sets; alt_text and caption_text are aliases. */
  function Kind(name: string): Option<FieldKind> {
    var key := Lower(name);
    if key == "original_filename" then Some(OriginalField)
    else if key == "new_filename" then Some(NewField)
    else if key == "alt_zh" || key == "alt_text" then Some(AltField)
    else if key == "caption_zh" || key == "caption_text" then Some(CaptionField)
    else None
  }

  /** Store one `field: value` pair in the open image; a later value overwrites an earlier one. */
  function ApplyField(d: Draft, name: string, value: string): (r: Draft)
    ensures Kind(name).None? ==> r == d
    ensures DraftClean(d) ==> DraftClean(r)
  {
    match Kind(name)
    case Some(OriginalField) => d.(originalFilename := Some(CleanName(value)))
    case Some(NewField) => d.(newFilename := Some(CleanName(value)))
    case Some(AltField) => d.(altZh := Some(Trim(Js, value)))
    case Some(CaptionField) => d.(captionZh := Some(Trim(Js, value)))
    case None => d
  }

  /** `parts.map(item => item.trim())`. */
  function TrimAll(parts: seq<string>): (r: seq<string>)
    ensures |r| == |parts| && forall k :: 0 <= k < |parts| ==> r[k] == Trim(Js, parts[k])
  {
    seq(|parts|, k requires 0 <= k < |parts| => Trim(Js, parts[k]))
  }

  /** A `original|new|alt|caption` line: its first four trimmed parts, kept when all are non-empty. */
  function PipeImage(line: string): (r: Option<SeoImage>)
    ensures r.Some? ==> Full(r.value)
  {
    var parts := TrimAll(Split(DropNumber(line), '|'));
    if |parts| < 4 then None
    else
      var img := SeoImage(CleanName(parts[0]), CleanName(parts[1]), parts[2], parts[3]);
      if Full(img) then Some(img) else None
  }

  // ------------------------------------------------------------------ parser

  /** The loop's variables: `currentImage`, `isProcessingImage`, `images`. */
  datatype Parser = Parser(current: Draft, processing: bool, images: seq<SeoImage>)

  const Start: Parser := Parser(EmptyDraft, false, [])

  /** One pass of the line loop. */
  function Step(st: Parser, line: string): Parser {
    if Ignored(line) then st
    else if Numbered(line) then Open(st, line)
    else ReadOther(st, line)
  }

  /** A numbered line: the open image is pushed when complete, and a new one opened. */
  function Open(st: Parser, line: string): Parser {
    var kept := if st.processing then Closed(st.current) else [];
    Parser(EmptyDraft.(originalFilename := InlineOriginal(DropNumber(line))), true, st.images + kept)
  }

  /** Any other line: a field of the open image, or a pipe line while none is open. */
  function ReadOther(st: Parser, line: string): Parser {
    var current :=
      if st.processing then
        match FieldLine(line)
        case Some((name, value)) => ApplyField(st.current, name, value)
        case None => st.current
      else st.current;
    var images :=
      if '|' in line && !st.processing then
        match PipeImage(line)
        case Some(img) => st.images + [img]
        case None => st.images
      else st.images;
    Parser(current, st.processing, images)
  }

  /**
   * What one line does: a commentary line nothing; a numbered line pushes
   * the open image when complete and opens a new one; once an image is open
   * a field line fills it and no other line adds an image; `isProcessingImage`
   * never goes back to false.
   */
  lemma StepFacts(st: Parser, line: string)
    ensures var r := Step(st, line);
      (Ignored(line) ==> r == st)
      && (r.processing <==> st.processing || (!Ignored(line) && Numbered(line)))
      && (st.processing && !Numbered(line) ==> r.images == st.images)
      && (st.processing && !Ignored(line) && !Numbered(line) ==>
            r.current == match FieldLine(line)
                         case Some((name, value)) => ApplyField(st.current, name, value)
                         case None => st.current)
      && (!Ignored(line) && Numbered(line) ==>
            r.images == st.images + (if st.processing then Closed(st.current) else [])
            && r.current == EmptyDraft.(originalFilename := InlineOriginal(DropNumber(line))))
      && (!st.processing && !Numbered(line) ==> r.current == st.current)
  {
  }

  /** The loop's state after the given lines. */
  function Parse(lines: seq<string>): Parser {
    if lines == [] then Start else Step(Parse(lines[..|lines| - 1]), lines[|lines| - 1])
  }

  /** After the loop: the open image is pushed when complete. */
  function Finish(st: Parser): seq<SeoImage> {
    st.images + (if st.processing then Closed(st.current) else [])
  }

  /** The images read from a reply text. */
  function Parsed(text: string): seq<SeoImage> {
    Finish(Parse(Lines(text)))
  }

  /** The parser's loop, with its three variables. */
  method ParseLines(lines: seq<string>) returns (images: seq<SeoImage>)
    ensures images == Finish(Parse(lines))
  {
    var current := EmptyDraft;
    var processing := false;
    images := [];
    for i := 0 to |lines|
      invariant Parser(current, processing, images) == Parse(lines[..i])
    {
      assert lines[..i + 1][..i] == lines[..i];
      current, processing, images := ReadLine(current, processing, images, lines[i]);
    }
    assert lines[..|lines|] == lines;
    if processing && Complete(current).Some? {
      images := images + [Complete(current).value];
    }
  }

  /** One pass of the loop body. */
  method ReadLine(current0: Draft, processing0: bool, images0: seq<SeoImage>, line: string)
    returns (current: Draft, processing: bool, images: seq<SeoImage>)
    ensures Parser(current, processing, images) == Step(Parser(current0, processing0, images0), line)
  {
    if Ignored(line) {
      return current0, processing0, images0;
    }
    if Numbered(line) {
      current, processing, images := OpenImage(current0, processing0, images0, line);
    } else {
      current, processing, images := ReadFieldOrPipe(current0, processing0, images0, line);
    }
  }

  /** A numbered line: push the open image if complete, open a new one. */
  method OpenImage(current0: Draft, processing0: bool, images0: seq<SeoImage>, line: string)
    returns (current: Draft, processing: bool, images: seq<SeoImage>)
    ensures Parser(current, processing, images) == Open(Parser(current0, processing0, images0), line)
  {
    images := images0;
    if processing0 && Complete(current0).Some? {
      images := images + [Complete(current0).value];
    }
    assert images == images0 + if processing0 then Closed(current0) else [];
    current := EmptyDraft;
    processing := true;
    var rest := DropNumber(line);
    if Contains(rest, OriginalKey) {
      current := current.(originalFilename := Some(CleanName(Trim(Js, ReplaceFirst(rest, OriginalKey, "")))));
    }
    assert current.originalFilename == InlineOriginal(rest);
  }

  /** Any other line: a field of the open image, or a pipe line before the first numbered line. */
  method ReadFieldOrPipe(current0: Draft, processing0: bool, images0: seq<SeoImage>, line: string)
    returns (current: Draft, processing: bool, images: seq<SeoImage>)
    ensures Parser(current, processing, images) == ReadOther(Parser(current0, processing0, images0), line)
  {
    current, processing, images := current0, processing0, images0;
    if processing {
      var m := FieldLine(line);
      if m.Some? {
        current := ApplyField(current, m.value.0, m.value.1);
      }
    }
    if '|' in line && !processing {
      var p := PipeImage(line);
      if p.Some? {
        images := images + [p.value];
      }
    }
  }

  /** A stored filename: lower-case ASCII and no quote characters. */
  predicate CleanStored(s: string) {
    NoUpper(s) && forall k :: 0 <= k < |s| ==> !IsQuote(s[k])
  }

  /** Every image the parser keeps has all four fields, and both filenames in stored form. */
  predicate Parsable(img: SeoImage) {
    Full(img) && CleanStored(img.originalFilename) && CleanStored(img.newFilename)
  }

  predicate DraftClean(d: Draft) {
    (d.originalFilename.Some? ==> CleanStored(d.originalFilename.value))
    && (d.newFilename.Some? ==> CleanStored(d.newFilename.value))
  }

  lemma {:induction false} ParseKeepsFull(lines: seq<string>)
    ensures forall k :: 0 <= k < |Parse(lines).images| ==> Parsable(Parse(lines).images[k])
    ensures DraftClean(Parse(lines).current)
  {
    if lines != [] {
      ParseKeepsFull(lines[..|lines| - 1]);
      StepKeepsFull(Parse(lines[..|lines| - 1]), lines[|lines| - 1]);
    }
  }

  lemma StepKeepsFull(st: Parser, line: string)
    requires forall k :: 0 <= k < |st.images| ==> Parsable(st.images[k])
    requires DraftClean(st.current)
    ensures forall k :: 0 <= k < |Step(st, line).images| ==> Parsable(Step(st, line).images[k])
    ensures DraftClean(Step(st, line).current)
  {
    if !Ignored(line) && Numbered(line) {
      OpenKeepsFull(st, line);
    } else if !Ignored(line) {
      FieldKeepsFull(st, line);
    }
  }

  lemma OpenKeepsFull(st: Parser, line: string)
    requires !Ignored(line) && Numbered(line)
    requires forall k :: 0 <= k < |st.images| ==> Parsable(st.images[k])
    requires DraftClean(st.current)
    ensures forall k :: 0 <= k < |Step(st, line).images| ==> Parsable(Step(st, line).images[k])
    ensures DraftClean(Step(st, line).current)
  {
    var kept := if st.processing then Closed(st.current) else [];
    assert forall k :: 0 <= k < |kept| ==> Parsable(kept[k]);
    assert Step(st, line).images == st.images + kept;
    assert Step(st, line).current == EmptyDraft.(originalFilename := InlineOriginal(DropNumber(line)));
  }

  lemma FieldKeepsFull(st: Parser, line: string)
    requires !Ignored(line) && !Numbered(line)
    requires forall k :: 0 <= k < |st.images| ==> Parsable(st.images[k])
    requires DraftClean(st.current)
    ensures forall k :: 0 <= k < |Step(st, line).images| ==> Parsable(Step(st, line).images[k])
    ensures DraftClean(Step(st, line).current)
  {
    assert Step(st, line) == ReadOther(st, line);
    FieldKeepsDraft(st, line);
    FieldKeepsImages(st, line);
  }

  lemma FieldKeepsDraft(st: Parser, line: string)
    requires DraftClean(st.current)
    ensures DraftClean(ReadOther(st, line).current)
  {
    var m := FieldLine(line);
    if st.processing && m.Some? {
      assert ReadOther(st, line).current == ApplyField(st.current, m.value.0, m.value.1);
    }
  }

  lemma FieldKeepsImages(st: Parser, line: string)
    requires forall k :: 0 <= k < |st.images| ==> Parsable(st.images[k])
    ensures forall k :: 0 <= k < |ReadOther(st, line).images| ==> Parsable(ReadOther(st, line).images[k])
  {
    var r := ReadOther(st, line);
    var p := PipeImage(line);
    if '|' in line && !st.processing && p.Some? {
      assert r.images == st.images + [p.value];
    } else {
      assert r.images == st.images;
    }
  }

  /** Every image read from a reply has four non-empty fields and cleaned filenames. */
  lemma ParsedFull(text: string)
    ensures forall k :: 0 <= k < |Parsed(text)| ==> Parsable(Parsed(text)[k])
  {
    ParseKeepsFull(Lines(text));
  }

  /**
   * Once a numbered line has been read, only numbered lines add images:
   * a pipe line after it is ignored, because nothing turns
   * `isProcessingImage` off again.
   */
  lemma {:induction false} PipeIgnoredAfterNumbered(lines: seq<string>, more: seq<string>)
    requires Parse(lines).processing
    requires forall k :: 0 <= k < |more| ==> !Numbered(more[k])
    ensures Parse(lines + more).processing
    ensures Parse(lines + more).images == Parse(lines).images
  {
    if more == [] {
      assert lines + more == lines;
    } else {
      var init := more[..|more| - 1];
      PipeIgnoredAfterNumbered(lines, init);
      assert (lines + more)[..|lines + more| - 1] == lines + init;
    }
  }

  /** The images a run of lines with no numbered line gives: one per acceptable pipe line. */
  function PipeImages(lines: seq<string>): seq<SeoImage> {
    if lines == [] then []
    else
      var last := lines[|lines| - 1];
      PipeImages(lines[..|lines| - 1])
        + (if !Ignored(last) && '|' in last && PipeImage(last).Some? then [PipeImage(last).value] else [])
  }

  /** Before any numbered line, one line adds at most its pipe image. */
  lemma PipeStep(st: Parser, line: string)
    requires !st.processing && !Numbered(line)
    ensures !Step(st, line).processing
    ensures Step(st, line).images ==
      st.images + (if !Ignored(line) && '|' in line && PipeImage(line).Some? then [PipeImage(line).value] else [])
  {
    if !Ignored(line) {
      assert Step(st, line) == ReadOther(st, line);
    }
  }

  /** Without a numbered line the reply is read as pipe lines only, in order. */
  lemma {:induction false} PipeOnly(lines: seq<string>)
    requires forall k :: 0 <= k < |lines| ==> !Numbered(lines[k])
    ensures !Parse(lines).processing
    ensures Finish(Parse(lines)) == PipeImages(lines)
  {
    if lines != [] {
      var init := lines[..|lines| - 1];
      var last := lines[|lines| - 1];
      assert forall k :: 0 <= k < |init| ==> init[k] == lines[k];
      PipeOnly(init);
      var st := Parse(init);
      PipeStep(st, last);
      assert Parse(lines) == Step(st, last);
      assert Finish(st) == st.images;
      var add := if !Ignored(last) && '|' in last && PipeImage(last).Some? then [PipeImage(last).value] else [];
      assert PipeImages(lines) == PipeImages(init) + add;
      assert Finish(Parse(lines)) == Parse(lines).images == st.images + add;
    }
  }

  // ------------------------------------------------------------------ filenames

  const Webp: string := ".webp"

  predicate EndsWith(s: string, p: string) { |p| <= |s| && s[|s| - |p|..] == p }

  predicate IsFileChar(c: char) { 'a' <= c <= 'z' || IsDigit(c) || c == '-' || c == '_' || c == '.' }

  predicate FileChars(s: string) { forall k :: 0 <= k < |s| ==> IsFileChar(s[k]) }

  /** A name as `analyze` returns it: `.webp` at the end, only `[a-z0-9-_.]`. */
  predicate WebpName(s: string) { EndsWith(s, Webp) && FileChars(s) }

  /** A name that does not end in `.webp` keeps the text before its first '.' and gets `.webp`. */
  function WithWebp(n: string): (r: string)
    ensures EndsWith(r, Webp)
  {
    if EndsWith(n, Webp) then n else Split(n, '.')[0] + Webp
  }

  /** `.replace(/[^a-z0-9\-_\.]/g, '-')`. */
  function Sanitize(s: string): (r: string)
    ensures |r| == |s| && FileChars(r)
    ensures forall k :: 0 <= k < |s| ==> r[k] == if IsFileChar(s[k]) then s[k] else '-'
  {
    seq(|s|, k requires 0 <= k < |s| => if IsFileChar(s[k]) then s[k] else '-')
  }

  /** `.replace(/-+/g, '-')`. */
  function SqueezeDashes(s: string): (r: string)
    ensures |r| <= |s|
    ensures forall k :: 0 <= k < |r| ==> r[k] in s
    ensures forall k :: 0 <= k < |r| - 1 ==> !(r[k] == '-' && r[k + 1] == '-')
    ensures s != [] ==> r != [] && r[0] == s[0]
    decreases |s|
  {
    if |s| < 2 then s
    else if s[0] == '-' && s[1] == '-' then SqueezeDashes(s[1..])
    else [s[0]] + SqueezeDashes(s[1..])
  }

  /** `.replace(/^-|-$/g, '')`: one leading and one trailing '-' go. */
  function TrimDashes(s: string): (r: string)
    ensures |r| <= |s| && forall k :: 0 <= k < |r| ==> r[k] in s
  {
    var a := if s != [] && s[0] == '-' then s[1..] else s;
    if a != [] && a[|a| - 1] == '-' then a[..|a| - 1] else a
  }

  /** The new filename after the suffix fix and the three character rewrites. */
  function FixName(n: string): string {
    TrimDashes(SqueezeDashes(Sanitize(WithWebp(n))))
  }

  lemma {:induction false} SqueezeNoDash(t: string)
    requires '-' !in t
    ensures SqueezeDashes(t) == t
    decreases |t|
  {
    if |t| >= 2 {
      SqueezeNoDash(t[1..]);
    }
  }

  lemma {:induction false} SqueezeAppend(s: string, t: string)
    requires '-' !in t
    ensures SqueezeDashes(s + t) == SqueezeDashes(s) + t
    decreases |s|
  {
    if s == [] {
      assert s + t == t;
      SqueezeNoDash(t);
    } else if |s| == 1 {
      if t != [] {
        assert (s + t)[1..] == t;
        SqueezeNoDash(t);
      }
    } else {
      assert (s + t)[1..] == s[1..] + t;
      SqueezeAppend(s[1..], t);
    }
  }

  /** No two '-' in a row. */
  predicate SingleDashes(s: string) {
    forall k :: 0 <= k < |s| - 1 ==> !(s[k] == '-' && s[k + 1] == '-')
  }

  /** Before the dash trim a `.webp` name still ends in `.webp`, over the allowed characters, with single dashes. */
  lemma SqueezedShape(w: string)
    requires EndsWith(w, Webp)
    ensures var q := SqueezeDashes(Sanitize(w));
      WebpName(q) && SingleDashes(q)
  {
    var b := w[..|w| - 5];
    assert w == b + Webp;
    SanitizeWebp(b);
    SqueezeAppend(Sanitize(b), Webp);
    var q := SqueezeDashes(Sanitize(b)) + Webp;
    assert q == SqueezeDashes(Sanitize(w));
    assert q[|q| - 5..] == Webp;
    var t := Sanitize(w);
    forall k | 0 <= k < |q| ensures IsFileChar(q[k]) {
      InFileChars(t, q[k]);
    }
  }

  lemma InFileChars(t: string, c: char)
    requires FileChars(t) && c in t
    ensures IsFileChar(c)
  {
    var i :| 0 <= i < |t| && t[i] == c;
  }

  lemma SanitizeWebp(b: string)
    ensures Sanitize(b + Webp) == Sanitize(b) + Webp
  {
    assert forall k :: |b| <= k < |b| + 5 ==> IsFileChar((b + Webp)[k]);
  }

  lemma TrimDashesShape(q: string)
    requires WebpName(q) && SingleDashes(q)
    ensures var r := TrimDashes(q);
      WebpName(r) && SingleDashes(r) && r[0] != '-'
  {
    var r := TrimDashes(q);
    if q[0] == '-' {
      assert r == q[1..];
    } else {
      assert r == q;
    }
  }

  /**
   * Every fixed name ends in `.webp`, uses only `[a-z0-9-_.]`, does not start
   * with '-' and has no two '-' in a row.
   */
  lemma FixNameShape(n: string)
    ensures WebpName(FixName(n)) && SingleDashes(FixName(n)) && FixName(n)[0] != '-'
  {
    SqueezedShape(WithWebp(n));
    TrimDashesShape(SqueezeDashes(Sanitize(WithWebp(n))));
  }

  /** A tag as `Math.random().toString(36).substring(2, 5)` gives it: at most three of `[0-9a-z]`. */
  predicate TagOk(tag: string) {
    |tag| <= 3 && forall k :: 0 <= k < |tag| ==> 'a' <= tag[k] <= 'z' || IsDigit(tag[k])
  }

  ghost predicate TagsOk(tags: nat -> string) { forall k :: TagOk(tags(k)) }

  /** `name.replace('.webp', '-' + tag + '.webp')` when the name is already used in this batch. */
  function Rename(name: string, used: set<string>, tag: string): string {
    if name in used then ReplaceFirst(name, Webp, "-" + tag + Webp) else name
  }

  /** Renaming keeps a `.webp` name a `.webp` name. */
  lemma RenameShape(name: string, used: set<string>, tag: string)
    requires WebpName(name) && TagOk(tag)
    ensures WebpName(Rename(name, used, tag))
  {
    if name in used {
      var j := |name| - 5;
      assert Webp <= name[j..];
      ContainsAt(name, Webp, j);
      var i := IndexOf(name, Webp);
      FirstWebpEnds(name, i);
      var r := name[..i] + ("-" + tag + Webp) + name[i + 5..];
      assert ReplaceFirst(name, Webp, "-" + tag + Webp) == r;
      FileCharsAppend(name[..i], "-" + tag + Webp);
      FileCharsAppend(name[..i] + ("-" + tag + Webp), name[i + 5..]);
      assert r[|r| - 5..] == Webp by {
        if i < j {
          assert name[i + 5..][|name[i + 5..]| - 5..] == name[j..];
        }
      }
    }
  }

  /** The first `.webp` of a name ending in `.webp` is the last one, or ends at least five characters before the end. */
  lemma FirstWebpEnds(name: string, i: int)
    requires EndsWith(name, Webp)
    requires 0 <= i <= |name| - 5 && name[i..i + 5] == Webp
    ensures i == |name| - 5 || i + 10 <= |name|
  {
    var j := |name| - 5;
    var w := name[i..i + 5];
    assert name[j] == '.';
    assert w[1] == 'w' && w[2] == 'e' && w[3] == 'b' && w[4] == 'p';
    assert 0 <= j - i < 5 ==> name[j] == w[j - i];
  }

  lemma FileCharsAppend(a: string, b: string)
    requires FileChars(a) && FileChars(b)
    ensures FileChars(a + b)
  {
    assert forall k :: 0 <= k < |a + b| ==> (a + b)[k] == if k < |a| then a[k] else b[k - |a|];
  }

  /** `originalFilenames.map(fn => fn.toLowerCase())`. */
  function LowerAll(names: seq<string>): (r: seq<string>)
    ensures |r| == |names| && forall k :: 0 <= k < |names| ==> r[k] == Lower(names[k])
  {
    seq(|names|, k requires 0 <= k < |names| => Lower(names[k]))
  }

  /** The images whose original filename, lower-cased, is one of `known`; order kept. */
  function Matching(images: seq<SeoImage>, known: seq<string>): (r: seq<SeoImage>)
    ensures |r| <= |images|
    ensures forall k :: 0 <= k < |r| ==>
      r[k] in images && r[k].originalFilename != [] && Lower(r[k].originalFilename) in known
    ensures forall k :: 0 <= k < |images| ==>
      (images[k].originalFilename != [] && Lower(images[k].originalFilename) in known ==> images[k] in r)
  {
    if images == [] then []
    else
      var img := images[0];
      (if img.originalFilename != [] && Lower(img.originalFilename) in known then [img] else [])
        + Matching(images[1..], known)
  }

  /** How one image is named from its draft filename, the names used so far and its index. */
  type Namer = (string, set<string>, nat) -> string

  /** The naming in `analyze`: fix the name, and tag it when it is already taken. */
  function SeoNamer(tags: nat -> string): (r: Namer) {
    (f: string, used: set<string>, k: nat) => Rename(FixName(f), used, tags(k))
  }

  /** Every name `namer` hands out is a `.webp` name. */
  ghost predicate NamesWebp(namer: Namer) {
    forall f, used, k :: WebpName(namer(f, used, k))
  }

  lemma SeoNamesWebp(tags: nat -> string)
    requires TagsOk(tags)
    ensures NamesWebp(SeoNamer(tags))
  {
    forall f, used, k ensures WebpName(SeoNamer(tags)(f, used, k)) {
      FixNameShape(f);
      RenameShape(FixName(f), used, tags(k));
    }
  }

  /** The kept images with their new names, and the set of names used so far, after the first `n`. */
  function Named(images: seq<SeoImage>, namer: Namer, n: nat): (r: (seq<SeoImage>, set<string>))
    requires n <= |images|
    ensures |r.0| == n
  {
    if n == 0 then ([], {})
    else
      var (out, used) := Named(images, namer, n - 1);
      var img := images[n - 1];
      var name := namer(img.newFilename, used, n - 1);
      (out + [img.(newFilename := name)], used + {name})
  }

  /** The new filenames, in order. */
  function NewNames(images: seq<SeoImage>): (r: seq<string>)
    ensures |r| == |images| && forall k :: 0 <= k < |images| ==> r[k] == images[k].newFilename
  {
    seq(|images|, k requires 0 <= k < |images| => images[k].newFilename)
  }

  /** The renaming changes only the new filename, and every new filename is a `.webp` name. */
  lemma NamedShape(images: seq<SeoImage>, namer: Namer, n: nat)
    requires n <= |images| && NamesWebp(namer)
    ensures forall k :: 0 <= k < n ==> Renamed(images[k], Named(images, namer, n).0[k])
  {
    forall k | 0 <= k < n
      ensures Renamed(images[k], Named(images, namer, n).0[k])
    {
      NamedPrefix(images, namer, n, k + 1);
      assert Named(images, namer, n).0[k] == Named(images, namer, n).0[..k + 1][k];
    }
  }

  /** Later steps never revisit an earlier image. */
  lemma {:induction false} NamedPrefix(images: seq<SeoImage>, namer: Namer, n: nat, m: nat)
    requires m <= n <= |images|
    ensures Named(images, namer, n).0[..m] == Named(images, namer, m).0
    decreases n
  {
    if m < n {
      NamedPrefix(images, namer, n - 1, m);
      var prev := Named(images, namer, n - 1).0;
      var now := Named(images, namer, n).0;
      assert now[..n - 1] == prev;
      assert now[..m] == prev[..m];
    } else {
      assert Named(images, namer, n).0[..n] == Named(images, namer, n).0;
    }
  }

  /** `after` is `before` with a `.webp` name and nothing else changed. */
  predicate Renamed(before: SeoImage, after: SeoImage) {
    WebpName(after.newFilename) && after == before.(newFilename := after.newFilename)
  }

  /** `localUsedFiles` holds exactly the names handed out so far. */
  lemma {:induction false} NamedUsed(images: seq<SeoImage>, namer: Namer, n: nat)
    requires n <= |images|
    ensures forall x :: x in Named(images, namer, n).1 <==> x in NewNames(Named(images, namer, n).0)
  {
    if n > 0 {
      NamedUsed(images, namer, n - 1);
      var (out, used) := Named(images, namer, n - 1);
      var img := images[n - 1];
      var name := namer(img.newFilename, used, n - 1);
      assert Named(images, namer, n) == (out + [img.(newFilename := name)], used + {name});
      assert NewNames(out + [img.(newFilename := name)]) == NewNames(out) + [name];
    }
  }

  /** The last filter: images with all four fields. */
  function KeepFull(images: seq<SeoImage>): (r: seq<SeoImage>)
    ensures forall k :: 0 <= k < |r| ==> Full(r[k]) && r[k] in images
    ensures (forall k :: 0 <= k < |images| ==> Full(images[k])) ==> r == images
  {
    if images == [] then []
    else (if Full(images[0]) then [images[0]] else []) + KeepFull(images[1..])
  }

  /** The images `analyze` returns for the parsed `images`. */
  function Finalized(images: seq<SeoImage>, originals: seq<string>, tags: nat -> string): seq<SeoImage> {
    var matching := Matching(images, LowerAll(originals));
    KeepFull(Named(matching, SeoNamer(tags), |matching|).0)
  }

  /** One step of the `map`: the name it hands out is the one the namer gives. */
  lemma NamedStep(matching: seq<SeoImage>, tags: nat -> string, i: nat,
                  renamed: seq<SeoImage>, used: set<string>, name: string)
    requires i < |matching| && (renamed, used) == Named(matching, SeoNamer(tags), i)
    requires name == Rename(FixName(matching[i].newFilename), used, tags(i))
    ensures Named(matching, SeoNamer(tags), i + 1) == (renamed + [matching[i].(newFilename := name)], used + {name})
  {
    assert name == SeoNamer(tags)(matching[i].newFilename, used, i);
  }

  /** The filter and the `map` with its `localUsedFiles` set. */
  method Finalize(images: seq<SeoImage>, originals: seq<string>, tags: nat -> string)
    returns (out: seq<SeoImage>)
    ensures out == Finalized(images, originals, tags)
  {
    var matching := Matching(images, LowerAll(originals));
    var used: set<string> := {};
    var renamed: seq<SeoImage> := [];
    for i := 0 to |matching|
      invariant (renamed, used) == Named(matching, SeoNamer(tags), i)
    {
      var img := matching[i];
      var name := FixName(img.newFilename);
      if name in used {
        name := ReplaceFirst(name, Webp, "-" + tags(i) + Webp);
      }
      NamedStep(matching, tags, i, renamed, used, name);
      used := used + {name};
      renamed := renamed + [img.(newFilename := name)];
    }
    out := KeepFull(renamed);
  }

  // ------------------------------------------------------------------ analyze

  datatype Analysis = Images(images: seq<SeoImage>) | Null | Retry

  const InvalidResponse: string := "Gemini AI 返回无效响应"
  const InvalidZhSummary: string := "Gemini AI 返回无效的中文摘要"

  /** What the `catch` returns for an error with the given HTTP status and message. */
  function OnError(status: Option<int>, message: string): (r: Analysis)
    ensures !r.Images?
    ensures r.Retry? <==>
      (status == Some(503) || status == Some(429) || Contains(message, "quota") || Contains(message, "rate limit"))
  {
    if status == Some(503) || status == Some(429) || Contains(message, "quota") || Contains(message, "rate limit")
    then Retry
    else Null
  }

  /** `summaries.find(s => s.lang === 'zh')`. */
  function FindZh(s: seq<G.Summary>): (r: Option<G.Summary>)
    ensures r.Some? ==> r.value in s && r.value.lang == "zh"
    ensures r.None? ==> forall k :: 0 <= k < |s| ==> s[k].lang != "zh"
  {
    if s == [] then None
    else if s[0].lang == "zh" then Some(s[0])
    else FindZh(s[1..])
  }

  /** The whole of `analyze` after the Gemini call answered with `response`. */
  function AnalysisOf(response: G.Generated<seq<G.Summary>>, originals: seq<string>, tags: nat -> string)
    : Analysis
  {
    match response.value
    case None => OnError(None, InvalidResponse)
    case Some(summaries) =>
      if summaries == [] then OnError(None, InvalidResponse)
      else
        match FindZh(summaries)
        case None => OnError(None, InvalidZhSummary)
        case Some(zh) =>
          if zh.summary == [] then OnError(None, InvalidZhSummary)
          else FromReply(zh.summary, originals, tags)
  }

  /** The end of `analyze` once the reply text is in hand: the images, or `null` when none survive. */
  function FromReply(text: string, originals: seq<string>, tags: nat -> string): (r: Analysis)
    ensures !r.Retry?
    ensures r.Images? <==> Finalized(Parsed(text), originals, tags) != []
    ensures r.Images? ==> r.images == Finalized(Parsed(text), originals, tags)
  {
    var images := Finalized(Parsed(text), originals, tags);
    if images != [] then Images(images) else Null
  }

  /** `analyze(caseId, content, originalFilenames)`. */
  method Analyze(reply: int -> G.Outcome, parse: string -> Option<Json>, originals: seq<string>,
                 tags: nat -> string)
    returns (r: Analysis)
    ensures r == AnalysisOf(G.GenerateSummaries(reply, parse, ModelIndex), originals, tags)
  {
    var response := G.GenerateSummaries(reply, parse, ModelIndex);
    if response.value.None? || response.value.value == [] {
      return OnError(None, InvalidResponse);
    }
    var zh := FindZh(response.value.value);
    if zh.None? || zh.value.summary == [] {
      return OnError(None, InvalidZhSummary);
    }
    var images := ParseLines(Lines(zh.value.summary));
    var kept := Finalize(images, originals, tags);
    if kept != [] {
      return Images(kept);
    }
    return Null;
  }

  lemma {:induction false} ContainsHead(s: string, p: string)
    requires p != [] && Contains(s, p)
    ensures p[0] in s
    decreases |s|
  {
    if !(p <= s) {
      ContainsHead(s[1..], p);
    }
  }

  /** Neither of `analyze`'s own error messages mentions a quota or a rate limit. */
  lemma OwnErrorsNotRetry()
    ensures OnError(None, InvalidResponse) == Null
    ensures OnError(None, InvalidZhSummary) == Null
  {
    assert 'q' !in InvalidResponse && 'r' !in InvalidResponse;
    assert 'q' !in InvalidZhSummary && 'r' !in InvalidZhSummary;
    if Contains(InvalidResponse, "quota") { ContainsHead(InvalidResponse, "quota"); }
    if Contains(InvalidResponse, "rate limit") { ContainsHead(InvalidResponse, "rate limit"); }
    if Contains(InvalidZhSummary, "quota") { ContainsHead(InvalidZhSummary, "quota"); }
    if Contains(InvalidZhSummary, "rate limit") { ContainsHead(InvalidZhSummary, "rate limit"); }
  }

  /**
   * The only errors `analyze` meets are its own two messages, which mention
   * neither a quota nor a rate limit, so it never answers 'RETRY'.
   */
  lemma NeverRetry(response: G.Generated<seq<G.Summary>>, originals: seq<string>, tags: nat -> string)
    ensures !AnalysisOf(response, originals, tags).Retry?
  {
    OwnErrorsNotRetry();
  }

  lemma NoUpperLower(s: string)
    requires NoUpper(s)
    ensures Lower(s) == s
  {
  }

  /**
   * Of cleaned, complete images, the post-processing keeps ones with four
   * non-empty fields, an original filename equal to one of the case's
   * filenames lower-cased, and a `.webp` new filename over `[a-z0-9-_.]`.
   */
  lemma FinalizedShape(images: seq<SeoImage>, originals: seq<string>, tags: nat -> string)
    requires forall k :: 0 <= k < |images| ==> Parsable(images[k])
    requires TagsOk(tags)
    ensures forall img :: img in Finalized(images, originals, tags) ==>
      Full(img) && WebpName(img.newFilename) && img.originalFilename in LowerAll(originals)
  {
    var matching := Matching(images, LowerAll(originals));
    SeoNamesWebp(tags);
    NamedShape(matching, SeoNamer(tags), |matching|);
    var renamed := Named(matching, SeoNamer(tags), |matching|).0;
    forall img | img in Finalized(images, originals, tags)
      ensures Full(img) && WebpName(img.newFilename) && img.originalFilename in LowerAll(originals)
    {
      var j :| 0 <= j < |renamed| && renamed[j] == img;
      assert Renamed(matching[j], img);
      var m := matching[j];
      assert m in images;
      NoUpperLower(m.originalFilename);
    }
  }

  /** A successful analysis has at least one image, each of the shape `FinalizedShape` describes. */
  lemma AnalysisShape(response: G.Generated<seq<G.Summary>>, originals: seq<string>, tags: nat -> string)
    requires TagsOk(tags)
    ensures var r := AnalysisOf(response, originals, tags);
      r.Images? ==> r.images != [] && forall img :: img in r.images ==>
        Full(img) && WebpName(img.newFilename) && img.originalFilename in LowerAll(originals)
  {
    var r := AnalysisOf(response, originals, tags);
    if r.Images? {
      var zh := FindZh(response.value.value).value;
      ParsedFull(zh.summary);
      FinalizedShape(Parsed(zh.summary), originals, tags);
    }
  }
}
