/**
 * The string helpers of the legacy editor module: placeholder extraction,
 * the semicolon-aware paste, list/paragraph formatting, the image grid and
 * the `steps_bind` template filter.
 */
module LegacyCore {
  import opened Wrappers
  import opened PyStrings
  import opened PyOrder
  import opened Placeholders
  import TextService

  // ---------------------------------------------------------------------------
  // extract_placeholders
  // ---------------------------------------------------------------------------

  /** `sorted(set(PLACEHOLDER_REGEX.findall(html)))` with the `[A-Za-z0-9_-]` names. */
  function ExtractPlaceholders(html: string): (r: seq<string>)
  {
    SortedSet(FindAll(MixedCase, html))
  }

  /** The names come out sorted, each once, and they are exactly the names in the text. */
  lemma ExtractPlaceholdersSpec(html: string)
    ensures StrictlySorted(ExtractPlaceholders(html))
    ensures forall n :: n in ExtractPlaceholders(html) <==> n in FindAll(MixedCase, html)
    ensures forall k :: 0 <= k < |ExtractPlaceholders(html)| ==> IsName(MixedCase, ExtractPlaceholders(html)[k])
  {
    var xs := FindAll(MixedCase, html);
    SortedSetSpec(xs);
    var r := ExtractPlaceholders(html);
    forall k | 0 <= k < |r|
      ensures IsName(MixedCase, r[k])
    {
      assert r[k] in xs;
      var j :| 0 <= j < |xs| && xs[j] == r[k];
    }
  }

  /** No name is listed twice. */
  lemma ExtractPlaceholdersDistinct(html: string, i: nat, j: nat)
    requires i < j < |ExtractPlaceholders(html)|
    ensures ExtractPlaceholders(html)[i] != ExtractPlaceholders(html)[j]
  {
    ExtractPlaceholdersSpec(html);
    StrictlySortedDistinct(ExtractPlaceholders(html), i, j);
  }

  // ---------------------------------------------------------------------------
  // smart_paste
  // ---------------------------------------------------------------------------

  /**
   * `smart_paste`: the trimmed non-blank lines; but a single line holding a
   * `;` is split on it instead, keeping the trimmed non-blank parts.
   */
  function SmartPaste(raw: string): (r: seq<string>)
    ensures forall k :: 0 <= k < |r| ==> IsStrippedText(r[k])
  {
    if raw == [] then []
    else
      var lines := NonBlankLines(raw);
      if |lines| == 1 && ';' in lines[0] then StrippedNonBlank(SplitOn(lines[0], ';'))
      else lines
  }

  /** Whether the semicolon branch applies. */
  predicate SplitsOnSemicolon(raw: string) {
    var lines := NonBlankLines(raw);
    |lines| == 1 && ';' in lines[0]
  }

  /** `s` with every `c` removed. */
  function Drop(c: char, s: string): (r: string)
  {
    if s == [] then [] else (if s[0] == c then [] else [s[0]]) + Drop(c, s[1..])
  }

  lemma {:induction false} ConcatSplitOn(s: string, c: char)
    ensures Concat(SplitOn(s, c)) == Drop(c, s)
    decreases |s|
  {
    if s != [] {
      var rest := SplitOn(s[1..], c);
      ConcatSplitOn(s[1..], c);
      if s[0] == c {
        calc {
          Concat(SplitOn(s, c));
          Concat([[]] + rest);
          { ConcatCons([], rest); }
          Concat(rest);
        }
      } else {
        calc {
          Concat(SplitOn(s, c));
          Concat([[s[0]] + rest[0]] + rest[1..]);
          { ConcatCons([s[0]] + rest[0], rest[1..]); }
          [s[0]] + rest[0] + Concat(rest[1..]);
          { ConcatCons(rest[0], rest[1..]); assert rest == [rest[0]] + rest[1..]; }
          [s[0]] + Concat(rest);
        }
      }
    } else {
      assert SplitOn(s, c) == [[]];
      ConcatCons([], []);
    }
  }

  lemma {:induction false} NonSpaceDrop(s: string, c: char)
    requires !IsSpace(c)
    ensures NonSpace(Drop(c, s)) == Drop(c, NonSpace(s))
    decreases |s|
  {
    if s != [] {
      NonSpaceDrop(s[1..], c);
      var h := if s[0] == c then [] else [s[0]];
      NonSpaceAppend(h, Drop(c, s[1..]));
      var g := if IsSpace(s[0]) then [] else [s[0]];
      DropAppend(c, g, NonSpace(s[1..]));
    }
  }

  lemma {:induction false} DropAppend(c: char, a: string, b: string)
    ensures Drop(c, a + b) == Drop(c, a) + Drop(c, b)
    decreases |a|
  {
    if a != [] {
      assert (a + b)[0] == a[0];
      assert (a + b)[1..] == a[1..] + b;
      DropAppend(c, a[1..], b);
    } else {
      assert a + b == b;
    }
  }

  lemma ConcatSingle(x: string)
    ensures Concat([x]) == x
  {
    ConcatCons(x, []);
  }

  /**
   * Without the semicolon branch the legacy paste is the current service's
   * paste: the trimmed non-blank lines.
   */
  lemma SmartPasteLines(raw: string)
    requires !SplitsOnSemicolon(raw)
    ensures SmartPaste(raw) == TextService.SmartPaste(raw)
  {
    if raw == [] {
      assert SplitLines(raw) == [];
    }
  }

  /**
   * In the semicolon branch, only whitespace, line breaks and the `;`
   * separators are lost: the visible characters come back in order.
   */
  lemma SmartPasteSplitContent(raw: string)
    requires SplitsOnSemicolon(raw)
    ensures NonSpace(Concat(SmartPaste(raw))) == Drop(';', NonSpace(raw))
  {
    var lines := NonBlankLines(raw);
    var line := lines[0];
    var parts := SplitOn(line, ';');
    NonBlankLinesOfEmpty();
    assert SmartPaste(raw) == StrippedNonBlank(parts);
    calc {
      NonSpace(Concat(StrippedNonBlank(parts)));
      { StrippedNonBlankKeepsContent(parts); }
      NonSpace(Concat(parts));
      { ConcatSplitOn(line, ';'); }
      NonSpace(Drop(';', line));
      { NonSpaceDrop(line, ';'); }
      Drop(';', NonSpace(line));
      { ConcatSingle(line); assert lines == [line]; NonBlankLinesKeepContent(raw); }
      Drop(';', NonSpace(raw));
    }
  }

  lemma NonBlankLinesOfEmpty()
    ensures NonBlankLines([]) == []
  {
    assert SplitLines([]) == [];
  }

  /** The legacy paste never returns a part holding a `;` once it has split on them. */
  lemma SmartPasteSplitHasNoSemicolon(raw: string, k: nat)
    requires SplitsOnSemicolon(raw) && k < |SmartPaste(raw)|
    ensures Avoids(SmartPaste(raw)[k], ';')
  {
    var parts := SplitOn(NonBlankLines(raw)[0], ';');
    NonBlankLinesOfEmpty();
    forall j | 0 <= j < |parts|
      ensures Avoids(parts[j], ';')
    {
    }
    StrippedNonBlankAvoids(parts, ';');
  }

  /** No character of `s` is `c`. */
  predicate Avoids(s: string, c: char) {
    forall i :: 0 <= i < |s| ==> s[i] != c
  }

  lemma StripAvoids(s: string, c: char)
    requires Avoids(s, c)
    ensures Avoids(Strip(s), c)
  {
    StripSlice(s);
  }

  /** Stripping keeps only characters of the original parts. */
  lemma {:induction false} StrippedNonBlankAvoids(xs: seq<string>, c: char)
    requires forall j :: 0 <= j < |xs| ==> Avoids(xs[j], c)
    ensures forall k :: 0 <= k < |StrippedNonBlank(xs)| ==> Avoids(StrippedNonBlank(xs)[k], c)
  {
    if xs != [] {
      var rest := StrippedNonBlank(xs[1..]);
      StrippedNonBlankAvoids(xs[1..], c);
      StripAvoids(xs[0], c);
      var t := Strip(xs[0]);
      var head: seq<string> := if t != [] then [t] else [];
      assert StrippedNonBlank(xs) == head + rest;
      AllAvoidAppend(head, rest, c);
    }
  }

  lemma AllAvoidAppend(xs: seq<string>, ys: seq<string>, c: char)
    requires forall k :: 0 <= k < |xs| ==> Avoids(xs[k], c)
    requires forall k :: 0 <= k < |ys| ==> Avoids(ys[k], c)
    ensures forall k :: 0 <= k < |xs + ys| ==> Avoids((xs + ys)[k], c)
  {
    forall k | 0 <= k < |xs + ys|
      ensures Avoids((xs + ys)[k], c)
    {
      if k < |xs| {
        assert (xs + ys)[k] == xs[k];
      } else {
        assert (xs + ys)[k] == ys[k - |xs|];
      }
    }
  }

  lemma {:induction false} SplitOnNoLineBreak(s: string, sep: char)
    requires NoLineBreak(s)
    ensures forall k :: 0 <= k < |SplitOn(s, sep)| ==> NoLineBreak(SplitOn(s, sep)[k])
    decreases |s|
  {
    if s != [] {
      assert NoLineBreak(s[1..]) by {
        forall i | 0 <= i < |s| - 1 ensures !IsLineBreak(s[1..][i]) {
          assert s[1..][i] == s[i + 1];
        }
      }
      SplitOnNoLineBreak(s[1..], sep);
      var rest := SplitOn(s[1..], sep);
      if s[0] != sep {
        var first := [s[0]] + rest[0];
        assert NoLineBreak(first) by {
          forall i | 0 <= i < |first| ensures !IsLineBreak(first[i]) {
            if i > 0 { assert first[i] == rest[0][i - 1]; }
          }
        }
      }
    }
  }

  /** Every line `smart_paste` returns is a single line. */
  lemma SmartPasteNoLineBreak(raw: string)
    ensures forall k :: 0 <= k < |SmartPaste(raw)| ==> NoLineBreak(SmartPaste(raw)[k])
  {
    NonBlankLinesOfEmpty();
    NonBlankLinesNoLineBreak(raw);
    if SplitsOnSemicolon(raw) {
      var line := NonBlankLines(raw)[0];
      SplitOnNoLineBreak(line, ';');
      StrippedNonBlankNoLineBreak(SplitOn(line, ';'));
    }
  }

  /** The pasted lines joined with `\n` split back into the same lines. */
  lemma SmartPasteJoinSplitsBack(raw: string)
    requires SmartPaste(raw) != []
    ensures SplitOn(Join("\n", SmartPaste(raw)), '\n') == SmartPaste(raw)
  {
    var lines := SmartPaste(raw);
    SmartPasteNoLineBreak(raw);
    forall k, i | 0 <= k < |lines| && 0 <= i < |lines[k]|
      ensures lines[k][i] != '\n'
    {
      assert !IsLineBreak(lines[k][i]);
    }
    SplitJoinRoundTrip(lines, '\n');
  }

  // ---------------------------------------------------------------------------
  // auto_format
  // ---------------------------------------------------------------------------

  /** `[f'{open}{ln}{close}' for ln in lines]`. */
  function Wrapped(open: string, lines: seq<string>, close: string): (r: seq<string>)
    ensures |r| == |lines|
    ensures forall k :: 0 <= k < |r| ==> r[k] == open + lines[k] + close
  {
    seq(|lines|, k requires 0 <= k < |lines| => open + lines[k] + close)
  }

  /**
   * `auto_format`: empty text gives `''`; text holding `<` is returned as it
   * is; otherwise its trimmed non-blank lines become list items (`'ul'`) or
   * paragraphs (`'p'`), and any other mode returns the text.
   */
  function AutoFormat(text: string, mode: string): (r: string)
    ensures '<' in text ==> r == text
  {
    if text == [] then []
    else if '<' in text then text
    else
      var lines := NonBlankLines(text);
      if lines == [] then []
      else if mode == "ul" then "<ul>\n" + Join("\n", Wrapped("<li>", lines, "</li>")) + "\n</ul>"
      else if mode == "p" then Join("\n", Wrapped("<p>", lines, "</p>"))
      else text
  }

  lemma BlankHasNoLines(text: string)
    requires IsBlank(text)
    ensures NonBlankLines(text) == []
  {
    NonBlankLinesKeepContent(text);
    NonSpaceOfBlank(text);
    ConcatStrippedHasContent(NonBlankLines(text));
  }

  /** Lines of stripped text always carry some visible character. */
  lemma ConcatStrippedHasContent(l: seq<string>)
    requires forall k :: 0 <= k < |l| ==> IsStrippedText(l[k])
    ensures l != [] ==> NonSpace(Concat(l)) != []
  {
    if l != [] {
      ConcatCons(l[0], l[1..]);
      assert l == [l[0]] + l[1..];
      NonSpaceAppend(l[0], Concat(l[1..]));
      StrippedHasContent(l[0]);
    }
  }

  /** Empty or whitespace-only text formats to `''` in every mode. */
  lemma AutoFormatBlank(text: string, mode: string)
    requires IsBlank(text)
    ensures AutoFormat(text, mode) == []
  {
    BlankHasNoLines(text);
  }

  lemma StrippedHasContent(t: string)
    requires IsStrippedText(t)
    ensures NonSpace(t) != []
  {
    assert t == [t[0]] + t[1..];
    NonSpaceAppend([t[0]], t[1..]);
  }

  lemma JoinStartsWith(sep: string, xs: seq<string>, c: char)
    requires xs != [] && xs[0] != [] && xs[0][0] == c
    ensures Join(sep, xs) != [] && Join(sep, xs)[0] == c
  {
  }

  /** Formatting twice is formatting once: every formatted output holds `<`, so it is left alone. */
  lemma AutoFormatIdempotent(text: string, mode: string)
    ensures AutoFormat(AutoFormat(text, mode), mode) == AutoFormat(text, mode)
  {
    var r := AutoFormat(text, mode);
    if text != [] && '<' !in text {
      var lines := NonBlankLines(text);
      if lines != [] && mode == "ul" {
        assert r[0] == '<';
      } else if lines != [] && mode == "p" {
        JoinStartsWith("\n", Wrapped("<p>", lines, "</p>"), '<');
        assert r[0] == '<';
      }
    }
  }

  /** The tags `auto_format` wraps lines in hold no line break. */
  lemma TagsHaveNoLineBreak()
    ensures NoLineBreak("<li>") && NoLineBreak("</li>") && NoLineBreak("<p>") && NoLineBreak("</p>")
  {
  }

  /** Wrapped lines joined with `\n` split back into the wrapped lines. */
  lemma WrappedSplitsBack(open: string, lines: seq<string>, close: string)
    requires lines != []
    requires forall k :: 0 <= k < |lines| ==> NoLineBreak(lines[k])
    requires NoLineBreak(open) && NoLineBreak(close)
    ensures SplitOn(Join("\n", Wrapped(open, lines, close)), '\n') == Wrapped(open, lines, close)
  {
    var w := Wrapped(open, lines, close);
    forall k, i | 0 <= k < |w| && 0 <= i < |w[k]|
      ensures w[k][i] != '\n'
    {
      if i < |open| {
        assert w[k][i] == open[i];
      } else if i < |open| + |lines[k]| {
        assert w[k][i] == lines[k][i - |open|];
      } else {
        assert w[k][i] == close[i - |open| - |lines[k]|];
      }
    }
    SplitJoinRoundTrip(w, '\n');
  }

  /**
   * In `'ul'` mode the list body splits back, line by line, into one
   * `<li>…</li>` per trimmed non-blank line of the input, in order.
   */
  lemma AutoFormatListItems(text: string)
    requires '<' !in text && NonBlankLines(text) != []
    ensures var lines := NonBlankLines(text);
      var items := Join("\n", Wrapped("<li>", lines, "</li>"));
      && AutoFormat(text, "ul") == "<ul>\n" + items + "\n</ul>"
      && SplitOn(items, '\n') == Wrapped("<li>", lines, "</li>")
  {
    NonBlankLinesNoLineBreak(text);
    TagsHaveNoLineBreak();
    WrappedSplitsBack("<li>", NonBlankLines(text), "</li>");
    NonBlankLinesOfEmpty();
  }

  /** In `'p'` mode the output splits back into one `<p>…</p>` per trimmed non-blank line. */
  lemma AutoFormatParagraphs(text: string)
    requires '<' !in text && NonBlankLines(text) != []
    ensures SplitOn(AutoFormat(text, "p"), '\n') == Wrapped("<p>", NonBlankLines(text), "</p>")
  {
    NonBlankLinesNoLineBreak(text);
    TagsHaveNoLineBreak();
    WrappedSplitsBack("<p>", NonBlankLines(text), "</p>");
    NonBlankLinesOfEmpty();
  }

  /** An unknown mode returns plain text unchanged. */
  lemma AutoFormatOtherMode(text: string, mode: string)
    requires mode != "ul" && mode != "p"
    ensures AutoFormat(text, mode) == if IsBlank(text) then [] else text
  {
    if IsBlank(text) {
      BlankHasNoLines(text);
    } else if '<' !in text {
      NonBlankLinesKeepContent(text);
      NonSpaceNonBlank(text);
    }
  }

  lemma NonSpaceNonBlank(s: string)
    requires !IsBlank(s)
    ensures NonSpace(s) != []
  {
    var i :| 0 <= i < |s| && !IsSpace(s[i]);
    assert s == s[..i] + [s[i]] + s[i + 1..];
    NonSpaceAppend(s[..i] + [s[i]], s[i + 1..]);
    NonSpaceAppend(s[..i], [s[i]]);
  }

  // ---------------------------------------------------------------------------
  // images_to_html
  // ---------------------------------------------------------------------------

  /** One entry of `html_lines`: the four line forms `images_to_html` appends. */
  datatype GridLine =
    | RowOpen                            // <div class="img-row">
    | SingleRowOpen                      // <div class="img-row single">
    | FullImg(src: string, alt: string)  // an image of a full row, `width_pct` wide
    | SingleImg(src: string, alt: string) // an image of the short last row, centred
    | RowClose                           // </div>

  /** `max(1, cols)`: images per row. */
  function PerRow(cols: int): (per: nat)
    ensures per >= 1 && per >= cols
    ensures cols >= 1 ==> per == cols
    ensures cols < 1 ==> per == 1
  {
    if cols < 1 then 1 else cols
  }

  /**
   * `int(100 / per) - 1`. For a positive integer `per` the float quotient
   * truncated toward zero is the integer quotient.
   */
  function WidthPct(per: nat): int
    requires per >= 1
  {
    100 / per - 1
  }

  /**
   * Up to 100 images to a row, `per` images of `width_pct`% plus their
   * 1% margins fit the row, and one more percent each would not; beyond
   * that the width is `-1`.
   */
  lemma WidthPctFits(per: nat)
    requires per >= 1
    ensures var w := WidthPct(per);
      && -1 <= w <= 99
      && (per <= 100 ==> 0 <= w && (w + 1) * per <= 100 < (w + 2) * per)
      && (per > 100 ==> w == -1)
  {
    var w := WidthPct(per);
    assert 100 == (w + 1) * per + 100 % per;
    assert (w + 2) * per == (w + 1) * per + per;
    if per > 100 {
      DivUnique(100, per, 0, 100);
    } else {
      MulAtLeast(1, per);
      if w + 1 < 1 {
        DivUnique(100, per, 0, 100);
      }
    }
  }

  /** The text of one line; `width` is used by full-row images only. */
  function RenderLine(l: GridLine, width: int): (r: string)
    ensures r != [] && r[0] == '<'
  {
    match l
    case RowOpen => "<div class=\"img-row\">"
    case SingleRowOpen => "<div class=\"img-row single\">"
    case FullImg(src, alt) =>
      "<img src='" + src + "' alt='" + alt + "' style='width:" + IntToString(width)
      + "%;margin:0.5%;display:inline-block;'>"
    case SingleImg(src, alt) =>
      "<img src='" + src + "' alt='" + alt + "' style='display:block;margin:0 auto;width:auto;max-width:90%;'>"
    case RowClose => "</div>"
  }

  /** The `<img>` lines of one chunk, in order: rows with an empty `src` are skipped. */
  function ChunkImages(chunk: seq<(string, string)>, full: bool): (r: seq<GridLine>)
    ensures |r| <= |chunk|
    decreases |chunk|
  {
    if chunk == [] then []
    else
      var (src, alt) := chunk[|chunk| - 1];
      ChunkImages(chunk[..|chunk| - 1], full)
      + (if src != [] then [if full then FullImg(src, alt) else SingleImg(src, alt)] else [])
  }

  /** The lines of one row: its opening `div`, its images, `</div>`. */
  function RowLines(chunk: seq<(string, string)>, per: nat): (r: seq<GridLine>)
  {
    var full := |chunk| == per;
    [if full then RowOpen else SingleRowOpen] + ChunkImages(chunk, full) + [RowClose]
  }

  /** `html_lines` after the loop: the rows of `per` images, the last one possibly shorter. */
  function GridLines(rows: seq<(string, string)>, per: nat): (r: seq<GridLine>)
    requires per >= 1
    decreases |rows|
  {
    if rows == [] then []
    else
      var n := if |rows| < per then |rows| else per;
      RowLines(rows[..n], per) + GridLines(rows[n..], per)
  }

  /** The text of each line. */
  function Rendered(lines: seq<GridLine>, width: int): (r: seq<string>)
    ensures |r| == |lines|
    ensures forall k :: 0 <= k < |r| ==> r[k] == RenderLine(lines[k], width) && r[k] != []
  {
    seq(|lines|, k requires 0 <= k < |lines| => RenderLine(lines[k], width))
  }

  /** The whole output of `images_to_html`, with `per` and `width_pct` derived from `cols`. */
  function ImagesHtml(rows: seq<(string, string)>, cols: int): (r: string)
  {
    if rows == [] then []
    else
      var per := PerRow(cols);
      Join("\n", Rendered(GridLines(rows, per), WidthPct(per)))
  }

  /** `images_to_html`: builds `html_lines` row by row, then joins them with `\n`. */
  method ImagesToHtml(rows: seq<(string, string)>, cols: int) returns (html: string)
    ensures html == ImagesHtml(rows, cols)
  {
    if rows == [] {
      return "";
    }
    var htmlLines: seq<GridLine> := [];
    var per := PerRow(cols);
    var width := WidthPct(per);
    var i := 0;
    while i < |rows|
      invariant 0 <= i <= |rows|
      invariant htmlLines + GridLines(rows[i..], per) == GridLines(rows, per)
      decreases |rows| - i
    {
      // `range(0, len(rows), per)` with `rows[i:i+per]`: the last chunk may be shorter
      var end := if i + per <= |rows| then i + per else |rows|;
      var chunk := rows[i..end];
      var full := |chunk| == per;
      GridStep(rows, per, i, end);
      var images := RowImages(chunk, full);
      AppendAssoc(htmlLines, RowLines(chunk, per), GridLines(rows[end..], per));
      htmlLines := htmlLines + ([if full then RowOpen else SingleRowOpen] + images + [RowClose]);
      i := end;
    }
    assert rows[i..] == [];
    assert htmlLines == GridLines(rows, per);
    html := Join("\n", Rendered(htmlLines, width));
  }

  /** The row's `<img>` lines, gathered before the row is appended whole; images without `src` are skipped. */
  method RowImages(chunk: seq<(string, string)>, full: bool) returns (images: seq<GridLine>)
    ensures images == ChunkImages(chunk, full)
  {
    images := [];
    for j := 0 to |chunk|
      invariant images == ChunkImages(chunk[..j], full)
    {
      var (src, alt) := chunk[j];
      assert chunk[..j + 1][..j] == chunk[..j];
      if src != [] {
        images := images + [if full then FullImg(src, alt) else SingleImg(src, alt)];
      }
    }
    assert chunk[..|chunk|] == chunk;
  }

  /** The first row of the grid, then the rest. */
  lemma GridFront(rows: seq<(string, string)>, per: nat, n: nat)
    requires per >= 1 && 0 < n <= |rows|
    requires n == if per <= |rows| then per else |rows|
    ensures GridLines(rows, per) == RowLines(rows[..n], per) + GridLines(rows[n..], per)
  {
  }

  /** One turn of the loop: the row of the chunk at `i`, then the rest. */
  lemma GridStep(rows: seq<(string, string)>, per: nat, i: nat, end: nat)
    requires per >= 1 && i < end <= |rows|
    requires end == if i + per <= |rows| then i + per else |rows|
    ensures GridLines(rows[i..], per) == RowLines(rows[i..end], per) + GridLines(rows[end..], per)
  {
    GridFront(rows[i..], per, end - i);
    assert rows[i..][..end - i] == rows[i..end];
    assert rows[i..][end - i..] == rows[end..];
  }

  lemma AppendAssoc(a: seq<GridLine>, b: seq<GridLine>, c: seq<GridLine>)
    ensures (a + b) + c == a + (b + c)
  {
  }

  /** How many lines equal `x`. */
  function CountLines(g: seq<GridLine>, x: GridLine): (n: nat)
    ensures n <= |g|
  {
    if g == [] then 0 else CountLines(g[..|g| - 1], x) + (if g[|g| - 1] == x then 1 else 0)
  }

  lemma {:induction false} CountLinesAppend(a: seq<GridLine>, b: seq<GridLine>, x: GridLine)
    ensures CountLines(a + b, x) == CountLines(a, x) + CountLines(b, x)
    decreases |b|
  {
    if b == [] {
      assert a + b == a;
    } else {
      assert (a + b)[..|a + b| - 1] == a + b[..|b| - 1];
      CountLinesAppend(a, b[..|b| - 1], x);
    }
  }

  /** A chunk's image lines hold no row markup. */
  lemma {:induction false} ChunkImagesNoMarkup(chunk: seq<(string, string)>, full: bool, x: GridLine)
    requires x in {RowOpen, SingleRowOpen, RowClose}
    ensures CountLines(ChunkImages(chunk, full), x) == 0
    decreases |chunk|
  {
    if chunk != [] {
      var init := chunk[..|chunk| - 1];
      ChunkImagesNoMarkup(init, full, x);
      var (src, alt) := chunk[|chunk| - 1];
      var t: seq<GridLine> := if src != [] then [if full then FullImg(src, alt) else SingleImg(src, alt)] else [];
      CountLinesAppend(ChunkImages(init, full), t, x);
      if t != [] {
        assert CountLines(t, x) == CountLines([], x) + 0;
      }
    }
  }

  /** Row markup in one row: one opening `div` of the right kind and one `</div>`. */
  lemma RowMarkup(chunk: seq<(string, string)>, per: nat, x: GridLine)
    requires x in {RowOpen, SingleRowOpen, RowClose}
    ensures CountLines(RowLines(chunk, per), x)
      == if x == RowClose || (x == RowOpen) == (|chunk| == per) then 1 else 0
  {
    var full := |chunk| == per;
    var o: seq<GridLine> := [if full then RowOpen else SingleRowOpen];
    ChunkImagesNoMarkup(chunk, full, x);
    CountLinesAppend(o, ChunkImages(chunk, full), x);
    CountLinesAppend(o + ChunkImages(chunk, full), [RowClose], x);
    assert CountLines(o, x) == CountLines([], x) + (if o[0] == x then 1 else 0);
    assert CountLines([RowClose], x) == CountLines([], x) + (if RowClose == x then 1 else 0);
  }

  /** Counting row markup over the first row and the rest of the grid. */
  lemma GridMarkupFront(rows: seq<(string, string)>, per: nat, n: nat, x: GridLine)
    requires per >= 1 && 0 < n <= |rows|
    requires n == if per <= |rows| then per else |rows|
    requires x in {RowOpen, SingleRowOpen, RowClose}
    ensures CountLines(GridLines(rows, per), x)
      == (if x == RowClose || (x == RowOpen) == (n == per) then 1 else 0) + CountLines(GridLines(rows[n..], per), x)
  {
    GridFront(rows, per, n);
    CountLinesAppend(RowLines(rows[..n], per), GridLines(rows[n..], per), x);
    RowMarkup(rows[..n], per, x);
  }

  /** How many full rows `n` images make, `per` to a row. */
  function FullRows(n: nat, per: nat): nat
    requires per >= 1
    decreases n
  {
    if n < per then 0 else 1 + FullRows(n - per, per)
  }

  /** How many images are left for the short last row. */
  function LastRow(n: nat, per: nat): nat
    requires per >= 1
    decreases n
  {
    if n < per then n else LastRow(n - per, per)
  }

  lemma MulAtLeast(a: int, b: int)
    requires a >= 1 && b >= 1
    ensures a * b >= b
  {
    assert a * b == (a - 1) * b + b;
    assert (a - 1) * b >= 0;
  }

  lemma DivUnique(n: int, per: int, q: int, r: int)
    requires per >= 1 && 0 <= r < per && n == q * per + r
    ensures n / per == q && n % per == r
  {
    var q', r' := n / per, n % per;
    assert n == q' * per + r';
    if q' > q {
      assert (q' - q) * per == q' * per - q * per;
      MulAtLeast(q' - q, per);
    } else if q' < q {
      assert (q - q') * per == q * per - q' * per;
      MulAtLeast(q - q', per);
    }
  }

  /** The rows are the quotient and the short row the remainder of `n` by `per`. */
  lemma {:induction false} FullRowsDiv(n: nat, per: nat)
    requires per >= 1
    ensures FullRows(n, per) == n / per && LastRow(n, per) == n % per
    decreases n
  {
    if n >= per {
      FullRowsDiv(n - per, per);
      var q := FullRows(n - per, per);
      assert (q + 1) * per == q * per + per;
      DivUnique(n, per, q + 1, LastRow(n, per));
    } else {
      DivUnique(n, per, 0, n);
    }
  }

  /** Row markup lines of one kind in the grid, row by row. */
  lemma {:induction false} GridMarkupCount(rows: seq<(string, string)>, per: nat, x: GridLine)
    requires per >= 1
    requires x in {RowOpen, SingleRowOpen, RowClose}
    ensures CountLines(GridLines(rows, per), x)
      == (if x != SingleRowOpen then FullRows(|rows|, per) else 0)
      + (if x != RowOpen && LastRow(|rows|, per) > 0 then 1 else 0)
    decreases |rows|
  {
    if rows != [] {
      var n := if per <= |rows| then per else |rows|;
      GridMarkupFront(rows, per, n, x);
      if n < per {
        assert rows[n..] == [];
      } else {
        GridMarkupCount(rows[n..], per, x);
      }
    }
  }

  /**
   * The grid has `|rows| / per` full rows, one centred short row exactly
   * when `per` does not divide `|rows|`, and a `</div>` closing each row.
   */
  lemma GridShape(rows: seq<(string, string)>, per: nat)
    requires per >= 1
    ensures CountLines(GridLines(rows, per), RowOpen) == |rows| / per
    ensures CountLines(GridLines(rows, per), SingleRowOpen) == (if |rows| % per > 0 then 1 else 0)
    ensures CountLines(GridLines(rows, per), RowClose) == |rows| / per + (if |rows| % per > 0 then 1 else 0)
  {
    GridMarkupCount(rows, per, RowOpen);
    GridMarkupCount(rows, per, SingleRowOpen);
    GridMarkupCount(rows, per, RowClose);
    FullRowsDiv(|rows|, per);
  }

  /** The rows with a non-empty `src`, in order: the ones `images_to_html` shows. */
  function Shown(rows: seq<(string, string)>): (r: seq<(string, string)>)
    ensures |r| <= |rows|
  {
    if rows == [] then []
    else Shown(rows[..|rows| - 1]) + (if rows[|rows| - 1].0 != [] then [rows[|rows| - 1]] else [])
  }

  /** The `(src, alt)` of each `<img>` line, in order. */
  function ImagesOf(g: seq<GridLine>): (r: seq<(string, string)>)
    ensures |r| <= |g|
  {
    if g == [] then []
    else
      var l := g[|g| - 1];
      ImagesOf(g[..|g| - 1]) + (if l.FullImg? || l.SingleImg? then [(l.src, l.alt)] else [])
  }

  lemma {:induction false} ShownAppend(a: seq<(string, string)>, b: seq<(string, string)>)
    ensures Shown(a + b) == Shown(a) + Shown(b)
    decreases |b|
  {
    if b == [] {
      assert a + b == a;
    } else {
      assert (a + b)[..|a + b| - 1] == a + b[..|b| - 1];
      ShownAppend(a, b[..|b| - 1]);
    }
  }

  lemma {:induction false} ImagesOfAppend(a: seq<GridLine>, b: seq<GridLine>)
    ensures ImagesOf(a + b) == ImagesOf(a) + ImagesOf(b)
    decreases |b|
  {
    if b == [] {
      assert a + b == a;
    } else {
      assert (a + b)[..|a + b| - 1] == a + b[..|b| - 1];
      ImagesOfAppend(a, b[..|b| - 1]);
    }
  }

  lemma {:induction false} ChunkImagesShown(chunk: seq<(string, string)>, full: bool)
    ensures ImagesOf(ChunkImages(chunk, full)) == Shown(chunk)
    decreases |chunk|
  {
    if chunk != [] {
      var init := chunk[..|chunk| - 1];
      ChunkImagesShown(init, full);
      var (src, alt) := chunk[|chunk| - 1];
      var t: seq<GridLine> := if src != [] then [if full then FullImg(src, alt) else SingleImg(src, alt)] else [];
      ImagesOfAppend(ChunkImages(init, full), t);
      if t != [] {
        assert ImagesOf(t) == ImagesOf([]) + [(src, alt)];
      }
    }
  }

  /** One row shows its chunk's images. */
  lemma RowShowsImages(chunk: seq<(string, string)>, per: nat)
    ensures ImagesOf(RowLines(chunk, per)) == Shown(chunk)
  {
    var full := |chunk| == per;
    var open := if full then RowOpen else SingleRowOpen;
    var images := ChunkImages(chunk, full);
    ImagesOfSnocTag([open] + images, RowClose);
    ImagesOfConsTag(open, images);
    ChunkImagesShown(chunk, full);
  }

  /** A closing or opening tag at the end shows no image. */
  lemma ImagesOfSnocTag(g: seq<GridLine>, l: GridLine)
    requires !l.FullImg? && !l.SingleImg?
    ensures ImagesOf(g + [l]) == ImagesOf(g)
  {
    assert (g + [l])[..|g|] == g;
  }

  /** A closing or opening tag in front shows no image. */
  lemma ImagesOfConsTag(l: GridLine, g: seq<GridLine>)
    requires !l.FullImg? && !l.SingleImg?
    ensures ImagesOf([l] + g) == ImagesOf(g)
  {
    ImagesOfAppend([l], g);
    ImagesOfSnocTag([], l);
    assert [] + [l] == [l];
  }

  /**
   * The grid shows every row with a non-empty `src`, once, in the order
   * given, with its own `src` and `alt`; rows with an empty `src` are dropped.
   */
  lemma {:induction false} GridShowsImages(rows: seq<(string, string)>, per: nat)
    requires per >= 1
    ensures ImagesOf(GridLines(rows, per)) == Shown(rows)
    decreases |rows|
  {
    if rows != [] {
      var n := if |rows| < per then |rows| else per;
      var chunk := rows[..n];
      GridShowsImages(rows[n..], per);
      calc {
        ImagesOf(GridLines(rows, per));
        { GridFront(rows, per, n); }
        ImagesOf(RowLines(chunk, per) + GridLines(rows[n..], per));
        { ImagesOfAppend(RowLines(chunk, per), GridLines(rows[n..], per)); }
        ImagesOf(RowLines(chunk, per)) + ImagesOf(GridLines(rows[n..], per));
        { RowShowsImages(chunk, per); }
        Shown(chunk) + Shown(rows[n..]);
        { ShownAppend(chunk, rows[n..]); assert chunk + rows[n..] == rows; }
        Shown(rows);
      }
    }
  }

  /** The output is empty exactly when there are no rows; otherwise it opens with a row's `<div`. */
  lemma ImagesHtmlEmpty(rows: seq<(string, string)>, cols: int)
    ensures ImagesHtml(rows, cols) == [] <==> rows == []
    ensures rows != [] ==> ImagesHtml(rows, cols)[0] == '<'
  {
    if rows != [] {
      var per := PerRow(cols);
      var n := if per <= |rows| then per else |rows|;
      GridFront(rows, per, n);
      var lines := Rendered(GridLines(rows, per), WidthPct(per));
      JoinStartsWith("\n", lines, '<');
    }
  }

  // ---------------------------------------------------------------------------
  // steps_bind
  // ---------------------------------------------------------------------------

  /** An entry of `IMAGES_STEP`. */
  datatype ImageEntry =
    | Sequence(items: seq<string>, isTuple: bool)  // a list or a tuple: (src, alt)
    | Mapping(entries: map<string, string>)        // a dict: {"src": ..., "alt": ...}
    | Unsupported                                  // anything else: no image

  /** One step handed to the template: `{"text": ..., "img": ..., "alt": ...}`. */
  datatype BoundStep = BoundStep(text: string, img: string, alt: string)

  /** `d.get(key, "")`. */
  function GetText(d: map<string, string>, key: string): (r: string)
    ensures key in d ==> r == d[key]
    ensures key !in d ==> r == []
  {
    if key in d then d[key] else []
  }

  /**
   * The raw text after `strip()`, with one pair of matching surrounding
   * quotes (`'…'` or `"…"`) removed.
   */
  function CleanRaw(raw: string): (r: string)
  {
    var t := Strip(raw);
    if t != [] && (t[0] == '\'' || t[0] == '"') && t[|t| - 1] == t[0] then
      (if |t| == 1 then [] else t[1..|t| - 1])
    else t
  }

  /** The step texts: none for empty input, else the trimmed non-blank lines of the cleaned text. */
  function StepLines(raw: string): (r: seq<string>)
    ensures forall k :: 0 <= k < |r| ==> IsStrippedText(r[k])
  {
    if raw == [] then [] else NonBlankLines(CleanRaw(raw))
  }

  /**
   * The picture of an entry: a list or tuple gives `item[0]` and `item[1]`
   * (or `""`), raising IndexError when empty; a dict gives `get("src", "")`
   * and `get("alt", "")`; anything else gives no picture.
   */
  function EntryImage(e: ImageEntry): (r: Result<(string, string), PyError>)
    ensures r.Failure? <==> e.Sequence? && e.items == []
    ensures r.Failure? ==> r.error.IndexError?
  {
    match e
    case Sequence(items, isTuple) =>
      if items == [] then Failure(IndexError(if isTuple then "tuple index out of range" else "list index out of range"))
      else Success((items[0], if |items| > 1 then items[1] else []))
    case Mapping(d) => Success((GetText(d, "src"), GetText(d, "alt")))
    case Unsupported => Success(([], []))
  }

  /** The step of line `i`, text `text`: its picture is the `i`-th entry, if there is one. */
  function StepAt(text: string, imgs: seq<ImageEntry>, i: nat): (r: Result<BoundStep, PyError>)
  {
    if i < |imgs| then
      match EntryImage(imgs[i])
      case Success((src, alt)) => Success(BoundStep(text, src, alt))
      case Failure(e) => Failure(e)
    else Success(BoundStep(text, [], []))
  }

  /** The steps of `lines`, in order; the first entry that raises stops the filter. */
  function BindLines(lines: seq<string>, imgs: seq<ImageEntry>): (r: Result<seq<BoundStep>, PyError>)
    ensures r.Success? ==> |r.value| == |lines|
    decreases |lines|
  {
    if lines == [] then Success([])
    else
      match BindLines(lines[..|lines| - 1], imgs)
      case Failure(e) => Failure(e)
      case Success(steps) =>
        match StepAt(lines[|lines| - 1], imgs, |lines| - 1)
        case Failure(e) => Failure(e)
        case Success(step) => Success(steps + [step])
  }

  /** `steps_bind(ctx, raw)` with `IMAGES_STEP` given as `imgs` (`[]` when absent). */
  function StepsBindSpec(raw: string, imgs: seq<ImageEntry>): (r: Result<seq<BoundStep>, PyError>)
  {
    BindLines(StepLines(raw), imgs)
  }

  /** `steps_bind`: one step per line, each with the picture at the same position. */
  method StepsBind(raw: string, imgs: seq<ImageEntry>) returns (r: Result<seq<BoundStep>, PyError>)
    ensures r == StepsBindSpec(raw, imgs)
  {
    var lines := StepLines(raw);
    var steps: seq<BoundStep> := [];
    for i := 0 to |lines|
      invariant BindLines(lines[..i], imgs) == Success(steps)
    {
      var src, alt := "", "";
      if i < |imgs| {
        match imgs[i] {
          case Sequence(items, isTuple) =>
            if items == [] {
              BindLinesStops(lines, imgs, i);
              return Failure(IndexError(if isTuple then "tuple index out of range" else "list index out of range"));
            }
            src := items[0];
            alt := if |items| > 1 then items[1] else "";
          case Mapping(d) =>
            src := GetText(d, "src");
            alt := GetText(d, "alt");
          case Unsupported =>
        }
      }
      assert StepAt(lines[i], imgs, i) == Success(BoundStep(lines[i], src, alt));
      BindLinesNext(lines, imgs, i);
      steps := steps + [BoundStep(lines[i], src, alt)];
    }
    assert lines[..|lines|] == lines;
    return Success(steps);
  }

  /** A successful step `i` extends the steps bound so far. */
  lemma BindLinesNext(lines: seq<string>, imgs: seq<ImageEntry>, i: nat)
    requires i < |lines| && BindLines(lines[..i], imgs).Success? && StepAt(lines[i], imgs, i).Success?
    ensures BindLines(lines[..i + 1], imgs)
      == Success(BindLines(lines[..i], imgs).value + [StepAt(lines[i], imgs, i).value])
  {
    var pre := lines[..i + 1];
    assert pre[..|pre| - 1] == lines[..i];
  }

  /** A failure on line `i` is the failure of the whole filter. */
  lemma {:induction false} BindLinesStops(lines: seq<string>, imgs: seq<ImageEntry>, i: nat)
    requires i < |lines| && BindLines(lines[..i], imgs).Success? && StepAt(lines[i], imgs, i).Failure?
    ensures BindLines(lines, imgs) == Failure(StepAt(lines[i], imgs, i).error)
    decreases |lines|
  {
    var last := |lines| - 1;
    if i == last {
      assert lines[..i] == lines[..|lines| - 1];
    } else {
      var init := lines[..last];
      assert init[..i] == lines[..i];
      BindLinesStops(init, imgs, i);
    }
  }

  /** Entry `i` exists and is an empty list or tuple: reading it raises IndexError. */
  predicate BadEntry(imgs: seq<ImageEntry>, i: nat) {
    i < |imgs| && imgs[i].Sequence? && imgs[i].items == []
  }

  /** The `(src, alt)` that line `i` receives. */
  function Picture(imgs: seq<ImageEntry>, i: nat): (string, string)
    requires !BadEntry(imgs, i)
  {
    if i < |imgs| then EntryImage(imgs[i]).value else ([], [])
  }

  /**
   * The filter succeeds exactly when no line meets an empty list or tuple;
   * then step `k` holds line `k` and the picture of entry `k` (none past
   * the end of `IMAGES_STEP`). Otherwise it raises the IndexError of the
   * first such entry.
   */
  lemma {:induction false} BindLinesSpec(lines: seq<string>, imgs: seq<ImageEntry>)
    ensures BindLines(lines, imgs).Success? <==> forall i :: 0 <= i < |lines| ==> !BadEntry(imgs, i)
    ensures BindLines(lines, imgs).Success? ==>
      forall k :: 0 <= k < |lines| ==>
        BindLines(lines, imgs).value[k] == BoundStep(lines[k], Picture(imgs, k).0, Picture(imgs, k).1)
    ensures BindLines(lines, imgs).Failure? ==>
      exists j :: 0 <= j < |lines| && BadEntry(imgs, j) && (forall i :: 0 <= i < j ==> !BadEntry(imgs, i))
        && BindLines(lines, imgs).error == EntryImage(imgs[j]).error
    decreases |lines|
  {
    if lines != [] {
      var n := |lines| - 1;
      var init := lines[..n];
      BindLinesSpec(init, imgs);
      if BindLines(init, imgs).Success? {
        if !BadEntry(imgs, n) {
          BindLinesExtend(lines, imgs);
        } else {
          BindLinesFailLast(lines, imgs);
          assert BadEntry(imgs, n) && forall i :: 0 <= i < n ==> !BadEntry(imgs, i);
        }
      } else {
        assert BindLines(lines, imgs) == BindLines(init, imgs);
        var j :| 0 <= j < |init| && BadEntry(imgs, j) && (forall i :: 0 <= i < j ==> !BadEntry(imgs, i))
          && BindLines(init, imgs).error == EntryImage(imgs[j]).error;
        assert 0 <= j < |lines| && BadEntry(imgs, j);
      }
    }
  }

  /** A line whose entry reads fine extends the steps bound before it. */
  lemma BindLinesExtend(lines: seq<string>, imgs: seq<ImageEntry>)
    requires lines != [] && !BadEntry(imgs, |lines| - 1)
    requires var init := lines[..|lines| - 1];
      && BindLines(init, imgs).Success?
      && (forall i :: 0 <= i < |init| ==> !BadEntry(imgs, i))
      && forall k :: 0 <= k < |init| ==>
        BindLines(init, imgs).value[k] == BoundStep(init[k], Picture(imgs, k).0, Picture(imgs, k).1)
    ensures BindLines(lines, imgs).Success?
    ensures forall k :: 0 <= k < |lines| ==>
      !BadEntry(imgs, k) && BindLines(lines, imgs).value[k] == BoundStep(lines[k], Picture(imgs, k).0, Picture(imgs, k).1)
  {
    var n := |lines| - 1;
    var init := lines[..n];
    var steps := BindLines(init, imgs).value;
    var step := StepAt(lines[n], imgs, n);
    assert step == Success(BoundStep(lines[n], Picture(imgs, n).0, Picture(imgs, n).1));
    var r := BindLines(lines, imgs);
    assert r == Success(steps + [step.value]);
    forall k | 0 <= k < |lines|
      ensures !BadEntry(imgs, k) && r.value[k] == BoundStep(lines[k], Picture(imgs, k).0, Picture(imgs, k).1)
    {
      if k < n {
        assert r.value[k] == steps[k] && lines[k] == init[k];
      }
    }
  }

  /** An empty list or tuple for the last line fails the filter with its IndexError. */
  lemma BindLinesFailLast(lines: seq<string>, imgs: seq<ImageEntry>)
    requires lines != [] && BindLines(lines[..|lines| - 1], imgs).Success? && BadEntry(imgs, |lines| - 1)
    ensures BindLines(lines, imgs) == Failure(EntryImage(imgs[|lines| - 1]).error)
  {
  }

  /** Text with no whitespace at either end is its own `strip()`. */
  lemma StripStripped(t: string)
    requires IsStrippedText(t)
    ensures Strip(t) == t
  {
  }

  /** One pair of matching quotes around the text is removed, whatever the text holds. */
  lemma CleanRawQuoted(q: char, s: string)
    requires q == '\'' || q == '"'
    ensures CleanRaw([q] + s + [q]) == s
  {
    var t := [q] + s + [q];
    StripStripped(t);
    assert t[1..|t| - 1] == s;
  }

  /**
   * The steps of `steps_bind` are its text's trimmed non-blank lines, one
   * step each, in order: no step text is empty, padded or spans two lines.
   */
  lemma StepsBindTexts(raw: string, imgs: seq<ImageEntry>)
    requires StepsBindSpec(raw, imgs).Success?
    ensures var steps := StepsBindSpec(raw, imgs).value;
      && |steps| == |StepLines(raw)|
      && forall k :: 0 <= k < |steps| ==>
        steps[k].text == StepLines(raw)[k] && IsStrippedText(steps[k].text) && NoLineBreak(steps[k].text)
  {
    var lines := StepLines(raw);
    BindLinesSpec(lines, imgs);
    if raw != [] {
      NonBlankLinesNoLineBreak(CleanRaw(raw));
    }
  }
}
