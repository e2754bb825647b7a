/**
 * The legacy editor's placeholder widgets: a one-line entry and a
 * multi-line text field that show a grey hint while empty, clear it on
 * focus-in and restore it on focus-out; the text field also pastes
 * clipboard text through `smart_paste`. Widget content is a string: an
 * entry's text as `get()` returns it, a text field's content without the
 * line break Tk keeps at its end.
 */
module UiUtilsLegacy {
  import opened Wrappers
  import opened PyStrings
  import LegacyCore

  /** The foreground colour: the widget's default, or `'grey'` while the hint shows. */
  datatype Colour = DefaultColour | Grey

  // ---------------------------------------------------------------------------
  // PlaceholderEntry
  // ---------------------------------------------------------------------------

  /** What an entry shows: its text and its colour. */
  datatype EntryView = EntryView(content: string, colour: Colour)

  /** `_clear_placeholder`: text equal to the hint is deleted and the colour restored. */
  function EntryFocusIn(v: EntryView, placeholder: string): EntryView {
    if v.content == placeholder then EntryView([], DefaultColour) else v
  }

  /** `_add_placeholder`: empty text gets the hint in grey; other text gets the default colour. */
  function EntryFocusOut(v: EntryView, placeholder: string): EntryView {
    if v.content == [] then EntryView(placeholder, Grey) else v.(colour := DefaultColour)
  }

  class PlaceholderEntry {
    var content: string
    var colour: Colour
    const placeholder: string

    function View(): EntryView
      reads this
    {
      EntryView(content, colour)
    }

    /** A new entry is empty, then shows its hint. */
    constructor (placeholder: string)
      ensures this.placeholder == placeholder
      ensures View() == EntryFocusOut(EntryView([], DefaultColour), placeholder)
    {
      this.placeholder := placeholder;
      content := [];
      colour := DefaultColour;
      new;
      AddPlaceholder();
    }

    method ClearPlaceholder()
      modifies this
      ensures View() == EntryFocusIn(old(View()), placeholder)
    {
      if content == placeholder {
        content := [];
        colour := DefaultColour;
      }
    }

    method AddPlaceholder()
      modifies this
      ensures View() == EntryFocusOut(old(View()), placeholder)
    {
      if content == [] {
        content := placeholder + content;
        colour := Grey;
      } else {
        colour := DefaultColour;
      }
    }
  }

  /** A new entry shows its hint in grey, whatever the hint is. */
  lemma EntryStartsWithHint(placeholder: string)
    ensures EntryFocusOut(EntryView([], DefaultColour), placeholder) == EntryView(placeholder, Grey)
  {
  }

  /** Focus-in then focus-out on an untouched entry brings the grey hint back. */
  lemma EntryFocusRoundTrip(placeholder: string)
    ensures EntryFocusIn(EntryView(placeholder, Grey), placeholder) == EntryView([], DefaultColour)
    ensures EntryFocusOut(EntryFocusIn(EntryView(placeholder, Grey), placeholder), placeholder)
      == EntryView(placeholder, Grey)
  {
  }

  /** Text the user typed, other than the hint itself, survives both focus events in the default colour. */
  lemma EntryKeepsTypedText(typed: string, colour: Colour, placeholder: string)
    requires typed != [] && typed != placeholder
    ensures EntryFocusIn(EntryView(typed, colour), placeholder) == EntryView(typed, colour)
    ensures EntryFocusOut(EntryView(typed, colour), placeholder) == EntryView(typed, DefaultColour)
  {
  }

  /**
   * The entry cannot tell typed text from its hint: text equal to the hint
   * is deleted on focus-in, and the hint itself, after a second focus-out,
   * is shown in the default colour.
   */
  lemma EntryHintIsJustText(placeholder: string)
    requires placeholder != []
    ensures EntryFocusIn(EntryView(placeholder, DefaultColour), placeholder).content == []
    ensures EntryFocusOut(EntryFocusOut(EntryView([], DefaultColour), placeholder), placeholder)
      == EntryView(placeholder, DefaultColour)
  {
  }

  // ---------------------------------------------------------------------------
  // PlaceholderMultiTextField
  // ---------------------------------------------------------------------------

  /**
   * What a text field shows: its text, split at the insertion cursor into
   * the part before it and the part after it (without Tk's final line
   * break), the colour, and how many times `on_change` was called.
   */
  datatype TextView = TextView(before: string, after: string, colour: Colour, changes: nat)
  {
    function Text(): string {
      before + after
    }

    /** `text.get('1.0', 'end')`: Tk adds a line break after the last line. */
    function Get(): string {
      Text() + "\n"
    }
  }

  /** `text.get('1.0', 'end').strip() == placeholder`: the content reads as the hint. */
  predicate ShowsHint(v: TextView, placeholder: string) {
    Strip(v.Get()) == placeholder
  }

  /** `not text.get('1.0', 'end').strip()`: the content is blank. */
  predicate IsEmptyField(v: TextView) {
    Strip(v.Get()) == []
  }

  /** `_clear_placeholder`: content whose stripped form is the hint is deleted, colour restored. */
  function TextFocusIn(v: TextView, placeholder: string): TextView {
    if ShowsHint(v, placeholder) then TextView([], [], DefaultColour, v.changes) else v
  }

  /**
   * `_add_placeholder`: blank content gets the hint inserted at its start in
   * grey (the cursor, right of the insertion point, stays after it); other
   * content gets the default colour.
   */
  function TextFocusOut(v: TextView, placeholder: string): TextView {
    if IsEmptyField(v) then v.(before := placeholder + v.before, colour := Grey)
    else v.(colour := DefaultColour)
  }

  /**
   * `_handle_paste` given the clipboard (`None` when reading it fails): a
   * showing hint is deleted, then the `smart_paste` lines go in at the cursor
   * separated by line breaks and `on_change` runs; nothing is inserted for
   * an empty paste.
   */
  function TextPaste(v: TextView, placeholder: string, clip: Option<string>): TextView {
    if clip.None? then v
    else
      var cleared := if ShowsHint(v, placeholder) then v.(before := [], after := []) else v;
      var lines := LegacyCore.SmartPaste(clip.value);
      if lines == [] then cleared
      else cleared.(before := cleared.before + Join("\n", lines), changes := v.changes + 1)
  }

  /** `render_html`: the content without trailing whitespace. */
  function TextRender(v: TextView): string {
    RStrip(v.Get())
  }

  class PlaceholderMultiTextField {
    var before: string
    var after: string
    var colour: Colour
    var changes: nat
    const placeholder: string
    const mode: string

    function View(): TextView
      reads this
    {
      TextView(before, after, colour, changes)
    }

    /** A new field is empty, then shows its hint. */
    constructor (placeholder: string, mode: string)
      ensures this.placeholder == placeholder && this.mode == mode
      ensures View() == TextFocusOut(TextView([], [], DefaultColour, 0), placeholder)
    {
      this.placeholder := placeholder;
      this.mode := mode;
      before, after, colour, changes := [], [], DefaultColour, 0;
      new;
      AddPlaceholder();
    }

    method ClearPlaceholder()
      modifies this
      ensures View() == TextFocusIn(old(View()), placeholder)
    {
      if ShowsHint(View(), placeholder) {
        before, after := [], [];
        colour := DefaultColour;
      }
    }

    method AddPlaceholder()
      modifies this
      ensures View() == TextFocusOut(old(View()), placeholder)
    {
      var next := TextFocusOut(View(), placeholder);
      before, colour := next.before, next.colour;
    }

    /** Returns `'break'` on every path, so Tk's own paste never runs. */
    method HandlePaste(clip: Option<string>) returns (result: string)
      modifies this
      ensures View() == TextPaste(old(View()), placeholder, clip)
      ensures result == "break"
    {
      result := "break";
      if clip.None? {
        return;
      }
      if ShowsHint(View(), placeholder) {
        before, after := [], [];
      }
      var lines := LegacyCore.SmartPaste(clip.value);
      if lines == [] {
        return;
      }
      InsertLines(lines);
      changes := changes + 1;
    }

    /** The loop of `_handle_paste`: each line, then a line break unless it is the last, at the cursor. */
    method InsertLines(lines: seq<string>)
      requires lines != []
      modifies this
      ensures before == old(before) + Join("\n", lines)
      ensures after == old(after) && colour == old(colour) && changes == old(changes)
    {
      ghost var start := before;
      ghost var inserted: string := [];
      assert lines[0..] == lines;
      for i := 0 to |lines|
        invariant before == start + inserted
        invariant after == old(after) && colour == old(colour) && changes == old(changes)
        invariant i < |lines| ==> inserted + Join("\n", lines[i..]) == Join("\n", lines)
        invariant i == |lines| ==> inserted == Join("\n", lines)
      {
        InsertStep(lines, i, inserted);
        Assoc(start, inserted, lines[i]);
        before := before + lines[i];
        inserted := inserted + lines[i];
        if i < |lines| - 1 {
          Assoc(start, inserted, "\n");
          before := before + "\n";
          inserted := inserted + "\n";
        }
      }
    }

    method RenderHtml() returns (html: string)
      ensures html == TextRender(View())
    {
      html := RStrip(before + after + "\n");
    }
  }

  lemma Assoc(a: string, b: string, c: string)
    ensures a + b + c == a + (b + c)
  {
  }

  /** Inserting the `i`-th pasted line and its separator extends the joined block. */
  lemma InsertStep(lines: seq<string>, i: nat, inserted: string)
    requires i < |lines| && inserted + Join("\n", lines[i..]) == Join("\n", lines)
    ensures var next := inserted + lines[i] + (if i < |lines| - 1 then "\n" else []);
      && (i + 1 < |lines| ==> next + Join("\n", lines[i + 1..]) == Join("\n", lines))
      && (i + 1 == |lines| ==> next == Join("\n", lines))
  {
    var rest := lines[i..];
    if i + 1 < |lines| {
      assert rest[1..] == lines[i + 1..];
      assert Join("\n", rest) == lines[i] + "\n" + Join("\n", lines[i + 1..]);
      Assoc(inserted, lines[i] + "\n", Join("\n", lines[i + 1..]));
      Assoc(inserted, lines[i], "\n");
    } else {
      assert rest == [lines[i]];
    }
  }

  /** The view of a new field: the hint in grey, the cursor after it. */
  function HintShown(placeholder: string): TextView {
    TextView(placeholder, [], Grey, 0)
  }

  lemma EmptyFieldIsBlank()
    ensures IsEmptyField(TextView([], [], DefaultColour, 0))
  {
    StripNewline([]);
  }

  /** A new field shows its hint in grey. */
  lemma TextStartsWithHint(placeholder: string)
    ensures TextFocusOut(TextView([], [], DefaultColour, 0), placeholder) == HintShown(placeholder)
  {
    EmptyFieldIsBlank();
  }

  /**
   * For a hint without whitespace at either end, focus-in clears the new
   * field and focus-out shows the grey hint again.
   */
  lemma TextFocusRoundTrip(placeholder: string)
    requires Strip(placeholder) == placeholder
    ensures TextFocusIn(HintShown(placeholder), placeholder) == TextView([], [], DefaultColour, 0)
    ensures TextFocusOut(TextFocusIn(HintShown(placeholder), placeholder), placeholder) == HintShown(placeholder)
  {
    StripNewline(placeholder);
    assert HintShown(placeholder).Text() == placeholder;
    EmptyFieldIsBlank();
  }

  /**
   * A hint with whitespace at an end never reads as itself once stripped,
   * so focus-in leaves it in the field.
   */
  lemma PaddedHintIsNotCleared(placeholder: string)
    requires Strip(placeholder) != placeholder
    ensures TextFocusIn(HintShown(placeholder), placeholder) == HintShown(placeholder)
  {
    StripNewline(placeholder);
    assert HintShown(placeholder).Text() == placeholder;
  }

  /** Content that is neither blank nor the hint survives both focus events; only the colour is reset. */
  lemma TextKeepsTypedText(v: TextView, placeholder: string)
    requires !IsBlank(v.Text()) && Strip(v.Text()) != placeholder
    ensures TextFocusIn(v, placeholder) == v
    ensures TextFocusOut(v, placeholder) == v.(colour := DefaultColour)
  {
    StripNewline(v.Text());
  }

  /**
   * Pasting over the hint replaces it by the pasted lines, one per line of
   * the field, and runs `on_change` once; the colour is left as it was.
   */
  lemma PasteOverHint(v: TextView, placeholder: string, clip: string)
    requires ShowsHint(v, placeholder) && LegacyCore.SmartPaste(clip) != []
    ensures var r := TextPaste(v, placeholder, Some(clip));
      && r.Text() == Join("\n", LegacyCore.SmartPaste(clip))
      && r.after == []
      && SplitOn(r.Text(), '\n') == LegacyCore.SmartPaste(clip)
      && r.colour == v.colour && r.changes == v.changes + 1
  {
    LegacyCore.SmartPasteJoinSplitsBack(clip);
    assert [] + Join("\n", LegacyCore.SmartPaste(clip)) + [] == Join("\n", LegacyCore.SmartPaste(clip));
  }

  /** Pasting into other content inserts the joined lines at the cursor and keeps the rest. */
  lemma PasteAtCursor(v: TextView, placeholder: string, clip: string)
    requires !ShowsHint(v, placeholder) && LegacyCore.SmartPaste(clip) != []
    ensures var r := TextPaste(v, placeholder, Some(clip));
      && r.Text() == v.before + Join("\n", LegacyCore.SmartPaste(clip)) + v.after
      && r.after == v.after
      && r.colour == v.colour && r.changes == v.changes + 1
  {
  }

  /**
   * A clipboard that cannot be read changes nothing; one with no visible
   * lines only removes a showing hint. Neither runs `on_change`.
   */
  lemma PasteNothing(v: TextView, placeholder: string, clip: Option<string>)
    requires clip.None? || LegacyCore.SmartPaste(clip.value) == []
    ensures var r := TextPaste(v, placeholder, clip);
      && r.changes == v.changes && r.colour == v.colour
      && (clip.None? || !ShowsHint(v, placeholder) ==> r == v)
      && (clip.Some? && ShowsHint(v, placeholder) ==> r.Text() == [])
  {
  }

  /**
   * The rendered text is the content with trailing whitespace removed;
   * a field still showing its hint renders the hint.
   */
  lemma RenderIsTrimmedContent(v: TextView, placeholder: string)
    ensures TextRender(v) == RStrip(v.Text())
    ensures TextRender(HintShown(placeholder)) == RStrip(placeholder)
  {
    StripNewline(v.Text());
    StripNewline(placeholder);
    assert HintShown(placeholder).Text() == placeholder;
  }
}
