/** The current text service: a line-based paste, and stubs for formatting and the gallery. */
module TextService {
  import opened PyStrings
  import opened Placeholders
  import Assets

  /** `smart_paste`: the trimmed non-blank lines, in their original order. */
  function SmartPaste(raw: string): (r: seq<string>)
    ensures forall k :: 0 <= k < |r| ==> IsStrippedText(r[k])
  {
    NonBlankLines(raw)
  }

  /**
   * Nothing but whitespace and line breaks is lost, and nothing is split
   * anywhere else: every `;` and every other visible character of the input
   * is still there, in order, across the returned lines.
   */
  lemma SmartPasteKeepsContent(raw: string)
    ensures NonSpace(Concat(SmartPaste(raw))) == NonSpace(raw)
    ensures forall k :: 0 <= k < |SmartPaste(raw)| ==> NoLineBreak(SmartPaste(raw)[k])
  {
    NonBlankLinesKeepContent(raw);
    NonBlankLinesNoLineBreak(raw);
  }

  /** `auto_format` is a stub: it returns its input for every mode. */
  function AutoFormat(text: string, mode: string): (r: string)
    ensures r == text
  {
    text
  }

  /** `extract_placeholders`: the set of names `PLACEHOLDER_RGX` captures. */
  function ExtractPlaceholders(html: string): (r: set<string>)
    ensures forall n :: n in r <==> n in FindAll(Assets.PlaceholderGrammar, html)
    ensures forall n :: n in r ==> IsName(UpperOnly, n)
  {
    set k | 0 <= k < |FindAll(Assets.PlaceholderGrammar, html)| :: FindAll(Assets.PlaceholderGrammar, html)[k]
  }

  /** A name that occurs twice is reported once. */
  lemma ExtractCollapsesDuplicates(w1: string, name: string, w2: string, b: string)
    requires IsBlank(w1) && IsBlank(w2) && IsName(UpperOnly, name)
    ensures var ph := "{{" + w1 + name + w2 + "}}";
      ExtractPlaceholders(ph + (ph + b)) == {name} + ExtractPlaceholders(b)
  {
    var ph := "{{" + w1 + name + w2 + "}}";
    FindAllPlaceholder(UpperOnly, w1, name, w2, ph + b);
    FindAllPlaceholder(UpperOnly, w1, name, w2, b);
    assert ph + (ph + b) == "{{" + w1 + name + w2 + "}}" + (ph + b);
  }

  /** Every name this service reports, the legacy extractor's wider grammar reports too. */
  lemma ExtractWithinLegacyGrammar(html: string)
    ensures forall n :: n in ExtractPlaceholders(html) ==> n in FindAll(MixedCase, html)
  {
    UpperNamesAreMixedNames(html);
  }

  const GalleryStub: string := "<!-- TODO: gallery -->"

  /** `images_to_html` is a stub: the same comment for any grid size. */
  function ImagesToHtml(rows: int, cols: int): (r: string)
    ensures r == GalleryStub
  {
    GalleryStub
  }
}
