/** The package's shared constants: the placeholder grammar, the default grid width and the colour palette. */
module Assets {
  import opened Placeholders

  /** `PLACEHOLDER_RGX` captures names drawn from `[A-Z0-9_]`. */
  const PlaceholderGrammar: Grammar := UpperOnly

  const DefaultCols: int := 3

  const Palette: map<string, string> := map[
    "error" := "#e74c3c",
    "valid" := "#2ecc71",
    "bg" := "#f9f9f9"
  ]

  predicate IsHexDigit(c: char) {
    ('0' <= c <= '9') || ('a' <= c <= 'f') || ('A' <= c <= 'F')
  }

  /** `#` followed by exactly six hexadecimal digits. */
  predicate IsHexColour(s: string) {
    |s| == 7 && s[0] == '#' && forall k :: 1 <= k < 7 ==> IsHexDigit(s[k])
  }

  /** The default grid has a positive number of columns. */
  lemma DefaultColsPositive()
    ensures DefaultCols > 0 && DefaultCols == 3
  {
  }

  /** The palette has exactly the keys error, valid and bg, each a hex colour. */
  lemma PaletteWellFormed()
    ensures Palette.Keys == {"error", "valid", "bg"}
    ensures forall k :: k in Palette ==> IsHexColour(Palette[k])
  {
    assert IsHexColour(Palette["error"]);
    assert IsHexColour(Palette["valid"]);
    assert IsHexColour(Palette["bg"]);
  }

  /** A name outside `[A-Z0-9_]` is never captured; names are never empty. */
  lemma CapturedNamesInGrammar(s: string, k: nat)
    requires k < |FindAll(PlaceholderGrammar, s)|
    ensures var n := FindAll(PlaceholderGrammar, s)[k];
      n != [] && forall i :: 0 <= i < |n| ==> ('A' <= n[i] <= 'Z') || ('0' <= n[i] <= '9') || n[i] == '_'
  {
  }
}
