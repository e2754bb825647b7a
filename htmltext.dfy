/**
 * The two pieces of Python's HTML handling the modelled code uses:
 * `html.escape` (with its default `quote=True`), written out as its fixed
 * character map, and the tag-removing substitution `re.sub("<[^<]+?>", "", s)`.
 */
module HtmlText {
  import opened Wrappers

  /** Number of occurrences of `c` in `s`. */
  function CountChar(c: char, s: string): (n: nat)
    ensures n <= |s|
  {
    if s == [] then 0 else (if s[0] == c then 1 else 0) + CountChar(c, s[1..])
  }

  lemma {:induction false} CountCharAppend(c: char, a: string, b: string)
    ensures CountChar(c, a + b) == CountChar(c, a) + CountChar(c, b)
  {
    if a == [] {
      assert a + b == b;
    } else {
      assert (a + b)[0] == a[0];
      assert (a + b)[1..] == a[1..] + b;
      CountCharAppend(c, a[1..], b);
    }
  }

  lemma {:induction false} CountCharAbsent(c: char, s: string)
    requires forall i :: 0 <= i < |s| ==> s[i] != c
    ensures CountChar(c, s) == 0
  {
    if s != [] {
      CountCharAbsent(c, s[1..]);
    }
  }

  /** The replacement `html.escape` makes for one character. */
  function EscapeChar(c: char): string {
    if c == '&' then "&amp;"
    else if c == '<' then "&lt;"
    else if c == '>' then "&gt;"
    else if c == '"' then "&quot;"
    else if c == '\'' then "&#x27;"
    else [c]
  }

  /** `html.escape(s)`: the result holds no character that could open or close markup or an attribute. */
  function Escape(s: string): (r: string)
    ensures forall i :: 0 <= i < |r| ==> r[i] != '<' && r[i] != '>' && r[i] != '"' && r[i] != '\''
  {
    if s == [] then [] else EscapeChar(s[0]) + Escape(s[1..])
  }

  /** The inverse map of `Escape`: the five entities it produces, read back. */
  function UnescapeEntities(s: string): string {
    if s == [] then []
    else if s[0] == '&' && |s| >= 5 && s[..5] == "&amp;" then "&" + UnescapeEntities(s[5..])
    else if s[0] == '&' && |s| >= 4 && s[..4] == "&lt;" then "<" + UnescapeEntities(s[4..])
    else if s[0] == '&' && |s| >= 4 && s[..4] == "&gt;" then ">" + UnescapeEntities(s[4..])
    else if s[0] == '&' && |s| >= 6 && s[..6] == "&quot;" then "\"" + UnescapeEntities(s[6..])
    else if s[0] == '&' && |s| >= 6 && s[..6] == "&#x27;" then "'" + UnescapeEntities(s[6..])
    else [s[0]] + UnescapeEntities(s[1..])
  }

  lemma UnescapeAfterEntity(e: string, c: char, rest: string)
    requires e == EscapeChar(c)
    ensures UnescapeEntities(e + rest) == [c] + UnescapeEntities(rest)
  {
    var s := e + rest;
    assert s[..|e|] == e;
    assert s[|e|..] == rest;
    if c == '&' {
      assert s[1] == 'a';
      assert s[..5] == "&amp;";
    } else if c == '<' {
      assert s[1] == 'l';
      assert s[..4] == "&lt;";
    } else if c == '>' {
      assert s[1] == 'g';
      assert s[..4] == "&gt;";
    } else if c == '"' {
      assert s[1] == 'q';
      assert s[..6] == "&quot;";
    } else if c == '\'' {
      assert s[1] == '#';
      assert s[..6] == "&#x27;";
    } else {
      assert s[0] == c;
      assert s[1..] == rest;
    }
  }

  /** Escaping loses nothing: the escaped text reads back as the original. */
  lemma {:induction false} EscapeRoundTrip(s: string)
    ensures UnescapeEntities(Escape(s)) == s
  {
    if s != [] {
      EscapeRoundTrip(s[1..]);
      UnescapeAfterEntity(EscapeChar(s[0]), s[0], Escape(s[1..]));
      assert [s[0]] + s[1..] == s;
    }
  }

  /** No character of `s` is one `Escape` rewrites. */
  predicate NoSpecialChars(s: string) {
    forall i :: 0 <= i < |s| ==> s[i] != '&' && s[i] != '<' && s[i] != '>' && s[i] != '"' && s[i] != '\''
  }

  /** Escaping leaves a string with none of the five special characters unchanged. */
  lemma {:induction false} EscapePlain(s: string)
    requires NoSpecialChars(s)

    ensures Escape(s) == s
  {
    if s != [] {
      EscapePlain(s[1..]);
      assert [s[0]] + s[1..] == s;
    }
  }

  /**
   * Index of the `>` that closes a tag opened at index 0 of `s`, scanning from
   * `q`: the first `>` at or after `q`, provided no `<` comes before it.
   */
  function TagEnd(s: string, q: nat): (r: Option<nat>)
    ensures r.Some? ==> q <= r.value < |s| && s[r.value] == '>'
    decreases |s| - q
  {
    if q >= |s| then None
    else if s[q] == '<' then None
    else if s[q] == '>' then Some(q)
    else TagEnd(s, q + 1)
  }

  /**
   * `re.sub("<[^<]+?>", "", s)`: scanning left to right, a `<` followed by at
   * least one character other than `<` and then, lazily, the first `>` with
   * no `<` in between, is removed; any other character is kept.
   */
  function StripTags(s: string): (r: string)
    ensures |r| <= |s|
  {
    if s == [] then []
    else if s[0] == '<' && |s| >= 2 && s[1] != '<' then
      match TagEnd(s, 2)
      case Some(q) => StripTags(s[q + 1..])
      case None => [s[0]] + StripTags(s[1..])
    else [s[0]] + StripTags(s[1..])
  }

  /** Text with no `<` has no tag to remove. */
  lemma {:induction false} StripTagsPlain(s: string)
    requires forall i :: 0 <= i < |s| ==> s[i] != '<'
    ensures StripTags(s) == s
  {
    if s != [] {
      StripTagsPlain(s[1..]);
      assert [s[0]] + s[1..] == s;
    }
  }
}
