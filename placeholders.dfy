/**
 * The `{{ NAME }}` placeholder grammar: the regex `\{\{\s*(NAME+)\s*\}\}`
 * and its `finditer`/`findall` scan, for the two name classes the program
 * uses: `[A-Z0-9_]` (the current package) and `[A-Za-z0-9_-]` (the legacy
 * editor).
 */
module Placeholders {
  import opened Wrappers
  import opened PyStrings

  /** Which character class a placeholder name is drawn from. */
  datatype Grammar =
    | UpperOnly   // [A-Z0-9_]
    | MixedCase   // [A-Za-z0-9_-]

  predicate NameChar(g: Grammar, c: char) {
    ('A' <= c <= 'Z') || ('0' <= c <= '9') || c == '_'
    || (g == MixedCase && (('a' <= c <= 'z') || c == '-'))
  }

  /** A name the grammar can capture: non-empty, every character in the class. */
  predicate IsName(g: Grammar, n: string) {
    n != [] && forall k :: 0 <= k < |n| ==> NameChar(g, n[k])
  }

  /** End of the run of name characters starting at `i` (a greedy `[...]+`). */
  function NameRun(g: Grammar, s: string, i: nat): (j: nat)
    requires i <= |s|
    ensures i <= j <= |s|
    ensures forall k :: i <= k < j ==> NameChar(g, s[k])
    ensures j == |s| || !NameChar(g, s[j])
    decreases |s| - i
  {
    if i < |s| && NameChar(g, s[i]) then NameRun(g, s, i + 1) else i
  }

  /**
   * The match of the regex at the start of `s`, as (captured name, length).
   * Name characters are neither whitespace nor braces, so each greedy part
   * takes the whole run in front of it and backtracking can never produce
   * a different match: the first `\s*` must end where the name begins, the
   * name must end where whitespace or `}` begins.
   */
  function MatchFront(g: Grammar, s: string): (r: Option<(string, nat)>)
    ensures r.Some? ==> IsName(g, r.value.0) && 4 + |r.value.0| <= r.value.1 <= |s|
    ensures r.Some? ==> s[0] == '{' && s[1] == '{'
  {
    if 2 <= |s| && s[0] == '{' && s[1] == '{' then
      var a := SpaceRun(s, 2);
      var b := NameRun(g, s, a);
      var c := SpaceRun(s, b);
      if a < b && c + 2 <= |s| && s[c] == '}' && s[c + 1] == '}' then Some((s[a..b], c + 2))
      else None
    else None
  }

  /** `[m.group(1) for m in rgx.finditer(s)]`: the names, in order of occurrence. */
  function FindAll(g: Grammar, s: string): (r: seq<string>)
    ensures forall k :: 0 <= k < |r| ==> IsName(g, r[k])
    decreases |s|
  {
    if s == [] then []
    else match MatchFront(g, s)
      case Some((name, n)) => [name] + FindAll(g, s[n..])
      case None => FindAll(g, s[1..])
  }

  lemma NameCharIsPlain(g: Grammar, c: char)
    requires NameChar(g, c)
    ensures !IsSpace(c) && c != '{' && c != '}'
  {
  }

  lemma NameRunIs(g: Grammar, s: string, i: nat, j: nat)
    requires i <= j <= |s|
    requires forall k :: i <= k < j ==> NameChar(g, s[k])
    requires j == |s| || !NameChar(g, s[j])
    ensures NameRun(g, s, i) == j
  {
  }

  /** Where each piece of a placeholder sits in the text. */
  lemma Layout(w1: string, name: string, w2: string, b: string)
    ensures var s := "{{" + w1 + name + w2 + "}}" + b;
      var q := 2 + |w1| + |name|;
      var n := q + |w2| + 2;
      && |s| == n + |b| && s[0] == '{' && s[1] == '{' && s[n - 2] == '}' && s[n - 1] == '}'
      && (forall k :: 2 <= k < 2 + |w1| ==> s[k] == w1[k - 2])
      && (forall k :: 2 + |w1| <= k < q ==> s[k] == name[k - 2 - |w1|])
      && (forall k :: q <= k < n - 2 ==> s[k] == w2[k - q])
      && s[2 + |w1|..q] == name && s[n..] == b
  {
  }

  /** A well-formed placeholder at the start of the text is matched whole. */
  lemma MatchFrontPlaceholder(g: Grammar, w1: string, name: string, w2: string, b: string)
    requires IsBlank(w1) && IsBlank(w2) && IsName(g, name)
    ensures MatchFront(g, "{{" + w1 + name + w2 + "}}" + b) == Some((name, |w1| + |name| + |w2| + 4))
  {
    var s := "{{" + w1 + name + w2 + "}}" + b;
    var q := 2 + |w1| + |name|;
    var n := q + |w2| + 2;
    Layout(w1, name, w2, b);
    NameCharIsPlain(g, name[0]);
    SpaceRunIs(s, 2, 2 + |w1|);
    NameCharIsPlain(g, s[2 + |w1|]);
    NameRunIs(g, s, 2 + |w1|, q);
    SpaceRunIs(s, q, n - 2);
  }

  /** The placeholder's name comes first, then whatever the rest of the text holds. */
  lemma FindAllPlaceholder(g: Grammar, w1: string, name: string, w2: string, b: string)
    requires IsBlank(w1) && IsBlank(w2) && IsName(g, name)
    ensures FindAll(g, "{{" + w1 + name + w2 + "}}" + b) == [name] + FindAll(g, b)
  {
    MatchFrontPlaceholder(g, w1, name, w2, b);
    Layout(w1, name, w2, b);
  }

  /** Text without `{` holds no placeholder and contributes nothing. */
  lemma {:induction false} FindAllPlainPrefix(g: Grammar, a: string, s: string)
    requires forall k :: 0 <= k < |a| ==> a[k] != '{'
    ensures FindAll(g, a + s) == FindAll(g, s)
    decreases |a|
  {
    if a != [] {
      assert (a + s)[0] == a[0];
      assert (a + s)[1..] == a[1..] + s;
      FindAllPlainPrefix(g, a[1..], s);
    } else {
      assert a + s == s;
    }
  }

  /** Names come out in the order their placeholders appear. */
  lemma FindAllInOrder(g: Grammar, a: string, w1: string, name: string, w2: string, b: string)
    requires forall k :: 0 <= k < |a| ==> a[k] != '{'
    requires IsBlank(w1) && IsBlank(w2) && IsName(g, name)
    ensures FindAll(g, a + ("{{" + w1 + name + w2 + "}}" + b)) == [name] + FindAll(g, b)
  {
    FindAllPlainPrefix(g, a, "{{" + w1 + name + w2 + "}}" + b);
    FindAllPlaceholder(g, w1, name, w2, b);
  }

  /** Every placeholder the `[A-Z0-9_]` grammar matches, the legacy grammar matches identically. */
  lemma UpperMatchIsMixedMatch(s: string)
    requires MatchFront(UpperOnly, s).Some?
    ensures MatchFront(MixedCase, s) == MatchFront(UpperOnly, s)
  {
    var a := SpaceRun(s, 2);
    var b := NameRun(UpperOnly, s, a);
    var c := SpaceRun(s, b);
    assert b < |s|;
    assert !NameChar(MixedCase, s[b]) by {
      if b < c { assert IsSpace(s[b]); } else { assert s[b] == '}'; }
    }
    NameRunIs(MixedCase, s, a, b);
  }

  /** No match can start at a position that is not the first of two `{`. */
  predicate NoOpenAt(s: string, j: nat)
    requires j < |s|
  {
    s[j] != '{' || j + 1 == |s| || s[j + 1] != '{'
  }

  /** Positions that cannot open a placeholder are skipped by the scan. */
  lemma {:induction false} FindAllSkip(g: Grammar, s: string, k: nat)
    requires k <= |s|
    requires forall j :: 0 <= j < k ==> NoOpenAt(s, j)
    ensures FindAll(g, s) == FindAll(g, s[k..])
    decreases k
  {
    if k > 0 {
      FindAllSkipOne(g, s);
      NoOpenShift(s, k);
      FindAllSkip(g, s[1..], k - 1);
      assert s[1..][k - 1..] == s[k..];
    }
  }

  /** Where no placeholder starts, the scan moves on by one character. */
  lemma FindAllNoMatch(g: Grammar, s: string)
    requires s != [] && MatchFront(g, s).None?
    ensures FindAll(g, s) == FindAll(g, s[1..])
  {
  }

  /** A position that cannot open a placeholder is skipped by one step of the scan. */
  lemma FindAllSkipOne(g: Grammar, s: string)
    requires s != [] && NoOpenAt(s, 0)
    ensures FindAll(g, s) == FindAll(g, s[1..])
  {
    assert MatchFront(g, s).None?;
    FindAllNoMatch(g, s);
  }

  /** Inside a match, only its first character can open another one. */
  lemma InsideMatchNoOpen(g: Grammar, s: string)
    requires MatchFront(g, s).Some?
    ensures var n := MatchFront(g, s).value.1;
      forall j :: 1 <= j < n ==> NoOpenAt(s, j)
  {
    var a := SpaceRun(s, 2);
    var b := NameRun(g, s, a);
    var c := SpaceRun(s, b);
    forall j | 2 <= j < c + 2
      ensures s[j] != '{'
    {
      if j < a { assert IsSpace(s[j]); }
      else if j < b { NameCharIsPlain(g, s[j]); }
      else if j < c { assert IsSpace(s[j]); }
    }
  }

  /** Where only the legacy grammar matches, the `[A-Z0-9_]` scan finds nothing inside that match. */
  lemma UpperScanSkipsMixedMatch(s: string)
    requires MatchFront(UpperOnly, s).None? && MatchFront(MixedCase, s).Some?
    ensures FindAll(UpperOnly, s) == FindAll(UpperOnly, s[MatchFront(MixedCase, s).value.1..])
  {
    FindAllNoMatch(UpperOnly, s);
    InsideMatchNoOpen(MixedCase, s);
    SkipAfterFirst(UpperOnly, s, MatchFront(MixedCase, s).value.1);
  }

  /** A scan that moves past the first character also skips what cannot open a placeholder after it. */
  lemma SkipAfterFirst(g: Grammar, s: string, n: nat)
    requires 1 <= n <= |s| && FindAll(g, s) == FindAll(g, s[1..])
    requires forall j :: 1 <= j < n ==> NoOpenAt(s, j)
    ensures FindAll(g, s) == FindAll(g, s[n..])
  {
    NoOpenShift(s, n);
    FindAllSkip(g, s[1..], n - 1);
    assert s[1..][n - 1..] == s[n..];
  }

  lemma NoOpenShift(s: string, n: nat)
    requires 1 <= n <= |s|
    requires forall j :: 1 <= j < n ==> NoOpenAt(s, j)
    ensures forall j :: 0 <= j < n - 1 ==> NoOpenAt(s[1..], j)
  {
    forall j | 0 <= j < n - 1
      ensures NoOpenAt(s[1..], j)
    {
      assert NoOpenAt(s, j + 1);
    }
  }

  /**
   * Every name the `[A-Z0-9_]` scan captures, the legacy `[A-Za-z0-9_-]`
   * scan captures too.
   */
  lemma {:induction false} UpperNamesAreMixedNames(s: string)
    ensures forall x :: x in FindAll(UpperOnly, s) ==> x in FindAll(MixedCase, s)
    decreases |s|
  {
    if s != [] {
      var mu := MatchFront(UpperOnly, s);
      var mm := MatchFront(MixedCase, s);
      if mu.Some? {
        UpperMatchIsMixedMatch(s);
        UpperNamesAreMixedNames(s[mu.value.1..]);
      } else if mm.Some? {
        UpperScanSkipsMixedMatch(s);
        UpperNamesAreMixedNames(s[mm.value.1..]);
      } else {
        UpperNamesAreMixedNames(s[1..]);
      }
    }
  }
}
