/**
 * The Python `str` built-ins the modelled code relies on: `strip`, `lstrip`,
 * `rstrip`, `splitlines`, `split(sep)`, `sep.join`, `lower`, `startswith`,
 * `in` on strings and `str(int)`. Whitespace and line boundaries follow
 * Python's own definitions (`str.isspace`, `str.splitlines`).
 */
module PyStrings {

  /** Characters for which Python's `str.isspace()` holds, by code point. */
  predicate IsSpace(c: char) {
    var n := c as int;
    (9 <= n <= 13) || (28 <= n <= 32) || n == 0x85 || n == 0xA0 || n == 0x1680
    || (0x2000 <= n <= 0x200A) || n == 0x2028 || n == 0x2029 || n == 0x202F
    || n == 0x205F || n == 0x3000
  }

  /** Characters at which Python's `str.splitlines()` ends a line, by code point. */
  predicate IsLineBreak(c: char) {
    var n := c as int;
    (10 <= n <= 13) || (28 <= n <= 30) || n == 0x85 || n == 0x2028 || n == 0x2029
  }

  /** No character of `s` ends a line. */
  predicate NoLineBreak(s: string) {
    forall i :: 0 <= i < |s| ==> !IsLineBreak(s[i])
  }

  lemma LineBreakIsSpace(c: char)
    ensures IsLineBreak(c) ==> IsSpace(c)
  {
  }

  /** `not s.strip()`: the string is empty or made of whitespace only. */
  predicate IsBlank(s: string) {
    forall i :: 0 <= i < |s| ==> IsSpace(s[i])
  }

  function LStrip(s: string): (r: string)
    ensures |r| <= |s| && r == s[|s| - |r|..]
    ensures r == [] || !IsSpace(r[0])
  {
    if |s| > 0 && IsSpace(s[0]) then LStrip(s[1..]) else s
  }

  /** What `lstrip()` removes is whitespace. */
  lemma {:induction false} LStripRemovesBlank(s: string)
    ensures IsBlank(s[..|s| - |LStrip(s)|])
    decreases |s|
  {
    if |s| > 0 && IsSpace(s[0]) {
      LStripRemovesBlank(s[1..]);
      var r := LStrip(s);
      assert s[..|s| - |r|] == [s[0]] + s[1..][..|s| - 1 - |r|];
    }
  }

  function RStrip(s: string): (r: string)
    ensures |r| <= |s| && r == s[..|r|]
    ensures r == [] || !IsSpace(r[|r| - 1])
  {
    if |s| > 0 && IsSpace(s[|s| - 1]) then RStrip(s[..|s| - 1]) else s
  }

  /** What `rstrip()` removes is whitespace. */
  lemma {:induction false} RStripRemovesBlank(s: string)
    ensures IsBlank(s[|RStrip(s)|..])
    decreases |s|
  {
    if |s| > 0 && IsSpace(s[|s| - 1]) {
      RStripRemovesBlank(s[..|s| - 1]);
      var r := RStrip(s);
      assert s[|r|..] == s[..|s| - 1][|r|..] + [s[|s| - 1]];
    }
  }

  /** Left-stripping text that is not blank leaves whatever follows it alone. */
  lemma {:induction false} LStripAppend(s: string, t: string)
    requires !IsBlank(s)
    ensures LStrip(s + t) == LStrip(s) + t
  {
    assert (s + t)[0] == s[0];
    if IsSpace(s[0]) {
      assert (s + t)[1..] == s[1..] + t;
      assert !IsBlank(s[1..]) by {
        var i :| 0 <= i < |s| && !IsSpace(s[i]);
        assert s[1..][i - 1] == s[i];
      }
      LStripAppend(s[1..], t);
    }
  }

  lemma {:induction false} LStripBlankPrefix(s: string, t: string)
    requires IsBlank(s)
    ensures LStrip(s + t) == LStrip(t)
  {
    if s != [] {
      assert (s + t)[0] == s[0];
      assert (s + t)[1..] == s[1..] + t;
      LStripBlankPrefix(s[1..], t);
    } else {
      assert s + t == t;
    }
  }

  /** A non-empty string with no whitespace at either end. */
  predicate IsStrippedText(t: string) {
    t != [] && !IsSpace(t[0]) && !IsSpace(t[|t| - 1])
  }

  /** Python's `str.strip()` with no argument: leading whitespace is skipped, then the rest right-stripped. */
  function Strip(s: string): (r: string)
    ensures r == [] || IsStrippedText(r)
    ensures r == [] <==> IsBlank(s)
    decreases |s|
  {
    if |s| > 0 && IsSpace(s[0]) then
      var r := Strip(s[1..]);
      assert IsBlank(s) <==> IsBlank(s[1..]) by {
        if IsBlank(s[1..]) {
          forall i | 0 <= i < |s| ensures IsSpace(s[i]) {
            if i > 0 { assert s[i] == s[1..][i - 1]; }
          }
        }
      }
      r
    else
      var r := RStrip(s);
      assert r == [] ==> IsBlank(s) by {
        if r == [] {
          RStripRemovesBlank(s);
          assert s[|r|..] == s;
        }
      }
      r
  }

  /** `strip()` is `rstrip()` after `lstrip()`. */
  lemma {:induction false} StripIsRStripLStrip(s: string)
    ensures Strip(s) == RStrip(LStrip(s))
    decreases |s|
  {
    if |s| > 0 && IsSpace(s[0]) {
      StripIsRStripLStrip(s[1..]);
    }
  }

  /**
   * A trailing line break changes nothing that `strip()` keeps (a Tk text
   * widget's content always ends with one).
   */
  lemma StripNewline(s: string)
    ensures Strip(s + "\n") == Strip(s)
    ensures RStrip(s + "\n") == RStrip(s)
  {
    RStripSpaceEnd(s, '\n');
    if IsBlank(s) {
      StripNewlineBlank(s);
    } else {
      StripNewlineText(s);
    }
  }

  lemma StripNewlineBlank(s: string)
    requires IsBlank(s)
    ensures Strip(s + "\n") == [] && Strip(s) == []
  {
    assert IsBlank(s + "\n");
  }

  lemma StripNewlineText(s: string)
    requires !IsBlank(s)
    ensures Strip(s + "\n") == Strip(s)
  {
    StripIsRStripLStrip(s);
    StripIsRStripLStrip(s + "\n");
    LStripAppend(s, "\n");
    RStripSpaceEnd(LStrip(s), '\n');
  }

  /** A trailing whitespace character is removed by `rstrip()`. */
  lemma RStripSpaceEnd(s: string, c: char)
    requires IsSpace(c)
    ensures RStrip(s + [c]) == RStrip(s)
  {
    assert (s + [c])[..|s|] == s;
  }

  /** The whitespace-free content of a string, in order. */
  function NonSpace(s: string): (r: string)
    ensures |r| <= |s|
  {
    if s == [] then []
    else (if IsSpace(s[0]) then [] else [s[0]]) + NonSpace(s[1..])
  }

  lemma {:induction false} NonSpaceAppend(a: string, b: string)
    ensures NonSpace(a + b) == NonSpace(a) + NonSpace(b)
  {
    if a != [] {
      var h := if IsSpace(a[0]) then [] else [a[0]];
      assert (a + b)[0] == a[0];
      assert (a + b)[1..] == a[1..] + b;
      NonSpaceAppend(a[1..], b);
      calc {
        NonSpace(a + b);
        h + NonSpace(a[1..] + b);
        h + (NonSpace(a[1..]) + NonSpace(b));
        (h + NonSpace(a[1..])) + NonSpace(b);
      }
    } else {
      assert a + b == b;
    }
  }

  lemma {:induction false} NonSpaceOfBlank(s: string)
    requires IsBlank(s)
    ensures NonSpace(s) == []
  {
    if s != [] {
      NonSpaceOfBlank(s[1..]);
    }
  }

  lemma {:induction false} NonSpaceSkipBlank(s: string, k: nat)
    requires k <= |s| && IsBlank(s[..k])
    ensures NonSpace(s) == NonSpace(s[k..])
  {
    assert s == s[..k] + s[k..];
    NonSpaceAppend(s[..k], s[k..]);
    NonSpaceOfBlank(s[..k]);
  }

  lemma {:induction false} NonSpaceDropBlankSuffix(s: string, k: nat)
    requires k <= |s| && IsBlank(s[k..])
    ensures NonSpace(s) == NonSpace(s[..k])
  {
    assert s == s[..k] + s[k..];
    NonSpaceAppend(s[..k], s[k..]);
    NonSpaceOfBlank(s[k..]);
  }

  /** Stripping removes whitespace only. */
  lemma StripKeepsContent(s: string)
    ensures NonSpace(Strip(s)) == NonSpace(s)
  {
    var l := LStrip(s);
    StripIsRStripLStrip(s);
    LStripRemovesBlank(s);
    RStripRemovesBlank(l);
    NonSpaceSkipBlank(s, |s| - |l|);
    NonSpaceDropBlankSuffix(l, |RStrip(l)|);
  }

  /** Flattens a list of strings (`"".join(xs)`). */
  function Concat(xs: seq<string>): (r: string)
  {
    if xs == [] then [] else xs[0] + Concat(xs[1..])
  }

  lemma {:induction false} ConcatAppend(xs: seq<string>, ys: seq<string>)
    ensures Concat(xs + ys) == Concat(xs) + Concat(ys)
  {
    if xs != [] {
      assert (xs + ys)[0] == xs[0];
      assert (xs + ys)[1..] == xs[1..] + ys;
      ConcatAppend(xs[1..], ys);
      calc {
        Concat(xs + ys);
        xs[0] + Concat(xs[1..] + ys);
        xs[0] + (Concat(xs[1..]) + Concat(ys));
        (xs[0] + Concat(xs[1..])) + Concat(ys);
      }
    } else {
      assert xs + ys == ys;
    }
  }

  /** `sep.join(xs)`. */
  function Join(sep: string, xs: seq<string>): (r: string)
  {
    if xs == [] then []
    else if |xs| == 1 then xs[0]
    else xs[0] + sep + Join(sep, xs[1..])
  }

  /** Scans `s`; `cur` is the line read so far. */
  function SplitLinesFrom(s: string, cur: string): (r: seq<string>)
    requires NoLineBreak(cur)
    ensures forall k :: 0 <= k < |r| ==> NoLineBreak(r[k])
    decreases |s|
  {
    if s == [] then (if cur == [] then [] else [cur])
    else if s[0] == '\r' && |s| > 1 && s[1] == '\n' then [cur] + SplitLinesFrom(s[2..], [])
    else if IsLineBreak(s[0]) then [cur] + SplitLinesFrom(s[1..], [])
    else SplitLinesFrom(s[1..], cur + [s[0]])
  }

  /**
   * Python's `str.splitlines()`: the lines of `s` without their line breaks,
   * `"\r\n"` counting as one break and no empty line after a final break.
   */
  function SplitLines(s: string): (r: seq<string>)
    ensures forall k :: 0 <= k < |r| ==> NoLineBreak(r[k])
  {
    SplitLinesFrom(s, [])
  }

  lemma ConcatCons(x: string, xs: seq<string>)
    ensures Concat([x] + xs) == x + Concat(xs)
  {
    assert ([x] + xs)[1..] == xs;
  }

  /** Ending the current line at a blank break of length `k` keeps the content. */
  lemma LineBreakKeepsContent(s: string, cur: string, k: nat, rest: seq<string>)
    requires k <= |s| && IsBlank(s[..k])
    requires NonSpace(Concat(rest)) == NonSpace(s[k..])
    ensures NonSpace(Concat([cur] + rest)) == NonSpace(cur + s)
  {
    ConcatCons(cur, rest);
    NonSpaceAppend(cur, Concat(rest));
    NonSpaceAppend(cur, s);
    NonSpaceSkipBlank(s, k);
  }

  lemma {:induction false} SplitLinesFromKeepsContent(s: string, cur: string)
    requires NoLineBreak(cur)
    ensures NonSpace(Concat(SplitLinesFrom(s, cur))) == NonSpace(cur + s)
    decreases |s|
  {
    if s == [] {
      assert cur + s == cur;
      assert Concat([cur]) == cur + Concat([]);
    } else {
      var k := if s[0] == '\r' && |s| > 1 && s[1] == '\n' then 2 else 1;
      if k == 2 || IsLineBreak(s[0]) {
        SplitLinesFromKeepsContent(s[k..], []);
        assert [] + s[k..] == s[k..];
        LineBreakIsSpace(s[0]);
        assert IsBlank(s[..k]);
        LineBreakKeepsContent(s, cur, k, SplitLinesFrom(s[k..], []));
      } else {
        SplitLinesFromKeepsContent(s[1..], cur + [s[0]]);
        assert cur + [s[0]] + s[1..] == cur + s;
      }
    }
  }

  /** Splitting into lines loses nothing but the (whitespace) line breaks. */
  lemma SplitLinesKeepsContent(s: string)
    ensures NonSpace(Concat(SplitLines(s))) == NonSpace(s)
  {
    SplitLinesFromKeepsContent(s, []);
    assert [] + s == s;
  }

  /** `[x.strip() for x in xs if x.strip()]`. */
  function StrippedNonBlank(xs: seq<string>): (r: seq<string>)
    ensures |r| <= |xs|
    ensures forall k :: 0 <= k < |r| ==> IsStrippedText(r[k])
  {
    if xs == [] then []
    else
      var t := Strip(xs[0]);
      (if t != [] then [t] else []) + StrippedNonBlank(xs[1..])
  }

  lemma {:induction false} StrippedNonBlankKeepsContent(xs: seq<string>)
    ensures NonSpace(Concat(StrippedNonBlank(xs))) == NonSpace(Concat(xs))
  {
    if xs != [] {
      var t := Strip(xs[0]);
      var head: seq<string> := if t != [] then [t] else [];
      StrippedNonBlankKeepsContent(xs[1..]);
      ConcatAppend(head, StrippedNonBlank(xs[1..]));
      NonSpaceAppend(Concat(head), Concat(StrippedNonBlank(xs[1..])));
      NonSpaceAppend(xs[0], Concat(xs[1..]));
      StripKeepsContent(xs[0]);
      assert Concat(head) == t by {
        if t != [] { assert Concat([t]) == t + Concat([]); }
      }
    }
  }

  /** `[ln.strip() for ln in s.splitlines() if ln.strip()]`. */
  function NonBlankLines(s: string): (r: seq<string>)
    ensures forall k :: 0 <= k < |r| ==> IsStrippedText(r[k])
  {
    StrippedNonBlank(SplitLines(s))
  }

  /**
   * The lines keep every non-whitespace character of the input, in order:
   * only whitespace and line breaks are dropped.
   */
  lemma NonBlankLinesKeepContent(s: string)
    ensures NonSpace(Concat(NonBlankLines(s))) == NonSpace(s)
  {
    StrippedNonBlankKeepsContent(SplitLines(s));
    SplitLinesKeepsContent(s);
  }

  /** `t` is the part of `s` starting at index `a`. */
  predicate SliceAt(t: string, s: string, a: nat) {
    a + |t| <= |s| && forall i :: 0 <= i < |t| ==> t[i] == s[a + i]
  }

  /** What `strip` keeps is a contiguous part of the text, starting where `lstrip` stops. */
  lemma {:induction false} StripSlice(s: string)
    ensures SliceAt(Strip(s), s, |s| - |LStrip(s)|)
    decreases |s|
  {
    if |s| > 0 && IsSpace(s[0]) {
      StripSlice(s[1..]);
      SliceAtShift(Strip(s), s, |s| - |LStrip(s)|);
    } else {
      SliceAtPrefix(RStrip(s), s);
    }
  }

  lemma SliceAtShift(t: string, s: string, a: nat)
    requires s != [] && a > 0 && SliceAt(t, s[1..], a - 1)
    ensures SliceAt(t, s, a)
  {
    forall i | 0 <= i < |t|
      ensures t[i] == s[a + i]
    {
      assert s[1..][a - 1 + i] == s[a + i];
    }
  }

  lemma SliceAtPrefix(t: string, s: string)
    requires |t| <= |s| && t == s[..|t|]
    ensures SliceAt(t, s, 0)
  {
    forall i | 0 <= i < |t|
      ensures t[i] == s[i]
    {
      assert t[i] == s[..|t|][i];
    }
  }

  /** Stripping a line cannot introduce a line break. */
  lemma StripNoLineBreak(s: string)
    requires NoLineBreak(s)
    ensures NoLineBreak(Strip(s))
  {
    StripSlice(s);
  }

  lemma {:induction false} StrippedNonBlankNoLineBreak(xs: seq<string>)
    requires forall k :: 0 <= k < |xs| ==> NoLineBreak(xs[k])
    ensures forall k :: 0 <= k < |StrippedNonBlank(xs)| ==> NoLineBreak(StrippedNonBlank(xs)[k])
  {
    if xs != [] {
      var rest := StrippedNonBlank(xs[1..]);
      StrippedNonBlankNoLineBreak(xs[1..]);
      var t := Strip(xs[0]);
      assert NoLineBreak(xs[0]);
      StripNoLineBreak(xs[0]);
      var head: seq<string> := if t != [] then [t] else [];
      assert StrippedNonBlank(xs) == head + rest;
      AllNoLineBreakAppend(head, rest);
    }
  }

  lemma AllNoLineBreakAppend(xs: seq<string>, ys: seq<string>)
    requires forall k :: 0 <= k < |xs| ==> NoLineBreak(xs[k])
    requires forall k :: 0 <= k < |ys| ==> NoLineBreak(ys[k])
    ensures forall k :: 0 <= k < |xs + ys| ==> NoLineBreak((xs + ys)[k])
  {
    forall k | 0 <= k < |xs + ys|
      ensures NoLineBreak((xs + ys)[k])
    {
      if k < |xs| {
        assert (xs + ys)[k] == xs[k];
      } else {
        assert (xs + ys)[k] == ys[k - |xs|];
      }
    }
  }

  /** No line that `NonBlankLines` yields holds a line break. */
  lemma NonBlankLinesNoLineBreak(s: string)
    ensures forall k :: 0 <= k < |NonBlankLines(s)| ==> NoLineBreak(NonBlankLines(s)[k])
  {
    StrippedNonBlankNoLineBreak(SplitLines(s));
  }

  /** Python's `s.split(sep)` for a one-character separator. */
  function SplitOn(s: string, sep: char): (r: seq<string>)
    ensures |r| >= 1
    ensures forall k, i :: 0 <= k < |r| && 0 <= i < |r[k]| ==> r[k][i] != sep
  {
    if s == [] then [[]]
    else
      var rest := SplitOn(s[1..], sep);
      if s[0] == sep then [[]] + rest
      else [[s[0]] + rest[0]] + rest[1..]
  }

  lemma {:induction false} SplitOnJoin(x: string, sep: char, ys: seq<string>)
    requires forall i :: 0 <= i < |x| ==> x[i] != sep
    ensures SplitOn(x + [sep] + Join([sep], ys), sep) == [x] + (if ys == [] then [[]] else SplitOn(Join([sep], ys), sep))
    decreases |x|
  {
    var tail := Join([sep], ys);
    if x == [] {
      assert x + [sep] + tail == [sep] + tail;
      assert ([sep] + tail)[1..] == tail;
      if ys == [] { assert SplitOn([], sep) == [[]]; }
    } else {
      assert (x + [sep] + tail)[1..] == x[1..] + [sep] + tail;
      SplitOnJoin(x[1..], sep, ys);
      assert [x[0]] + x[1..] == x;
    }
  }

  lemma {:induction false} SplitOnNoSep(x: string, sep: char)
    requires forall i :: 0 <= i < |x| ==> x[i] != sep
    ensures SplitOn(x, sep) == [x]
  {
    if x != [] {
      SplitOnNoSep(x[1..], sep);
      assert [x[0]] + x[1..] == x;
    }
  }

  /** Splitting a joined list on its separator gives the list back. */
  lemma {:induction false} SplitJoinRoundTrip(xs: seq<string>, sep: char)
    requires xs != []
    requires forall k, i :: 0 <= k < |xs| && 0 <= i < |xs[k]| ==> xs[k][i] != sep
    ensures SplitOn(Join([sep], xs), sep) == xs
  {
    if |xs| == 1 {
      SplitOnNoSep(xs[0], sep);
    } else {
      SplitJoinRoundTrip(xs[1..], sep);
      assert Join([sep], xs) == xs[0] + [sep] + Join([sep], xs[1..]);
      SplitOnJoin(xs[0], sep, xs[1..]);
    }
  }

  /** `in` on strings: `t` occurs somewhere in `s`. */
  predicate Contains(s: string, t: string) {
    exists i :: 0 <= i <= |s| && OccursAt(s, t, i)
  }

  /** `t` occurs in `s` starting at index `i`. */
  predicate OccursAt(s: string, t: string, i: nat) {
    i + |t| <= |s| && s[i..i + |t|] == t
  }

  lemma OccursAtEnd(a: string, t: string)
    ensures OccursAt(a + t, t, |a|)
  {
    assert (a + t)[|a|..|a| + |t|] == t;
  }

  /** An occurrence survives appending text after it. */
  lemma OccursAtExtend(s: string, t: string, i: nat, b: string)
    requires OccursAt(s, t, i)
    ensures OccursAt(s + b, t, i)
  {
    assert (s + b)[i..i + |t|] == s[i..i + |t|];
  }

  /** An occurrence moves right by the length of text prepended to it. */
  lemma OccursAtShift(a: string, s: string, t: string, i: nat)
    requires OccursAt(s, t, i)
    ensures OccursAt(a + s, t, |a| + i)
  {
    assert (a + s)[|a| + i..|a| + i + |t|] == s[i..i + |t|];
  }

  /** End of the whitespace run starting at `i`: what a greedy regex `\s*` consumes there. */
  function SpaceRun(s: string, i: nat): (j: nat)
    requires i <= |s|
    ensures i <= j <= |s|
    ensures forall k :: i <= k < j ==> IsSpace(s[k])
    ensures j == |s| || !IsSpace(s[j])
    decreases |s| - i
  {
    if i < |s| && IsSpace(s[i]) then SpaceRun(s, i + 1) else i
  }

  /** The run found by `SpaceRun` is the only one that fits its description. */
  lemma SpaceRunIs(s: string, i: nat, j: nat)
    requires i <= j <= |s|
    requires forall k :: i <= k < j ==> IsSpace(s[k])
    requires j == |s| || !IsSpace(s[j])
    ensures SpaceRun(s, i) == j
  {
  }

  predicate StartsWith(s: string, t: string) {
    |t| <= |s| && s[..|t|] == t
  }

  /** `str.lower()` on ASCII letters; every other character is left alone. */
  function LowerChar(c: char): (r: char)
    ensures 'A' <= c <= 'Z' ==> 'a' <= r <= 'z'
    ensures !('A' <= c <= 'Z') ==> r == c
  {
    if 'A' <= c <= 'Z' then (c as int + 32) as char else c
  }

  function Lower(s: string): (r: string)
    ensures |r| == |s|
    ensures forall i :: 0 <= i < |s| ==> r[i] == LowerChar(s[i])
  {
    if s == [] then [] else [LowerChar(s[0])] + Lower(s[1..])
  }

  function DigitChar(d: nat): (c: char)
    requires d < 10
    ensures '0' <= c <= '9'
  {
    ('0' as int + d) as char
  }

  /** `str(n)` for a non-negative integer. */
  function NatToString(n: nat): (r: string)
    ensures r != []
    ensures forall i :: 0 <= i < |r| ==> '0' <= r[i] <= '9'
  {
    if n < 10 then [DigitChar(n)] else NatToString(n / 10) + [DigitChar(n % 10)]
  }

  /** Reads back a string of decimal digits. */
  function DigitsValue(s: string): nat
    requires forall i :: 0 <= i < |s| ==> '0' <= s[i] <= '9'
  {
    if s == [] then 0 else DigitsValue(s[..|s| - 1]) * 10 + (s[|s| - 1] as int - '0' as int)
  }

  /** `str(n)` is read back as `n`. */
  lemma {:induction false} NatToStringRoundTrip(n: nat)
    ensures DigitsValue(NatToString(n)) == n
  {
    if n >= 10 {
      NatToStringRoundTrip(n / 10);
      var s := NatToString(n);
      assert s[..|s| - 1] == NatToString(n / 10);
    }
  }

  /** Python's `str(i)` for an integer of either sign. */
  function IntToString(i: int): (r: string)
    ensures r != []
    ensures i < 0 <==> r[0] == '-'
  {
    if i < 0 then "-" + NatToString(-i) else NatToString(i)
  }
}
