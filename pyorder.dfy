/**
 * Python's ordering of strings (code point by code point, a proper prefix
 * first) and `sorted(set(xs))` on a list of strings.
 */
module PyOrder {

  /** `a < b` on Python strings. */
  predicate StrLess(a: string, b: string)
    decreases |a|
  {
    b != [] && (a == [] || a[0] < b[0] || (a[0] == b[0] && StrLess(a[1..], b[1..])))
  }

  lemma {:induction false} StrLessIrreflexive(a: string)
    ensures !StrLess(a, a)
    decreases |a|
  {
    if a != [] {
      StrLessIrreflexive(a[1..]);
    }
  }

  lemma {:induction false} StrLessTransitive(a: string, b: string, c: string)
    requires StrLess(a, b) && StrLess(b, c)
    ensures StrLess(a, c)
    decreases |a|
  {
    if a != [] && a[0] == b[0] && b[0] == c[0] {
      StrLessTransitive(a[1..], b[1..], c[1..]);
    }
  }

  lemma {:induction false} StrLessTotal(a: string, b: string)
    requires a != b
    ensures StrLess(a, b) || StrLess(b, a)
    decreases |a|
  {
    if a != [] && b != [] && a[0] == b[0] {
      assert a == [a[0]] + a[1..] && b == [b[0]] + b[1..];
      StrLessTotal(a[1..], b[1..]);
    }
  }

  /** Each element is smaller than the next, so the list is sorted and duplicate-free. */
  predicate StrictlySorted(xs: seq<string>) {
    forall k :: 0 <= k < |xs| - 1 ==> StrLess(xs[k], xs[k + 1])
  }

  /** Inserts `x` into a strictly sorted list unless it is there already. */
  function InsertUnique(xs: seq<string>, x: string): (r: seq<string>)
    decreases |xs|
  {
    if xs == [] then [x]
    else if x == xs[0] then xs
    else if StrLess(x, xs[0]) then [x] + xs
    else [xs[0]] + InsertUnique(xs[1..], x)
  }

  lemma {:induction false} InsertUniqueSorted(xs: seq<string>, x: string)
    requires StrictlySorted(xs)
    ensures StrictlySorted(InsertUnique(xs, x))
    ensures InsertUnique(xs, x) != [] && InsertUnique(xs, x)[0] in {x} + (if xs == [] then {} else {xs[0]})
    ensures forall y :: y in InsertUnique(xs, x) <==> y == x || y in xs
    decreases |xs|
  {
    if xs != [] && x != xs[0] && !StrLess(x, xs[0]) {
      StrLessTotal(x, xs[0]);
      InsertUniqueSorted(xs[1..], x);
      var r := InsertUnique(xs[1..], x);
      assert StrLess(xs[0], r[0]) by {
        if r[0] != x {
          assert xs[1..] != [] && r[0] == xs[1];
        }
      }
    }
  }

  /** `sorted(set(xs))`. */
  function SortedSet(xs: seq<string>): (r: seq<string>)
    decreases |xs|
  {
    if xs == [] then [] else InsertUnique(SortedSet(xs[..|xs| - 1]), xs[|xs| - 1])
  }

  /** `sorted(set(xs))` is sorted, free of duplicates, and holds exactly the elements of `xs`. */
  lemma {:induction false} SortedSetSpec(xs: seq<string>)
    ensures StrictlySorted(SortedSet(xs))
    ensures forall y :: y in SortedSet(xs) <==> y in xs
    decreases |xs|
  {
    if xs != [] {
      var init := xs[..|xs| - 1];
      SortedSetSpec(init);
      InsertUniqueSorted(SortedSet(init), xs[|xs| - 1]);
      assert xs == init + [xs[|xs| - 1]];
    }
  }

  /** In a strictly sorted list every earlier element is smaller than every later one. */
  lemma {:induction false} StrictlySortedOrdered(xs: seq<string>, i: nat, j: nat)
    requires StrictlySorted(xs) && i < j < |xs|
    ensures StrLess(xs[i], xs[j])
    decreases j - i
  {
    if i + 1 < j {
      StrictlySortedOrdered(xs, i + 1, j);
      StrLessTransitive(xs[i], xs[i + 1], xs[j]);
    }
  }

  /** A strictly sorted list holds no element twice. */
  lemma StrictlySortedDistinct(xs: seq<string>, i: nat, j: nat)
    requires StrictlySorted(xs) && i < j < |xs|
    ensures xs[i] != xs[j]
  {
    StrictlySortedOrdered(xs, i, j);
    StrLessIrreflexive(xs[i]);
  }
}
