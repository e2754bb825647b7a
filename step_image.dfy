/**
 * The step helpers: the type guard every helper starts with, the in-place
 * sort, swap and renumbering of a step list, and `bind_steps`, which pairs
 * step texts with image references. A step list is an array of `StepImage`
 * values (the type guard is what lets the helpers assume one); the alt text
 * is derived from the text by `html.unescape`, passed in as a parameter, and
 * the tag-stripping substitution of `HtmlText`.
 */
module StepImageHelpers {
  import opened Wrappers
  import opened PyStrings
  import opened HtmlText
  import opened Model

  // ---------------------------------------------------------------- _ensure_list

  /** A Python value handed to a helper, as far as its type guard looks at it. */
  datatype PyValue = ListVal(items: seq<PyValue>) | StepVal(step: StepImage) | OtherVal

  /** The list of steps a Python list holds, as long as every item is a step. */
  function StepItems(items: seq<PyValue>): (r: Option<seq<StepImage>>)
    ensures r.Some? <==> forall k :: 0 <= k < |items| ==> items[k].StepVal?
    ensures r.Some? ==> |r.value| == |items| && forall k :: 0 <= k < |items| ==> items[k] == StepVal(r.value[k])
  {
    if items == [] then Some([])
    else if !items[0].StepVal? then None
    else match StepItems(items[1..])
      case None => None
      case Some(rest) => Some([items[0].step] + rest)
  }

  /**
   * `_ensure_list`: a value that is not a list fails with `TypeError`; a list
   * with an item that is not a step fails with `ValueError`; otherwise the
   * steps pass through.
   */
  function EnsureList(v: PyValue): (r: Result<seq<StepImage>, PyError>)
    ensures !v.ListVal? ==> r == Failure(TypeError("steps must be a list"))
    ensures v.ListVal? ==>
      (r.Failure? <==> exists k :: 0 <= k < |v.items| && !v.items[k].StepVal?)
    ensures v.ListVal? && r.Failure? ==> r.error == ValueError("steps list must contain StepImage items")
    ensures r.Success? ==>
      v.ListVal? && |r.value| == |v.items| && forall k :: 0 <= k < |v.items| ==> v.items[k] == StepVal(r.value[k])
  {
    if !v.ListVal? then Failure(TypeError("steps must be a list"))
    else match StepItems(v.items)
      case None => Failure(ValueError("steps list must contain StepImage items"))
      case Some(s) => Success(s)
  }

  /** The Python list holding the steps `s`. */
  function AsPyList(s: seq<StepImage>): (v: PyValue)
    ensures v.ListVal? && |v.items| == |s|
    ensures forall k :: 0 <= k < |s| ==> v.items[k] == StepVal(s[k])
  {
    ListVal(seq(|s|, k requires 0 <= k < |s| => StepVal(s[k])))
  }

  /** Every list of steps passes the guard, and the guard hands back those very steps. */
  lemma EnsureListRoundTrip(s: seq<StepImage>)
    ensures EnsureList(AsPyList(s)) == Success(s)
  {
    var r := EnsureList(AsPyList(s));
    assert r.Success?;
    assert |r.value| == |s|;
    forall k | 0 <= k < |s|
      ensures r.value[k] == s[k]
    {
      assert StepVal(r.value[k]) == StepVal(s[k]);
    }
    assert r.value == s;
  }

  // ---------------------------------------------------------------- sort_steps

  /**
   * Where `InsertByOrder` puts `x`: after the last element whose order is not
   * larger, that is, right after the elements an insertion scan from the
   * right stops at.
   */
  lemma {:induction false} InsertByOrderAt(t: seq<StepImage>, x: StepImage, j: nat)
    requires j <= |t|
    requires j == 0 || t[j - 1].order <= x.order
    requires forall m :: j <= m < |t| ==> t[m].order > x.order
    ensures InsertByOrder(t, x) == t[..j] + [x] + t[j..]
  {
    if j < |t| {
      var init := t[..|t| - 1];
      var last := t[|t| - 1];
      assert t == init + [last];
      assert InsertByOrder(t, x) == InsertByOrder(init, x) + [last];
      InsertByOrderAt(init, x, j);
      calc {
        InsertByOrder(t, x);
        InsertByOrder(init, x) + [last];
        (init[..j] + [x] + init[j..]) + [last];
        { assert init[..j] == t[..j]; assert init[j..] + [last] == t[j..]; }
        t[..j] + [x] + t[j..];
      }
    } else if t != [] {
      assert t[..j] == t && t[j..] == [];
    }
  }

  /** A sequence that agrees with `t` before `j`, holds `x` at `j` and `t` shifted one place after it. */
  lemma ShiftedInsert(t: seq<StepImage>, x: StepImage, j: nat, b: seq<StepImage>)
    requires j <= |t| && |b| == |t| + 1 && b[j] == x
    requires forall m :: 0 <= m < j ==> b[m] == t[m]
    requires forall m :: j < m < |b| ==> b[m] == t[m - 1]
    ensures b == t[..j] + [x] + t[j..]
  {
  }

  /**
   * One insertion step: the element at `i` moves left past every element of
   * larger order before it, which are shifted one place right.
   */
  method InsertStep(a: array<StepImage>, i: nat)
    requires i < a.Length
    modifies a
    ensures a[..i + 1] == InsertByOrder(old(a[..i]), old(a[i]))
    ensures a[i + 1..] == old(a[i + 1..])
  {
    var x := a[i];
    ghost var t := a[..i];
    var j := i;
    while j > 0 && a[j - 1].order > x.order
      invariant 0 <= j <= i
      invariant forall m :: 0 <= m < j ==> a[m] == t[m]
      invariant forall m :: j < m <= i ==> a[m] == t[m - 1]
      invariant forall m :: j <= m < i ==> t[m].order > x.order
      invariant forall m :: i < m < a.Length ==> a[m] == old(a[m])
    {
      a[j] := a[j - 1];
      j := j - 1;
    }
    a[j] := x;
    InsertByOrderAt(t, x, j);
    ShiftedInsert(t, x, j, a[..i + 1]);
  }

  /**
   * `sort_steps`: sorts the list in place, ascending by order and stable
   * (Python's `list.sort`), as an insertion sort.
   */
  method SortSteps(a: array<StepImage>)
    modifies a
    ensures a[..] == SortedByOrder(old(a[..]))
    ensures Ascending(a[..]) && multiset(a[..]) == multiset(old(a[..]))
  {
    ghost var s := a[..];
    var i := 0;
    while i < a.Length
      invariant 0 <= i <= a.Length
      invariant a[..i] == SortedByOrder(s[..i])
      invariant a[i..] == s[i..]
    {
      InsertStep(a, i);
      assert s[..i + 1][..i] == s[..i];
      i := i + 1;
    }
    assert a[..] == a[..a.Length];
    assert s == s[..a.Length];
    SortedByOrderAscending(s);
    SortedByOrderPermutes(s);
  }

  /** A list already ascending by order is left as it is by the stable sort. */
  lemma SortedByOrderOfAscending(s: seq<StepImage>)
    requires Ascending(s)
    ensures SortedByOrder(s) == s
  {
    SortedByOrderAscending(s);
    forall k
      ensures WithOrder(SortedByOrder(s), k) == WithOrder(s, k)
    {
      SortedByOrderStable(s, k);
    }
    AscendingUnique(SortedByOrder(s), s);
  }

  /** Sorting twice is sorting once. */
  lemma SortedByOrderIdempotent(s: seq<StepImage>)
    ensures SortedByOrder(SortedByOrder(s)) == SortedByOrder(s)
  {
    SortedByOrderAscending(s);
    SortedByOrderOfAscending(SortedByOrder(s));
  }

  // ---------------------------------------------------------------- swap_steps

  /** `s` with the elements at `i` and `j` exchanged. */
  function Swapped(s: seq<StepImage>, i: nat, j: nat): (r: seq<StepImage>)
    requires i < |s| && j < |s|
    ensures |r| == |s| && r[i] == s[j] && r[j] == s[i]
    ensures forall k :: 0 <= k < |s| && k != i && k != j ==> r[k] == s[k]
  {
    s[i := s[j]][j := s[i]]
  }

  /** What `swap_steps` does to a list, or the error it raises. */
  function SwapResult(s: seq<StepImage>, i: int, j: int): (r: Result<seq<StepImage>, PyError>)
    ensures i == j ==> r == Success(s)
    ensures i != j && !(0 <= i < |s| && 0 <= j < |s|) ==> r == Failure(ValueError("swap indices out of range"))
    ensures i != j && 0 <= i < |s| && 0 <= j < |s| ==> r == Success(Swapped(s, i, j))
  {
    if i == j then Success(s)
    else if !(0 <= i < |s| && 0 <= j < |s|) then Failure(ValueError("swap indices out of range"))
    else Success(Swapped(s, i, j))
  }

  /**
   * `swap_steps`: equal indices succeed without any range check; otherwise
   * both must lie in `[0, n)`, negatives included, or `ValueError` is raised
   * and the list is left as it was.
   */
  method SwapSteps(a: array<StepImage>, i: int, j: int) returns (err: Option<PyError>)
    modifies a
    ensures SwapResult(old(a[..]), i, j).Success? ==> err.None? && a[..] == SwapResult(old(a[..]), i, j).value
    ensures SwapResult(old(a[..]), i, j).Failure? ==>
      err == Some(SwapResult(old(a[..]), i, j).error) && a[..] == old(a[..])
  {
    var n := a.Length;
    if i == j {
      return None;
    }
    if !(0 <= i < n && 0 <= j < n) {
      return Some(ValueError("swap indices out of range"));
    }
    a[i], a[j] := a[j], a[i];
    err := None;
  }

  /** Swapping only reorders the list. */
  lemma SwappedPermutation(s: seq<StepImage>, i: nat, j: nat)
    requires i < |s| && j < |s|
    ensures multiset(Swapped(s, i, j)) == multiset(s)
  {
  }

  /** Swapping the same two positions again restores the list. */
  lemma SwapResultTwice(s: seq<StepImage>, i: int, j: int)
    requires SwapResult(s, i, j).Success?
    ensures SwapResult(SwapResult(s, i, j).value, i, j) == Success(s)
  {
    if i != j {
      assert Swapped(Swapped(s, i, j), i, j) == s;
    }
  }

  // ---------------------------------------------------------------- renumber_steps

  /** `s` with order `k + 1` given to the element at index `k`. */
  function Renumbered(s: seq<StepImage>): (r: seq<StepImage>)
    ensures |r| == |s|
    ensures forall k :: 0 <= k < |s| ==> r[k].order == k + 1
    ensures forall k :: 0 <= k < |s| ==>
      r[k].img == s[k].img && r[k].alt == s[k].alt && r[k].text == s[k].text
  {
    seq(|s|, k requires 0 <= k < |s| => s[k].(order := k + 1))
  }

  /** `renumber_steps`: gives the steps orders 1..N in their current list order, changing no other field. */
  method RenumberSteps(a: array<StepImage>)
    modifies a
    ensures a[..] == Renumbered(old(a[..]))
  {
    var k := 0;
    while k < a.Length
      invariant 0 <= k <= a.Length
      invariant a[..k] == Renumbered(old(a[..]))[..k]
      invariant a[k..] == old(a[k..])
    {
      a[k] := a[k].(order := k + 1);
      k := k + 1;
    }
  }

  /** Renumbering twice is renumbering once. */
  lemma RenumberedIdempotent(s: seq<StepImage>)
    ensures Renumbered(Renumbered(s)) == Renumbered(s)
  {
  }

  /** After renumbering the orders strictly increase, so they are distinct and the list is already sorted. */
  lemma RenumberedSorted(s: seq<StepImage>)
    ensures Ascending(Renumbered(s)) && DistinctOrders(Renumbered(s))
    ensures SortedByOrder(Renumbered(s)) == Renumbered(s)
  {
    SortedByOrderOfAscending(Renumbered(s));
  }

  // ---------------------------------------------------------------- bind_steps

  /** `_strip_html`: unescape entities, drop the tags, trim the ends. */
  function StripHtml(text: string, unescape: string -> string): (r: string)
    ensures r == [] || IsStrippedText(r)
  {
    Strip(StripTags(unescape(text)))
  }

  /** Text with nothing to unescape and no `<` is only trimmed. */
  lemma StripHtmlPlain(text: string, unescape: string -> string)
    requires unescape(text) == text
    requires forall i :: 0 <= i < |text| ==> text[i] != '<'
    ensures StripHtml(text, unescape) == Strip(text)
  {
    StripTagsPlain(text);
  }

  /** The alt text derived for slot `i`: the stripped text, or `Step i+1` when an image needs one. */
  function DerivedAlt(t: string, img: string, i: nat, unescape: string -> string): (alt: string)
    ensures StripHtml(t, unescape) != [] ==> alt == StripHtml(t, unescape)
    ensures StripHtml(t, unescape) == [] && img != [] ==> alt == "Step " + IntToString(i + 1)
    ensures StripHtml(t, unescape) == [] && img == [] ==> alt == []
  {
    OrElse(StripHtml(t, unescape), if img != [] then "Step " + IntToString(i + 1) else "")
  }

  /** Slot `i` of a ragged list, padded with the empty string. */
  function At(xs: seq<string>, i: nat): (r: string)
    ensures i < |xs| ==> r == xs[i]
    ensures i >= |xs| ==> r == []
  {
    if i < |xs| then xs[i] else ""
  }

  /**
   * The step slot `i` yields, or none when its text is whitespace only and it
   * has no image.
   */
  function Slot(texts: seq<string>, images: seq<string>, unescape: string -> string, i: nat): (r: Option<StepImage>)
    ensures r.None? <==> IsBlank(At(texts, i)) && At(images, i) == []
    ensures r.Some? ==> r.value.text == At(texts, i) && r.value.img == At(images, i) && r.value.order == i + 1
    ensures r.Some? ==> r.value.alt == DerivedAlt(At(texts, i), At(images, i), i, unescape)
  {
    var t := At(texts, i);
    var img := At(images, i);
    if IsBlank(t) && img == [] then None
    else Some(StepImage(img, DerivedAlt(t, img, i, unescape), t, i + 1))
  }

  /** `[f(0), ..., f(n - 1)]`. */
  function Tabulate<T>(f: nat -> T, n: nat): (r: seq<T>)
    ensures |r| == n
  {
    if n == 0 then [] else Tabulate(f, n - 1) + [f(n - 1)]
  }

  lemma {:induction false} TabulateAt<T>(f: nat -> T, n: nat, i: nat)
    requires i < n
    ensures Tabulate(f, n)[i] == f(i)
  {
    if i < n - 1 {
      TabulateAt(f, n - 1, i);
    }
  }

  /** The first `n` slots. */
  function SlotsUpTo(texts: seq<string>, images: seq<string>, unescape: string -> string, n: nat): (r: seq<Option<StepImage>>)
    ensures |r| == n
  {
    Tabulate(i => Slot(texts, images, unescape, i), n)
  }

  lemma SlotsUpToNext(texts: seq<string>, images: seq<string>, unescape: string -> string, n: nat)
    ensures SlotsUpTo(texts, images, unescape, n + 1)
      == SlotsUpTo(texts, images, unescape, n) + [Slot(texts, images, unescape, n)]
  {
  }

  /** The slots `bind_steps` walks: `max(len(texts), len(images))` of them. */
  function Slots(texts: seq<string>, images: seq<string>, unescape: string -> string): (r: seq<Option<StepImage>>)
    ensures |r| == if |texts| >= |images| then |texts| else |images|
  {
    SlotsUpTo(texts, images, unescape, if |texts| >= |images| then |texts| else |images|)
  }

  lemma SlotsAt(texts: seq<string>, images: seq<string>, unescape: string -> string, i: nat)
    requires i < |Slots(texts, images, unescape)|
    ensures Slots(texts, images, unescape)[i] == Slot(texts, images, unescape, i)
  {
    TabulateAt(i => Slot(texts, images, unescape, i), |Slots(texts, images, unescape)|, i);
  }

  /** The step a slot yields, as a list of at most one. */
  function Yield(slot: Option<StepImage>): (r: seq<StepImage>)
    ensures |r| <= 1
  {
    match slot
    case Some(st) => [st]
    case None => []
  }

  /** The steps the slots yield, in slot order. */
  function Kept(slots: seq<Option<StepImage>>): (r: seq<StepImage>)
    ensures |r| <= |slots|
  {
    if slots == [] then [] else Kept(slots[..|slots| - 1]) + Yield(slots[|slots| - 1])
  }

  lemma KeptSnoc(slots: seq<Option<StepImage>>, slot: Option<StepImage>)
    ensures Kept(slots + [slot]) == Kept(slots) + Yield(slot)
  {
    assert (slots + [slot])[..|slots|] == slots;
  }

  /** What `bind_steps` returns. */
  function Bind(texts: seq<string>, images: seq<string>, unescape: string -> string): seq<StepImage> {
    Kept(Slots(texts, images, unescape))
  }

  /**
   * `bind_steps`: walks `max(len(texts), len(images))` slots, skips the empty
   * ones and appends one step per other slot, built by the `StepImage`
   * constructor, which never refuses it.
   */
  method BindSteps(texts: seq<string>, images: seq<string>, unescape: string -> string)
    returns (steps: seq<StepImage>)
    ensures steps == Bind(texts, images, unescape)
  {
    var n := if |texts| >= |images| then |texts| else |images|;
    steps := [];
    var i := 0;
    while i < n
      invariant 0 <= i <= n
      invariant steps == Kept(SlotsUpTo(texts, images, unescape, i))
    {
      var slot := BindOne(texts, images, unescape, i);
      SlotsUpToNext(texts, images, unescape, i);
      KeptSnoc(SlotsUpTo(texts, images, unescape, i), slot);
      if slot.Some? {
        steps := steps + [slot.value];
      }
      i := i + 1;
    }
  }

  /**
   * One pass of the `bind_steps` loop: the padded text and image of slot
   * `i`, the derived alt, and the step the `StepImage` constructor builds,
   * unless the slot is empty.
   */
  method BindOne(texts: seq<string>, images: seq<string>, unescape: string -> string, i: nat)
    returns (slot: Option<StepImage>)
    ensures slot == Slot(texts, images, unescape, i)
  {
    var t := if i < |texts| then texts[i] else "";
    var img := if i < |images| then images[i] else "";
    var alt := DerivedAlt(t, img, i, unescape);
    if IsBlank(t) && img == [] {
      return None;
    }
    var made := NewStepImage(img, alt, t, i + 1);
    assert made.Success? by { SlotHasAlt(texts, images, unescape, i); }
    slot := Some(made.value);
  }

  /** A step with an image always gets a non-empty alt text. */
  lemma SlotHasAlt(texts: seq<string>, images: seq<string>, unescape: string -> string, i: nat)
    requires Slot(texts, images, unescape, i).Some?
    ensures HasAlt(Slot(texts, images, unescape, i).value)
  {
  }

  /** Every step a slot yields carries the order naming that slot. */
  predicate NumberedBySlot(slots: seq<Option<StepImage>>) {
    forall i :: 0 <= i < |slots| && slots[i].Some? ==> slots[i].value.order == i + 1
  }

  /** Each step kept is the step of the slot its order names. */
  lemma {:induction false} KeptFromSlots(slots: seq<Option<StepImage>>)
    requires NumberedBySlot(slots)
    ensures forall k :: 0 <= k < |Kept(slots)| ==>
      1 <= Kept(slots)[k].order <= |slots| && slots[Kept(slots)[k].order - 1] == Some(Kept(slots)[k])
  {
    if slots != [] {
      KeptFromSlots(slots[..|slots| - 1]);
    }
  }

  /** The orders of the steps kept strictly increase. */
  lemma {:induction false} KeptIncreasing(slots: seq<Option<StepImage>>)
    requires NumberedBySlot(slots)
    ensures forall k1, k2 :: 0 <= k1 < k2 < |Kept(slots)| ==> Kept(slots)[k1].order < Kept(slots)[k2].order
  {
    if slots != [] {
      var init := slots[..|slots| - 1];
      KeptIncreasing(init);
      KeptFromSlots(init);
    }
  }

  /** Every step a slot yields is kept. */
  lemma {:induction false} KeptComplete(slots: seq<Option<StepImage>>)
    ensures forall i :: 0 <= i < |slots| && slots[i].Some? ==> slots[i].value in Kept(slots)
  {
    if slots != [] {
      var init := slots[..|slots| - 1];
      KeptComplete(init);
      assert forall i :: 0 <= i < |init| ==> init[i] == slots[i];
    }
  }

  /** Every step `bind_steps` returns is the step of the slot its order names, and has an alt. */
  lemma BindFromSlots(texts: seq<string>, images: seq<string>, unescape: string -> string)
    ensures forall k :: 0 <= k < |Bind(texts, images, unescape)| ==>
      var st := Bind(texts, images, unescape)[k];
      1 <= st.order <= |Slots(texts, images, unescape)|
      && Slot(texts, images, unescape, st.order - 1) == Some(st) && HasAlt(st)
  {
    SlotsNumbered(texts, images, unescape);
    KeptFromSlots(Slots(texts, images, unescape));
    forall k | 0 <= k < |Bind(texts, images, unescape)| {
      BoundFromSlot(texts, images, unescape, k);
    }
  }

  lemma BoundFromSlot(texts: seq<string>, images: seq<string>, unescape: string -> string, k: nat)
    requires k < |Bind(texts, images, unescape)|
    requires var st := Bind(texts, images, unescape)[k];
      1 <= st.order <= |Slots(texts, images, unescape)| && Slots(texts, images, unescape)[st.order - 1] == Some(st)
    ensures var st := Bind(texts, images, unescape)[k];
      Slot(texts, images, unescape, st.order - 1) == Some(st) && HasAlt(st)
  {
    var st := Bind(texts, images, unescape)[k];
    SlotsAt(texts, images, unescape, st.order - 1);
    SlotHasAlt(texts, images, unescape, st.order - 1);
  }

  /** The slots are numbered by their index. */
  lemma SlotsNumbered(texts: seq<string>, images: seq<string>, unescape: string -> string)
    ensures NumberedBySlot(Slots(texts, images, unescape))
  {
    var slots := Slots(texts, images, unescape);
    forall i | 0 <= i < |slots| && slots[i].Some?
      ensures slots[i].value.order == i + 1
    {
      SlotsAt(texts, images, unescape, i);
    }
  }

  /** The orders of the steps `bind_steps` returns strictly increase. */
  lemma BindIncreasing(texts: seq<string>, images: seq<string>, unescape: string -> string)
    ensures forall k1, k2 :: 0 <= k1 < k2 < |Bind(texts, images, unescape)| ==>
      Bind(texts, images, unescape)[k1].order < Bind(texts, images, unescape)[k2].order
  {
    SlotsNumbered(texts, images, unescape);
    KeptIncreasing(Slots(texts, images, unescape));
  }

  /** Every slot that is not skipped contributes its step. */
  lemma BindComplete(texts: seq<string>, images: seq<string>, unescape: string -> string)
    ensures forall i :: 0 <= i < |Slots(texts, images, unescape)| && !(IsBlank(At(texts, i)) && At(images, i) == []) ==>
      Slot(texts, images, unescape, i).value in Bind(texts, images, unescape)
  {
    var slots := Slots(texts, images, unescape);
    KeptComplete(slots);
    forall i | 0 <= i < |slots| && !(IsBlank(At(texts, i)) && At(images, i) == [])
      ensures Slot(texts, images, unescape, i).value in Kept(slots)
    {
      SlotsAt(texts, images, unescape, i);
    }
  }

  /**
   * `bind_steps` keeps exactly the non-empty slots, in their order, each
   * with `order = slot index + 1` (no dense renumbering), and every step it
   * returns satisfies the alt-text rule.
   */
  lemma BindSlots(texts: seq<string>, images: seq<string>, unescape: string -> string)
    ensures forall k :: 0 <= k < |Bind(texts, images, unescape)| ==>
      var st := Bind(texts, images, unescape)[k];
      1 <= st.order <= |Slots(texts, images, unescape)|
      && Slot(texts, images, unescape, st.order - 1) == Some(st) && HasAlt(st)
    ensures forall k1, k2 :: 0 <= k1 < k2 < |Bind(texts, images, unescape)| ==>
      Bind(texts, images, unescape)[k1].order < Bind(texts, images, unescape)[k2].order
    ensures forall i :: 0 <= i < |Slots(texts, images, unescape)| && !(IsBlank(At(texts, i)) && At(images, i) == []) ==>
      Slot(texts, images, unescape, i).value in Bind(texts, images, unescape)
  {
    BindFromSlots(texts, images, unescape);
    BindIncreasing(texts, images, unescape);
    BindComplete(texts, images, unescape);
  }
}
