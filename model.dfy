/**
 * The record layer of the template builder: the hero section, a step with
 * its image, and a gallery row of at most three images. Each record is a
 * value; the checks Python runs in `__post_init__` are factory functions
 * that return the record or the `ValueError` the constructor raises.
 */
module Model {
  import opened Wrappers
  import opened PyStrings
  import opened HtmlText

  // ---------------------------------------------------------------- Hero

  datatype Hero = Hero(title: string, img: string, intro: string, alt: string)

  /** `Hero.to_dict`: the four template keys and nothing else. */
  function HeroToDict(h: Hero): (m: map<string, string>)
    ensures m.Keys == {"TITLE", "HERO_IMAGE_SRC", "HERO_IMAGE_ALT", "INTRO"}
  {
    map["TITLE" := h.title, "HERO_IMAGE_SRC" := h.img, "HERO_IMAGE_ALT" := h.alt, "INTRO" := h.intro]
  }

  /** Reads a hero back from the dictionary `HeroToDict` produces. */
  function HeroFromDict(m: map<string, string>): Hero
    requires "TITLE" in m && "HERO_IMAGE_SRC" in m && "HERO_IMAGE_ALT" in m && "INTRO" in m
  {
    Hero(m["TITLE"], m["HERO_IMAGE_SRC"], m["INTRO"], m["HERO_IMAGE_ALT"])
  }

  /** Every field of the hero lands under its own key: the dictionary determines the hero. */
  lemma HeroDictRoundTrip(h: Hero)
    ensures HeroFromDict(HeroToDict(h)) == h
  {
  }

  /** Python's `x or default` on strings. */
  function OrElse(x: string, default: string): (r: string)
    ensures r == (if x == [] then default else x)
  {
    if x != [] then x else default
  }

  /** An element `<name>text</name>` around escaped text. */
  function Element(name: string, text: string): string {
    "<" + name + ">" + Escape(text) + "</" + name + ">"
  }

  /** An image tag with escaped source and alt attributes. */
  function ImgTag(src: string, alt: string): string {
    "<img src=\"" + Escape(src) + "\" alt=\"" + Escape(alt) + "\">"
  }

  /** The hero fragment around the four values shown, each escaped. */
  function HeroFragment(title: string, intro: string, src: string, alt: string): string {
    Element("h1", title) + ("\n" + (Element("p", intro) + ("\n" + ImgTag(src, alt))))
  }

  /** `Hero.fallback_html`: a heading, a paragraph and an image, empty fields shown as their placeholders. */
  function HeroFallbackHtml(h: Hero): string {
    HeroFragment(OrElse(h.title, "{{ TITLE }}"), OrElse(h.intro, "{{ INTRO }}"),
                 OrElse(h.img, "{{ HERO_IMAGE_SRC }}"), OrElse(h.alt, "{{ HERO_IMAGE_ALT }}"))
  }

  lemma EscapedHasNoTagOpen(s: string)
    ensures CountChar('<', Escape(s)) == 0
  {
    CountCharAbsent('<', Escape(s));
  }

  /** Whatever the text, an element opens exactly two tags. */
  lemma ElementTagCount(name: string, text: string)
    requires CountChar('<', name) == 0
    ensures CountChar('<', Element(name, text)) == 2
  {
    EscapedHasNoTagOpen(text);
    CountCharAppend('<', "<", name);
    CountCharAppend('<', "<" + name, ">");
    CountCharAppend('<', "<" + name + ">", Escape(text));
    CountCharAppend('<', "<" + name + ">" + Escape(text), "</");
    CountCharAppend('<', "<" + name + ">" + Escape(text) + "</", name);
    CountCharAppend('<', "<" + name + ">" + Escape(text) + "</" + name, ">");
    assert CountChar('<', "<") == 1;
    assert CountChar('<', ">") == 0;
    assert CountChar('<', "</") == 1;
  }

  /** Whatever the attributes, an image tag opens exactly one tag. */
  lemma ImgTagOneTag(src: string, alt: string)
    ensures CountChar('<', ImgTag(src, alt)) == 1
  {
    var s := Escape(src);
    var a := Escape(alt);
    EscapedHasNoTagOpen(src);
    EscapedHasNoTagOpen(alt);
    CountCharAppend('<', "<img src=\"", s);
    CountCharAppend('<', "<img src=\"" + s, "\" alt=\"");
    CountCharAppend('<', "<img src=\"" + s + "\" alt=\"", a);
    CountCharAppend('<', "<img src=\"" + s + "\" alt=\"" + a, "\">");
    assert CountChar('<', "<img src=\"") == 1;
    assert CountChar('<', "\" alt=\"") == 0;
    assert CountChar('<', "\">") == 0;
  }

  /** Escaping keeps every value from adding a tag: the fragment opens exactly five. */
  lemma HeroFragmentTagCount(t: string, i: string, src: string, alt: string)
    ensures CountChar('<', HeroFragment(t, i, src, alt)) == 5
  {
    var heading := Element("h1", t);
    var para := Element("p", i);
    var img := ImgTag(src, alt);
    assert CountChar('<', "h1") == 0;
    assert CountChar('<', "p") == 0;
    assert CountChar('<', "\n") == 0;
    ElementTagCount("h1", t);
    ElementTagCount("p", i);
    ImgTagOneTag(src, alt);
    CountCharAppend('<', "\n", img);
    CountCharAppend('<', para, "\n" + img);
    CountCharAppend('<', "\n", para + ("\n" + img));
    CountCharAppend('<', heading, "\n" + (para + ("\n" + img)));
  }

  /** The hero's markup is fixed whatever its fields hold: it opens exactly five tags. */
  lemma HeroFallbackTagCount(h: Hero)
    ensures CountChar('<', HeroFallbackHtml(h)) == 5
  {
    HeroFragmentTagCount(OrElse(h.title, "{{ TITLE }}"), OrElse(h.intro, "{{ INTRO }}"),
                         OrElse(h.img, "{{ HERO_IMAGE_SRC }}"), OrElse(h.alt, "{{ HERO_IMAGE_ALT }}"));
  }

  /** The escaped text sits right after the opening tag. */
  lemma ElementShowsText(name: string, text: string)
    ensures OccursAt(Element(name, text), Escape(text), |name| + 2)
  {
    OccursAtEnd("<" + name + ">", Escape(text));
    OccursAtExtend("<" + name + ">" + Escape(text), Escape(text), |name| + 2, "</");
    OccursAtExtend("<" + name + ">" + Escape(text) + "</", Escape(text), |name| + 2, name);
    OccursAtExtend("<" + name + ">" + Escape(text) + "</" + name, Escape(text), |name| + 2, ">");
  }

  /** Both escaped attributes appear in the image tag, the source at index 10. */
  lemma ImgTagShowsAttributes(src: string, alt: string)
    ensures OccursAt(ImgTag(src, alt), Escape(src), 10)
    ensures OccursAt(ImgTag(src, alt), Escape(alt), 17 + |Escape(src)|)
  {
    var s := Escape(src);
    var a := Escape(alt);
    OccursAtEnd("<img src=\"", s);
    OccursAtExtend("<img src=\"" + s, s, 10, "\" alt=\"");
    OccursAtExtend("<img src=\"" + s + "\" alt=\"", s, 10, a);
    OccursAtExtend("<img src=\"" + s + "\" alt=\"" + a, s, 10, "\">");
    OccursAtEnd("<img src=\"" + s + "\" alt=\"", a);
    OccursAtExtend("<img src=\"" + s + "\" alt=\"" + a, a, 17 + |s|, "\">");
  }

  /** Each of the four values appears escaped in the fragment, in the order title, intro, source, alt. */
  lemma HeroFragmentShowsValues(t: string, i: string, src: string, alt: string)
    ensures OccursAt(HeroFragment(t, i, src, alt), Escape(t), 4)
    ensures OccursAt(HeroFragment(t, i, src, alt), Escape(i), |Element("h1", t)| + 4)
    ensures OccursAt(HeroFragment(t, i, src, alt), Escape(src), |Element("h1", t)| + |Element("p", i)| + 12)
    ensures OccursAt(HeroFragment(t, i, src, alt), Escape(alt),
                     |Element("h1", t)| + |Element("p", i)| + 19 + |Escape(src)|)
  {
    ElementShowsText("h1", t);
    ElementShowsText("p", i);
    ImgTagShowsAttributes(src, alt);
    ThreeLinesShow(Element("h1", t), Element("p", i), ImgTag(src, alt),
                   Escape(t), Escape(i), Escape(src), Escape(alt), 17 + |Escape(src)|);
  }

  /** Occurrences inside three pieces, found again once the pieces are joined by newlines. */
  lemma ThreeLinesShow(a: string, b: string, c: string, x: string, y: string, z: string, w: string, pw: nat)
    requires OccursAt(a, x, 4) && OccursAt(b, y, 3) && OccursAt(c, z, 10) && OccursAt(c, w, pw)
    ensures OccursAt(a + ("\n" + (b + ("\n" + c))), x, 4)
    ensures OccursAt(a + ("\n" + (b + ("\n" + c))), y, |a| + 4)
    ensures OccursAt(a + ("\n" + (b + ("\n" + c))), z, |a| + |b| + 12)
    ensures OccursAt(a + ("\n" + (b + ("\n" + c))), w, |a| + |b| + 2 + pw)
  {
    OccursAtExtend(a, x, 4, "\n" + (b + ("\n" + c)));
    InSecondLine(a, b, c, y, 3);
    InThirdLine(a, b, c, z, 10);
    InThirdLine(a, b, c, w, pw);
  }

  lemma InSecondLine(a: string, b: string, c: string, y: string, p: nat)
    requires OccursAt(b, y, p)
    ensures OccursAt(a + ("\n" + (b + ("\n" + c))), y, |a| + 1 + p)
  {
    OccursAtExtend(b, y, p, "\n" + c);
    OccursAtShift("\n", b + ("\n" + c), y, p);
    OccursAtShift(a, "\n" + (b + ("\n" + c)), y, p + 1);
  }

  lemma InThirdLine(a: string, b: string, c: string, z: string, p: nat)
    requires OccursAt(c, z, p)
    ensures OccursAt(a + ("\n" + (b + ("\n" + c))), z, |a| + |b| + 2 + p)
  {
    OccursAtShift("\n", c, z, p);
    OccursAtShift(b, "\n" + c, z, p + 1);
    OccursAtShift("\n", b + ("\n" + c), z, |b| + p + 1);
    OccursAtShift(a, "\n" + (b + ("\n" + c)), z, |b| + p + 2);
  }

  /**
   * A field left empty is shown as its placeholder, which escaping leaves
   * intact when it holds no special character, as each `{{ NAME }}` of the
   * hero does (`HeroPlaceholdersPlain`); so a later template pass can still fill it.
   */
  lemma PlaceholderShown(x: string, placeholder: string)
    requires NoSpecialChars(placeholder)
    ensures x == [] ==> Escape(OrElse(x, placeholder)) == placeholder
    ensures x != [] ==> Escape(OrElse(x, placeholder)) == Escape(x)
  {
    if x == [] {
      EscapePlain(placeholder);
    }
  }

  /** The four hero placeholders are plain text to `Escape`. */
  lemma HeroPlaceholdersPlain()
    ensures NoSpecialChars("{{ TITLE }}") && NoSpecialChars("{{ INTRO }}")
    ensures NoSpecialChars("{{ HERO_IMAGE_SRC }}") && NoSpecialChars("{{ HERO_IMAGE_ALT }}")
  {
  }

  // ---------------------------------------------------------------- StepImage

  /** One step: an image reference, its alt text, the step text and its 1-based position. */
  datatype StepImage = StepImage(img: string, alt: string, text: string, order: int)

  /** The accessibility rule: an image needs a non-empty alt text. */
  predicate HasAlt(s: StepImage) {
    s.img != [] ==> s.alt != []
  }

  /** `StepImage(...)`: fails with `ValueError` exactly when an image comes without alt text. */
  function NewStepImage(img: string, alt: string, text: string, order: int): (r: Result<StepImage, PyError>)
    ensures r.Failure? <==> img != [] && alt == []
    ensures r.Failure? ==> r.error == ValueError("Alt text is required if image is provided")
    ensures r.Success? ==> r.value == StepImage(img, alt, text, order) && HasAlt(r.value)
  {
    if img != [] && alt == [] then Failure(ValueError("Alt text is required if image is provided"))
    else Success(StepImage(img, alt, text, order))
  }

  // ---------------------------------------------------------------- sorting by order

  /** Non-decreasing by `order`. */
  predicate Ascending(s: seq<StepImage>) {
    forall i, j :: 0 <= i < j < |s| ==> s[i].order <= s[j].order
  }

  /** Inserts `x` after every element whose order is not larger: this keeps the sort stable. */
  function InsertByOrder(t: seq<StepImage>, x: StepImage): (r: seq<StepImage>)
    ensures |r| == |t| + 1
  {
    if t == [] then [x]
    else if t[|t| - 1].order <= x.order then t + [x]
    else
      assert t == t[..|t| - 1] + [t[|t| - 1]];
      InsertByOrder(t[..|t| - 1], x) + [t[|t| - 1]]
  }

  /** `sorted(s, key=lambda si: si.order)`: Python's stable sort by order. */
  function SortedByOrder(s: seq<StepImage>): (r: seq<StepImage>)
    ensures |r| == |s|
  {
    if s == [] then []
    else
      assert s == s[..|s| - 1] + [s[|s| - 1]];
      InsertByOrder(SortedByOrder(s[..|s| - 1]), s[|s| - 1])
  }

  /** Insertion adds `x` and loses nothing. */
  lemma {:induction false} InsertByOrderPermutes(t: seq<StepImage>, x: StepImage)
    ensures multiset(InsertByOrder(t, x)) == multiset(t) + multiset{x}
  {
    if t != [] && t[|t| - 1].order > x.order {
      var init := t[..|t| - 1];
      assert t == init + [t[|t| - 1]];
      InsertByOrderPermutes(init, x);
    }
  }

  /** The sort is a permutation of its input. */
  lemma {:induction false} SortedByOrderPermutes(s: seq<StepImage>)
    ensures multiset(SortedByOrder(s)) == multiset(s)
  {
    if s != [] {
      var init := s[..|s| - 1];
      assert s == init + [s[|s| - 1]];
      SortedByOrderPermutes(init);
      InsertByOrderPermutes(SortedByOrder(init), s[|s| - 1]);
    }
  }

  lemma {:induction false} InsertByOrderAscending(t: seq<StepImage>, x: StepImage)
    requires Ascending(t)
    ensures Ascending(InsertByOrder(t, x))
  {
    if t != [] && t[|t| - 1].order > x.order {
      var init := t[..|t| - 1];
      var last := t[|t| - 1];
      InsertByOrderAscending(init, x);
      InsertByOrderPermutes(init, x);
      var r := InsertByOrder(init, x);
      forall k | 0 <= k < |r|
        ensures r[k].order <= last.order
      {
        assert r[k] in multiset(r);
        assert r[k] in multiset(init) || r[k] == x;
        if r[k] in multiset(init) {
          var m :| 0 <= m < |init| && init[m] == r[k];
          assert t[m] == r[k];
        }
      }
    }
  }

  /** The stable sort yields a non-decreasing sequence. */
  lemma {:induction false} SortedByOrderAscending(s: seq<StepImage>)
    ensures Ascending(SortedByOrder(s))
  {
    if s != [] {
      SortedByOrderAscending(s[..|s| - 1]);
      InsertByOrderAscending(SortedByOrder(s[..|s| - 1]), s[|s| - 1]);
    }
  }

  /** The elements of `s` whose order is `k`, in their order in `s`. */
  function WithOrder(s: seq<StepImage>, k: int): (r: seq<StepImage>)
    ensures |r| <= |s|
  {
    if s == [] then []
    else (if s[0].order == k then [s[0]] else []) + WithOrder(s[1..], k)
  }

  lemma {:induction false} WithOrderAppend(a: seq<StepImage>, b: seq<StepImage>, k: int)
    ensures WithOrder(a + b, k) == WithOrder(a, k) + WithOrder(b, k)
  {
    if a == [] {
      assert a + b == b;
    } else {
      var h := if a[0].order == k then [a[0]] else [];
      assert (a + b)[0] == a[0];
      assert (a + b)[1..] == a[1..] + b;
      WithOrderAppend(a[1..], b, k);
      calc {
        WithOrder(a + b, k);
        h + WithOrder(a[1..] + b, k);
        h + (WithOrder(a[1..], k) + WithOrder(b, k));
        (h + WithOrder(a[1..], k)) + WithOrder(b, k);
      }
    }
  }

  lemma {:induction false} InsertByOrderStable(t: seq<StepImage>, x: StepImage, k: int)
    ensures WithOrder(InsertByOrder(t, x), k) == WithOrder(t, k) + (if x.order == k then [x] else [])
  {
    if t == [] {
      assert WithOrder([x], k) == (if x.order == k then [x] else []) + WithOrder([], k);
    } else if t[|t| - 1].order <= x.order {
      WithOrderAppend(t, [x], k);
      assert WithOrder([x], k) == (if x.order == k then [x] else []) + WithOrder([], k);
    } else {
      var init := t[..|t| - 1];
      var last := t[|t| - 1];
      assert t == init + [last];
      InsertByOrderStable(init, x, k);
      WithOrderAppend(InsertByOrder(init, x), [last], k);
      WithOrderAppend(init, [last], k);
      assert WithOrder([last], k) == (if last.order == k then [last] else []) + WithOrder([], k);
    }
  }

  /**
   * The sort is stable: the elements sharing any one order value keep their
   * relative order, so together with `SortedByOrderAscending` and
   * `AscendingUnique` this pins the result down.
   */
  lemma {:induction false} SortedByOrderStable(s: seq<StepImage>, k: int)
    ensures WithOrder(SortedByOrder(s), k) == WithOrder(s, k)
  {
    if s != [] {
      var init := s[..|s| - 1];
      var last := s[|s| - 1];
      assert s == init + [last];
      var x := if last.order == k then [last] else [];
      SortedByOrderStable(init, k);
      InsertByOrderStable(SortedByOrder(init), last, k);
      WithOrderAppend(init, [last], k);
      assert WithOrder([last], k) == x + WithOrder([], k);
      calc {
        WithOrder(SortedByOrder(s), k);
        WithOrder(InsertByOrder(SortedByOrder(init), last), k);
        WithOrder(SortedByOrder(init), k) + x;
        WithOrder(init, k) + x;
        WithOrder(init + [last], k);
      }
    }
  }

  lemma {:induction false} WithOrderNonEmpty(s: seq<StepImage>, k: int)
    requires WithOrder(s, k) != []
    ensures exists i :: 0 <= i < |s| && s[i].order == k
  {
    if s[0].order != k {
      WithOrderNonEmpty(s[1..], k);
      var i :| 0 <= i < |s[1..]| && s[1..][i].order == k;
      assert s[i + 1].order == k;
    }
  }

  /**
   * A non-decreasing sequence is determined by its per-order subsequences:
   * two of them that agree on every `WithOrder` are equal.
   */
  lemma {:induction false} AscendingUnique(a: seq<StepImage>, b: seq<StepImage>)
    requires Ascending(a) && Ascending(b)
    requires forall k :: WithOrder(a, k) == WithOrder(b, k)
    ensures a == b
    decreases |a|
  {
    if a == [] {
    } else {
      assert WithOrder(b, a[0].order) != [];
      var m := a[0].order;
      var n := b[0].order;
      assert WithOrder(a, m) != [];
      WithOrderNonEmpty(b, m);
      var j :| 0 <= j < |b| && b[j].order == m;
      assert n <= m by { if j > 0 { assert b[0].order <= b[j].order; } }
      assert WithOrder(b, n) != [];
      WithOrderNonEmpty(a, n);
      var i :| 0 <= i < |a| && a[i].order == n;
      assert m <= n by { if i > 0 { assert a[0].order <= a[i].order; } }
      assert WithOrder(a, m)[0] == a[0];
      assert WithOrder(b, m)[0] == b[0];
      assert a[0] == b[0];
      forall k
        ensures WithOrder(a[1..], k) == WithOrder(b[1..], k)
      {
        var h := if a[0].order == k then [a[0]] else [];
        assert WithOrder(a, k) == h + WithOrder(a[1..], k);
        assert WithOrder(b, k) == h + WithOrder(b[1..], k);
        assert WithOrder(a[1..], k) == (h + WithOrder(a[1..], k))[|h|..];
        assert WithOrder(b[1..], k) == (h + WithOrder(b[1..], k))[|h|..];
      }
      AscendingUnique(a[1..], b[1..]);
      assert a == [a[0]] + a[1..];
      assert b == [b[0]] + b[1..];
    }
  }

  // ---------------------------------------------------------------- GalleryRow

  datatype GalleryRow = GalleryRow(images: seq<StepImage>)

  /** No two images share an order value (`len(orders) == len(set(orders))`). */
  predicate DistinctOrders(s: seq<StepImage>) {
    forall i, j :: 0 <= i < j < |s| ==> s[i].order != s[j].order
  }

  /**
   * `GalleryRow(images)`: more than three images fail first; a repeated
   * order value fails next.
   */
  function NewGalleryRow(images: seq<StepImage>): (r: Result<GalleryRow, PyError>)
    ensures |images| > 3 ==> r == Failure(ValueError("GalleryRow can have at most 3 images"))
    ensures |images| <= 3 && !DistinctOrders(images) ==>
      r == Failure(ValueError("StepImage order must be unique within a GalleryRow"))
    ensures r.Success? <==> |images| <= 3 && DistinctOrders(images)
    ensures r.Success? ==> r.value.images == images
  {
    if |images| > 3 then Failure(ValueError("GalleryRow can have at most 3 images"))
    else if !DistinctOrders(images) then Failure(ValueError("StepImage order must be unique within a GalleryRow"))
    else Success(GalleryRow(images))
  }

  /** `[[si.img, si.alt] for si in s]`. */
  function ImgAltPairs(s: seq<StepImage>): (r: seq<seq<string>>)
    ensures |r| == |s|
    ensures forall i :: 0 <= i < |s| ==> r[i] == [s[i].img, s[i].alt]
  {
    seq(|s|, i requires 0 <= i < |s| => [s[i].img, s[i].alt])
  }

  /** `GalleryRow.to_jinja_ctx`: one `IMAGES_DESC` key listing `[img, alt]` per image. */
  function ToJinjaCtx(row: GalleryRow): (ctx: map<string, seq<seq<string>>>)
    ensures ctx.Keys == {"IMAGES_DESC"}
    ensures |ctx["IMAGES_DESC"]| == |row.images|
  {
    map["IMAGES_DESC" := ImgAltPairs(SortedByOrder(row.images))]
  }

  /** The context lists the row's own images, ascending by order. */
  lemma ToJinjaCtxAscending(row: GalleryRow)
    ensures exists s :: (Ascending(s) && multiset(s) == multiset(row.images)
                         && ToJinjaCtx(row)["IMAGES_DESC"] == ImgAltPairs(s))
  {
    SortedByOrderAscending(row.images);
    SortedByOrderPermutes(row.images);
    var s := SortedByOrder(row.images);
    assert Ascending(s) && multiset(s) == multiset(row.images);
  }

  lemma {:induction false} WithOrderMultiset(s: seq<StepImage>, k: int, x: StepImage)
    ensures multiset(WithOrder(s, k))[x] == if x.order == k then multiset(s)[x] else 0
  {
    if s != [] {
      WithOrderMultiset(s[1..], k, x);
      assert s == [s[0]] + s[1..];
      assert multiset(s) == multiset([s[0]]) + multiset(s[1..]);
    }
  }

  lemma {:induction false} WithOrderNone(s: seq<StepImage>, k: int)
    requires forall i :: 0 <= i < |s| ==> s[i].order != k
    ensures WithOrder(s, k) == []
  {
    if s != [] {
      WithOrderNone(s[1..], k);
    }
  }

  lemma {:induction false} WithOrderDistinct(s: seq<StepImage>, k: int)
    requires DistinctOrders(s)
    ensures |WithOrder(s, k)| <= 1
  {
    if s != [] {
      if s[0].order == k {
        forall i | 0 <= i < |s[1..]|
          ensures s[1..][i].order != k
        {
          assert s[0].order != s[i + 1].order;
        }
        WithOrderNone(s[1..], k);
      } else {
        WithOrderDistinct(s[1..], k);
      }
    }
  }

  lemma ShortSeqMultiset(a: seq<StepImage>, b: seq<StepImage>)
    requires |a| <= 1 && |b| <= 1 && multiset(a) == multiset(b)
    ensures a == b
  {
    assert |a| == |multiset(a)| == |multiset(b)| == |b|;
    if a != [] {
      assert a[0] in multiset(b);
    }
  }

  /** With distinct orders, the images of one order value are fixed by the multiset alone. */
  lemma SameImagesSameGroup(p: seq<StepImage>, q: seq<StepImage>, k: int)
    requires DistinctOrders(p) && DistinctOrders(q) && multiset(p) == multiset(q)
    ensures WithOrder(p, k) == WithOrder(q, k)
  {
    WithOrderDistinct(p, k);
    WithOrderDistinct(q, k);
    forall x
      ensures multiset(WithOrder(p, k))[x] == multiset(WithOrder(q, k))[x]
    {
      WithOrderMultiset(p, k, x);
      WithOrderMultiset(q, k, x);
    }
    assert multiset(WithOrder(p, k)) == multiset(WithOrder(q, k));
    ShortSeqMultiset(WithOrder(p, k), WithOrder(q, k));
  }

  /**
   * A row's context does not depend on the order its images were given in:
   * two valid rows holding the same images give the same context.
   */
  lemma ToJinjaCtxOrderIndependent(p: seq<StepImage>, q: seq<StepImage>)
    requires NewGalleryRow(p).Success? && NewGalleryRow(q).Success?
    requires multiset(p) == multiset(q)
    ensures ToJinjaCtx(GalleryRow(p)) == ToJinjaCtx(GalleryRow(q))
  {
    var sp := SortedByOrder(p);
    var sq := SortedByOrder(q);
    forall k
      ensures WithOrder(sp, k) == WithOrder(sq, k)
    {
      SortedByOrderStable(p, k);
      SortedByOrderStable(q, k);
      SameImagesSameGroup(p, q, k);
    }
    SortedByOrderAscending(p);
    SortedByOrderAscending(q);
    AscendingUnique(sp, sq);
  }

  /** One gallery image tag, with placeholders for an empty source or alt. */
  function GalleryImgTag(si: StepImage): string {
    ImgTag(OrElse(si.img, "{{ IMG_SRC }}"), OrElse(si.alt, "{{ IMG_ALT }}"))
  }

  function GalleryImgTags(s: seq<StepImage>): (r: seq<string>)
    ensures |r| == |s|
  {
    seq(|s|, i requires 0 <= i < |s| => GalleryImgTag(s[i]))
  }

  /** `GalleryRow.fallback_html`: the image tags in ascending order, one per line. */
  function GalleryFallbackHtml(row: GalleryRow): string {
    Join("\n", GalleryImgTags(SortedByOrder(row.images)))
  }

  lemma {:induction false} JoinLinesTagCount(xs: seq<string>)
    requires forall i :: 0 <= i < |xs| ==> CountChar('<', xs[i]) == 1
    ensures CountChar('<', Join("\n", xs)) == |xs|
  {
    if |xs| > 1 {
      JoinLinesTagCount(xs[1..]);
      CountCharAppend('<', xs[0], "\n");
      CountCharAppend('<', xs[0] + "\n", Join("\n", xs[1..]));
      assert CountChar('<', "\n") == 0;
    }
  }

  /** The gallery fragment holds exactly one tag per image of the row. */
  lemma GalleryFallbackTagCount(row: GalleryRow)
    ensures CountChar('<', GalleryFallbackHtml(row)) == |row.images|
  {
    var tags := GalleryImgTags(SortedByOrder(row.images));
    forall i | 0 <= i < |tags|
      ensures CountChar('<', tags[i]) == 1
    {
      var si := SortedByOrder(row.images)[i];
      ImgTagOneTag(OrElse(si.img, "{{ IMG_SRC }}"), OrElse(si.alt, "{{ IMG_ALT }}"));
    }
    JoinLinesTagCount(tags);
  }

  /** No line break in `s`. */
  predicate OneLine(s: string) {
    forall i :: 0 <= i < |s| ==> s[i] != '\n'
  }

  lemma {:induction false} EscapeOneLine(s: string)
    requires OneLine(s)
    ensures OneLine(Escape(s))
  {
    if s != [] {
      EscapeOneLine(s[1..]);
      assert OneLine(EscapeChar(s[0]));
    }
  }

  /**
   * One gallery tag shows the escaped source, or `{{ IMG_SRC }}` when it is
   * empty, at index 10, and the escaped alt, or `{{ IMG_ALT }}`, right after
   * it; it opens one tag, and it is one line when the image's values are.
   */
  lemma GalleryImgTagShows(si: StepImage)
    ensures var src := Escape(OrElse(si.img, "{{ IMG_SRC }}"));
      && OccursAt(GalleryImgTag(si), "<img src=\"", 0)
      && OccursAt(GalleryImgTag(si), src, 10)
      && OccursAt(GalleryImgTag(si), Escape(OrElse(si.alt, "{{ IMG_ALT }}")), 17 + |src|)
      && CountChar('<', GalleryImgTag(si)) == 1
    ensures OneLine(si.img) && OneLine(si.alt) ==> OneLine(GalleryImgTag(si))
  {
    var src := OrElse(si.img, "{{ IMG_SRC }}");
    var alt := OrElse(si.alt, "{{ IMG_ALT }}");
    assert GalleryImgTag(si) == ImgTag(src, alt);
    ImgTagOpens(src, alt);
    ImgTagShowsAttributes(src, alt);
    ImgTagOneTag(src, alt);
    if OneLine(si.img) && OneLine(si.alt) {
      PlaceholdersOneLine();
      ImgTagOneLine(src, alt);
    }
  }

  lemma PlaceholdersOneLine()
    ensures OneLine("{{ IMG_SRC }}") && OneLine("{{ IMG_ALT }}")
  {
  }

  lemma ImgTagOpens(src: string, alt: string)
    ensures OccursAt(ImgTag(src, alt), "<img src=\"", 0)
  {
    var a := "<img src=\"";
    var rest := Escape(src) + "\" alt=\"" + Escape(alt) + "\">";
    assert ImgTag(src, alt) == a + rest;
    assert (a + rest)[..10] == a;
  }

  lemma OneLineAppend(a: string, b: string)
    requires OneLine(a) && OneLine(b)
    ensures OneLine(a + b)
  {
    forall i | 0 <= i < |a + b|
      ensures (a + b)[i] != '\n'
    {
      if i >= |a| {
        assert (a + b)[i] == b[i - |a|];
      }
    }
  }

  lemma ImgTagOneLine(src: string, alt: string)
    requires OneLine(src) && OneLine(alt)
    ensures OneLine(ImgTag(src, alt))
  {
    EscapeOneLine(src);
    EscapeOneLine(alt);
    var a := "<img src=\"";
    var b := "\" alt=\"";
    var c := "\">";
    assert OneLine(a) && OneLine(b) && OneLine(c);
    OneLineAppend(a, Escape(src));
    OneLineAppend(a + Escape(src), b);
    OneLineAppend(a + Escape(src) + b, Escape(alt));
    OneLineAppend(a + Escape(src) + b + Escape(alt), c);
  }

  /**
   * `GalleryRow.fallback_html`: an empty row gives the empty string; for
   * images whose values hold no line break, the fragment splits back into
   * one line per image, following the images in ascending `order` (a
   * permutation of the row), line `k` showing image `k`'s escaped source and
   * alt, or their placeholders when empty.
   */
  lemma GalleryFallbackShowsImages(row: GalleryRow)
    ensures row.images == [] ==> GalleryFallbackHtml(row) == []
    ensures row.images != [] && (forall si :: si in row.images ==> OneLine(si.img) && OneLine(si.alt)) ==>
      var s := SortedByOrder(row.images);
      var lines := SplitOn(GalleryFallbackHtml(row), '\n');
      && Ascending(s) && multiset(s) == multiset(row.images)
      && |lines| == |row.images|
      && forall k :: 0 <= k < |lines| ==>
        var src := Escape(OrElse(s[k].img, "{{ IMG_SRC }}"));
        && OccursAt(lines[k], "<img src=\"", 0)
        && OccursAt(lines[k], src, 10)
        && OccursAt(lines[k], Escape(OrElse(s[k].alt, "{{ IMG_ALT }}")), 17 + |src|)
        && CountChar('<', lines[k]) == 1
  {
    var s := SortedByOrder(row.images);
    SortedByOrderAscending(row.images);
    SortedByOrderPermutes(row.images);
    if row.images != [] && (forall si :: si in row.images ==> OneLine(si.img) && OneLine(si.alt)) {
      var tags := GalleryImgTags(s);
      forall k | 0 <= k < |tags|
        ensures OneLine(tags[k])
      {
        assert s[k] in multiset(row.images);
        GalleryImgTagShows(s[k]);
      }
      SplitJoinRoundTrip(tags, '\n');
      forall k | 0 <= k < |tags|
        ensures var src := Escape(OrElse(s[k].img, "{{ IMG_SRC }}"));
          && OccursAt(tags[k], "<img src=\"", 0)
          && OccursAt(tags[k], src, 10)
          && OccursAt(tags[k], Escape(OrElse(s[k].alt, "{{ IMG_ALT }}")), 17 + |src|)
          && CountChar('<', tags[k]) == 1
      {
        GalleryImgTagShows(s[k]);
      }
    }
  }
}
