/**
 * The persistence service: the linear undo/redo history, the loader's
 * "dict or empty" rule, and the regex `{{ key }}` substitution used when
 * Jinja2 is not installed.
 */
module Storage {
  import opened Wrappers
  import opened PyStrings

  const NoPrevious: string := "Nessuno stato precedente."
  const NoNext: string := "Nessuno stato successivo."

  // ---------------------------------------------------------------------------
  // Undo/redo history as a value
  // ---------------------------------------------------------------------------

  /** The snapshots pushed so far and the index of the current one. */
  datatype History<T> = History(snapshots: seq<T>, index: int)
  {
    /** The stack's invariant: the index is -1 exactly when nothing is stored. */
    predicate Valid() {
      -1 <= index < |snapshots| && (index == -1 <==> snapshots == [])
    }

    /** The snapshot the index points at, if there is one. */
    function Current(): Option<T>
      requires Valid()
    {
      if index == -1 then None else Some(snapshots[index])
    }

    /** `push`: drop every snapshot after the current one, then append. */
    function Push(state: T): (r: History<T>)
      requires Valid()
      ensures r.Valid() && r.Current() == Some(state)
      ensures r.index == index + 1
      ensures r.snapshots == snapshots[..index + 1] + [state]
    {
      var kept := if index < |snapshots| - 1 then snapshots[..index + 1] else snapshots;
      History(kept + [state], |kept|)
    }

    /** `undo`: step back and return the snapshot reached, or raise at the start. */
    function Undo(): (r: (History<T>, Result<T, PyError>))
      requires Valid()
      ensures r.0.Valid() && r.0.snapshots == snapshots
      ensures r.1.Failure? <==> index <= 0
      ensures r.1.Failure? ==> r.0 == this && r.1.error == IndexError(NoPrevious)
      ensures r.1.Success? ==> r.0.index == index - 1 && r.0.Current() == Some(r.1.value)
    {
      if index <= 0 then (this, Failure(IndexError(NoPrevious)))
      else (History(snapshots, index - 1), Success(snapshots[index - 1]))
    }

    /** `redo`: step forward and return the snapshot reached, or raise at the end. */
    function Redo(): (r: (History<T>, Result<T, PyError>))
      requires Valid()
      ensures r.0.Valid() && r.0.snapshots == snapshots
      ensures r.1.Failure? <==> index == |snapshots| - 1
      ensures r.1.Failure? ==> r.0 == this && r.1.error == IndexError(NoNext)
      ensures r.1.Success? ==> r.0.index == index + 1 && r.0.Current() == Some(r.1.value)
    {
      if index >= |snapshots| - 1 then (this, Failure(IndexError(NoNext)))
      else (History(snapshots, index + 1), Success(snapshots[index + 1]))
    }

    /** `k` undos in a row; None as soon as one of them raises. */
    function UndoTimes(k: nat): (r: Option<History<T>>)
      requires Valid()
      ensures r.Some? ==> r.value.Valid() && r.value.snapshots == snapshots
      decreases k
    {
      if k == 0 then Some(this)
      else
        var (h, res) := Undo();
        if res.Failure? then None else h.UndoTimes(k - 1)
    }

    /** `k` redos in a row; None as soon as one of them raises. */
    function RedoTimes(k: nat): (r: Option<History<T>>)
      requires Valid()
      ensures r.Some? ==> r.value.Valid() && r.value.snapshots == snapshots
      decreases k
    {
      if k == 0 then Some(this)
      else
        var (h, res) := Redo();
        if res.Failure? then None else h.RedoTimes(k - 1)
    }
  }

  /** A new stack: no snapshots, index -1. */
  function EmptyHistory<T>(): (h: History<T>)
    ensures h.Valid() && h.Current() == None
  {
    History([], -1)
  }

  /** Undo and redo fail on a new stack. */
  lemma EmptyHistoryRaises<T>()
    ensures EmptyHistory<T>().Undo().1 == Failure(IndexError(NoPrevious))
    ensures EmptyHistory<T>().Redo().1 == Failure(IndexError(NoNext))
  {
  }

  /** After push(A), push(B): undo gives A, then redo gives B. */
  lemma PushPushUndoRedo<T>(h: History<T>, a: T, b: T)
    requires h.Valid()
    ensures h.Push(a).Push(b).Undo().1 == Success(a)
    ensures h.Push(a).Push(b).Undo().0.Redo().1 == Success(b)
  {
  }

  /** A push always leaves nothing to redo: whatever lay ahead was truncated. */
  lemma PushThenRedoRaises<T>(h: History<T>, s: T)
    requires h.Valid()
    ensures h.Push(s).Redo() == (h.Push(s), Failure(IndexError(NoNext)))
  {
  }

  /** Push after a successful undo drops the snapshot undone from, so redo raises. */
  lemma {:induction false} PushAfterUndoDropsFuture<T>(h: History<T>, s: T)
    requires h.Valid() && h.Undo().1.Success?
    ensures |h.Undo().0.Push(s).snapshots| == h.index + 1
    ensures h.Undo().0.Push(s).snapshots[..h.index] == h.snapshots[..h.index]
    ensures h.Undo().0.Push(s).Redo().1.Failure?
  {
    var u := h.Undo().0;
    assert u.index == h.index - 1;
    var p := u.Push(s);
    assert p.snapshots == h.snapshots[..h.index] + [s];
  }

  /** `k` undos succeed exactly while `k` does not exceed the index; they move it back by `k`. */
  lemma {:induction false} UndoTimesReach<T>(h: History<T>, k: nat)
    requires h.Valid()
    ensures h.UndoTimes(k).Some? <==> k == 0 || k <= h.index
    ensures k <= h.index ==> h.UndoTimes(k) == Some(History(h.snapshots, h.index - k))
    decreases k
  {
    if k > 0 && h.index > 0 {
      UndoTimesReach(h.Undo().0, k - 1);
    }
  }

  /** `k` redos succeed exactly while `k` steps remain ahead of the index. */
  lemma {:induction false} RedoTimesReach<T>(h: History<T>, k: nat)
    requires h.Valid()
    ensures h.RedoTimes(k).Some? <==> k <= |h.snapshots| - 1 - h.index
    ensures k <= |h.snapshots| - 1 - h.index ==> h.RedoTimes(k) == Some(History(h.snapshots, h.index + k))
    decreases k
  {
    if k > 0 && h.index < |h.snapshots| - 1 {
      RedoTimesReach(h.Redo().0, k - 1);
    }
  }

  /** Undoing `k` times and then redoing `k` times returns to the same history. */
  lemma UndoRedoInverse<T>(h: History<T>, k: nat)
    requires h.Valid() && k <= h.index
    ensures h.UndoTimes(k).Some? && h.UndoTimes(k).value.RedoTimes(k) == Some(h)
  {
    UndoTimesReach(h, k);
    RedoTimesReach(h.UndoTimes(k).value, k);
  }

  // ---------------------------------------------------------------------------
  // UndoRedoStack: the history object the application mutates
  // ---------------------------------------------------------------------------

  class UndoRedoStack<T> {
    var history: seq<T>
    var index: int

    function Model(): History<T>
      reads this
    {
      History(history, index)
    }

    ghost predicate Valid()
      reads this
    {
      Model().Valid()
    }

    constructor ()
      ensures Valid() && Model() == EmptyHistory()
    {
      history := [];
      index := -1;
    }

    method Push(state: T)
      requires Valid()
      modifies this
      ensures Valid() && Model() == old(Model()).Push(state)
    {
      if index < |history| - 1 {
        history := history[..index + 1];
      }
      history := history + [state];
      index := |history| - 1;
    }

    method Undo() returns (r: Result<T, PyError>)
      requires Valid()
      modifies this
      ensures Valid() && (Model(), r) == old(Model()).Undo()
    {
      if index <= 0 {
        return Failure(IndexError(NoPrevious));
      }
      index := index - 1;
      r := Success(history[index]);
    }

    method Redo() returns (r: Result<T, PyError>)
      requires Valid()
      modifies this
      ensures Valid() && (Model(), r) == old(Model()).Redo()
    {
      if index >= |history| - 1 {
        return Failure(IndexError(NoNext));
      }
      index := index + 1;
      r := Success(history[index]);
    }
  }

  // ---------------------------------------------------------------------------
  // load_recipe
  // ---------------------------------------------------------------------------

  /**
   * What `json.load` produced: a JSON object (as a map from keys to values),
   * some other JSON value, or a failure to open or parse the file.
   */
  datatype Parsed<V> = ParsedObject(entries: map<string, V>) | ParsedOther | Unreadable

  /** `load_recipe`: the object itself, otherwise the empty dict; it never raises. */
  function LoadRecipe<V>(p: Parsed<V>): (r: map<string, V>)
    ensures p.ParsedObject? ==> r == p.entries
    ensures !p.ParsedObject? ==> r == map[]
  {
    match p
    case ParsedObject(m) => m
    case _ => map[]
  }

  // ---------------------------------------------------------------------------
  // _simple_render
  // ---------------------------------------------------------------------------

  /**
   * Tries the regex `\{\{\s*KEY\s*\}\}` at the start of `s`, with the first
   * `\s*` consuming `l` characters and then fewer, as the backtracking engine
   * does. The second `\s*` can only take the whole whitespace run, since `}`
   * is not whitespace. The result is the length of the match.
   */
  function TryOpening(s: string, key: string, l: nat): (r: Option<nat>)
    requires 2 + l <= |s|
    ensures r.Some? ==> 4 + |key| <= r.value <= |s|
    decreases l
  {
    var p := 2 + l;
    if p + |key| <= |s| && s[p..p + |key|] == key then
      var q := SpaceRun(s, p + |key|);
      if q + 2 <= |s| && s[q] == '}' && s[q + 1] == '}' then Some(q + 2)
      else if l == 0 then None
      else TryOpening(s, key, l - 1)
    else if l == 0 then None
    else TryOpening(s, key, l - 1)
  }

  /** The length of the placeholder for `key` that starts `s`, if one does. */
  function PlaceholderMatch(s: string, key: string): (r: Option<nat>)
    ensures r.Some? ==> 4 + |key| <= r.value <= |s| && s[0] == '{'
  {
    if 2 <= |s| && s[0] == '{' && s[1] == '{' then TryOpening(s, key, SpaceRun(s, 2) - 2)
    else None
  }

  /** `pattern.sub(repl, s)`: every match, leftmost first and not overlapping, becomes `repl`. */
  function SubAll(s: string, key: string, repl: string): string
    decreases |s|
  {
    if s == [] then []
    else match PlaceholderMatch(s, key)
      case Some(n) => repl + SubAll(s[n..], key, repl)
      case None => [s[0]] + SubAll(s[1..], key, repl)
  }

  /** `_simple_render`: substitute each context entry in turn, in the dict's order. */
  function Render(template: string, ctx: seq<(string, string)>): string
    decreases |ctx|
  {
    if ctx == [] then template
    else Render(SubAll(template, ctx[0].0, ctx[0].1), ctx[1..])
  }

  method SimpleRender(template: string, ctx: seq<(string, string)>) returns (result: string)
    ensures result == Render(template, ctx)
  {
    result := template;
    for i := 0 to |ctx|
      invariant Render(result, ctx[i..]) == Render(template, ctx)
    {
      assert ctx[i..][1..] == ctx[i + 1..];
      result := SubAll(result, ctx[i].0, ctx[i].1);
    }
    assert ctx[|ctx|..] == [];
  }

  /** A match always spells out the key. */
  lemma {:induction false} TryOpeningHasKey(s: string, key: string, l: nat)
    requires 2 + l <= |s| && TryOpening(s, key, l).Some?
    ensures Contains(s, key)
    decreases l
  {
    var p := 2 + l;
    if p + |key| <= |s| && s[p..p + |key|] == key {
      assert OccursAt(s, key, p);
      var q := SpaceRun(s, p + |key|);
      if !(q + 2 <= |s| && s[q] == '}' && s[q + 1] == '}') {
        TryOpeningHasKey(s, key, l - 1);
      }
    } else {
      TryOpeningHasKey(s, key, l - 1);
    }
  }

  lemma ContainsTail(s: string, key: string)
    requires s != [] && Contains(s[1..], key)
    ensures Contains(s, key)
  {
    var i :| 0 <= i <= |s[1..]| && OccursAt(s[1..], key, i);
    assert s == [s[0]] + s[1..];
    OccursAtShift([s[0]], s[1..], key, i);
  }

  /** Text that does not mention the key comes through the substitution untouched. */
  lemma {:induction false} SubAllWithoutKey(s: string, key: string, repl: string)
    requires key != [] && !Contains(s, key)
    ensures SubAll(s, key, repl) == s
    decreases |s|
  {
    if s != [] {
      if PlaceholderMatch(s, key).Some? {
        TryOpeningHasKey(s, key, SpaceRun(s, 2) - 2);
      }
      if Contains(s[1..], key) {
        ContainsTail(s, key);
      }
      SubAllWithoutKey(s[1..], key, repl);
    }
  }

  /** A template mentioning none of the context's keys is rendered unchanged. */
  lemma {:induction false} RenderWithoutKeys(template: string, ctx: seq<(string, string)>)
    requires forall k :: 0 <= k < |ctx| ==> ctx[k].0 != [] && !Contains(template, ctx[k].0)
    ensures Render(template, ctx) == template
    decreases |ctx|
  {
    if ctx != [] {
      SubAllWithoutKey(template, ctx[0].0, ctx[0].1);
      RenderWithoutKeys(template, ctx[1..]);
    }
  }

  /** Where each piece of a placeholder sits in the text. */
  lemma PlaceholderLayout(w1: string, key: string, w2: string, b: string)
    ensures var s := "{{" + w1 + key + w2 + "}}" + b;
      var q := 2 + |w1| + |key|;
      var n := q + |w2| + 2;
      && |s| == n + |b| && s[0] == '{' && s[1] == '{' && s[n - 2] == '}' && s[n - 1] == '}'
      && (forall k :: 2 <= k < 2 + |w1| ==> s[k] == w1[k - 2])
      && s[2 + |w1|..q] == key
      && (forall k :: q <= k < n - 2 ==> s[k] == w2[k - q])
  {
  }

  /**
   * A placeholder `{{`, whitespace, key, whitespace, `}}` at the start of the
   * text is matched whole, whatever whitespace surrounds the key, as long as
   * the key itself does not begin with whitespace.
   */
  lemma PlaceholderMatched(w1: string, key: string, w2: string, b: string)
    requires IsBlank(w1) && IsBlank(w2)
    requires key == [] || !IsSpace(key[0])
    ensures PlaceholderMatch("{{" + w1 + key + w2 + "}}" + b, key) == Some(|w1| + |key| + |w2| + 4)
  {
    if key == [] {
      EmptyKeyMatched(w1, w2, b);
    } else {
      KeyMatched(w1, key, w2, b);
    }
  }

  lemma EmptyKeyMatched(w1: string, w2: string, b: string)
    requires IsBlank(w1) && IsBlank(w2)
    ensures PlaceholderMatch("{{" + w1 + [] + w2 + "}}" + b, []) == Some(|w1| + |w2| + 4)
  {
    var s := "{{" + w1 + [] + w2 + "}}" + b;
    var n := |w1| + |w2| + 4;
    PlaceholderLayout(w1, [], w2, b);
    SpaceRunIs(s, 2, n - 2);
    SpaceRunIs(s, n - 2, n - 2);
    TryOpeningAt(s, [], n - 4, n);
  }

  lemma KeyMatched(w1: string, key: string, w2: string, b: string)
    requires IsBlank(w1) && IsBlank(w2)
    requires key != [] && !IsSpace(key[0])
    ensures PlaceholderMatch("{{" + w1 + key + w2 + "}}" + b, key) == Some(|w1| + |key| + |w2| + 4)
  {
    var s := "{{" + w1 + key + w2 + "}}" + b;
    var q := 2 + |w1| + |key|;
    var n := q + |w2| + 2;
    PlaceholderLayout(w1, key, w2, b);
    assert s[2 + |w1|] == s[2 + |w1|..q][0];
    SpaceRunIs(s, 2, 2 + |w1|);
    SpaceRunIs(s, q, n - 2);
    TryOpeningAt(s, key, |w1|, n);
  }

  /** The first opening tried, right after the whitespace, closes at `n`. */
  lemma TryOpeningAt(s: string, key: string, l: nat, n: nat)
    requires 2 + l + |key| <= |s| && s[2 + l..2 + l + |key|] == key
    requires SpaceRun(s, 2 + l + |key|) + 2 == n <= |s| && s[n - 2] == '}' && s[n - 1] == '}'
    ensures TryOpening(s, key, l) == Some(n)
  {
  }

  /** A placeholder for the key at the start of the text becomes the replacement. */
  lemma SubAllReplacesPlaceholder(w1: string, key: string, w2: string, b: string, repl: string)
    requires IsBlank(w1) && IsBlank(w2)
    requires key == [] || !IsSpace(key[0])
    ensures SubAll("{{" + w1 + key + w2 + "}}" + b, key, repl) == repl + SubAll(b, key, repl)
  {
    var s := "{{" + w1 + key + w2 + "}}" + b;
    PlaceholderMatched(w1, key, w2, b);
    assert s[|w1| + |key| + |w2| + 4..] == b;
  }

  /** Text with no `{` cannot start a match, so it is copied as it is. */
  lemma {:induction false} SubAllPlainPrefix(a: string, s: string, key: string, repl: string)
    requires forall k :: 0 <= k < |a| ==> a[k] != '{'
    ensures SubAll(a + s, key, repl) == a + SubAll(s, key, repl)
    decreases |a|
  {
    if a != [] {
      assert (a + s)[0] == a[0];
      assert PlaceholderMatch(a + s, key).None?;
      assert (a + s)[1..] == a[1..] + s;
      SubAllPlainPrefix(a[1..], s, key, repl);
      assert a == [a[0]] + a[1..];
    } else {
      assert a + s == s;
    }
  }

  /** `<p>{{ k }}</p>`-shaped text: the placeholder between plain text is replaced. */
  lemma SubAllInContext(a: string, w1: string, key: string, w2: string, b: string, repl: string)
    requires forall k :: 0 <= k < |a| ==> a[k] != '{'
    requires IsBlank(w1) && IsBlank(w2)
    requires key == [] || !IsSpace(key[0])
    ensures SubAll(a + ("{{" + w1 + key + w2 + "}}" + b), key, repl) == a + repl + SubAll(b, key, repl)
  {
    var placeholder := "{{" + w1 + key + w2 + "}}" + b;
    var rest := SubAll(b, key, repl);
    SubAllPlainPrefix(a, placeholder, key, repl);
    SubAllReplacesPlaceholder(w1, key, w2, b, repl);
    assert a + (repl + rest) == a + repl + rest;
  }

  /**
   * `s[..n]` is a placeholder for `key`: `{{`, whitespace, the key starting
   * at `p`, whitespace, `}}`.
   */
  predicate PlaceholderSpan(s: string, key: string, p: nat, n: nat) {
    && 2 <= p && p + |key| + 2 <= n <= |s|
    && s[0] == '{' && s[1] == '{'
    && IsBlank(s[2..p]) && s[p..p + |key|] == key && IsBlank(s[p + |key|..n - 2])
    && s[n - 2] == '}' && s[n - 1] == '}'
  }

  lemma {:induction false} TryOpeningSound(s: string, key: string, l: nat)
    requires 2 + l <= |s| && s[0] == '{' && s[1] == '{'
    requires forall k :: 2 <= k < 2 + l ==> IsSpace(s[k])
    requires TryOpening(s, key, l).Some?
    ensures exists p :: PlaceholderSpan(s, key, p, TryOpening(s, key, l).value)
    decreases l
  {
    var p := 2 + l;
    if p + |key| <= |s| && s[p..p + |key|] == key {
      var q := SpaceRun(s, p + |key|);
      if q + 2 <= |s| && s[q] == '}' && s[q + 1] == '}' {
        assert PlaceholderSpan(s, key, p, q + 2);
      } else {
        TryOpeningSound(s, key, l - 1);
      }
    } else {
      TryOpeningSound(s, key, l - 1);
    }
  }

  /** Every match the regex engine reports is a placeholder for the key. */
  lemma PlaceholderMatchSound(s: string, key: string)
    requires PlaceholderMatch(s, key).Some?
    ensures exists p :: PlaceholderSpan(s, key, p, PlaceholderMatch(s, key).value)
  {
    TryOpeningSound(s, key, SpaceRun(s, 2) - 2);
  }

  /** A key as `_simple_render` meets it in templates: non-empty, no whitespace, no brace. */
  predicate NameLike(x: string) {
    x != [] && forall i :: 0 <= i < |x| ==> !IsSpace(x[i]) && x[i] != '{' && x[i] != '}'
  }

  /** The opening of `TryOpening` at index `p` reads the key, whitespace and `}}`. */
  predicate OpensAt(s: string, key: string, p: nat) {
    p + |key| <= |s| && s[p..p + |key|] == key
    && var q := SpaceRun(s, p + |key|);
    q + 2 <= |s| && s[q] == '}' && s[q + 1] == '}'
  }

  lemma TryOpeningStep(s: string, key: string, l: nat)
    requires 2 + l <= |s| && !OpensAt(s, key, 2 + l)
    ensures TryOpening(s, key, l) == if l == 0 then None else TryOpening(s, key, l - 1)
  {
  }

  /** An opening inside the whitespace before `name` cannot read a key that starts with a non-blank. */
  lemma NoOpeningInBlank(s: string, key: string, p: nat)
    requires NameLike(key) && p < |s| && IsSpace(s[p])
    ensures !OpensAt(s, key, p)
  {
    if p + |key| <= |s| {
      assert s[p..p + |key|][0] == s[p];
    }
  }

  /** An opening at `name` reads no other key: a longer key would run into whitespace or `}`, a shorter one is followed by a name character. */
  lemma NoOpeningAtName(s: string, name: string, a: nat, key: string)
    requires NameLike(name) && NameLike(key) && key != name
    requires a + |name| < |s| && s[a..a + |name|] == name
    requires IsSpace(s[a + |name|]) || s[a + |name|] == '}'
    ensures !OpensAt(s, key, a)
  {
    if |key| > |name| {
      if a + |key| <= |s| {
        assert s[a..a + |key|][|name|] == s[a + |name|];
      }
    } else if |key| < |name| {
      if s[a..a + |key|] == key {
        assert s[a + |key|] == s[a..a + |name|][|key|];
        SpaceRunIs(s, a + |key|, a + |key|);
      }
    }
  }

  /**
   * No opening tried up to `name`, which starts at `a` after whitespace and
   * is followed by whitespace or `}`, spells out a different `key`.
   */
  lemma {:induction false} TryOpeningMisses(s: string, name: string, a: nat, key: string, l: nat)
    requires NameLike(name) && NameLike(key) && key != name
    requires a + |name| < |s| && s[a..a + |name|] == name
    requires forall k :: 2 <= k < a ==> IsSpace(s[k])
    requires IsSpace(s[a + |name|]) || s[a + |name|] == '}'
    requires 2 + l <= a
    ensures TryOpening(s, key, l) == None
    decreases l
  {
    if 2 + l < a {
      NoOpeningInBlank(s, key, 2 + l);
    } else {
      NoOpeningAtName(s, name, a, key);
    }
    TryOpeningStep(s, key, l);
    if l > 0 {
      TryOpeningMisses(s, name, a, key, l - 1);
    }
  }

  /** A placeholder for one name is not a match for another. */
  lemma PlaceholderMatchMisses(w1: string, name: string, w2: string, b: string, key: string)
    requires IsBlank(w1) && IsBlank(w2) && NameLike(name) && NameLike(key) && key != name
    ensures PlaceholderMatch("{{" + w1 + name + w2 + "}}" + b, key) == None
  {
    var s := "{{" + w1 + name + w2 + "}}" + b;
    var a := 2 + |w1|;
    PlaceholderLayout(w1, name, w2, b);
    assert s[a] == s[a..a + |name|][0];
    SpaceRunIs(s, 2, a);
    assert IsSpace(s[a + |name|]) || s[a + |name|] == '}' by {
      if w2 != [] {
        assert s[a + |name|] == w2[0];
      }
    }
    TryOpeningMisses(s, name, a, key, |w1|);
  }

  /** `{{` followed by brace-free text is copied when no match starts at the first brace. */
  lemma SubAllTwoBraces(inner: string, b: string, key: string, repl: string)
    requires inner != [] && forall k :: 0 <= k < |inner| ==> inner[k] != '{'
    requires PlaceholderMatch("{{" + inner + b, key) == None
    ensures SubAll("{{" + inner + b, key, repl) == "{{" + inner + SubAll(b, key, repl)
  {
    var s := "{{" + inner + b;
    var t := "{" + inner + b;
    assert s[1..] == t && s[0] == '{';
    assert t[1..] == inner + b && t[0] == '{';
    assert t[1] == inner[0];
    assert PlaceholderMatch(t, key) == None;
    SubAllPlainPrefix(inner, b, key, repl);
    assert SubAll(t, key, repl) == "{" + (inner + SubAll(b, key, repl));
    assert SubAll(s, key, repl) == "{" + SubAll(t, key, repl);
  }

  /**
   * The placeholder for a name other than the key survives the
   * substitution whole, and the text after it is substituted as usual.
   */
  lemma SubAllKeepsOtherPlaceholder(w1: string, name: string, w2: string, b: string, key: string, repl: string)
    requires IsBlank(w1) && IsBlank(w2) && NameLike(name) && NameLike(key) && key != name
    ensures SubAll("{{" + w1 + name + w2 + "}}" + b, key, repl) == "{{" + w1 + name + w2 + "}}" + SubAll(b, key, repl)
  {
    var inner := w1 + name + w2 + "}}";
    forall k | 0 <= k < |inner|
      ensures inner[k] != '{'
    {
      if k < |w1| {
        assert inner[k] == w1[k];
      } else if k < |w1| + |name| {
        assert inner[k] == name[k - |w1|];
      } else if k < |w1| + |name| + |w2| {
        assert inner[k] == w2[k - |w1| - |name|];
      }
    }
    assert "{{" + w1 + name + w2 + "}}" + b == "{{" + inner + b;
    assert "{{" + w1 + name + w2 + "}}" == "{{" + inner;
    PlaceholderMatchMisses(w1, name, w2, b, key);
    SubAllTwoBraces(inner, b, key, repl);
  }

  /**
   * `_simple_render` leaves the placeholder of a name that is not a key of
   * the context as it is, and renders the rest of the template.
   */
  lemma {:induction false} RenderKeepsAbsentPlaceholder(w1: string, name: string, w2: string, b: string, ctx: seq<(string, string)>)
    requires IsBlank(w1) && IsBlank(w2) && NameLike(name)
    requires forall k :: 0 <= k < |ctx| ==> NameLike(ctx[k].0) && ctx[k].0 != name
    ensures Render("{{" + w1 + name + w2 + "}}" + b, ctx) == "{{" + w1 + name + w2 + "}}" + Render(b, ctx)
    decreases |ctx|
  {
    if ctx != [] {
      SubAllKeepsOtherPlaceholder(w1, name, w2, b, ctx[0].0, ctx[0].1);
      RenderKeepsAbsentPlaceholder(w1, name, w2, SubAll(b, ctx[0].0, ctx[0].1), ctx[1..]);
    }
  }
}
