/**
 * The head-less part of the application controller: the current recipe
 * state, the undo history it is pushed onto, and the preview formatter.
 */
module BuilderCore {
  import opened Wrappers
  import opened PyStrings
  import opened Values
  import Storage
  import TextService

  type Snapshots = Storage.History<Recipe>

  /** The exceptions `load_recipe` catches: the state is reset and nothing propagates. */
  predicate Swallowed(e: PyError) {
    e.FileNotFoundError? || e.OSError? || e.ValueError? || e.TypeError?
  }

  /** The controller's state as a value: `_state` and the `_undo` history. */
  datatype App = App(state: Recipe, history: Snapshots)

  /** A new controller: empty state, empty history. */
  function NewApp(): (a: App)
    ensures a.state == map[] && a.history.Valid() && a.history.Current() == None
  {
    App(map[], Storage.EmptyHistory())
  }

  /**
   * `load_recipe` given what the loader did: a loaded recipe becomes the
   * state and is pushed; a caught error resets the state to `{}` and pushes
   * nothing; any other error propagates with the state untouched.
   */
  function AppLoad(a: App, loaded: Result<Recipe, PyError>): (r: (App, Option<PyError>))
    requires a.history.Valid()
    ensures r.0.history.Valid()
    ensures r.1.Some? <==> loaded.Failure? && !Swallowed(loaded.error)
    ensures loaded.Success? ==> r.0.state == loaded.value && r.0.history == a.history.Push(loaded.value)
    ensures loaded.Failure? ==> r.0.history == a.history
    ensures loaded.Failure? && Swallowed(loaded.error) ==> r.0.state == map[]
    ensures r.1.Some? ==> r.0 == a && r.1.value == loaded.error
  {
    match loaded
    case Success(m) => (App(m, a.history.Push(m)), None)
    case Failure(e) => if Swallowed(e) then (a.(state := map[]), None) else (a, Some(e))
  }

  /** `undo`: the snapshot the history steps back to becomes the state; IndexError propagates. */
  function AppUndo(a: App): (r: (App, Option<PyError>))
    requires a.history.Valid()
    ensures r.0.history.Valid()
    ensures r.1.Some? <==> a.history.index <= 0
    ensures r.1.Some? ==> r.0 == a && r.1.value == IndexError(Storage.NoPrevious)
    ensures r.1.None? ==> r.0.history == a.history.(index := a.history.index - 1)
    ensures r.1.None? ==> r.0.state == a.history.snapshots[a.history.index - 1]
  {
    var (h, res) := a.history.Undo();
    match res
    case Success(s) => (App(s, h), None)
    case Failure(e) => (a, Some(e))
  }

  /** `redo`: the snapshot the history steps forward to becomes the state; IndexError propagates. */
  function AppRedo(a: App): (r: (App, Option<PyError>))
    requires a.history.Valid()
    ensures r.0.history.Valid()
    ensures r.1.Some? <==> a.history.index == |a.history.snapshots| - 1
    ensures r.1.Some? ==> r.0 == a && r.1.value == IndexError(Storage.NoNext)
    ensures r.1.None? ==> r.0.history == a.history.(index := a.history.index + 1)
    ensures r.1.None? ==> r.0.state == a.history.snapshots[a.history.index + 1]
  {
    var (h, res) := a.history.Redo();
    match res
    case Success(s) => (App(s, h), None)
    case Failure(e) => (a, Some(e))
  }

  /**
   * The state is never out of step with the history: it is the snapshot the
   * history points at, or the empty recipe (a new controller, or a load
   * whose error was caught).
   */
  predicate InStep(a: App) {
    a.history.Valid() && (a.state == map[] || a.history.Current() == Some(a.state))
  }

  lemma NewAppInStep()
    ensures InStep(NewApp())
  {
  }

  /** Every operation keeps the state in step with the history. */
  lemma OperationsKeepInStep(a: App, loaded: Result<Recipe, PyError>)
    requires InStep(a)
    ensures InStep(AppLoad(a, loaded).0)
    ensures InStep(AppUndo(a).0)
    ensures InStep(AppRedo(a).0)
  {
  }

  /** Loading A then B, undo shows A again and redo shows B again. */
  lemma LoadLoadUndoRedo(a: App, x: Recipe, y: Recipe)
    requires a.history.Valid()
    ensures var b := AppLoad(AppLoad(a, Success(x)).0, Success(y)).0;
      && AppUndo(b) == (App(x, AppUndo(b).0.history), None)
      && AppRedo(AppUndo(b).0) == (App(y, b.history), None)
  {
    var h := a.history.Push(x).Push(y);
    Storage.PushPushUndoRedo(a.history, x, y);
    assert h.Undo().0.Redo().0 == h;
  }

  /** A new controller, or one loaded only once, has nothing to undo: IndexError escapes. */
  lemma UndoAtStartRaises(x: Result<Recipe, PyError>)
    ensures AppUndo(NewApp()).1 == Some(IndexError(Storage.NoPrevious))
    ensures AppUndo(AppLoad(NewApp(), x).0).1 == Some(IndexError(Storage.NoPrevious))
  {
  }

  /**
   * With the storage loader, `load_recipe` never raises: whatever the file
   * holds, the recipe it yields (`{}` for anything but a JSON object) becomes
   * the state and is pushed.
   */
  lemma StorageLoaderAlwaysPushes(a: App, p: Storage.Parsed<Value>)
    requires a.history.Valid()
    ensures var r := AppLoad(a, Success(Storage.LoadRecipe(p)));
      && r.1.None?
      && r.0.state == (if p.ParsedObject? then p.entries else map[])
      && r.0.history.Current() == Some(r.0.state)
      && |r.0.history.snapshots| == a.history.index + 2
  {
  }

  // ---------------------------------------------------------------------------
  // TemplateBuilderApp: the object whose fields the methods update
  // ---------------------------------------------------------------------------

  class TemplateBuilderApp {
    var state: Recipe
    const undoStack: Storage.UndoRedoStack<Recipe>

    function Model(): App
      reads this, undoStack
    {
      App(state, undoStack.Model())
    }

    ghost predicate Valid()
      reads this, undoStack
    {
      undoStack.Valid()
    }

    constructor ()
      ensures Valid() && fresh(undoStack) && Model() == NewApp()
    {
      undoStack := new Storage.UndoRedoStack<Recipe>();
      state := map[];
    }

    method LoadRecipe(loaded: Result<Recipe, PyError>) returns (raised: Option<PyError>)
      requires Valid()
      modifies this, undoStack
      ensures Valid() && (Model(), raised) == AppLoad(old(Model()), loaded)
    {
      match loaded {
        case Success(m) =>
          state := m;
          undoStack.Push(state);
          raised := None;
        case Failure(e) =>
          if Swallowed(e) {
            state := map[];
            raised := None;
          } else {
            raised := Some(e);
          }
      }
    }

    method Undo() returns (raised: Option<PyError>)
      requires Valid()
      modifies this, undoStack
      ensures Valid() && (Model(), raised) == AppUndo(old(Model()))
    {
      var res := undoStack.Undo();
      match res {
        case Success(s) =>
          state := s;
          raised := None;
        case Failure(e) =>
          raised := Some(e);
      }
    }

    method Redo() returns (raised: Option<PyError>)
      requires Valid()
      modifies this, undoStack
      ensures Valid() && (Model(), raised) == AppRedo(old(Model()))
    {
      var res := undoStack.Redo();
      match res {
        case Success(s) =>
          state := s;
          raised := None;
        case Failure(e) =>
          raised := Some(e);
      }
    }
  }

  // ---------------------------------------------------------------------------
  // _render_html
  // ---------------------------------------------------------------------------

  /** `_render_html`: a heading and the formatted body, or None when both are empty. */
  function RenderHtml(state: Recipe): (r: Option<string>)
    ensures r.None? <==> !Truthy(GetOrEmpty(state, "TITLE")) && !Truthy(GetOrEmpty(state, "BODY"))
  {
    var title := GetOrEmpty(state, "TITLE");
    var body := TextService.AutoFormat(Show(GetOrEmpty(state, "BODY")), "ul");
    if Truthy(title) || Truthy(GetOrEmpty(state, "BODY")) then Some("<h1>" + Show(title) + "</h1>\n" + body)
    else None
  }

  /** The preview opens with the title as a heading and ends with the body, untouched. */
  lemma RenderHtmlLayout(state: Recipe)
    requires RenderHtml(state).Some?
    ensures var html := RenderHtml(state).value;
      var title := Show(GetOrEmpty(state, "TITLE"));
      var body := Show(GetOrEmpty(state, "BODY"));
      && StartsWith(html, "<h1>")
      && OccursAt(html, title, 4)
      && OccursAt(html, "</h1>\n", 4 + |title|)
      && |html| == 10 + |title| + |body|
      && html[10 + |title|..] == body
  {
    var title := Show(GetOrEmpty(state, "TITLE"));
    var body := Show(GetOrEmpty(state, "BODY"));
    var html := RenderHtml(state).value;
    assert html == "<h1>" + title + "</h1>\n" + body;
    assert html[..4] == "<h1>";
    assert html[4..4 + |title|] == title;
    assert html[4 + |title|..10 + |title|] == "</h1>\n";
  }

  /** An empty state, or one whose title and body are empty strings, renders nothing. */
  lemma RenderHtmlEmpty(state: Recipe)
    requires forall k :: k in state ==> state[k] == Str("")
    ensures RenderHtml(state) == None
  {
  }

  /** A state holding two strings renders the heading and body as given. */
  lemma RenderHtmlStrings(title: string, body: string)
    ensures RenderHtml(map["TITLE" := Str(title), "BODY" := Str(body)])
      == if title == [] && body == [] then None else Some("<h1>" + title + "</h1>\n" + body)
  {
    var m := map["TITLE" := Str(title), "BODY" := Str(body)];
    assert GetOrEmpty(m, "TITLE") == Str(title);
    assert GetOrEmpty(m, "BODY") == Str(body);
  }
}
