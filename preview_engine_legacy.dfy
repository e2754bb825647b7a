/**
 * The legacy preview pane: a notebook with an "HTML Source" tab and a
 * "Web Preview" tab. `render` turns a fragment into a full HTML document
 * unless it already is one, shows that text in the source tab and hands it
 * to the web renderer. The renderer is the first of tkinterweb, cefpython
 * and an external browser that is installed, with the external browser as
 * the fallback when setting up an inline one raises.
 */
module PreviewEngineLegacy {
  import opened Wrappers
  import opened PyStrings

  // ---------------------------------------------------------------------------
  // The document-wrapping rule
  // ---------------------------------------------------------------------------

  const Doctype: string := "<!DOCTYPE"
  const DocPrefix: string := Doctype + " html><html><head><meta charset='utf-8'></head><body>"
  const DocSuffix: string := "</body></html>"

  /**
   * The "already a document" test: the left-trimmed, lower-cased text starts
   * with `<!doctype` or contains `<html` anywhere.
   */
  predicate IsDocument(html: string) {
    var low := Lower(LStrip(html));
    StartsWith(low, "<!doctype") || Contains(low, "<html")
  }

  /** Text starting with `<` is left alone by `lstrip`. */
  lemma LStripOpenTag(s: string)
    requires s != [] && s[0] == '<'
    ensures LStrip(s) == s
  {
  }

  lemma LowerDoctype()
    ensures Lower("<!DOCTYPE") == "<!doctype"
  {
    var low := Lower("<!DOCTYPE");
    assert low[2] == 'd' && low[3] == 'o' && low[4] == 'c' && low[5] == 't';
    assert low[6] == 'y' && low[7] == 'p' && low[8] == 'e';
  }

  /** The wrapper's own prefix passes the test. */
  lemma {:induction false} WrappedIsDocument(html: string)
    ensures IsDocument(DocPrefix + html + DocSuffix)
  {
    var s := DocPrefix + html + DocSuffix;
    assert s[..9] == Doctype by {
      assert s == Doctype + (DocPrefix[9..] + html + DocSuffix);
    }
    LStripOpenTag(s);
    assert Lower(s)[..9] == Lower("<!DOCTYPE");
    LowerDoctype();
  }

  /** `html_full` in `PreviewEngine.render` and `CefRenderer.load`. */
  function WrapDocument(html: string): string {
    if IsDocument(html) then html else DocPrefix + html + DocSuffix
  }

  /**
   * The wrapped text always passes the document test; it is the input
   * itself exactly when the input already passes it, and otherwise the
   * input inside the fixed `<!DOCTYPE html>` skeleton.
   */
  lemma WrapDocumentSpec(html: string)
    ensures IsDocument(WrapDocument(html))
    ensures WrapDocument(html) == html <==> IsDocument(html)
    ensures WrapDocument(html) != html ==> WrapDocument(html) == DocPrefix + html + DocSuffix
  {
    if !IsDocument(html) {
      WrappedIsDocument(html);
    }
  }

  /** Wrapping twice is wrapping once. */
  lemma WrapDocumentIdempotent(html: string)
    ensures WrapDocument(WrapDocument(html)) == WrapDocument(html)
  {
    WrapDocumentSpec(html);
  }

  /** The fragment appears unchanged inside what is shown. */
  lemma WrapDocumentKeepsHtml(html: string)
    ensures Contains(WrapDocument(html), html)
  {
    if IsDocument(html) {
      assert OccursAt(html, html, 0);
    } else {
      OccursAtEnd(DocPrefix, html);
      OccursAtExtend(DocPrefix + html, html, |DocPrefix|, DocSuffix);
    }
  }

  // ---------------------------------------------------------------------------
  // Renderer backends
  // ---------------------------------------------------------------------------

  datatype Backend = TkWebBackend | CefBackend | ExternalBackend

  /**
   * A renderer's state. `TkWebRenderer` holds an `HtmlFrame` or none, and
   * `page` is the html last loaded into it; `CefRenderer` holds a browser or
   * none, and `page` is the html last passed to its `load`, which the browser
   * shows as the wrapped document `html_full`; `ExternalRenderer`
   * holds its "open in browser" button or none, and the html it would save
   * to a temporary file.
   */
  datatype Renderer =
    | TkWeb(hasFrame: bool, page: Option<string>)
    | Cef(hasBrowser: bool, page: Option<string>)
    | External(hasButton: bool, html: string)
  {
    function Kind(): Backend {
      match this
      case TkWeb(_, _) => TkWebBackend
      case Cef(_, _) => CefBackend
      case External(_, _) => ExternalBackend
    }

    /** The widget that displays or opens the preview exists. */
    predicate Ready() {
      match this
      case TkWeb(f, _) => f
      case Cef(b, _) => b
      case External(b, _) => b
    }

    /** What the renderer would display. */
    function Shown(): Option<string> {
      match this
      case TkWeb(_, p) => p
      case Cef(_, p) => if p.Some? then Some(WrapDocument(p.value)) else None
      case External(_, h) => Some(h)
    }
  }

  /**
   * What the host offers: whether `tkinterweb` and `cefpython3` imported,
   * and the exception, if any, that the toolkit raises while an inline
   * renderer creates its widget.
   */
  datatype Env = Env(htmlFrame: bool, cef: bool, setupFailure: Option<PyError>)

  /** The renderer's constructor: no widget yet. */
  function NewRenderer(b: Backend): (r: Renderer)
    ensures r.Kind() == b && !r.Ready()
  {
    match b
    case TkWebBackend => TkWeb(false, None)
    case CefBackend => Cef(false, None)
    case ExternalBackend => External(false, [])
  }

  /**
   * `setup()`: an inline renderer whose library is missing raises
   * `RuntimeError`; otherwise it creates a fresh widget, unless the toolkit
   * raises. The external renderer only creates a button.
   */
  function Setup(r: Renderer, env: Env): (res: Result<Renderer, PyError>)
    ensures res.Success? ==> res.value.Kind() == r.Kind() && res.value.Ready()
    ensures r.External? ==> res.Success? && res.value.html == r.html
    ensures res.Failure? <==> match r
      case TkWeb(_, _) => !env.htmlFrame || env.setupFailure.Some?
      case Cef(_, _) => !env.cef || env.setupFailure.Some?
      case External(_, _) => false
  {
    match r
    case TkWeb(_, _) =>
      if !env.htmlFrame then Failure(RuntimeError("tkinterweb non disponibile"))
      else if env.setupFailure.Some? then Failure(env.setupFailure.value)
      else Success(TkWeb(true, None))
    case Cef(_, _) =>
      if !env.cef then Failure(RuntimeError("cefpython3 non disponibile"))
      else if env.setupFailure.Some? then Failure(env.setupFailure.value)
      else Success(Cef(true, None))
    case External(_, h) => Success(External(true, h))
  }

  /** `load(html)`, with the exception it raises if any. */
  function Load(r: Renderer, html: string): (Renderer, Option<PyError>) {
    match r
    case TkWeb(f, _) =>
      if f then (TkWeb(f, Some(html)), None)
      else (r, Some(OtherError("'NoneType' object has no attribute 'load_html'")))
    case Cef(b, _) =>
      if b then (Cef(b, Some(html)), None) else (r, None)
    case External(b, _) => (External(b, html), None)
  }

  /**
   * A load keeps the renderer's kind and readiness; only a tkinterweb
   * renderer without its frame raises; a ready renderer shows the html, CEF
   * after wrapping it; a renderer without its widget is left as it was.
   */
  lemma LoadSpec(r: Renderer, html: string)
    ensures var res := Load(r, html);
      && res.0.Kind() == r.Kind() && res.0.Ready() == r.Ready()
      && (res.1.Some? <==> r.TkWeb? && !r.hasFrame)
      && (r.Ready() ==> res.0.Shown() == Some(if r.Cef? then WrapDocument(html) else html))
      && (!r.Ready() && !r.External? ==> res.0 == r)
  {
  }

  /** `dispose()`: the widget is destroyed; the external renderer keeps its html. */
  function DisposeRenderer(r: Renderer): (d: Renderer)
    ensures d.Kind() == r.Kind() && !d.Ready()
    ensures r.External? ==> d.Shown() == r.Shown()
    ensures !r.External? ==> d.Shown() == None
  {
    match r
    case TkWeb(_, _) => TkWeb(false, None)
    case Cef(_, _) => Cef(false, None)
    case External(_, h) => External(false, h)
  }

  /** The external renderer remembers only the last html it was given. */
  lemma ExternalLoadOverwrites(b: bool, old0: string, first: string, second: string)
    ensures Load(Load(External(b, old0), first).0, second) == Load(External(b, old0), second)
  {
  }

  /**
   * A ready renderer given an already wrapped document displays exactly
   * that text: the second wrapping in `CefRenderer.load` changes nothing.
   */
  lemma {:induction false} ReadyShowsRenderedText(r: Renderer, html: string)
    requires r.Ready()
    ensures Load(r, WrapDocument(html)).1 == None
    ensures Load(r, WrapDocument(html)).0.Shown() == Some(WrapDocument(html))
  {
    WrapDocumentIdempotent(html);
  }

  // ---------------------------------------------------------------------------
  // Backend choice in `init_frame`
  // ---------------------------------------------------------------------------

  /** tkinterweb if it imported, else cefpython if it imported, else the external browser. */
  function PreferredBackend(env: Env): (b: Backend)
    ensures b == TkWebBackend <==> env.htmlFrame
    ensures b == CefBackend <==> !env.htmlFrame && env.cef
  {
    if env.htmlFrame then TkWebBackend else if env.cef then CefBackend else ExternalBackend
  }

  const SetupErrorTitle: string := "Errore configurazione anteprima"
  const RenderErrorTitle: string := "Errore rendering web"

  /**
   * The renderer `init_frame` ends up with, and the error dialog it shows
   * (title, message): the preferred backend when its setup succeeds;
   * otherwise the external renderer, with a dialog unless the message
   * mentions the "stubs mechanism".
   */
  function InitRenderer(env: Env): (res: (Renderer, Option<(string, string)>))
  {
    var first := Setup(NewRenderer(PreferredBackend(env)), env);
    if first.Success? then (first.value, None)
    else
      var msg := first.error.msg;
      var fallback := Setup(NewRenderer(ExternalBackend), env);
      (fallback.value, if Contains(msg, "stubs mechanism") then None else Some((SetupErrorTitle, msg)))
  }

  /**
   * `init_frame` always ends with a working renderer: the preferred one
   * exactly when the toolkit does not raise, the external one otherwise.
   * A missing library is never the reported error, since only an installed
   * backend is preferred; a dialog shows the toolkit's own message.
   */
  lemma InitRendererChoice(env: Env)
    ensures InitRenderer(env).0.Ready()
    ensures InitRenderer(env).0.Shown() in {None, Some([])}
    ensures env.setupFailure.None? ==> InitRenderer(env).0.Kind() == PreferredBackend(env)
    ensures env.setupFailure.Some? ==> InitRenderer(env).0.Kind() == ExternalBackend
    ensures InitRenderer(env).1.Some? <==>
      && env.setupFailure.Some?
      && PreferredBackend(env) != ExternalBackend
      && !Contains(env.setupFailure.value.msg, "stubs mechanism")
    ensures InitRenderer(env).1.Some? ==>
      InitRenderer(env).1.value == (SetupErrorTitle, env.setupFailure.value.msg)
  {
  }

  // ---------------------------------------------------------------------------
  // PreviewEngine
  // ---------------------------------------------------------------------------

  /** The render outcome for a renderer: its new state and the dialog, if any. */
  function RenderInto(r: Option<Renderer>, doc: string): (res: (Option<Renderer>, Option<(string, string)>))
    ensures r.None? ==> res == (None, None)
    ensures r.Some? ==> res.0 == Some(Load(r.value, doc).0)
    ensures res.1.Some? <==> r.Some? && r.value.TkWeb? && !r.value.hasFrame
  {
    if r.None? then (None, None)
    else
      var (next, err) := Load(r.value, doc);
      (Some(next), if err.Some? then Some((RenderErrorTitle, err.value.msg)) else None)
  }

  /**
   * Tk's complaint when a command is sent to a destroyed widget; the
   * widget's own path name, which Tk appends, is not modelled.
   */
  const DestroyedWidgetMsg: string := "invalid command name"

  class PreviewEngine {
    /** The "HTML Source" text widget's content; `None` until `init_frame` creates it. */
    var sourceText: Option<string>
    /** The source widget was destroyed together with the notebook that holds it. */
    var sourceDestroyed: bool
    var renderer: Option<Renderer>
    /** The notebook exists and has not been destroyed. */
    var container: bool

    constructor()
      ensures sourceText == None && !sourceDestroyed && renderer == None && !container
    {
      sourceText := None;
      sourceDestroyed := false;
      renderer := None;
      container := false;
    }

    /** `init_frame`: builds both tabs and picks the renderer; returns the dialog shown, if any. */
    method InitFrame(env: Env) returns (dialog: Option<(string, string)>)
      modifies this
      ensures sourceText == Some([]) && !sourceDestroyed && container
      ensures renderer == Some(InitRenderer(env).0) && dialog == InitRenderer(env).1
    {
      sourceText := Some([]);
      sourceDestroyed := false;
      var backend := PreferredBackend(env);
      var setup := Setup(NewRenderer(backend), env);
      if setup.Success? {
        renderer := Some(setup.value);
        dialog := None;
      } else {
        var msg := setup.error.msg;
        if Contains(msg, "stubs mechanism") {
          dialog := None;
        } else {
          dialog := Some((SetupErrorTitle, msg));
        }
        var fallback := Setup(NewRenderer(ExternalBackend), env);
        renderer := Some(fallback.value);
      }
      container := true;
    }

    /**
     * `render(html)`: the source tab, when it exists, shows the wrapped
     * document, and the renderer, when there is one, loads it. When the
     * source widget was destroyed, its `config` raises `TclError` outside
     * the `try`, so the exception escapes and nothing changes.
     */
    method Render(html: string) returns (dialog: Option<(string, string)>, raised: Option<PyError>)
      modifies this
      ensures old(sourceText).Some? && old(sourceDestroyed) ==>
        && raised == Some(TclError(DestroyedWidgetMsg)) && dialog == None
        && sourceText == old(sourceText) && renderer == old(renderer)
      ensures !(old(sourceText).Some? && old(sourceDestroyed)) ==>
        && raised == None
        && sourceText == (if old(sourceText).Some? then Some(WrapDocument(html)) else None)
        && (renderer, dialog) == RenderInto(old(renderer), WrapDocument(html))
      ensures container == old(container) && sourceDestroyed == old(sourceDestroyed)
    {
      var full := WrapDocument(html);
      if sourceText.Some? {
        if sourceDestroyed {
          return None, Some(TclError(DestroyedWidgetMsg));
        }
        sourceText := Some(full);
      }
      var outcome := RenderInto(renderer, full);
      renderer, dialog := outcome.0, outcome.1;
      raised := None;
    }

    /**
     * `dispose()`: the renderer's widget and the notebook are destroyed,
     * and with the notebook the source widget inside it.
     */
    method Dispose()
      modifies this
      ensures renderer == if old(renderer).Some? then Some(DisposeRenderer(old(renderer).value)) else None
      ensures sourceText == old(sourceText) && !container
      ensures sourceDestroyed == (old(sourceDestroyed) || old(container))
    {
      if renderer.Some? {
        renderer := Some(DisposeRenderer(renderer.value));
      }
      if container {
        sourceDestroyed := true;
      }
      container := false;
    }
  }

  /**
   * After `init_frame`, every `render` leaves the web preview showing the
   * same text as the source tab, with no error dialog.
   */
  lemma {:induction false} RenderAfterInitAgrees(env: Env, html: string)
    ensures var (r, dialog) := RenderInto(Some(InitRenderer(env).0), WrapDocument(html));
      && dialog == None
      && r.Some? && r.value.Shown() == Some(WrapDocument(html))
  {
    InitRendererChoice(env);
    ReadyShowsRenderedText(InitRenderer(env).0, html);
  }
}
