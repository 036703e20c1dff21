/** Properties of the session state machine: the loading sequence, the
    messages every screen treats alike, the home and article keys, the
    fatal outcomes, and what the value-receiver setters leave untouched. */
module SessionProperties {
  import opened Outcomes
  import opened Articles
  import opened Session
  import Render

  /** n tick messages. */
  function Ticks(n: nat): seq<Msg> {
    seq(n, _ => Tick)
  }

  /** How many ticks the loading screen takes from progress p to reach HOME. */
  function TicksToHome(p: int): nat
    decreases if p < LoadDone then LoadDone - p else 0
  {
    if p >= LoadDone then 1 else 1 + TicksToHome(p + LoadStep)
  }

  /** A tick on the loading screen: below 1.00 it adds 0.33 and schedules the
      next tick; from 1.00 on it moves to HOME with nothing else changed. */
  lemma LoadingTick(m: Model, env: Env)
    requires m.state == LOADING
    ensures m.loadProgress < LoadDone ==>
      Update(m, Tick, env) == Done(Step(m.(loadProgress := m.loadProgress + LoadStep), LoadTick))
    ensures m.loadProgress >= LoadDone ==>
      Update(m, Tick, env) == Done(Step(m.(state := HOME), NoCmd))
  {
  }

  /** Fewer ticks than TicksToHome leave the session loading, 0.33 further per tick. */
  lemma {:induction false} LoadingTicksStayLoading(m: Model, k: nat, env: Env)
    requires m.state == LOADING
    requires k < TicksToHome(m.loadProgress)
    ensures Run(m, Ticks(k), env) == Done(m.(loadProgress := m.loadProgress + LoadStep * k))
    decreases k
  {
    if k > 0 {
      var m1 := m.(loadProgress := m.loadProgress + LoadStep);
      assert Update(m, Tick, env) == Done(Step(m1, LoadTick));
      assert Ticks(k)[1..] == Ticks(k - 1);
      LoadingTicksStayLoading(m1, k - 1, env);
      assert m1.(loadProgress := m1.loadProgress + LoadStep * (k - 1))
          == m.(loadProgress := m.loadProgress + LoadStep * k);
    } else {
      assert m.(loadProgress := m.loadProgress + LoadStep * k) == m;
    }
  }

  /** The TicksToHome-th tick moves the session to HOME. */
  lemma {:induction false} LoadingTicksReachHome(m: Model, env: Env)
    requires m.state == LOADING
    ensures Run(m, Ticks(TicksToHome(m.loadProgress)), env)
         == Done(m.(state := HOME, loadProgress := m.loadProgress + LoadStep * (TicksToHome(m.loadProgress) - 1)))
    decreases TicksToHome(m.loadProgress)
  {
    var n := TicksToHome(m.loadProgress);
    if m.loadProgress >= LoadDone {
      assert Ticks(n)[1..] == [];
      assert m.(state := HOME, loadProgress := m.loadProgress + LoadStep * (n - 1)) == m.(state := HOME);
    } else {
      var m1 := m.(loadProgress := m.loadProgress + LoadStep);
      assert Update(m, Tick, env) == Done(Step(m1, LoadTick));
      assert Ticks(n)[1..] == Ticks(n - 1);
      LoadingTicksReachHome(m1, env);
    }
  }

  /** From a fresh session, HOME is reached on exactly the fifth tick, never
      earlier: progress runs 0, 0.33, 0.66, 0.99, 1.32 and then the screen changes. */
  lemma FreshSessionHomeOnFifthTick(width: int, height: int, now: Time, items: seq<Article>, env: Env)
    ensures var m := InitialModel(width, height, now, items);
      && (forall k: nat :: k < 5 ==> Run(m, Ticks(k), env) == Done(m.(loadProgress := LoadStep * k)))
      && Run(m, Ticks(5), env) == Done(m.(state := HOME, loadProgress := 132))
  {
    var m := InitialModel(width, height, now, items);
    assert TicksToHome(132) == 1 && TicksToHome(99) == 2 && TicksToHome(66) == 3;
    assert TicksToHome(33) == 4 && TicksToHome(0) == 5;
    forall k: nat | k < 5
      ensures Run(m, Ticks(k), env) == Done(m.(loadProgress := LoadStep * k))
    {
      LoadingTicksStayLoading(m, k, env);
    }
    LoadingTicksReachHome(m, env);
  }

  /** Along any message sequence the load progress never decreases. */
  lemma {:induction false} RunKeepsProgress(m: Model, msgs: seq<Msg>, env: Env)
    requires Run(m, msgs, env).Done?
    ensures Run(m, msgs, env).value.loadProgress >= m.loadProgress
    decreases |msgs|
  {
    if msgs != [] {
      RunKeepsProgress(Update(m, msgs[0], env).value.model, msgs[1..], env);
    }
  }

  /** From a known screen no sequence of messages reaches an unknown one. */
  lemma {:induction false} RunNeverLeavesScreens(m: Model, msgs: seq<Msg>, env: Env)
    requires KnownScreen(m.state)
    ensures Run(m, msgs, env).Abort? ==> !Run(m, msgs, env).reason.StateOutOfBounds?
    ensures Run(m, msgs, env).Done? ==> KnownScreen(Run(m, msgs, env).value.state)
    decreases |msgs|
  {
    if msgs != [] && Update(m, msgs[0], env).Done? {
      RunNeverLeavesScreens(Update(m, msgs[0], env).value.model, msgs[1..], env);
    }
  }

  /** A clock message on any screen sets the time and nothing else. */
  lemma TimeChangesOnlyTime(m: Model, t: Time, env: Env)
    requires KnownScreen(m.state)
    ensures Update(m, TimeMsg(t), env) == Done(Step(m.(time := t), NoCmd))
  {
  }

  /** A resize on any screen sets height to H and width to W - 3, leaves the
      screen and all else as it was, and only on the article screen asks for
      a re-render of the current article (at the viewport's unchanged width). */
  lemma ResizeSetsDimensions(m: Model, w: int, h: int, env: Env)
    requires KnownScreen(m.state)
    ensures Update(m, WindowSize(w, h), env).Done?
    ensures var s := Update(m, WindowSize(w, h), env).value;
      && s.model == m.(width := w - WidthMargin, height := h)
      && s.model.state == m.state
      && s.cmd == if m.state == ARTICLE then RenderCmd(m.articleViewport.width, m.currentArticle.body) else NoCmd
  {
  }

  /** Repeating a resize changes nothing further. */
  lemma ResizeIdempotent(m: Model, w: int, h: int, env: Env)
    requires KnownScreen(m.state)
    ensures var once := Update(m, WindowSize(w, h), env).value.model;
      Update(once, WindowSize(w, h), env).value.model == once
  {
  }

  /** A nonempty run of resizes keeps the screen and leaves the last size in force. */
  lemma {:induction false} ResizesKeepLast(m: Model, sizes: seq<(int, int)>, env: Env)
    requires KnownScreen(m.state) && |sizes| > 0
    ensures var last := sizes[|sizes| - 1];
      Run(m, seq(|sizes|, k requires 0 <= k < |sizes| => WindowSize(sizes[k].0, sizes[k].1)), env)
      == Done(m.(width := last.0 - WidthMargin, height := last.1))
    decreases |sizes|
  {
    var msgs := seq(|sizes|, k requires 0 <= k < |sizes| => WindowSize(sizes[k].0, sizes[k].1));
    ResizeSetsDimensions(m, sizes[0].0, sizes[0].1, env);
    var m1 := m.(width := sizes[0].0 - WidthMargin, height := sizes[0].1);
    if |sizes| == 1 {
      assert msgs[1..] == [];
    } else {
      var rest := sizes[1..];
      ResizesKeepLast(m1, rest, env);
      assert msgs[1..] == seq(|rest|, k requires 0 <= k < |rest| => WindowSize(rest[k].0, rest[k].1));
    }
  }

  /** The resize branches of the home and article screens pass (H - 4, W - 4)
      into setViewportSize(width, height), so its copy would get width H - 4
      and height W - 6; the copy is dropped and the returned viewport is the
      old one. */
  lemma ResizeCopySwapsArguments(m: Model, w: int, h: int, env: Env)
    requires m.state == HOME || m.state == ARTICLE
    ensures var copy := SetViewportSize(Resized(m, w, h), h - ViewportMargin, w - ViewportMargin);
      copy.articleViewport.width == h - ViewportMargin
      && copy.articleViewport.height == w - ViewportMargin - StatusBarHeight - HelpBarHeight
    ensures Update(m, WindowSize(w, h), env).value.model.articleViewport == m.articleViewport
  {
  }

  /** "q" or "ctrl+c" on the home screen quits the program and changes nothing. */
  lemma HomeQuitKeys(m: Model, k: string, env: Env)
    requires m.state == HOME && (k == "q" || k == "ctrl+c")
    ensures Update(m, Key(k), env) == Done(Step(m, Quit))
  {
  }

  /** "enter" on the home screen opens the selected article: the screen becomes
      ARTICLE, the current article is the selected path with that file's
      contents, and the command renders its body; it is fatal exactly when
      nothing is selected, the path is empty or too short, or the read fails. */
  lemma HomeEnterOpensSelected(m: Model, env: Env)
    requires m.state == HOME
    ensures Update(m, Key("enter"), env).Abort? <==>
      !HasSelection(m.articleList) || SelectedPath(m.articleList) == ""
      || SelectedPath(m.articleList) !in env.files
      || |SelectedPath(m.articleList)| < PrefixLength + SuffixLength
    ensures Update(m, Key("enter"), env).Abort? ==>
      (EndsProcess(Update(m, Key("enter"), env).reason) <==>
        HasSelection(m.articleList)
        && (SelectedPath(m.articleList) == "" || SelectedPath(m.articleList) !in env.files))
    ensures Update(m, Key("enter"), env).Done? ==>
      var p := SelectedPath(m.articleList);
      var s := Update(m, Key("enter"), env).value;
      && s.model.state == ARTICLE
      && s.model.currentArticle.path == p
      && s.model.currentArticle.body == env.files[p]
      && s.model.currentArticle.title == Title(p)
      && s.model.currentArticle.description == ""
      && s.model == m.(state := ARTICLE, currentArticle := s.model.currentArticle)
      && s.cmd == RenderCmd(m.articleViewport.width, env.files[p])
  {
  }

  /** Any other key on the home screen stays home and goes to the list widget. */
  lemma HomeOtherKeys(m: Model, k: string, env: Env)
    requires m.state == HOME && k != "q" && k != "ctrl+c" && k != "enter"
    ensures Update(m, Key(k), env) == Done(Step(m.(articleList := env.listStep(m.articleList, k)), LibraryCmd))
  {
  }

  /** Any other key on the article screen stays on it and changes only the
      viewport, through the viewport widget. */
  lemma ArticleOtherKeys(m: Model, k: string, env: Env)
    requires m.state == ARTICLE && k != "q" && k != "ctrl+c"
    ensures Update(m, Key(k), env) == Done(Step(m.(articleViewport := env.viewportStep(m.articleViewport, Key(k))), LibraryCmd))
  {
  }

  /** "q" or "ctrl+c" on the article screen goes back home instead of quitting;
      because unload works on a copy, the current article and the viewport
      are kept. */
  lemma ArticleQuitKeysGoHome(m: Model, k: string, env: Env)
    requires m.state == ARTICLE && (k == "q" || k == "ctrl+c")
    ensures Update(m, Key(k), env) == Done(Step(m.(state := HOME), NoCmd))
    ensures Update(m, Key(k), env).value.model.currentArticle == m.currentArticle
  {
  }

  /** Opening an article and backing out returns to the home model with the
      same selection; only the current article differs, now the loaded one. */
  lemma EnterThenBack(m: Model, env: Env)
    requires m.state == HOME && LoadArticle(m, env.files).Done?
    ensures Run(m, [Key("enter"), Key("q")], env) == Done(m.(currentArticle := LoadArticle(m, env.files).value))
  {
  }

  /** The combinations the source only logs leave the model unchanged and
      return no command: a key or rendered content while loading, rendered
      content on the home screen, a tick on the home or article screen. */
  lemma IgnoredMessages(m: Model, msg: Msg, env: Env)
    requires
      || (m.state == LOADING && (msg.Key? || msg.ContentRendered?))
      || (m.state == HOME && msg.ContentRendered?)
      || ((m.state == HOME || m.state == ARTICLE) && msg.Tick?)
    ensures Update(m, msg, env) == Done(Step(m, NoCmd))
  {
  }

  /** Update stops the process exactly when the screen is unknown, the message
      is one no screen handles (among them the error a failed render sends),
      or "enter" on the home screen cannot load the selected article. */
  lemma FatalExactly(m: Model, msg: Msg, env: Env)
    ensures Update(m, msg, env).Abort? <==>
      || !KnownScreen(m.state)
      || msg.ErrMsg? || msg.OtherMsg?
      || (m.state == HOME && msg == Key("enter") && LoadArticle(m, env.files).Abort?)
    ensures Update(m, msg, env).Abort? && !EndsProcess(Update(m, msg, env).reason) ==>
      m.state == HOME && msg == Key("enter")
  {
  }

  /** A failed render ends the process whatever screen the session is on. */
  lemma FailedRenderIsFatal(m: Model, width: int, markdown: string,
                            renderer: (int, string) -> Render.Rendering, env: Env)
    requires renderer(width, markdown).RenderFailed?
    ensures Update(m, RenderReply(width, markdown, renderer), env).Abort?
    ensures EndsProcess(Update(m, RenderReply(width, markdown, renderer), env).reason)
  {
  }

  /** The article viewport is only ever changed by the viewport widget itself:
      resizes, rendered content and unload do not reach it, and a render
      request uses the viewport width the model had before the step. */
  lemma ViewportOnlyChangedByWidget(m: Model, msg: Msg, env: Env)
    requires Update(m, msg, env).Done?
    ensures var v := Update(m, msg, env).value.model.articleViewport;
      v == m.articleViewport || v == env.viewportStep(m.articleViewport, msg)
    ensures Update(m, msg, env).value.cmd.RenderCmd? ==>
      Update(m, msg, env).value.cmd.width == m.articleViewport.width
  {
  }

  /** Rendered content arriving on the article screen is handed to the
      viewport widget as a message only: setContent's assignment is lost. */
  lemma RenderedContentNotStored(m: Model, s: string, env: Env)
    requires m.state == ARTICLE
    ensures Update(m, ContentRendered(s), env)
         == Done(Step(m.(articleViewport := env.viewportStep(m.articleViewport, ContentRendered(s))), LibraryCmd))
  {
  }

  /** Backing out of an article returns the viewport unload's copy would
      have had only when the viewport was already empty and at the top. */
  lemma UnloadCopyDropped(m: Model, k: string, env: Env)
    requires m.state == ARTICLE && (k == "q" || k == "ctrl+c")
    ensures Update(m, Key(k), env).value.model.articleViewport == Unload(m).articleViewport
      <==> m.articleViewport.content == "" && m.articleViewport.yOffset == 0
  {
  }

  /** On rendered content the viewport widget is handed the viewport
      setContent's copy would have had only when it already held that text. */
  lemma SetContentCopyDropped(m: Model, s: string, env: Env)
    requires m.state == ARTICLE
    ensures Update(m, ContentRendered(s), env).value.model.articleViewport
         == env.viewportStep(m.articleViewport, ContentRendered(s))
    ensures m.articleViewport == SetContent(m, s).articleViewport <==> m.articleViewport.content == s
  {
  }

  /** The status bar reads "AN ARTICLE" after opening an article and the home
      label again after backing out. */
  lemma StatusLabelFollowsScreen(m: Model, env: Env)
    requires m.state == HOME && LoadArticle(m, env.files).Done?
    ensures StatusLabel(m) == "HOME \U{1FABA}"
    ensures StatusLabel(Update(m, Key("enter"), env).value.model) == "AN ARTICLE"
    ensures StatusLabel(Run(m, [Key("enter"), Key("q")], env).value) == "HOME \U{1FABA}"
  {
  }
}
