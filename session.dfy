/** One session's presentation state machine: the `model` value, the
    messages it receives, the commands it returns, and `Update`. */
module Session {
  import opened Outcomes
  import opened Articles
  import Render

  /** The screens, numbered as the iota constants of the source. */
  const LOADING := 0
  const ARTICLE := 1
  const HOME := 2

  predicate KnownScreen(state: int) {
    state == LOADING || state == ARTICLE || state == HOME
  }

  /** Load progress in hundredths: it starts at 0, each tick adds 0.33, and
      1.00 ends the loading screen. */
  const LoadStep := 33
  const LoadDone := 100

  /** Margins the source subtracts from the window size. */
  const WidthMargin := 3
  const ViewportMargin := 4
  const StatusBarHeight := 1
  const HelpBarHeight := 1

  /** Wall-clock time as a number; only equality of times matters here. */
  type Time = int

  /** The article list widget: its items and the index of the selected one. */
  datatype ArticleList = ArticleList(items: seq<Article>, index: int)

  /** The article viewport widget. */
  datatype Viewport = Viewport(width: int, height: int, content: string, yOffset: int)

  /** The session's `model` (styles and the progress bar widget left out). */
  datatype Model = Model(
    state: int,
    width: int,
    height: int,
    time: Time,
    loadProgress: int,
    articleList: ArticleList,
    articleViewport: Viewport,
    currentArticle: Article)

  /** The message kinds Update can receive; ErrMsg is what a failed render
      sends back, OtherMsg any message type Update has no case for. */
  datatype Msg =
    | Tick
    | TimeMsg(t: Time)
    | WindowSize(w: int, h: int)
    | Key(name: string)
    | ContentRendered(text: string)
    | ErrMsg
    | OtherMsg

  /** Commands Update returns: nil, tea.Quit, loadCmd(), renderWithGlamour
      (with the wrap width and markdown its closure captured), or whatever a
      widget's own Update returned. */
  datatype Cmd = NoCmd | Quit | LoadTick | RenderCmd(width: int, markdown: string) | LibraryCmd

  /** What one call of Update returns. */
  datatype Step = Step(model: Model, cmd: Cmd)

  /** Everything Update consults outside the model: the article files that
      os.ReadFile sees (a missing key is a read error) and the widgets' own
      Update functions (opaque library code). */
  datatype Env = Env(
    files: map<string, string>,
    listStep: (ArticleList, string) -> ArticleList,
    viewportStep: (Viewport, Msg) -> Viewport)

  /** SelectedItem() is non-nil. */
  predicate HasSelection(l: ArticleList) {
    0 <= l.index < |l.items|
  }

  function SelectedPath(l: ArticleList): string
    requires HasSelection(l)
  {
    l.items[l.index].path
  }

  /** loadArticle: reads the selected item's file and builds the article. */
  function LoadArticle(m: Model, files: map<string, string>): (r: Outcome<Article>)
    ensures r.Done? <==>
      HasSelection(m.articleList) && SelectedPath(m.articleList) != ""
      && SelectedPath(m.articleList) in files
      && |SelectedPath(m.articleList)| >= PrefixLength + SuffixLength
    ensures !HasSelection(m.articleList) ==> r == Abort(NilSelection)
    ensures HasSelection(m.articleList) ==>
      var p := SelectedPath(m.articleList);
      && (p == "" ==> r == Abort(MissingPath))
      && (p != "" && p !in files ==> r == Abort(ReadFailed(p)))
      && (p != "" && p in files && |p| < PrefixLength + SuffixLength ==> r == Abort(LoadTitlePanic(p)))
    ensures r.Done? ==>
      var p := SelectedPath(m.articleList);
      r.value.path == p && r.value.body == files[p] && r.value.title == Title(p) && r.value.description == ""
  {
    if !HasSelection(m.articleList) then Abort(NilSelection)
    else
      var path := SelectedPath(m.articleList);
      if path == "" then Abort(MissingPath)
      else if path !in files then Abort(ReadFailed(path))
      else if |path| < PrefixLength + SuffixLength then Abort(LoadTitlePanic(path))
      else Done(Article(Title(path), path, files[path], ""))
  }

  /** The receiver copy as setViewportSize leaves it: the viewport takes the
      given width and leaves room for the status and help bars. With a value
      receiver this copy is dropped when the method returns. */
  function SetViewportSize(m: Model, width: int, height: int): (r: Model)
    ensures r.articleViewport.width == width
    ensures r.articleViewport.height + StatusBarHeight + HelpBarHeight == height
    ensures r.articleViewport.content == m.articleViewport.content
    ensures r.articleViewport.yOffset == m.articleViewport.yOffset
    ensures r.(articleViewport := m.articleViewport) == m
  {
    m.(articleViewport := m.articleViewport.(width := width, height := height - StatusBarHeight - HelpBarHeight))
  }

  /** The receiver copy as setContent leaves it (dropped, as above; the
      widget's own offset adjustment is not modelled). */
  function SetContent(m: Model, content: string): Model {
    m.(articleViewport := m.articleViewport.(content := content))
  }

  /** The receiver copy as unload leaves it (dropped, as above). */
  function Unload(m: Model): Model {
    m.(articleViewport := m.articleViewport.(content := "", yOffset := 0))
  }

  /** The two assignments every screen makes on a WindowSizeMsg. */
  function Resized(m: Model, w: int, h: int): Model {
    m.(height := h, width := w - WidthMargin)
  }

  /** model.Update. */
  function Update(m: Model, msg: Msg, env: Env): (r: Outcome<Step>)
    ensures r.Done? ==> KnownScreen(r.value.model.state)
    ensures r.Done? ==> r.value.model.loadProgress >= m.loadProgress
  {
    if m.state == LOADING then
      match msg
      case Tick =>
        if m.loadProgress < LoadDone then Done(Step(m.(loadProgress := m.loadProgress + LoadStep), LoadTick))
        else Done(Step(m.(state := HOME), NoCmd))
      case TimeMsg(t) => Done(Step(m.(time := t), NoCmd))
      case WindowSize(w, h) => Done(Step(Resized(m, w, h), NoCmd))
      case Key(_) => Done(Step(m, NoCmd))
      case ContentRendered(_) => Done(Step(m, NoCmd))
      case _ => Abort(SwitchFailed)
    else if m.state == HOME then
      match msg
      case Tick => Done(Step(m, NoCmd))
      case TimeMsg(t) => Done(Step(m.(time := t), NoCmd))
      case WindowSize(w, h) =>
        // m.setViewportSize(h - 4, w - 4) changes only a copy, which is dropped
        Done(Step(Resized(m, w, h), NoCmd))
      case Key(k) =>
        if k == "q" || k == "ctrl+c" then Done(Step(m, Quit))
        else if k == "enter" then
          match LoadArticle(m, env.files)
          case Abort(f) => Abort(f)
          case Done(a) =>
            var m1 := m.(currentArticle := a, state := ARTICLE);
            Done(Step(m1, RenderCmd(m1.articleViewport.width, m1.currentArticle.body)))
        else Done(Step(m.(articleList := env.listStep(m.articleList, k)), LibraryCmd))
      case ContentRendered(_) => Done(Step(m, NoCmd))
      case _ => Abort(SwitchFailed)
    else if m.state == ARTICLE then
      match msg
      case Tick => Done(Step(m, NoCmd))
      case TimeMsg(t) => Done(Step(m.(time := t), NoCmd))
      case WindowSize(w, h) =>
        // m.setViewportSize(h - 4, w - 4) changes only a copy, which is dropped
        var m1 := Resized(m, w, h);
        Done(Step(m1, RenderCmd(m1.articleViewport.width, m1.currentArticle.body)))
      case Key(k) =>
        if k == "q" || k == "ctrl+c" then
          // m.unload() changes only a copy, which is dropped
          Done(Step(m.(state := HOME), NoCmd))
        else Done(Step(m.(articleViewport := env.viewportStep(m.articleViewport, msg)), LibraryCmd))
      case ContentRendered(_) =>
        // m.setContent(string(msg)) changes only a copy, which is dropped
        Done(Step(m.(articleViewport := env.viewportStep(m.articleViewport, msg)), LibraryCmd))
      case _ => Abort(SwitchFailed)
    else Abort(StateOutOfBounds(m.state))
  }

  /** The message the renderWithGlamour closure delivers. */
  function RenderReply(width: int, markdown: string, renderer: (int, string) -> Render.Rendering): Msg {
    match renderer(width, markdown)
    case Rendered(s) => ContentRendered(s)
    case RenderFailed => ErrMsg
  }

  /** Running the command renderWithGlamour returns. */
  method RenderWithGlamour(width: int, markdown: string, renderer: (int, string) -> Render.Rendering)
    returns (msg: Msg)
    ensures msg == RenderReply(width, markdown, renderer)
    ensures msg.ContentRendered? || msg.ErrMsg?
  {
    var s := Render.GlamourRender(width, markdown, renderer);
    if s.RenderFailed? {
      msg := ErrMsg;
    } else {
      msg := ContentRendered(s.text);
    }
  }

  /** The label composeStatusBar shows beside the time. */
  function StatusLabel(m: Model): (caption: string)
    ensures caption == "AN ARTICLE" <==> m.state == ARTICLE
    ensures caption == "HOME \U{1FABA}" <==> m.state != ARTICLE
  {
    if m.state == ARTICLE then "AN ARTICLE" else "HOME \U{1FABA}"
  }

  /** Update applied to the messages in arrival order, stopping at a fatal
      outcome. The commands are dropped, so messages after a Quit command are
      still applied here although the program loop would have ended. */
  function Run(m: Model, msgs: seq<Msg>, env: Env): Outcome<Model>
    decreases |msgs|
  {
    if msgs == [] then Done(m)
    else match Update(m, msgs[0], env)
      case Abort(f) => Abort(f)
      case Done(s) => Run(s.model, msgs[1..], env)
  }

  /** The model a new session starts with. */
  function InitialModel(width: int, height: int, now: Time, items: seq<Article>): Model {
    Model(LOADING, width, height, now, 0, ArticleList(items, 0),
          Viewport(width - ViewportMargin, height - ViewportMargin, "", 0), EmptyArticle)
  }

  /** How teaHandler starts a session: no terminal, a fatal walk, or the
      initial model with the command Init returns. */
  datatype Start = NoTerminal | StartAborted(reason: Fatal) | Started(step: Step)

  /** teaHandler: refuses a session without a terminal, walks the articles,
      then builds the initial model; Init schedules the first tick. */
  method NewSession(active: bool, width: int, height: int, now: Time, walk: seq<WalkEntry>)
    returns (s: Start)
    ensures !active ==> s == NoTerminal
    ensures active && Enumerate(walk).Abort? ==> s == StartAborted(Enumerate(walk).reason)
    ensures active && Enumerate(walk).Done? ==>
      s == Started(Step(InitialModel(width, height, now, Enumerate(walk).value), LoadTick))
  {
    if !active {
      return NoTerminal;
    }
    var found := FindArticles(walk);
    match found
    case Abort(f) => s := StartAborted(f);
    case Done(items) => s := Started(Step(InitialModel(width, height, now, items), LoadTick));
  }
}
