# Session state machine of a terminal article browser

The program is an SSH server. Every client that connects gets its own
terminal session running a small Bubble Tea program. The session first shows
a loading bar. It then shows a home screen listing the markdown articles
compiled into the binary. Pressing enter opens the selected article, rendered
to styled text by the Glamour renderer.

This project models that per-session core of `main.go` in Dafny:

- `Outcomes` (`outcomes.dfy`): the fatal conditions, as an explicit `Abort`
  outcome. Every `log.Fatal` call exits the whole process, and so does a
  slice panic in the `WalkDir` callback. The two panics raised through
  `loadArticle` inside `model.Update` are different. These are a nil
  selection and a too-short path. Bubble Tea's program loop recovers panics
  by default, and main.go:486 does not turn that off. So these two end only
  that session. The predicate `EndsProcess` records which conditions end the
  process.
- `Articles` (`articles.dfy`): the `article` list item and the title rule
  `path[9:len(path)-3]`. It also holds the per-session walk of the embedded
  `articles` directory, as the loop method `FindArticles` over a sequence of
  walk entries, proved against the function `Enumerate`.
- `Render` (`render.dfy`): `glamourRender`. The foreign renderer is a
  parameter that may fail. The split-and-rewrite loop over the builder is the
  method `GlamourRender`. It is proved to return exactly the renderer's
  output, using the round trip `Join(Split(s)) == s`.
- `Session` (`session.dfy`): the `model` value, the message and command
  kinds, `loadArticle`, `model.Update`, the `renderWithGlamour` command, the
  status-bar label, and session start-up (`teaHandler` with `Init`).
- `SessionProperties` (`session_properties.dfy`): lemmas about `Update`.

Modelling choices:

- Screens are the integers `LOADING = 0`, `ARTICLE = 1`, `HOME = 2`, as in
  the source. This keeps the "state out of bounds" branch of `Update`.
- Load progress is counted in hundredths: it starts at 0, a tick adds 33,
  and the threshold is 100. The float values the source produces (0, .33,
  .66, .99, 1.32) fall on the same sides of 1, so this is exact.
- `setViewportSize`, `setContent` and `unload` have value receivers. The
  model writes each one as the function that builds the modified copy, and
  `Update` drops that copy, as the Go code does. So the viewport is changed
  only by the viewport widget's own `Update`. A render request uses the
  viewport's current width, and no resize changes that width.
- The widgets' own `Update` functions (`list.Model.Update`,
  `viewport.Model.Update`) are opaque function parameters in `Env`. The
  command they return is the abstract `LibraryCmd`. `os.ReadFile` is the map
  `Env.files`, and a missing key is a read error.
- Time is an abstract integer. The periodic clock goroutine and `tea.Tick`
  appear only as the `TimeMsg` and `Tick` messages.

Consequences of the code that the lemmas make explicit:

- A failed render sends `errMsg`. No screen handles it, so `log.Fatal` at
  main.go:385 stops the process (`FailedRenderIsFatal`).
- A missing or unreadable selected article stops the process through
  `log.Fatal` at main.go:265 or main.go:270 (`HomeEnterOpensSelected`).
- Rendered content reaches the viewport only as a message to the viewport
  widget. The copy `setContent` writes is dropped
  (`RenderedContentNotStored`).
- Backing out of an article keeps the current article and the viewport
  (`ArticleQuitKeysGoHome`).
- From a fresh session the first four ticks raise the progress by 0.33 each, to 1.32, and the fifth tick moves to HOME (`FreshSessionHomeOnFifthTick`).
- Selection and scrolling are up to the list and viewport widgets, which are
  opaque here.

## Model

| member | source | states |
|---|---|---|
| Articles.Title | main.go:274 | for a path of at least 12 characters the title is 12 characters shorter than the path, and the path is the 9-character prefix, then the title, then the 3-character suffix |
| Articles.TitleOfArticleFile | main.go:443 | the title of `"articles/" + t + ".md"` is `t` |
| Articles.TitleInjectiveOnFrame | main.go:440-447 | paths sharing the prefix and suffix have equal titles if and only if they are equal paths |
| Articles.Visit | main.go:436-450 | the callback reaches a fatal outcome exactly on a walk error (as `log.Fatal`) or a ".md" path too short for the title rule; otherwise it keeps the items found so far and appends one item, with the path, its derived title and an empty body and description, exactly when the path contains ".md" |
| Articles.AbortPersists | main.go:437-439 | once a prefix of the walk has stopped the process, the whole walk has the same fatal outcome |
| Articles.EnumerateSucceedsIff | main.go:436-450 | the walk completes if and only if no entry is a walk error and every path containing ".md" is long enough for the title rule |
| Articles.EnumerateLists | main.go:440-447 | a completed walk lists exactly the walked paths containing ".md", in walk order, each with its derived title and an empty body |
| Articles.KeptPathsMembers | main.go:440 | a path is kept if and only if it was walked and contains ".md" |
| Articles.KeptPathsAppend | main.go:436-450 | the filter distributes over concatenation of walks, so walk order is kept |
| Articles.FindArticles | main.go:435-450 | the callback loop returns what `Enumerate` defines: the first fatal entry's outcome, or the list of items |
| Render.Split | main.go:233 | `strings.Split` on "\n" yields at least one piece, and no piece contains "\n" |
| Render.JoinSplit | main.go:233-242 | writing the split pieces back with "\n" between neighbours gives back the original text |
| Render.SplitJoin | main.go:233-242 | splitting such a join of newline-free pieces gives back the pieces |
| Render.GlamourRender | main.go:215-243 | the result is exactly the renderer's output, or the renderer's error |
| Session.LoadArticle | main.go:262-279 | loading succeeds if and only if an item is selected and its path is nonempty, readable and at least 12 characters long; the article then has that path, the file's contents, the derived title and an empty description; otherwise the outcome is, in this order, a nil-selection panic, the missing-path fatal, the read fatal for that path, or the title slice panic for that path |
| Session.SetViewportSize | main.go:205-209 | the receiver copy gets the given viewport width and a height that leaves room for the status and help bars; nothing else changes |
| Session.Update | main.go:290-387 | a non-fatal step always lands on one of the three screens and never lowers the load progress |
| Session.RenderWithGlamour | main.go:245-254 | the render command delivers the rendered text as `contentRenderedMsg`, or `errMsg` when the renderer fails |
| Session.StatusLabel | main.go:189-195 | the label is "AN ARTICLE" if and only if the screen is ARTICLE, otherwise "HOME 🪺" |
| Session.NewSession | main.go:425-487 | without a terminal no session starts; a fatal walk stops the start; otherwise the session starts LOADING at progress 0 with the walked items, an empty article and a viewport of the window size minus 4, and Init returns the first tick |
| SessionProperties.LoadingTick | main.go:296-304 | on the loading screen a tick below 1.00 adds 0.33 and schedules the next tick; from 1.00 on it moves to HOME with no command |
| SessionProperties.LoadingTicksStayLoading | main.go:296-300 | before the TicksToHome-th tick the session stays loading and each tick adds 0.33 |
| SessionProperties.LoadingTicksReachHome | main.go:297-303 | the TicksToHome-th tick moves the session to HOME |
| SessionProperties.FreshSessionHomeOnFifthTick | main.go:296-304 | from progress 0, after k < 5 ticks the session is still loading at 0.33·k, and the fifth tick reaches HOME |
| SessionProperties.RunKeepsProgress | main.go:290-387 | along any message sequence the load progress never decreases |
| SessionProperties.RunNeverLeavesScreens | main.go:381-383 | from a known screen no message sequence reaches the "state out of bounds" fatal path |
| SessionProperties.TimeChangesOnlyTime | main.go:305-358 | a `timeMsg` on any screen sets the time, changes nothing else and returns no command |
| SessionProperties.ResizeSetsDimensions | main.go:308-363 | a resize on any screen sets height to H and width to W - 3 and keeps the screen; only on ARTICLE it returns a re-render of the current body at the viewport's unchanged width |
| SessionProperties.ResizeIdempotent | main.go:308-363 | repeating the same resize changes nothing further |
| SessionProperties.ResizesKeepLast | main.go:308-363 | after any nonempty run of resizes the screen is unchanged and the last size is in force |
| SessionProperties.ResizeCopySwapsArguments | main.go:331-362 | on home and article, the resize passes (H - 4, W - 4) into (width, height), so the setter's copy would have width H - 4 and height W - 6; the returned viewport is the old one |
| SessionProperties.HomeQuitKeys | main.go:336-337 | "q" or "ctrl+c" on the home screen returns the quit command and an unchanged model |
| SessionProperties.HomeEnterOpensSelected | main.go:338-341 | "enter" on home is fatal if and only if the selected article cannot be loaded, and that ends the process if and only if an item is selected and its path is empty or unreadable (the two panics end only the session); otherwise the screen becomes ARTICLE with the selected path, that file's body, the derived title and an empty description, and the command renders that body |
| SessionProperties.HomeOtherKeys | main.go:342-344 | any other key on home stays home and changes only the list, through the list widget |
| SessionProperties.ArticleOtherKeys | main.go:371-373 | any other key on the article screen stays on it, changes only the viewport through the viewport widget, and returns the widget's command |
| SessionProperties.ArticleQuitKeysGoHome | main.go:367-370 | "q" or "ctrl+c" on the article screen goes HOME without quitting and keeps the current article and the viewport |
| SessionProperties.EnterThenBack | main.go:338-370 | opening an article and backing out gives the original home model, except that the current article is now the loaded one |
| SessionProperties.IgnoredMessages | main.go:312-355 | a key or rendered content while loading, rendered content on home, and a tick on home or article leave the model unchanged with no command |
| SessionProperties.FatalExactly | main.go:381-386 | Update reaches a fatal outcome if and only if the screen is unknown, the message is unhandled (such as `errMsg`), or "enter" on home cannot load the article; a fatal outcome that does not end the process comes only from "enter" on home |
| SessionProperties.FailedRenderIsFatal | main.go:245-252 | the reply of a failed render reaches a fatal outcome that ends the process, on every screen |
| SessionProperties.ViewportOnlyChangedByWidget | main.go:205-213 | the viewport after a step is either unchanged or the viewport widget's own update; every render request uses the old viewport width |
| SessionProperties.RenderedContentNotStored | main.go:375-378 | rendered content on the article screen only goes to the viewport widget as a message; the copy `setContent` wrote is dropped |
| SessionProperties.UnloadCopyDropped | main.go:281-284 | backing out of an article returns the viewport unload's copy would have had if and only if the viewport was already empty and at the top, because the copy is dropped |
| SessionProperties.SetContentCopyDropped | main.go:211-213 | on rendered content the viewport widget receives the old viewport, which equals setContent's copy if and only if it already held that text |
| SessionProperties.StatusLabelFollowsScreen | main.go:189-195 | the label reads "AN ARTICLE" after opening an article and the home label again after backing out |

## Left out

- The SSH server, host key, middleware chain and signal-driven shutdown with its 30 s timeout: network I/O and process lifecycle.
- The goroutine that sends a `timeMsg` every second, and the one-second `tea.Tick` of `loadCmd`: timers and concurrency. They appear only as the `TimeMsg` and `Tick` messages.
- Glamour markdown rendering itself: a foreign library. It appears as a renderer parameter that returns text or fails.
- The internals of the list and viewport widgets' `Update`: foreign library code. They are opaque functions, so no selection clamping or scroll bounds are claimed.
- `View`, `composeLoadingBar`, `composeHomePage`, `composeArticle` and the style tables: static styling and layout with float scaling. Only the status-bar label choice is modelled.
- The list widget's size, title and display flags set in `teaHandler`: widget configuration.
- The embedded file system and `os.ReadFile`: they appear as the walk-entry sequence and the `files` map.
- Time formatting (RFC 1123) and all logging: output only.
- Articles.Title: lengths and slice bounds are counted in characters, while Go's `len(path)` and `path[9:len(path)-3]` count UTF-8 bytes. So a path whose first nine or last three characters are not all ASCII gets a different title, and a short path with multi-byte characters is judged too short. For paths of the form "articles/" + t + ".md" both agree. Substring search for ".md" is the same in both.
- Session.LoadArticle: the same character-for-byte counting applies to its 12-length threshold and to the title it derives.
- Outcomes.EndsProcess: that Bubble Tea recovers a panic inside `Update` and ends only that session is library behaviour; the model only records it.
- The renderer style, the Bubble Tea program options and the terminal renderer of `teaHandler`: library configuration.
