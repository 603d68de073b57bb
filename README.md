# schnur navigation client in Dafny

schnur is a terminal client that browses by following URLs. Each URL
yields a small JSON document. The document describes either a search prompt,
whose results come from a debounced query, or a list to pick from. A run
produces the next URL, and the client stops at "".

This project models the decisions the client makes and proves what they
guarantee:

- how `zoro:` and `zoros:` URLs are resolved against the configured base;
- how a URL is routed to HTTP or to a file;
- how media types are found and which resources are buffered;
- the player's argument vector;
- how `execURL` dispatches on a document, and the loop in `main`;
- the debounce controller of the search field;
- the focus and selection rules of the search prompt;
- how lists are rendered and what `List.Run` returns.

Modules, one per concern:

- `Common`: `Option`, `Result`, the errors, and bytes.
- `Urls`: the part of `url.Parse` the client relies on, `resolveURL`, and `url.PathEscape`/`PathUnescape`.
- `Net`: the outside world, as a map from URL to response and from path to file.
- `Loading`: `loader.go`.
- `Lists`: `list.go` and the list widget.
- `Specs`: the decoded document.
- `Debouncing`: the `debounce` struct of `search.go`.
- `Searching`: `Search.Run`.
- `Navigation`: `execURL` and `main`.

Conventions of the model:

- Where the source mutates state, the model does too:
  - `Debouncer`, `ListWidget`, `SearchSession`, `Stream` and `Resource` are classes;
  - `Render` and `Drive` are loops.
- Each such method is proved against a function on values, and the properties are proved about that function.
- A panic is the error value `Panic(reason)`.
- `fmt.Errorf("ctx: %w", e)` is `Wrapped("ctx", e)`.
- Time is explicit in the debounce model: a change happens at an instant, and a timer fires at its deadline.

## Model

| member | source | states |
|---|---|---|
| Urls.Parse | main.go:26-29 | parsing fails exactly when a control character precedes the fragment or the URL starts with ':'; otherwise, when the part before '#' starts with a letter followed by letters, digits, '+', '-' or '.' and then ':', the scheme is that word lower-cased and the rest follows the ':'; when it starts with no such word there is no scheme and the rest is the whole URL |
| Urls.ResolveURL | main.go:25-40 | a parse error is returned wrapped in "parse"; a `zoro` URL becomes the base followed by `http` and the URL after its scheme, a `zoros` URL the base followed by `https` and the URL after its scheme; any other URL is returned unchanged |
| Urls.ResolveZoro | main.go:31-33 | `zoro:<rest>` resolves to the base followed by `http:<rest>` |
| Urls.ResolveZoros | main.go:34-36 | `zoros:<rest>` resolves to the base followed by `https:<rest>` |
| Urls.ResolveIdentity | main.go:39 | `http:` and `https:` URLs, and URLs without a ':', resolve to themselves whatever the base |
| Urls.PathEscape | search.go:97 | the escaped text contains no '/', '?', '#' or space and is at least as long as the text and at most three times as long |
| Urls.PathEscapeRoundTrip | search.go:97 | unescaping the escaped text gives back exactly the bytes typed |
| Net.HttpGet | main.go:51-54 | a GET succeeds exactly when the URL parses with scheme http or https and the world answers it, and then gives that answer |
| Net.ReadAll | main.go:57-60 | reading a body gives all of its bytes, unless the body ends in a read error |
| Loading.RouteOf | loader.go:102-118 | `readCloser`'s choice: a URL that does not parse panics (its error is discarded and the nil URL dereferenced); an http or https URL is fetched as it is; otherwise the local space opens a file, the zoro space fetches base + URL, and any other space panics; its properties are RouteByScheme, RouteRelative and RouteAbsolute |
| Loading.RouteByScheme | loader.go:102-118 | restates `RouteOf`'s case analysis for a URL that parses: an http or https URL is fetched unchanged in every space; any other URL is a file in the local space, is fetched below the zoro base in the zoro space, and panics in any other space (what this means for concrete URLs is in RouteRelative and RouteAbsolute) |
| Loading.RouteRelative | loader.go:110-114 | a path without ':' is opened as a file in the local space and fetched as base + path in the zoro space |
| Loading.RouteAbsolute | loader.go:103-108 | an `http:` or `https:` URL is fetched as it is whatever the space |
| Loading.Open | loader.go:64-100 | opening by route: a panic for a crash route; over HTTP, the response body with its Content-Type header, or the request error; a file is missing, fails while peeked, or opens unconsumed with the media type sniffed from its peeked bytes; its properties are OpenFileSniffsPrefix and SniffIgnoresTail |
| Loading.Peek | loader.go:84-89 | the peeked bytes are a prefix of the file of at most 512 bytes, and all of it when it is shorter |
| Loading.OpenFileSniffsPrefix | loader.go:78-100 | restates `Open`'s case analysis for a file route (the independent fact about sniffing is SniffIgnoresTail): a missing file fails; a file with at least 512 readable bytes, or a shorter one that ends cleanly, opens whole and unconsumed with the media type of its first 512 bytes; a short file ending in a read error fails |
| Loading.SniffIgnoresTail | loader.go:86-99 | files that agree on their first 512 bytes get the same media type |
| Loading.IsJSON | loader.go:131-133 | the media type starts with `application/json`; JSONIsNotVideo and BufferPolicy state what follows from it |
| Loading.IsVideo | loader.go:127-129 | the media type starts with `video`; JSONIsNotVideo states that it excludes IsJSON |
| Loading.JSONIsNotVideo | loader.go:127-133 | no media type is both JSON (prefix `application/json`) and video (prefix `video`) |
| Loading.FileName | loader.go:36 | the file part of `path.Split(url)`: the text after the URL's last '/'; characterised by FileNameIsLastSegment and FileNameOfDirectory |
| Loading.FileNameIsLastSegment | loader.go:36 | the file name is a '/'-free suffix of the URL that is either the whole URL or preceded by a '/' |
| Loading.FileNameOfDirectory | loader.go:36 | a URL ending in '/' has an empty file name |
| Loading.LoadSpec | loader.go:30-62 | `Load` on values: the open error, or the opened stream buffered by its media type; LoadFailsWithOpen and BufferPolicy state its outcomes, and Load is proved equal to it |
| Loading.Buffer | loader.go:36-52 | the resource built around an open stream: JSON is read to the end and closed, anything else is kept open and unread; its properties are BufferPolicy |
| Loading.BufferPolicy | loader.go:44-52 | once open, a JSON resource holds the whole stream in `Bytes` with the stream closed, any other resource holds nothing with its stream open and unconsumed; both keep the media type and file name; only a JSON stream ending in a read error fails |
| Loading.LoadFailsWithOpen | loader.go:30-34 | restates how `LoadSpec` composes opening and buffering: a stream that cannot be opened makes `Load` fail with that error and no resource, and otherwise buffering decides (its policy is BufferPolicy) |
| Loading.Load | loader.go:30-62 | `Load` fails exactly when opening or buffering fails, with the same error; otherwise it returns a fresh resource whose bytes, name, media type and stream are as the buffering policy says |
| Loading.Wrap | loader.go:36-52 | wrapping an open stream builds a fresh resource whose state is exactly the buffering policy's, or fails with the read error of a JSON stream |
| Loading.Stream.ReadAll | loader.go:46-49 | reading an open stream consumes it and returns what `Net.ReadAll` gives for its remaining bytes (all of them, unless the body ends in an error); a closed stream cannot be read |
| Loading.Stream.Close | loader.go:45 | closing leaves the unread bytes and marks the stream closed |
| Loading.Split | loader.go:160 | splitting gives at least one piece and no piece contains a space |
| Loading.JoinSplit | loader.go:160 | joining the pieces with single spaces gives back the command line |
| Loading.SplitJoin | loader.go:160 | splitting the space-joined, space-free words gives back the words |
| Loading.PlayerCommand | loader.go:154-163 | `PlayVideo` up to running the player: a save error is returned, otherwise the command is the split command line with the file name appended; PlayerArgv states its argument vector |
| Loading.PlayerArgv | loader.go:160-163 | the argument vector is the command split on single spaces followed by the file name: the program is the first word, the file name the last argument, and the other words join back into the command |
| Lists.RowsShowTitles | list.go:22-23 | rendering shows one row per item, in order, holding its title and subtitle; lists that differ only in URLs look the same |
| Lists.ClampIndex | search.go:75-78 | the current item is kept on a row (0 with no rows), an index in range is kept, and a negative index counts from the end |
| Lists.ListWidget.Clear | list.go:20 | the widget has no rows and item 0 is current |
| Lists.ListWidget.AddItem | list.go:23 | a row with the item's title and subtitle is appended and the current item is kept |
| Lists.ListWidget.SetCurrentItem | search.go:75-78 | the rows are kept and the current item becomes the clamped index |
| Lists.ListWidget.Move | search.go:68 | Down and Tab move the current item one row down, Up and Backtab one row up, wrapping around at either end; the rows are kept |
| Lists.Render | list.go:18-29 | after rendering, the widget shows exactly the list's rows in order, as many as there are items, with item 0 current, whatever it showed before (so rendering twice is rendering once) |
| Lists.ListRun | list.go:31-52 | `List.Run`'s result, for any selection; ListRunIgnoresSelection states it never carries the selected URL |
| Lists.ListRunIgnoresSelection | list.go:31-52 | `List.Run` returns "" and no error, never the selected item's URL |
| Debouncing.Init | search.go:84-86 | a new controller has no timer, context or callback and keeps the invariant |
| Debouncing.AfterDo | search.go:24-38 | the `do` step of the controller; DoInstallsFresh, DoCancelsPrevious, FirstDoCancelsNothing and ReplayCancelsAllButNewest state what it does |
| Debouncing.AfterFire | search.go:37 | a timer reaching its deadline: a pending one fires, any other is left alone; Debouncer.Fire implements it and TypedFires states its effect over a run of keystrokes |
| Debouncing.DoInstallsFresh | search.go:30-37 | after `do`, the controller holds a fresh uncancelled context, a callback bound to it and the text, and a pending timer due `dur` later; the invariant holds and older timers keep their deadline and callback |
| Debouncing.DoCancelsPrevious | search.go:25-28 | if a timer was installed, `do` stops it (unless it already fired) and cancels its context, and changes nothing older |
| Debouncing.FirstDoCancelsNothing | search.go:25 | the first `do` cancels no context |
| Debouncing.LiveIsNewest | search.go:24-38 | a context that is not cancelled is the newest one |
| Debouncing.ReplayCancelsAllButNewest | search.go:24-38 | after any interleaving of changes and timer firings, one context exists per change and all but the newest are cancelled |
| Debouncing.TypedFires | search.go:24-38 | after a run of keystrokes, keystroke i's timer is due `dur` after it and fetches its text; it fired exactly when the next keystroke came no earlier than its deadline, and only the last one is still pending |
| Debouncing.TypingExample | search.go:84-86 | with the 200 ms delay, keystrokes at 0, 50, 100 and 350 ms stop the first two timers, fire the third at 300 ms with its text, and leave the fourth pending until 550 ms |
| Debouncing.Debouncer.constructor | search.go:84-86 | a new debouncer is the initial controller |
| Debouncing.Debouncer.Do | search.go:24-38 | `do` changes the fields exactly as the state machine's `do` step |
| Debouncing.Debouncer.Fire | search.go:37 | a pending timer fires and returns its callback, any other timer does nothing; no context changes and the invariant is kept |
| Searching.QueryURL | search.go:90-100 | the query the callback sends: the resolved base followed by the escaped text, with a panic when the base does not resolve or the query does not parse; QueryURLShape states its shape |
| Searching.QueryURLShape | search.go:88-100 | the query is the resolved base followed by the escaped text, adds no '/', '?' or '#', and unescapes back to the text |
| Searching.Complete | search.go:102-124 | the end of the callback: a refused query panics; a cancelled one is ignored; a transport, read or decode error panics; a document without a list panics; otherwise its list is shown; CompleteOutcomes states the outcomes |
| Searching.CompleteOutcomes | search.go:102-124 | largely restates `Complete`'s case analysis: a cancelled fetch never shows a list; it is ignored unless its query has a scheme the transport refuses, and then it panics; a fetch shows a list exactly when it is not cancelled and its answer reads and decodes to a document with a list, and then shows that list |
| Searching.KeyStep | search.go:59-82 | the input captures of the list and the field followed by the widget's own handling of the keys they pass on; FocusRules states the focus rules and KeyPressed is proved to follow it |
| Searching.FocusRules | search.go:59-82 | Up on the first item or Down on the last returns focus to the field; Up from the field selects the last item and Down the first; Enter in the list stops; Tab on the last item wraps to the first and Backtab on the first to the last; the current item stays on a row |
| Searching.Selection | search.go:135 | the result is the URL of the current item exactly when a list was received and the index is in it; otherwise a panic |
| Searching.SearchSession.constructor | search.go:44-86 | a session starts with focus on the field, no list, no fetches and a fresh debouncer with the 200 ms delay |
| Searching.SearchSession.Changed | search.go:88-89 | a text change performs the debouncer's `do` step and keeps the session invariant |
| Searching.SearchSession.TimerFires | search.go:89-100 | a pending timer's callback sends the query for its text under its context, or panics when the query cannot be built; a stopped timer does nothing |
| Searching.SearchSession.FetchCompletes | search.go:102-124 | a cancelled fetch leaves list and widget alone (a refused query panics even when cancelled); a failure leaves list and widget alone and crashes; a successful one replaces the list and redraws the widget with it; any other failure panics; only the newest fetch is ever live |
| Searching.SearchSession.KeyPressed | search.go:59-82 | a key changes focus, current item and stop state exactly as the focus rules say (Enter in the list leaves the session `Stopped`, so `Result` can be called; any other key leaves it running), and leaves the list alone |
| Searching.SearchSession.Interrupted | search.go:131-135 | the application stopping without Enter (Ctrl-C) leaves the session `Stopped` with its list, focus and fetches, so `Run` still reads the selection |
| Searching.SearchSession.Result | search.go:135 | the run returns the selection, and a returned URL is that of the row shown as current |
| Navigation.FetchSpec | main.go:44-68 | resolve, GET, read and decode, each failure wrapped with its step; FailuresStopBeforeDispatch and FailureSteps state its failures |
| Navigation.Dispatch | main.go:70-85 | the `switch`: search first, then list, otherwise ""; SearchWins and NoSearchYieldsEmpty state it |
| Navigation.ExecURL | main.go:42-86 | fetch then dispatch; its failures and outcomes are stated by the lemmas below |
| Navigation.FailuresStopBeforeDispatch | main.go:44-68 | a resolve, fetch, read or decode failure is returned as a wrapped error, and the search and list never run |
| Navigation.FailureSteps | main.go:44-54 | a URL that does not parse fails in "resolve url" with the parse error, and an unanswered request fails in "get" |
| Navigation.SearchWins | main.go:72-77 | when a document has a search, only the search runs and any list is ignored |
| Navigation.NoSearchYieldsEmpty | main.go:70-85 | a document without a search yields "" and no error, whether or not it has a list |
| Navigation.Navigate | main.go:108-122 | the loop's outcome on values, bounded by fuel; NavigateEnds states how it ends and Drive is proved equal to it |
| Navigation.NavigateEnds | main.go:111-122 | every visited URL led to the next, non-empty one; the loop ends normally exactly when the last URL yields "", and aborts exactly when it yields an error, with that error |
| Navigation.Drive | main.go:108-122 | the loop's outcome is that of following next URLs from the first one |
| Navigation.Start | main.go:93-122 | an empty `-url` or `-zoro` flag is a usage exit; a zoro base that does not parse aborts; otherwise the loop runs from the `-url` URL with that base |

## Left out

- Real HTTP, files, terminal drawing, the player process and logging are not modelled. The network and files are the `World` value. `json.Unmarshal` and `mimetype.Detect` are function parameters.
- `Resource.save` (loader.go:135-152) is left out. Its copy runs in a goroutine and writes a temporary file. `PlayerCommand` takes the saved file's name, or the save error, as a parameter.
- `exec.CommandContext(...).Run()` is left out. The model stops at the argument vector.
- Timers, goroutines and `context` propagation are discrete events: a change at an instant, a timer firing, a fetch completing. Concurrent interleavings inside one callback are not modelled.
- Net.HttpGet: answers any http or https URL the world maps. Go's client refuses a URL without a host ("http: no Host in request URL") before any network access, at main.go:51 and loader.go:70; the model leaves this to the world, which is taken to answer no hostless URL.
- Searching.SearchSession.FetchCompletes: decides cancellation when the fetch completes. The source checks for cancellation only when the request returns. A cancellation that arrives during `io.ReadAll` makes the source panic, and the model treats such a fetch as ignored.
- Searching.Complete: the transport also refuses a query with an empty host before it looks at the context, and then the source panics even when cancelled. The model has no host, so it treats such a query as unanswered: ignored when cancelled, a panic otherwise.
- Searching.SearchSession.FetchCompletes: for an answer without a list, the model leaves `listSpec` as it was. The source sets it to nil just before the redraw panics.
- `QueueUpdateDraw` redraws later, on the UI goroutine. The model redraws when the fetch completes.
- The list widget is tview's `List`. The model assumes the library behaves as follows: `Clear` makes item 0 current; `AddItem` keeps the current item; `SetCurrentItem` counts negative indexes from the end and clamps; Down and Tab move one row down, Up and Backtab one row up, wrapping around at either end (tview's default). The source's captures keep Up and Down from reaching the wrap: Up on the first row and Down on the last return focus to the field. Tab and Backtab are not captured and wrap.
- Keys are Up, Down, Tab, Backtab, Enter and "other". The widget's other movement keys (Home, End, PgUp, PgDn, Left, Right, item shortcuts and the mouse) are not modelled; in the model any other key leaves the list as it is. In the input field, Tab and Backtab leave the cursor as it is, since the field has no done handler.
- Urls.Parse: models only the failures the client's own inputs reach: a control character before '#', and a leading ':'. It does not model Go's other rejections: a colon in the first segment of a scheme-less URL, bad percent escapes, and malformed hosts or ports. For those inputs the model accepts where Go fails.
- Urls.ResolveURL: models `u.String()` as the scheme, ':' and the rest, verbatim. Go rebuilds the URL from its parsed parts, so the results differ in these cases:
  - a path not in canonical escaped form is re-escaped (`zoro:///a b` gives `http:///a%20b`);
  - the host is escaped;
  - the fragment is re-escaped, and an empty fragment is dropped (`zoro:x#` gives `http:x`);
  - an empty authority is dropped (`zoro://` gives `http:`, where the model gives `http://`).

  The query is written as it was, as in the model.
- Navigation.Navigate: bounds the loop by a fuel count (`OutOfFuel`), because the source's `for` loop has no bound.
- `execURL` calls `Search.Run` and `List.Run`, which are interactive. `Navigation` takes their outcomes as parameters. `Searching` and `Lists` model those runs separately.
- The `-verbose` flag, `flag.Usage` output and the log lines are left out. So are the `-zoro` flag's default value, and the `zoroURL` variable, which `main` parses but never uses after that.
- `Loader` is not called from `main`: `execURL` fetches with `http.Get` directly (main.go:51). Both are modelled as the source has them.
- A document of the form `{"url": ...}` has no field in `Spec` (main.go:20-23). It decodes with neither a search nor a list and ends navigation, which is what the model does.
- Search text is a Go string, and the model treats it as its bytes.
