# jackie, the sequential core, in Dafny

jackie is a small Python web framework built on ASGI. This project models the
parts of it that run without concurrency and proves what they promise.

- **Multipart form codec** (`jackie/multipart.py`, module `Multipart`).
  - `parse` is a method that walks the lines of the data. It is proved equal to a recursive specification over those lines.
  - Each error has its own message, and each is modelled.
  - `serialize` is a function that returns the chunks it yields.
  - The main theorem is the round trip: `parse(serialize(form, b), b)` returns `form`.
- **Path matcher** (`jackie/router/matcher.py`, module `PathMatcher`).
  - `Matcher(pattern)` is a hand-written scanner for the parameter syntax `<name[:type]>`.
  - `match` uses greedy scanners for the character classes of `str`, `int` and `path`.
  - `reverse` and `+` are modelled.
  - Proved: compiling a rendered pattern gives back its parts, and `match(reverse(params)) == params`.
- **Router** (`jackie/router/router.py`, module `Routing`).
  - A `Router` class holds the mutable route table and the fallback views.
  - Included routers are flattened behind their prefix.
  - `_get_view` is a for/else loop. It is proved to pick the first route that serves the request, or else the right fallback.
  - The 404, 405 and WebSocket fallbacks are modelled. The `Allow` header is built with a verified sort.
- **Replayable byte stream** (`jackie/http/stream.py`, module `Streams`).
  - A `Stream` holds the upstream chunks, a growing cache and a pull counter.
  - Any number of `Cursor`s replay the same sequence, and each upstream item is pulled at most once.
  - `SendFile.chunks` is modelled over the file's content as a byte sequence.
- **ASGI message framing** (`jackie/http/wrappers.py` and its older copy `jack/http/wrappers.py`, module `Asgi`).
  - Request and response bodies are turned into messages and back.
  - The first-message check of `AsgiToJackie` is modelled.
  - The two decorators unwrap each other's wrapper.
  - A `Package` parameter tells the two copies apart, so one model covers both.
- **Response construction** (`jackie/http/response.py`, module `Responses`).
  - At most one body kind may be given.
  - Each kind has its default status and headers.
  - Header precedence is decided by `setdefault`.
  - `Set-Cookie` entries are added in order.
  - `Response(...)` is modelled twice. The as-written version has `file_body` raise on an upload and appends to the caller's `set_cookies` list, so the shared default list leaks between responses. The corrected version has neither.

Shared vocabulary lives in module `Base` (`base.dfy`):
- `Option` and `Result`;
- the exceptions the code raises;
- bytes, and Python's `split`, `join`, `lower` and UTF-8 `encode`.

## Model

| member | source | states |
|---|---|---|
| Base.Split | jackie/multipart.py:27-31 | splitting always gives at least one line, so the first `next(lines)` of `parse` cannot fail |
| Base.SplitOnce | jackie/multipart.py:46-49 | no result exactly when `: ` does not occur; otherwise the line is key, `: `, value, with the key free of `: ` |
| Base.Lower | jackie/multipart.py:50 | `bytes.lower()` keeps the length and folds each ASCII capital, leaving every other byte alone |
| Base.Utf8Ascii | jackie/multipart.py:130-132 | encoding ASCII text gives the bytes of the literal, so the boundary lines are `--b` and `--b--` |
| Base.JoinSplit | jackie/multipart.py:27 | joining the split lines with `\n` gives back the data |
| Base.SplitJoin | jackie/multipart.py:108-114 | splitting lines joined by a separator that none of them holds gives back the lines (multi-line values) |
| Multipart.Message | jackie/multipart.py:35-98 | every error the model's `parse` raises is a `ValueError` whose message starts with `invalid form data: ` (`UnicodeDecodeError` is not modelled, see below) |
| Multipart.PutLookup | jackie/multipart.py:50 | after `headers[k] = v`, `k` maps to `v` and every other key keeps its value |
| Multipart.PutOrder | jackie/multipart.py:50 | assigning keeps the insertion order: a present key stays in place, a new key goes last |
| Multipart.PopLookup | jackie/multipart.py:53-57 | `pop` succeeds exactly when the key is present, returns its value and leaves the other keys alone |
| Multipart.HeadersAt | jackie/multipart.py:44-50 | one header line: an empty line ends the block, a line without `: ` is an error, any other line stores its lower-cased key |
| Multipart.HeaderStep | jackie/multipart.py:40-50 | one turn of the header loop agrees with the header-block specification at that line |
| Multipart.ReadHeaderBlock | jackie/multipart.py:38-50 | the header loop returns the dict and position the header-block specification gives, or its error (`unexpected end of data`, `expected header`) |
| Multipart.CheckPartHeaders | jackie/multipart.py:52-99 | without Content-Disposition the part is rejected; an accepted part is a file exactly when it had Content-Type; no other header is accepted |
| Multipart.ReadValueBlock | jackie/multipart.py:101-116 | the value is the lines up to the first boundary line, joined with `\n`; with no boundary line the data has run out |
| Multipart.ReadPart | jackie/multipart.py:37-121 | one pass of the outer loop returns the field, whether the end line was reached, and the position the one-part specification gives, or its error |
| Multipart.NextPartOf | jackie/multipart.py:37-124 | a part is its header block, its accepted header dict and its value up to the next boundary line; the end line stops the loop |
| Multipart.ParseForm | jackie/multipart.py:23-126 | `parse` returns exactly the fields, in order, or the error the line-by-line specification gives |
| Multipart.FirstLine | jackie/multipart.py:31-35 | a first line equal to the end line gives the empty form; a first line that is neither boundary line gives `missing boundary` |
| Multipart.OnlyLine | jackie/multipart.py:27-43 | data without a newline is one line: the end line gives the empty form, the start line `unexpected end of data`, anything else `missing boundary` |
| Multipart.HeadersRunOut | jackie/multipart.py:40-43 | header lines up to the end of the data give `unexpected end of data` |
| Multipart.HeaderWithoutColon | jackie/multipart.py:46-49 | the first non-empty header line without `: ` gives `expected header` |
| Multipart.HeaderBlockRunsOut | jackie/multipart.py:37-43 | a start line followed only by header lines gives `unexpected end of data` |
| Multipart.ValueRunsOut | jackie/multipart.py:103-107 | a part whose value no boundary line closes gives `unexpected end of data` |
| Multipart.HeaderKeysLower | jackie/multipart.py:50 | every key of the header dict is lower case, so an unexpected header is named in lower case |
| Multipart.ValueLines | jackie/multipart.py:103-109 | a value ends at the first line that is a boundary line |
| Multipart.HeaderLine | jackie/multipart.py:46-47 | a serialized `key: value` line splits back into its key and value |
| Multipart.DispositionFields | jackie/multipart.py:143-147 | the serialized Content-Disposition value splits on `; ` into `form-data`, `name=…` and the optional `filename=…` |
| Multipart.CheckFieldHeaders | jackie/multipart.py:58-99 | the headers of a serialized field pass every check of `parse` and yield its name, file name and content type |
| Multipart.ReadFieldHeaders | jackie/multipart.py:39-50 | the header block of a serialized field reads back as its header dict, followed by the value's lines |
| Multipart.SerializeChunks | jackie/multipart.py:129-156 | `serialize` yields chunks ending with the end line, and together they are the lines of every field, then the end line, joined and ended by `\n` |
| Multipart.FieldBytes | jackie/multipart.py:141-155 | the chunks of one field are its start line, Content-Disposition line, optional Content-Type line, empty line and value, each ended by `\n` |
| Multipart.SerializeLayout | jackie/multipart.py:129-156 | the whole output is the lines of the fields, then the end line, joined and ended by `\n` |
| Multipart.FormLinesFront | jackie/multipart.py:142-156 | the serialized lines start with a boundary line, which is the end line exactly when the form is empty |
| Multipart.FormLinesFree | jackie/multipart.py:141-155 | no serialized line holds a newline when names, file names and content types hold none |
| Multipart.FieldRoundTrip | jackie/multipart.py:101-124 | a serialized field reads back as the same field, up to the next boundary line |
| Multipart.PartsRoundTrip | jackie/multipart.py:37-124 | the parts loop reads back every serialized field, in order, repeated names included |
| Multipart.ParseLinesRoundTrip | jackie/multipart.py:31-126 | parsing the serialized lines gives back the form |
| Multipart.RoundTrip | jackie/multipart.py:23-156 | `parse(serialize(form, b), b)` returns `form` when no value line is a boundary line and names and file names hold no `\n` or `; ` |
| PathMatcher.TypeNamed | jackie/router/matcher.py:13-17 | the type names are exactly `str`, `int` and `path`; any other name is unknown |
| PathMatcher.RunLongest | jackie/router/matcher.py:14-16 | a scan is greedy: everything it takes is in the class, and the next character is not |
| PathMatcher.RunExact | jackie/router/matcher.py:14-16 | the scan ends at the first character outside the class |
| PathMatcher.ScanWord | jackie/router/matcher.py:4-5 | inside a name, word characters keep the scan in the name |
| PathMatcher.ParamAtName | jackie/router/matcher.py:4-5 | a parameter found by the pattern's regular expression is named by a word |
| PathMatcher.FindFrom | jackie/router/matcher.py:26 | `finditer` yields matches in ascending order, apart from each other |
| PathMatcher.AddParam | jackie/router/matcher.py:27-35 | one match adds the literal before it (if any) and the parameter, with the type defaulting to `str`, or raises for an unknown type |
| PathMatcher.Compile | jackie/router/matcher.py:22-40 | the constructor builds the parts the match-by-match specification gives, or its `ValueError` |
| PathMatcher.CompiledShaped | jackie/router/matcher.py:22-37 | compiled literals are non-empty, a literal is always followed by a parameter, and parameter names are words |
| PathMatcher.FindLiteral | jackie/router/matcher.py:26 | no parameter starts inside text without `<` |
| PathMatcher.FindPiece | jackie/router/matcher.py:26 | a written `<name:type>` is found exactly where it stands |
| PathMatcher.FindRender | jackie/router/matcher.py:26 | the matches found in a rendered pattern are exactly its parameters |
| PathMatcher.BuildTiles | jackie/router/matcher.py:26-37 | the constructor's loop over those matches gives back the parts |
| PathMatcher.CompileRender | jackie/router/matcher.py:22-37 | compiling the text of renderable parts gives back those parts |
| PathMatcher.UnknownType | jackie/router/matcher.py:30-33 | a parameter with a type outside `str`, `int`, `path` raises `ValueError('invalid param type: …')` |
| PathMatcher.DigitParam | jackie/router/matcher.py:15 | an `int` parameter matches any single Unicode decimal digit, with its value; `٣` (U+0663) reads as 3 |
| PathMatcher.Take | jackie/router/matcher.py:64-71 | a parameter takes at least one character of the path |
| PathMatcher.TakeShown | jackie/router/matcher.py:64-71 | a value its type accepts, followed by the end or by `/`, is taken back exactly |
| PathMatcher.Match | jackie/router/matcher.py:53-79 | `match` returns the params or the `Matcher.Error` (index and what was expected) the part-by-part specification gives |
| PathMatcher.LiteralMatch | jackie/router/matcher.py:58-62 | a literal-only matcher matches exactly its literal |
| PathMatcher.MatchKeys | jackie/router/matcher.py:53-79 | a successful match binds exactly the parameter names of the pattern |
| PathMatcher.ParseNatText | jackie/router/matcher.py:15 | `int(str(n)) == n` on the digits `int` scans |
| PathMatcher.Reverse | jackie/router/matcher.py:81-97 | `reverse` returns the literals and serialized values in part order, or the first `KeyError` |
| PathMatcher.ReversedMissing | jackie/router/matcher.py:89-92 | a parameter not supplied raises `KeyError` with its name when all before it are supplied |
| PathMatcher.ReversedOk | jackie/router/matcher.py:81-97 | with every parameter supplied, `reverse` succeeds |
| PathMatcher.MatchShown | jackie/router/matcher.py:53-79 | matching from any point the text `reverse` wrote there adds exactly the parameters used |
| PathMatcher.MatchReverse | jackie/router/matcher.py:53-97 | `match(reverse(**params)) == params` when each `str`/`int` value fits its type and is followed by the end or a literal starting with `/` |
| PathMatcher.ReversedAppend | jackie/router/matcher.py:84-97 | reversing concatenated parts is reversing each and concatenating, the first error winning |
| PathMatcher.Add | jackie/router/matcher.py:42-51 | `a + b` renders as the pattern of `a` followed by that of `b`, with the parameter names of `a` then those of `b`, merged literals included |
| PathMatcher.AddReverse | jackie/router/matcher.py:42-51 | the path reversed from `a + b` is the one from `a` followed by the one from `b`, so merging literals loses nothing |
| PathMatcher.AddEmpty | jackie/router/matcher.py:42-51 | the empty matcher is a unit of `+` on both sides |
| Routing.MethodSet | jackie/router/router.py:89-117 | a single method name, as every shorthand passes, becomes the singleton set; a collection is kept |
| Routing.MakeMatcher | jackie/router/router.py:68-69 | a string pattern is compiled, with its `ValueError`; a matcher is used as it is |
| Routing.Router.constructor | jackie/router/router.py:51-56 | a new router has no routes and the module's three fallback views |
| Routing.Router.Route | jackie/router/router.py:60-71 | `route` appends `(methods, matcher, view)` after the existing entries and the flattened routes gain it last, behind any prefix; an invalid pattern changes nothing |
| Routing.Router.Include | jackie/router/router.py:73-77 | `include` appends the sub-router and the flattened routes gain the sub-router's flattened routes behind the joined prefix |
| Routing.Router.SetNotFound | jackie/router/router.py:79-81 | only the not-found view changes |
| Routing.Router.SetMethodNotAllowed | jackie/router/router.py:83-85 | only the method-not-allowed view changes |
| Routing.FlattenRoutesOnly | jackie/router/router.py:121-128 | without includes `_flat_routes` yields one route per entry, in order, each matcher behind the prefix |
| Routing.LateRoutesVisible | jackie/router/router.py:121-128 | for any valid router and any include entry whose router no other include reaches: a route added to that router afterwards appears in the parent's flattening right after that router's earlier routes, behind both prefixes, and nothing else changes |
| Routing.PathArgs | jackie/router/router.py:135 | every matched path parameter, and nothing else, is passed to the view |
| Routing.Router.GetView | jackie/router/router.py:130-152 | the for/else loop returns the view and params of the first-match resolution specification |
| Routing.ResolveFirst | jackie/router/router.py:133-140 | the first flattened route whose matcher matches and whose methods hold the method is chosen, with its params |
| Routing.ResolveMiss | jackie/router/router.py:133-150 | with no such route the loop runs out, collecting the methods of every route that matched the path, and falls back |
| Routing.FallbackCases | jackie/router/router.py:141-150 | WebSocket gets `websocket_not_found`; else a path match gives `method_not_allowed` with the union of their methods; else `not_found` |
| Routing.ScopeMethod | jackie/router/router.py:155-160 | `http` resolves with the scope's method, `websocket` as `WEBSOCKET`, any other type raises `ValueError('unsupported scope type: …')` |
| Routing.Router.Call | jackie/router/router.py:154-162 | `__call__` raises for an unsupported scope type and otherwise runs the resolved view as an ASGI app with merged params |
| Routing.Merge | jackie/router/router.py:35-37 | resolved params override the caller's; every other given param is kept |
| Routing.SidesAgree | jackie/router/router.py:28-46 | the ASGI side and the native side of a resolved view run the same view with the same params |
| Routing.Router.CallNative | jackie/router/router.py:165-169 | `JackieRouter` awaits the resolved view with the request's params overridden by the path's |
| Routing.WebsocketNotFound | jackie/router/router.py:20-25 | one `websocket.close` is sent, and the call completes, exactly when the first message is `websocket.connect`; any other message raises `ValueError` and nothing is sent |
| Routing.WebsocketNotFoundCloses | jackie/router/router.py:21-23 | only the first message is read |
| Routing.TextSelected | jackie/router/router.py:9-17 | a text response selects the text body and no other |
| Routing.NotFoundResponse | jackie/router/router.py:8-9 | status 404, body `Not Found`, plain-text content type |
| Routing.MethodNotAllowedResponse | jackie/router/router.py:12-17 | status 405, body `Method Not Allowed`, `Allow` the given order joined with `, `, plain-text content type |
| Routing.BelowTransitive | jackie/router/router.py:16 | Python's string order is transitive |
| Routing.BelowTotal | jackie/router/router.py:16 | any two different strings are ordered |
| Routing.BelowIrreflexive | jackie/router/router.py:16 | no string is below itself |
| Routing.HasLeast | jackie/router/router.py:16 | every non-empty set of methods has a least element |
| Routing.Sorted | jackie/router/router.py:16 | `sorted(methods)` holds every method once, in increasing order |
| Routing.MethodNotAllowed | jackie/router/router.py:12-17 | the 405 response's `Allow` header is the sorted methods joined with `, ` |
| Routing.NotFound | jackie/router/router.py:8-9 | the 404 response is plain text with status 404 |
| Streams.Read | jackie/http/stream.py:35-37 | a read returns a prefix of the remaining bytes: all of them for a negative size, else at most that many |
| Streams.ReadFile | jackie/http/stream.py:26-41 | `SendFile.chunks` yields exactly the reads the size arithmetic gives |
| Streams.ReadsCons | jackie/http/stream.py:34-41 | a read of `min(chunk_size, size)` bytes, stopping at an empty read |
| Streams.ReadsConcat | jackie/http/stream.py:33-41 | the chunks together are the first `size` bytes after the offset, or all of them for `size = -1` |
| Streams.ReadsSizes | jackie/http/stream.py:34-41 | every chunk is non-empty and at most `chunk_size` long, and all but the last are full |
| Streams.FileChunksSpec | jackie/http/stream.py:26-41 | with the default chunk size the file's wanted bytes come in full 4096-byte chunks and a last one of at most 4096 |
| Streams.FileChunksEdges | jackie/http/stream.py:30-41 | a negative chunk size makes one read of `size` bytes; zero reads nothing |
| Streams.ExpandPrefix | jackie/http/stream.py:54-71 | replaying more upstream items only extends what a cursor yields |
| Streams.ExpandPlain | jackie/http/stream.py:69-70 | byte chunks pass through unchanged |
| Streams.ExpandedChunks | jackie/http/stream.py:66-68 | with files expanded a cursor yields only bytes |
| Streams.Stream.constructor | jackie/http/stream.py:46-52 | a new stream has the given upstream and an empty cache |
| Streams.Stream.FromBytes | jackie/http/stream.py:46-48 | a `bytes` argument is a one-chunk upstream (`Stream()` is one empty chunk) |
| Streams.Stream.Fetch | jackie/http/stream.py:57-61 | a cached index is reused; the next index pulls the upstream once and appends to the cache |
| Streams.Stream.Chunks | jackie/http/stream.py:54-55 | `chunks()` is a new cursor at the start |
| Streams.Stream.Body | jackie/http/stream.py:73-77 | `body()` is the expanded chunks joined, or the upstream's error; the shared cache only grows and ends holding every pull, the final end included |
| Streams.Drain | jackie/http/stream.py:54-71 | a cursor run to its end yields the expanded upstream and ends as the upstream ends; the shared cache only grows and ends complete |
| Streams.Cursor.constructor | jackie/http/stream.py:54-55 | a cursor starts at index 0 with nothing yielded |
| Streams.Cursor.HistoryPrefix | jackie/http/stream.py:54-71 | what any cursor has yielded is a prefix of the same sequence, all of it once the cursor is done |
| Streams.Cursor.Next | jackie/http/stream.py:54-71 | one step yields the next item of that sequence or ends as the upstream ends; the cache only grows |
| Streams.Cursor.TakePending | jackie/http/stream.py:67-68 | inside a file the next file chunk is yielded |
| Streams.Cursor.Advance | jackie/http/stream.py:56-71 | from the top of the loop: fetch and yield, or end |
| Streams.Cursor.Accept | jackie/http/stream.py:66-71 | an item is yielded or expanded, and the index advances by one either way |
| Streams.Cursor.Taken | jackie/http/stream.py:67-68 | the chunks of a file are yielded in order, the first at once |
| Streams.Consumed | jackie/http/stream.py:66-71 | consuming one upstream item adds its expansion to the output |
| Streams.OtherCursor | jackie/http/stream.py:57-61 | a cursor stays valid while other cursors of its stream grow the cache |
| Streams.Charset | jackie/http/stream.py:106-109 | the `charset` parameter, `UTF-8` by default |
| Streams.Boundary | jackie/http/stream.py:111-117 | the `boundary` parameter, or `ValueError('no boundary provided')` |
| Streams.FormOf | jackie/http/stream.py:85-95 | any other content type raises `ValueError`; for the two form types a body error passes through; urlencoded text goes to the query-string parser with the charset; a multipart body without `boundary` raises, else its parse result or its error as `ValueError` |
| Streams.FormRoundTrip | jackie/http/stream.py:85-89 | a serialized form read back by `form()` under its boundary is the same form |
| Asgi.GetRequestBody | jackie/http/wrappers.py:13-23 | `get_request_body` yields what the message-by-message specification gives |
| Asgi.RequestBodyStops | jackie/http/wrappers.py:13-19 | once the body has ended, later messages are never read |
| Asgi.SendRequestBody | jackie/http/wrappers.py:73-87 | each chunk is framed with `more_body` true, then an empty final frame, or one `http.disconnect` after a `Disconnect` |
| Asgi.RequestFramesReceived | jackie/http/wrappers.py:13-19 | frames with `more_body` true are read back as their chunks |
| Asgi.RequestRoundTrip | jackie/http/wrappers.py:73-87 | the receiver gets the chunks plus one empty chunk, or the `Disconnect`, or it waits forever |
| Asgi.RequestBodyPreserved | jackie/http/wrappers.py:76-85 | the request body bytes survive the trip |
| Asgi.EncodeHeaders | jackie/http/wrappers.py:45-48 | one header per header, in order, name and value each UTF-8 encoded |
| Asgi.SendResponse | jackie/http/wrappers.py:42-62 | one start message, one body frame per chunk, one empty final frame; a `Disconnect` stops the sending quietly |
| Asgi.JackieToAsgi | jackie/http/wrappers.py:31-68 | the scope type is dispatched on and the response served as the specification gives |
| Asgi.ServeScopes | jackie/http/wrappers.py:31-68 | only `http` is served; `websocket` raises `NotImplementedError`, others `ValueError`; a `Disconnect` is swallowed |
| Asgi.GetResponseBody | jackie/http/wrappers.py:90-98 | `get_response_body` yields what the message-by-message specification gives |
| Asgi.AcceptResponse | jackie/http/wrappers.py:128-135 | no reply without a message; the reply's body is what follows the start message |
| Asgi.ResponseFramesReceived | jackie/http/wrappers.py:90-96 | body frames with `more_body` true are read back as their chunks |
| Asgi.ResponseRoundTrip | jackie/http/wrappers.py:128-135 | a native response behind both bridges keeps its status, its encoded headers and its chunks, plus one empty chunk |
| Asgi.AcceptFirstMessage | jackie/http/wrappers.py:128-134 | the first message must be `http.response.start`; its status is copied and missing headers are empty |
| Asgi.ToAsgi | jackie/http/wrappers.py:140-144 | an `AsgiToJackie` of the same module is unwrapped; anything else is wrapped |
| Asgi.ToNative | jackie/http/wrappers.py:147-151 | a `JackieToAsgi` of the same module is unwrapped; anything else is wrapped |
| Asgi.DecoratorsReduce | jackie/http/wrappers.py:140-151 | the decorators never build a wrapper around its own inverse |
| Asgi.DecoratorsUndo | jackie/http/wrappers.py:140-151 | wrapping one way and back gives back the original view or app |
| Asgi.DecoratorsForeign | jack/http/wrappers.py:140-151 | a wrapper from the other copy of the module is wrapped again, never unwrapped |
| Responses.FormBody | jackie/http/response.py:14-18 | status 200 and one header, `Content-Type: multipart/form-data; boundary=…` with the drawn boundary |
| Responses.JsonBody | jackie/http/response.py:21-24 | status 200, the UTF-8 of the dumped text, a JSON content type |
| Responses.TextBody | jackie/http/response.py:27-30 | status 200, the UTF-8 of the text, a plain-text content type |
| Responses.HtmlBody | jackie/http/response.py:33-36 | status 200, the UTF-8 of the markup, an HTML content type |
| Responses.RedirectBody | jackie/http/response.py:39-42 | status 304, an empty body, the target as `Location` |
| Responses.FileBodyAsWritten | jackie/http/response.py:45-57 | `file_body` as written raises `AttributeError` exactly for an upload, and otherwise gives the intended body |
| Responses.FileBody | jackie/http/response.py:45-57 | status 200; a path is one whole-file chunk typed by its guessed type, an upload is its bytes typed by its content type; no header when the type is unknown |
| Responses.BaseBody | jackie/http/response.py:60-61 | status 200, the items as given, no default header |
| Responses.ChooseBodyAsWritten | jackie/http/response.py:81-91 | the loop over the body kinds as written gives what the as-written kind-by-kind specification gives |
| Responses.AsWrittenAgrees | jackie/http/response.py:45-91 | as written, the selection equals the corrected one without an upload; with an upload it raises `multiple body types supplied` if a kind before `file` was given, else `AttributeError` |
| Responses.ChooseBody | jackie/http/response.py:81-91 | the loop over the body kinds gives what the kind-by-kind specification gives |
| Responses.SuppliedFrom | jackie/http/response.py:64-72 | the kinds supplied, in `BODY_TYPES` order |
| Responses.SelectHolding | jackie/http/response.py:87-90 | once a body is chosen, any later kind raises `multiple body types supplied` |
| Responses.SelectFrom | jackie/http/response.py:82-90 | no kind gives no body, one kind gives its helper's body, two or more raise |
| Responses.SelectBodyKinds | jackie/http/response.py:81-91 | `ValueError('multiple body types supplied')` exactly when two or more kinds are given |
| Responses.KindStatus | jackie/http/response.py:14-61 | redirect defaults to 304, every other kind to 200 |
| Responses.KindHeaders | jackie/http/response.py:14-42 | json, text, html and form have their content types; redirect has `Location` and no content type; a file has its given or guessed type; a bare body has no headers |
| Responses.KindListed | jackie/http/response.py:64-72 | every kind given is among the kinds supplied from any earlier key |
| Responses.ChosenKinds | jackie/http/response.py:81-91 | a successful selection used at most one kind: that kind's body, or the empty body |
| Responses.DefaultStatus | jackie/http/response.py:91-94 | the explicit status wins; otherwise 304 for a redirect and 200 else, both `ok` |
| Responses.EmptyDefaults | jackie/http/response.py:91 | with no kind: status 200 unless given, body `b''`, no default headers |
| Responses.GetSetDefault | jackie/http/response.py:97 | `setdefault` fills a key only when it is absent, in any case, and keeps what is there |
| Responses.GetSetDefaults | jackie/http/response.py:98-99 | the defaults only fill keys still absent, the first default of a key winning |
| Responses.HeaderPrecedence | jackie/http/response.py:95-99 | explicit headers and keyword headers, then `content_type`, then the kind's defaults |
| Responses.Expired | jackie/http/response.py:101-102 | one expiring cookie per name to unset |
| Responses.ExpiredSnoc | jackie/http/response.py:101-102 | each unset name adds `Cookie(name, '', expires=EPOCH)` after the others |
| Responses.CookieList.constructor | jackie/http/response.py:78 | a new list is empty |
| Responses.CookieList.Append | jackie/http/response.py:102 | `append` adds at the end of the caller's list |
| Responses.AppendUnset | jackie/http/response.py:101-102 | the expired cookies are appended to the list passed as `set_cookies` |
| Responses.NewResponseAsWritten | jackie/http/response.py:77-104 | `Response(...)` as written raises exactly when the as-written selection does, leaving the caller's list alone; otherwise the expired cookies are appended to the caller's `set_cookies` list and the response sets that whole list |
| Responses.NoKindAsWritten | jackie/http/response.py:81-91 | with no kind given, the as-written selection gives no body |
| Responses.SharedDefaultLeak | jackie/http/response.py:78 | a second response with the default `set_cookies` sends the cookie unset by the first |
| Responses.Response.constructor | jackie/http/response.py:93 | the stream over the body's items, with the given status and headers |
| Responses.Response.SetHeaderDefault | jackie/http/response.py:97 | `setdefault` on the headers; status and cookies unchanged |
| Responses.Response.FillDefaults | jackie/http/response.py:98-99 | the kind's defaults filled in order |
| Responses.Response.AppendCookie | jackie/http/response.py:104 | one `Set-Cookie` appended after the others |
| Responses.Response.AppendCookies | jackie/http/response.py:103-104 | one `Set-Cookie` per cookie, in order |
| Responses.Assemble | jackie/http/response.py:93-104 | status, headers after `setdefault`, cookies to set then cookies unset, body stream |
| Responses.NewResponse | jackie/http/response.py:77-111 | corrected `Response(...)`: raises exactly when the selection does; otherwise status, headers, cookies and body as the rules above give, and `ok` holds exactly when the explicit status, if any, is below 400 |
| Responses.DefaultsIndependent | jackie/http/response.py:101-104 | with a fresh list per call, an unset cookie does not reach the next response |

## Left out

- Concurrency is not modelled. This covers the task spawning and queues of `AsgiToJackie.__call__`, the futures in `Stream.chunks`, and the WebSocket session. Each component is modelled by the message sequences it consumes and produces.
- `AsgiToJackie.__call__` (jackie/http/wrappers.py:122-135) starts the application and the request-body sender as two tasks, then awaits the first message of the output queue. The model keeps only the message sequences: a read that never gets a message is `Starved`.
- Asgi.RequestRoundTrip: a body source that fails with anything but `Disconnect` is modelled as the receiver waiting forever, because the sending task dies unobserved.
- Multipart.ParseForm: the `.decode()` calls of `parse` (jackie/multipart.py:74, 81, 89, 98 and 120) are not modelled. On bytes that are not UTF-8 the source raises `UnicodeDecodeError`, a `ValueError` without the `invalid form data: ` prefix. The model returns the field instead, or the later error the source never reaches (for a bad name followed by a missing `filename=`, `ExpectedFilename`).
- Multipart.Message: it covers the errors the model raises, so it says nothing of `UnicodeDecodeError`. The unexpected-header message renders the key byte by byte (`Latin`), which differs from UTF-8 decoding for non-ASCII keys.
- PathMatcher.Take: the 4300-digit limit that Python 3.12 puts on `int()` and `str()` (`sys.set_int_max_str_digits`, default 4300) is not modelled. Integers here have any number of digits. In the source, an `int` parameter of more than 4300 digits makes `int()` in `match` (jackie/router/matcher.py:70) raise `ValueError`, and an `int` value above that size makes `str()` in `reverse` (jackie/router/matcher.py:92) raise `ValueError`. That error is not a `Matcher.Error`, so `_get_view` (jackie/router/router.py:134-137) does not catch it and it leaves the router, where the model's `Routing.Router.GetView` serves the matched view.
- PathMatcher.Match: stated for integers of any number of digits; the 4300-digit limit (see PathMatcher.Take) is not modelled.
- PathMatcher.Reverse: stated for integers of any number of digits; the 4300-digit limit (see PathMatcher.Take) is not modelled.
- PathMatcher.ReversedOk: stated for integers of any number of digits; the 4300-digit limit (see PathMatcher.Take) is not modelled.
- PathMatcher.TakeShown: stated for integers of any number of digits; the 4300-digit limit (see PathMatcher.Take) is not modelled.
- PathMatcher.MatchShown: stated for integers of any number of digits; the 4300-digit limit (see PathMatcher.Take) is not modelled.
- PathMatcher.MatchReverse: stated for integers of any number of digits; the 4300-digit limit (see PathMatcher.Take) is not modelled.
- PathMatcher.ParseNatText: stated for integers of any number of digits; the 4300-digit limit (see PathMatcher.Take) is not modelled.
- PathMatcher.IsDigit is the decimal-digit table (category Nd) of Unicode 15.0, the table of Python 3.12. Other Python versions ship other tables.
- Responses.NewResponse, Responses.ChooseBody, Responses.SelectFrom and Responses.SelectBodyKinds model the corrected constructor. Its `file_body` gives an upload's bytes, and `set_cookies` is read, never appended to. The code as written is `Responses.SelectAsWritten`, `Responses.ChooseBodyAsWritten` and `Responses.NewResponseAsWritten`. There an upload raises `AttributeError` (or `multiple body types supplied` when an earlier kind was given), and the expired cookies are appended to the caller's list.
- Routing.LateRoutesVisible: stated for an include entry whose router no other include entry reaches. A router included twice changes in both stretches of the flattening, which is not stated.
- The following library calls are parameters or are not modelled:
  - `os.urandom` in `generate_boundary`: the boundary is a parameter.
  - `json.dumps`: the dumped text is a parameter.
  - `urlencode` and `parse_qsl`: `form()` hands the decoded text on; the request's query string and the `querystring` scope key are not modelled.
  - `mimetypes.guess_type`: the guessed type is a parameter.
  - `guarantee_single_callable`.
  - `bytes.decode`: names, file names, content types and text values keep their bytes (see `Multipart.ParseForm` below).
- File I/O: a `SendFile` carries the file's content as bytes. Opening, seeking and reading are the size arithmetic over those bytes.
- `Headers` and `MultiDict` are not part of this model. Headers are an ordered list of pairs looked up with ASCII case folding. A form is the ordered list of `appendlist` entries.
- `Cookie` serialisation is not part of this model. Cookies are records, and a response keeps its `Set-Cookie` entries in order after the other headers.
- `router.py` imports `TextResponse`, which the shown `jackie/http/__init__.py` does not export. It is modelled as `Response(text=..., status=...)` with the extra keyword headers.
- Routing.Router.Route: the decorator form (`view=None`) registers the same entry when the decorator is applied, so only the direct form is modelled.
- Routing.Router.Include requires the include graph to be acyclic, because the model's flattening is a finite sequence. The source's `include` (jackie/router/router.py:73-77) accepts a cycle. `_flat_routes` (jackie/router/router.py:121-128) is a lazy generator, and `_get_view` (jackie/router/router.py:130-139) stops at the first hit. So on a cyclic graph the source serves a request that a route reached before Python's recursion limit answers, and raises `RecursionError` from `__call__` on every other request. Neither behaviour is modelled.
- Routing.Router.Include: after a router is included, it cannot itself include another router. The including router's footprint is fixed at include time. Routes added to an included router later are modelled (Routing.LateRoutesVisible).
- The `JackieToAsgi(JackieRouter(self))` wrapping of a router is not modelled as an object identity. `Routing.Router.Call` and `Routing.Router.CallNative` model both entry points.
- The websocket branch of `JackieToAsgi` only raises `NotImplementedError`, which `Asgi.ServeScopes` states.
- `Matcher.__add__` rejects a non-`Matcher` operand with `TypeError`. Operands are typed here, so that case cannot arise.
- The request classes, `jack/http/response.py` and `jackie/bridge.py` are not part of this model.
- `jack/http/wrappers.py` is a copy of `jackie/http/wrappers.py` with the names changed. The `Package` parameter of the decorators tells the two apart, and every other member covers both.

## Findings

| source | as written | input that shows it | evidently intended | confidence | as-written member | corrected member |
|---|---|---|---|---|---|---|
| jackie/http/response.py:45-48 | for an uploaded `multipart.File`, `file_body` reads `body.content`, which `File` never defines | `Response(file=File('a.txt', 'text/plain', b'x'))` raises `AttributeError` | the upload's bytes become the body, with its content type | not executed | Responses.AsWrittenAgrees | Responses.FileBody |
| jackie/http/response.py:78 | `set_cookies=[]` is one list shared by every call, and `unset_cookies` are appended to it | `Response(unset_cookies=['session'])` then `Response()`: the second also expires `session` | each response sets only its own cookies | not executed | Responses.SharedDefaultLeak | Responses.DefaultsIndependent |
