/** `Response.__init__` of jackie/http/response.py: at most one body kind
    chosen in `BODY_TYPES` order, the kind's default status and headers,
    header precedence by `setdefault`, the `Set-Cookie` entries in order,
    and `ok`. */
module Responses {
  import opened Base
  import Multipart
  import Streams

  /** Header pairs in order; keys are compared case-insensitively. */
  type HeaderList = seq<(string, string)>

  const CONTENT_TYPE: string := "Content-Type"
  const MULTIPLE: string := "multiple body types supplied"

  /** `EPOCH`, as a Unix time. */
  const EPOCH: int := 0

  /** A cookie to set: name, value and optional expiry (its other attributes
      and its serialisation are not part of this model). */
  datatype Cookie = Cookie(name: string, value: string, expires: Option<int>)

  /** The `file=` argument: a path (with what the file holds and what
      `mimetypes.guess_type` says of it), or an uploaded `multipart.File`. */
  datatype FileArg =
    | Path(path: string, content: Bytes, guessedType: Option<string>)
    | Upload(name: string, contentType: Option<string>, content: Bytes)

  /** The keyword arguments of `Response(...)`. The body kinds are the keys
      of `BODY_TYPES`; `json` carries the text `json.dumps` makes of the
      value; `body` the items of the stream; `extra` the remaining keyword
      arguments, which become headers. */
  datatype Args = Args(
    status: Option<int>,
    contentType: Option<string>,
    headers: HeaderList,
    form: Option<Multipart.Form>,
    json: Option<string>,
    text: Option<string>,
    html: Option<string>,
    redirect: Option<string>,
    file: Option<FileArg>,
    body: Option<seq<Streams.Item>>,
    extra: HeaderList,
    unsetCookies: seq<string>)

  /** What a `*_body` helper returns: status, the stream's items, default headers. */
  datatype BodyParts = BodyParts(status: int, content: seq<Streams.Item>, headers: HeaderList)

  // ---------------------------------------------------------------------
  // The body kinds

  /** `form_body`, with the boundary `generate_boundary` drew: the
      serialized form, typed `multipart/form-data` with that boundary. */
  function FormBody(form: Multipart.Form, boundary: string): (r: BodyParts)
    ensures r.status == 200
    ensures r.headers == [(CONTENT_TYPE, "multipart/form-data; boundary=" + boundary)]
  {
    BodyParts(200, Streams.AsItems(Multipart.SerializeChunks(form, boundary)),
              [(CONTENT_TYPE, "multipart/form-data; boundary=" + boundary)])
  }

  /** `json_body`: the UTF-8 of the dumped text, typed JSON. */
  function JsonBody(dumped: string): (r: BodyParts)
    ensures r.status == 200 && r.content == [Streams.Chunk(Utf8(dumped))]
    ensures r.headers == [(CONTENT_TYPE, "application/json; charset=UTF-8")]
  {
    BodyParts(200, [Streams.Chunk(Utf8(dumped))], [(CONTENT_TYPE, "application/json; charset=UTF-8")])
  }

  /** `text_body`: the UTF-8 of the text, typed plain text. */
  function TextBody(text: string): (r: BodyParts)
    ensures r.status == 200 && r.content == [Streams.Chunk(Utf8(text))]
    ensures r.headers == [(CONTENT_TYPE, "text/plain; charset=UTF-8")]
  {
    BodyParts(200, [Streams.Chunk(Utf8(text))], [(CONTENT_TYPE, "text/plain; charset=UTF-8")])
  }

  /** `html_body`: the UTF-8 of the markup, typed HTML. */
  function HtmlBody(html: string): (r: BodyParts)
    ensures r.status == 200 && r.content == [Streams.Chunk(Utf8(html))]
    ensures r.headers == [(CONTENT_TYPE, "text/html; charset=UTF-8")]
  {
    BodyParts(200, [Streams.Chunk(Utf8(html))], [(CONTENT_TYPE, "text/html; charset=UTF-8")])
  }

  /** `redirect_body`: 304, an empty body and the target as `Location`. */
  function RedirectBody(location: string): (r: BodyParts)
    ensures r.status == 304 && r.content == [Streams.Chunk([])]
    ensures r.headers == [("Location", location)]
  {
    BodyParts(304, [Streams.Chunk([])], [("Location", location)])
  }

  /** The optional `Content-Type` default of a file. */
  function TypeHeader(contentType: Option<string>): HeaderList {
    if contentType.None? then [] else [(CONTENT_TYPE, contentType.value)]
  }

  /** A one-header list has nothing under a key of another length. */
  lemma GetOther(k: string, v: string, key: string)
    requires |k| != |key|
    ensures Get([(k, v)], key) == None
  {
    assert [(k, v)][1..] == [];
    assert |Fold(k)| != |Fold(key)|;
    assert FindFolded([], Fold(key)) == None;
  }

  lemma TypeHeaderGet(contentType: Option<string>)
    ensures Get(TypeHeader(contentType), CONTENT_TYPE) == contentType
  {
    if contentType.Some? {
      GetFirst(CONTENT_TYPE, contentType.value, []);
    }
  }

  /** `file_body` as written: an upload's `content` attribute is read, which
      `multipart.File` does not have. */
  function FileBodyAsWritten(f: FileArg): (r: Result<BodyParts, Exception>)
    ensures r.Err? <==> f.Upload?
    ensures r.Err? ==> r.error == AttributeError("content")
    ensures r.Ok? ==> r.value == FileBody(f)
  {
    match f
    case Upload(_, _, _) => Err(AttributeError("content"))
    case Path(_, _, _) => Ok(FileBody(f))
  }

  /** `file_body` as intended: a path is sent as a whole file, an upload's
      bytes are the body; the `Content-Type` default is the guessed or
      uploaded type, and there is none when that is unknown. */
  function FileBody(f: FileArg): (r: BodyParts)
    ensures r.status == 200
    ensures f.Path? ==> r.content == [Streams.FileRef(Streams.SendFile(f.path, f.content, 0, -1))] && r.headers == TypeHeader(f.guessedType)
    ensures f.Upload? ==> r.content == [Streams.Chunk(f.content)] && r.headers == TypeHeader(f.contentType)
  {
    match f
    case Path(path, content, guessed) =>
      BodyParts(200, [Streams.FileRef(Streams.SendFile(path, content, 0, -1))], TypeHeader(guessed))
    case Upload(_, ct, content) =>
      BodyParts(200, [Streams.Chunk(content)], TypeHeader(ct))
  }

  /** `base_body`: the items as given, no default header. */
  function BaseBody(items: seq<Streams.Item>): (r: BodyParts)
    ensures r.status == 200 && r.content == items
    ensures r.headers == []
  {
    BodyParts(200, items, [])
  }

  /** `body or (200, b'', {})` when no kind was given. */
  const EMPTY_BODY: BodyParts := BodyParts(200, [Streams.Chunk([])], [])

  /** The number of keys of `BODY_TYPES`; kind `k` is its `k`-th key. */
  const KINDS: nat := 7
  const REDIRECT: nat := 4

  function Supplied(args: Args, k: nat): bool {
    if k == 0 then args.form.Some?
    else if k == 1 then args.json.Some?
    else if k == 2 then args.text.Some?
    else if k == 3 then args.html.Some?
    else if k == 4 then args.redirect.Some?
    else if k == 5 then args.file.Some?
    else if k == 6 then args.body.Some?
    else false
  }

  /** `get_body(data)` for the `k`-th key. */
  function GetBody(args: Args, boundary: string, k: nat): BodyParts
    requires k < KINDS && Supplied(args, k)
  {
    if k == 0 then FormBody(args.form.value, boundary)
    else if k == 1 then JsonBody(args.json.value)
    else if k == 2 then TextBody(args.text.value)
    else if k == 3 then HtmlBody(args.html.value)
    else if k == 4 then RedirectBody(args.redirect.value)
    else if k == 5 then FileBody(args.file.value)
    else BaseBody(args.body.value)
  }

  /** The loop over `BODY_TYPES` from the `k`-th key, with `body` so far. */
  function Select(args: Args, boundary: string, k: nat, body: Option<BodyParts>): Result<Option<BodyParts>, Exception>
    requires k <= KINDS
    decreases KINDS - k
  {
    if k == KINDS then Ok(body)
    else if !Supplied(args, k) then Select(args, boundary, k + 1, body)
    else if body.Some? then Err(ValueError(MULTIPLE))
    else Select(args, boundary, k + 1, Some(GetBody(args, boundary, k)))
  }

  function SelectBody(args: Args, boundary: string): Result<Option<BodyParts>, Exception> {
    Select(args, boundary, 0, None)
  }

  /** The loop over `BODY_TYPES` of `Response.__init__`. */
  method ChooseBody(args: Args, boundary: string) returns (r: Result<Option<BodyParts>, Exception>)
    ensures r == SelectBody(args, boundary)
  {
    var body: Option<BodyParts> := None;
    var k := 0;
    while k < KINDS
      invariant k <= KINDS
      invariant Select(args, boundary, k, body) == SelectBody(args, boundary)
    {
      if Supplied(args, k) {
        if body.Some? {
          return Err(ValueError(MULTIPLE));
        }
        body := Some(GetBody(args, boundary, k));
      }
      k := k + 1;
    }
    return Ok(body);
  }

  /** The kinds supplied from the `k`-th key on, in `BODY_TYPES` order. */
  function SuppliedFrom(args: Args, k: nat): (r: seq<nat>)
    requires k <= KINDS
    ensures forall i | 0 <= i < |r| :: k <= r[i] < KINDS && Supplied(args, r[i])
    decreases KINDS - k
  {
    if k == KINDS then []
    else (if Supplied(args, k) then [k] else []) + SuppliedFrom(args, k + 1)
  }

  lemma {:induction false} SelectHolding(args: Args, boundary: string, k: nat, body: BodyParts)
    requires k <= KINDS
    ensures Select(args, boundary, k, Some(body))
         == if SuppliedFrom(args, k) == [] then Ok(Some(body)) else Err(ValueError(MULTIPLE))
    decreases KINDS - k
  {
    if k < KINDS && !Supplied(args, k) {
      SelectHolding(args, boundary, k + 1, body);
    }
  }

  lemma {:induction false} SelectFrom(args: Args, boundary: string, k: nat)
    requires k <= KINDS
    ensures var s := SuppliedFrom(args, k);
      Select(args, boundary, k, None)
      == if s == [] then Ok(None)
         else if |s| == 1 then Ok(Some(GetBody(args, boundary, s[0])))
         else Err(ValueError(MULTIPLE))
    decreases KINDS - k
  {
    if k < KINDS {
      if Supplied(args, k) {
        SelectHolding(args, boundary, k + 1, GetBody(args, boundary, k));
      } else {
        SelectFrom(args, boundary, k + 1);
      }
    }
  }

  /** No body kind gives the empty body, exactly one gives its helper's
      result, and two or more are a `ValueError`. */
  lemma SelectBodyKinds(args: Args, boundary: string)
    ensures var s := SuppliedFrom(args, 0);
      && (s == [] ==> SelectBody(args, boundary) == Ok(None))
      && (|s| == 1 ==> SelectBody(args, boundary) == Ok(Some(GetBody(args, boundary, s[0]))))
      && (|s| >= 2 <==> SelectBody(args, boundary).Err?)
      && (SelectBody(args, boundary).Err? ==> SelectBody(args, boundary).error == ValueError(MULTIPLE))
  {
    SelectFrom(args, boundary, 0);
  }

  /** `get_body(data)` for the `k`-th key as written: `file_body` raises on
      an upload. */
  function GetBodyAsWritten(args: Args, boundary: string, k: nat): Result<BodyParts, Exception>
    requires k < KINDS && Supplied(args, k)
  {
    if k == 5 then FileBodyAsWritten(args.file.value) else Ok(GetBody(args, boundary, k))
  }

  /** The loop over `BODY_TYPES` as written, from the `k`-th key. */
  function SelectAsWritten(args: Args, boundary: string, k: nat, body: Option<BodyParts>): Result<Option<BodyParts>, Exception>
    requires k <= KINDS
    decreases KINDS - k
  {
    if k == KINDS then Ok(body)
    else if !Supplied(args, k) then SelectAsWritten(args, boundary, k + 1, body)
    else if body.Some? then Err(ValueError(MULTIPLE))
    else match GetBodyAsWritten(args, boundary, k)
      case Err(e) => Err(e)
      case Ok(b) => SelectAsWritten(args, boundary, k + 1, Some(b))
  }

  /** The loop over `BODY_TYPES` of `Response.__init__` as written. */
  method ChooseBodyAsWritten(args: Args, boundary: string) returns (r: Result<Option<BodyParts>, Exception>)
    ensures r == SelectAsWritten(args, boundary, 0, None)
  {
    var body: Option<BodyParts> := None;
    var k := 0;
    while k < KINDS
      invariant k <= KINDS
      invariant SelectAsWritten(args, boundary, k, body) == SelectAsWritten(args, boundary, 0, None)
    {
      if Supplied(args, k) {
        if body.Some? {
          return Err(ValueError(MULTIPLE));
        }
        var got := GetBodyAsWritten(args, boundary, k);
        if got.Err? {
          return Err(got.error);
        }
        body := Some(got.value);
      }
      k := k + 1;
    }
    return Ok(body);
  }

  lemma {:induction false} AsWrittenSame(args: Args, boundary: string, k: nat, body: Option<BodyParts>)
    requires k <= KINDS
    requires k > 5 || args.file.None? || args.file.value.Path?
    ensures SelectAsWritten(args, boundary, k, body) == Select(args, boundary, k, body)
    decreases KINDS - k
  {
    if k < KINDS {
      if !Supplied(args, k) {
        AsWrittenSame(args, boundary, k + 1, body);
      } else if body.None? {
        AsWrittenSame(args, boundary, k + 1, Some(GetBody(args, boundary, k)));
      }
    }
  }

  lemma {:induction false} AsWrittenUpload(args: Args, boundary: string, k: nat, body: Option<BodyParts>)
    requires k <= 5 && args.file.Some? && args.file.value.Upload?
    ensures 5 in SuppliedFrom(args, k)
    ensures SelectAsWritten(args, boundary, k, body)
         == Err(if body.Some? || SuppliedFrom(args, k)[0] < 5 then ValueError(MULTIPLE) else AttributeError("content"))
    decreases 5 - k
  {
    KindListed(args, k, 5);
    if k < 5 {
      AsWrittenUpload(args, boundary, k + 1, if Supplied(args, k) then Some(GetBody(args, boundary, k)) else body);
    }
  }

  /** The selection as written agrees with the corrected one except on an
      upload: that raises the `multiple body types` error when a kind
      before `file` was given, else `file_body`'s `AttributeError`. */
  lemma AsWrittenAgrees(args: Args, boundary: string)
    ensures args.file.None? || args.file.value.Path? ==>
              SelectAsWritten(args, boundary, 0, None) == SelectBody(args, boundary)
    ensures args.file.Some? && args.file.value.Upload? ==>
              SelectAsWritten(args, boundary, 0, None)
              == Err(if SuppliedFrom(args, 0)[0] < 5 then ValueError(MULTIPLE) else AttributeError("content"))
    ensures SelectAsWritten(args, boundary, 0, None).Ok? ==>
              SelectAsWritten(args, boundary, 0, None) == SelectBody(args, boundary)
  {
    if args.file.Some? && args.file.value.Upload? {
      AsWrittenUpload(args, boundary, 0, None);
    } else {
      AsWrittenSame(args, boundary, 0, None);
    }
  }

  // ---------------------------------------------------------------------
  // Headers

  function LowerChar(c: char): char {
    if 'A' <= c <= 'Z' then (c as int + 32) as char else c
  }

  /** A header key as compared: ASCII letters folded to lower case. */
  function Fold(s: string): (r: string)
    ensures |r| == |s|
    decreases |s|
  {
    if s == [] then [] else [LowerChar(s[0])] + Fold(s[1..])
  }

  function FindFolded(h: HeaderList, folded: string): Option<string>
    decreases |h|
  {
    if h == [] then None
    else if Fold(h[0].0) == folded then Some(h[0].1)
    else FindFolded(h[1..], folded)
  }

  /** `headers.get(key)`: the first value under the key, in any case. */
  function Get(h: HeaderList, key: string): Option<string> {
    FindFolded(h, Fold(key))
  }

  function Or(a: Option<string>, b: Option<string>): Option<string> {
    if a.Some? then a else b
  }

  /** A value for `key` when `k` is the same key. */
  function Under(k: string, v: string, key: string): Option<string> {
    if Fold(k) == Fold(key) then Some(v) else None
  }

  /** `headers.setdefault(key, value)` */
  function SetDefault(h: HeaderList, key: string, value: string): HeaderList {
    if Get(h, key).Some? then h else h + [(key, value)]
  }

  /** `for key, value in defaults.items(): headers.setdefault(key, value)` */
  function SetDefaults(h: HeaderList, defaults: HeaderList): HeaderList
    decreases |defaults|
  {
    if defaults == [] then h else SetDefaults(SetDefault(h, defaults[0].0, defaults[0].1), defaults[1..])
  }

  lemma {:induction false} FindAppend(h: HeaderList, k: string, v: string, folded: string)
    ensures FindFolded(h + [(k, v)], folded)
         == Or(FindFolded(h, folded), if Fold(k) == folded then Some(v) else None)
    decreases |h|
  {
    if h == [] {
      assert h + [(k, v)] == [(k, v)];
    } else {
      assert (h + [(k, v)])[1..] == h[1..] + [(k, v)];
      FindAppend(h[1..], k, v, folded);
    }
  }

  /** `setdefault` fills the key only when it is absent. */
  lemma GetSetDefault(h: HeaderList, k: string, v: string, key: string)
    ensures Get(SetDefault(h, k, v), key) == Or(Get(h, key), Under(k, v, key))
    ensures h <= SetDefault(h, k, v)
  {
    FindAppend(h, k, v, Fold(key));
  }

  /** Defaults only fill keys that are still absent, the first default of a
      key winning; the headers already present stay in front, unchanged. */
  lemma {:induction false} GetSetDefaults(h: HeaderList, defaults: HeaderList, key: string)
    ensures Get(SetDefaults(h, defaults), key) == Or(Get(h, key), Get(defaults, key))
    ensures h <= SetDefaults(h, defaults)
    decreases |defaults|
  {
    if defaults != [] {
      var d := defaults[0];
      GetSetDefault(h, d.0, d.1, key);
      GetSetDefaults(SetDefault(h, d.0, d.1), defaults[1..], key);
    }
  }

  lemma {:induction false} SetDefaultsSnoc(h: HeaderList, defaults: HeaderList, d: (string, string))
    ensures SetDefaults(h, defaults + [d]) == SetDefault(SetDefaults(h, defaults), d.0, d.1)
    decreases |defaults|
  {
    if defaults == [] {
      assert defaults + [d] == [d];
    } else {
      assert (defaults + [d])[1..] == defaults[1..] + [d];
      SetDefaultsSnoc(SetDefault(h, defaults[0].0, defaults[0].1), defaults[1..], d);
    }
  }

  /** `Headers(headers, **kwargs)` then the `content_type` argument. */
  function Explicit(args: Args): HeaderList {
    var given := args.headers + args.extra;
    if args.contentType.Some? then SetDefault(given, CONTENT_TYPE, args.contentType.value) else given
  }

  /** The headers of the response before its `Set-Cookie` entries. */
  function FinalHeaders(args: Args, parts: BodyParts): HeaderList {
    SetDefaults(Explicit(args), parts.headers)
  }

  /** Header precedence: the explicit headers and keyword arguments, then the
      `content_type` argument, then the body kind's defaults. */
  lemma HeaderPrecedence(args: Args, parts: BodyParts, key: string)
    ensures Get(FinalHeaders(args, parts), key)
         == Or(Get(args.headers + args.extra, key),
               Or(if args.contentType.Some? then Under(CONTENT_TYPE, args.contentType.value, key) else None,
                  Get(parts.headers, key)))
    ensures args.headers + args.extra <= FinalHeaders(args, parts)
  {
    var given := args.headers + args.extra;
    GetSetDefaults(Explicit(args), parts.headers, key);
    if args.contentType.Some? {
      GetSetDefault(given, CONTENT_TYPE, args.contentType.value, key);
    }
  }

  // ---------------------------------------------------------------------
  // Cookies

  /** `Cookie(name, '', expires=EPOCH)` for each name to unset. */
  function Expired(names: seq<string>): (r: seq<Cookie>)
    ensures |r| == |names|
    decreases |names|
  {
    if names == [] then [] else [Cookie(names[0], "", Some(EPOCH))] + Expired(names[1..])
  }

  lemma {:induction false} ExpiredSnoc(names: seq<string>, n: string)
    ensures Expired(names + [n]) == Expired(names) + [Cookie(n, "", Some(EPOCH))]
    decreases |names|
  {
    if names == [] {
      assert names + [n] == [n];
    } else {
      assert (names + [n])[1..] == names[1..] + [n];
      ExpiredSnoc(names[1..], n);
    }
  }

  /** A Python list of cookies, which the caller may share. */
  class CookieList {
    var items: seq<Cookie>

    constructor ()
      ensures items == []
    {
      items := [];
    }

    method Append(c: Cookie)
      modifies this
      ensures items == old(items) + [c]
    {
      items := items + [c];
    }
  }

  /** The `unset_cookies` loop as written: the expired cookies are appended
      to the `set_cookies` list itself. */
  method AppendUnset(list: CookieList, names: seq<string>)
    modifies list
    ensures list.items == old(list.items) + Expired(names)
  {
    var i := 0;
    while i < |names|
      invariant i <= |names|
      invariant list.items == old(list.items) + Expired(names[..i])
    {
      ExpiredSnoc(names[..i], names[i]);
      assert names[..i + 1] == names[..i] + [names[i]];
      list.Append(Cookie(names[i], "", Some(EPOCH)));
      i := i + 1;
    }
    assert names[..i] == names;
  }

  // ---------------------------------------------------------------------
  // The response

  class Response {
    /** The body stream (`super().__init__(body)`). */
    const stream: Streams.Stream
    var status: int
    /** `self.headers` without its `Set-Cookie` entries. */
    var headers: HeaderList
    /** The `Set-Cookie` entries `appendlist` adds after all other headers. */
    var cookies: seq<Cookie>

    constructor (status: int, headers: HeaderList, content: seq<Streams.Item>)
      ensures this.status == status && this.headers == headers && cookies == []
      ensures fresh(stream) && stream.upstream == content && stream.failure == None && stream.Valid()
    {
      stream := new Streams.Stream(content, None);
      this.status := status;
      this.headers := headers;
      cookies := [];
    }

    method SetHeaderDefault(key: string, value: string)
      modifies this
      ensures headers == SetDefault(old(headers), key, value)
      ensures status == old(status) && cookies == old(cookies)
    {
      if Get(headers, key).None? {
        headers := headers + [(key, value)];
      }
    }

    method AppendCookie(c: Cookie)
      modifies this
      ensures cookies == old(cookies) + [c]
      ensures status == old(status) && headers == old(headers)
    {
      cookies := cookies + [c];
    }

    /** `for key, value in defaults.items(): self.headers.setdefault(key, value)` */
    method FillDefaults(defaults: HeaderList)
      modifies this
      ensures headers == SetDefaults(old(headers), defaults)
      ensures status == old(status) && cookies == old(cookies)
    {
      ghost var start := headers;
      var i := 0;
      while i < |defaults|
        invariant i <= |defaults|
        invariant headers == SetDefaults(start, defaults[..i])
        invariant status == old(status) && cookies == old(cookies)
      {
        SetDefaultsSnoc(start, defaults[..i], defaults[i]);
        assert defaults[..i + 1] == defaults[..i] + [defaults[i]];
        SetHeaderDefault(defaults[i].0, defaults[i].1);
        i := i + 1;
      }
      assert defaults[..i] == defaults;
    }

    /** `for cookie in set_cookies: self.headers.appendlist('Set-Cookie', ...)` */
    method AppendCookies(cs: seq<Cookie>)
      modifies this
      ensures cookies == old(cookies) + cs
      ensures status == old(status) && headers == old(headers)
    {
      var j := 0;
      while j < |cs|
        invariant j <= |cs|
        invariant cookies == old(cookies) + cs[..j]
        invariant status == old(status) && headers == old(headers)
      {
        assert cs[..j + 1] == cs[..j] + [cs[j]];
        AppendCookie(cs[j]);
        j := j + 1;
      }
      assert cs[..j] == cs;
    }

    /** `ok`: not an error status. */
    predicate IsOk()
      reads this
    {
      status < 400
    }
  }

  /** The body a successful construction uses. */
  function Chosen(args: Args, boundary: string): BodyParts
    requires SelectBody(args, boundary).Ok?
  {
    SelectBody(args, boundary).value.GetOr(EMPTY_BODY)
  }

  function FinalStatus(args: Args, boundary: string): int
    requires SelectBody(args, boundary).Ok?
  {
    args.status.GetOr(Chosen(args, boundary).status)
  }

  /** `Response.__init__` once the body is chosen: the stream, the status,
      the headers filled by `setdefault`, then one `Set-Cookie` per cookie. */
  method Assemble(args: Args, parts: BodyParts, cookies: seq<Cookie>) returns (resp: Response)
    ensures fresh(resp) && fresh(resp.stream)
    ensures resp.status == args.status.GetOr(parts.status)
    ensures resp.headers == FinalHeaders(args, parts)
    ensures resp.cookies == cookies
    ensures resp.stream.upstream == parts.content && resp.stream.Valid()
  {
    resp := new Response(args.status.GetOr(parts.status), args.headers + args.extra, parts.content);
    if args.contentType.Some? {
      resp.SetHeaderDefault(CONTENT_TYPE, args.contentType.value);
    }
    resp.FillDefaults(parts.headers);
    resp.AppendCookies(cookies);
  }

  /** `Response(...)` as written: `set_cookies` is the caller's list, and the
      expired cookies are appended to it before the headers are set. A body
      error leaves the list as it was. */
  method NewResponseAsWritten(args: Args, boundary: string, setCookies: CookieList) returns (r: Result<Response, Exception>)
    modifies setCookies
    ensures r.Err? <==> SelectAsWritten(args, boundary, 0, None).Err?
    ensures r.Err? ==> r.error == SelectAsWritten(args, boundary, 0, None).error && setCookies.items == old(setCookies.items)
    ensures r.Ok? ==> fresh(r.value) && fresh(r.value.stream)
    ensures r.Ok? ==>
              && SelectBody(args, boundary).Ok?
              && setCookies.items == old(setCookies.items) + Expired(args.unsetCookies)
              && r.value.status == FinalStatus(args, boundary)
              && r.value.headers == FinalHeaders(args, Chosen(args, boundary))
              && r.value.cookies == setCookies.items
              && r.value.stream.upstream == Chosen(args, boundary).content
              && r.value.stream.Valid()
  {
    var chosen := ChooseBodyAsWritten(args, boundary);
    if chosen.Err? {
      return Err(chosen.error);
    }
    AsWrittenAgrees(args, boundary);
    AppendUnset(setCookies, args.unsetCookies);
    var resp := Assemble(args, chosen.value.GetOr(EMPTY_BODY), setCookies.items);
    r := Ok(resp);
  }

  /** `Response(...)` as intended: the caller's `set_cookies` is read, never
      appended to. */
  method NewResponse(args: Args, boundary: string, setCookies: seq<Cookie>) returns (r: Result<Response, Exception>)
    ensures r.Err? <==> SelectBody(args, boundary).Err?
    ensures r.Err? ==> r.error == SelectBody(args, boundary).error
    ensures r.Ok? ==> fresh(r.value) && fresh(r.value.stream)
    ensures r.Ok? ==>
              && r.value.status == FinalStatus(args, boundary)
              && r.value.headers == FinalHeaders(args, Chosen(args, boundary))
              && r.value.cookies == setCookies + Expired(args.unsetCookies)
              && r.value.stream.upstream == Chosen(args, boundary).content
              && r.value.stream.Valid()
    ensures r.Ok? ==> (r.value.IsOk() <==> args.status.None? || args.status.value < 400)
  {
    var chosen := ChooseBody(args, boundary);
    if chosen.Err? {
      return Err(chosen.error);
    }
    var resp := Assemble(args, chosen.value.GetOr(EMPTY_BODY), setCookies + Expired(args.unsetCookies));
    DefaultStatus(args, boundary);
    r := Ok(resp);
  }

  /** With the shared default `set_cookies=[]`, a cookie unset by one
      response is also unset by the next response that sets no cookies. */
  method SharedDefaultLeak() returns (first: seq<Cookie>, second: seq<Cookie>)
    ensures first == [Cookie("session", "", Some(EPOCH))]
    ensures second == first
  {
    var shared := new CookieList();
    var unset := Args(None, None, [], None, None, None, None, None, None, None, [], ["session"]);
    var plain := unset.(unsetCookies := []);
    NoKindAsWritten(unset, "");
    NoKindAsWritten(plain, "");
    var r1 := NewResponseAsWritten(unset, "", shared);
    first := r1.value.cookies;
    var r2 := NewResponseAsWritten(plain, "", shared);
    second := r2.value.cookies;
  }

  lemma NoKindAsWritten(args: Args, boundary: string)
    requires SuppliedFrom(args, 0) == []
    ensures SelectAsWritten(args, boundary, 0, None) == Ok(None)
  {
    SelectFrom(args, boundary, 0);
    AsWrittenSame(args, boundary, 0, None);
  }

  /** Responses built one after another with the default `set_cookies`
      share nothing: the second sets no cookie. */
  method DefaultsIndependent() returns (first: seq<Cookie>, second: seq<Cookie>)
    ensures first == [Cookie("session", "", Some(EPOCH))]
    ensures second == []
  {
    var unset := Args(None, None, [], None, None, None, None, None, None, None, [], ["session"]);
    var plain := unset.(unsetCookies := []);
    SelectBodyKinds(unset, "");
    SelectBodyKinds(plain, "");
    var r1 := NewResponse(unset, "", []);
    var r2 := NewResponse(plain, "", []);
    first := r1.value.cookies;
    second := r2.value.cookies;
  }

  // ---------------------------------------------------------------------
  // Properties of the kinds

  /** Each kind's default status: 304 for a redirect, 200 for the others. */
  lemma KindStatus(args: Args, boundary: string, k: nat)
    requires k < KINDS && Supplied(args, k)
    ensures GetBody(args, boundary, k).status == if k == REDIRECT then 304 else 200
  {
  }

  /** The first header of a list is found under its own key. */
  lemma GetFirst(k: string, v: string, rest: HeaderList)
    ensures Get([(k, v)] + rest, k) == Some(v)
  {
  }

  /** Each kind's default headers as `headers.get` finds them: a UTF-8
      content type for text, HTML and JSON; `Location` and no content type
      for a redirect; a `multipart/form-data` content type with the boundary
      for a form; a file's guessed or uploaded type when it has one; none
      for a bare body. */
  lemma KindHeaders(form: Multipart.Form, boundary: string, dumped: string, text: string, html: string,
                    location: string, f: FileArg, items: seq<Streams.Item>)
    ensures Get(JsonBody(dumped).headers, CONTENT_TYPE) == Some("application/json; charset=UTF-8")
    ensures Get(TextBody(text).headers, CONTENT_TYPE) == Some("text/plain; charset=UTF-8")
    ensures Get(HtmlBody(html).headers, CONTENT_TYPE) == Some("text/html; charset=UTF-8")
    ensures Get(RedirectBody(location).headers, "Location") == Some(location)
            && Get(RedirectBody(location).headers, CONTENT_TYPE) == None
    ensures Get(FormBody(form, boundary).headers, CONTENT_TYPE) == Some("multipart/form-data; boundary=" + boundary)
    ensures Get(FileBody(f).headers, CONTENT_TYPE) == if f.Path? then f.guessedType else f.contentType
    ensures forall key :: Get(BaseBody(items).headers, key) == None
  {
    GetFirst(CONTENT_TYPE, "application/json; charset=UTF-8", []);
    GetFirst(CONTENT_TYPE, "text/plain; charset=UTF-8", []);
    GetFirst(CONTENT_TYPE, "text/html; charset=UTF-8", []);
    GetFirst("Location", location, []);
    GetOther("Location", location, CONTENT_TYPE);
    GetFirst(CONTENT_TYPE, "multipart/form-data; boundary=" + boundary, []);
    if f.Path? {
      TypeHeaderGet(f.guessedType);
    } else {
      TypeHeaderGet(f.contentType);
    }
  }

  /** The status is the explicit one, else 304 for a redirect and 200 for
      everything else; so a response with no explicit status is `ok`. */
  lemma DefaultStatus(args: Args, boundary: string)
    requires SelectBody(args, boundary).Ok?
    ensures FinalStatus(args, boundary) == args.status.GetOr(if args.redirect.Some? then 304 else 200)
    ensures args.status.None? ==> FinalStatus(args, boundary) < 400
  {
    SelectBodyKinds(args, boundary);
    ChosenStatus(args, boundary);
  }

  lemma ChosenStatus(args: Args, boundary: string)
    requires SelectBody(args, boundary).Ok?
    ensures Chosen(args, boundary).status == if args.redirect.Some? then 304 else 200
  {
    var s := SuppliedFrom(args, 0);
    ChosenKinds(args, boundary);
    if s != [] {
      OnlyKindStatus(args, boundary, s[0]);
    }
  }

  /** The body used is the one kind given, or the empty body. */
  lemma ChosenKinds(args: Args, boundary: string)
    requires SelectBody(args, boundary).Ok?
    ensures |SuppliedFrom(args, 0)| <= 1
    ensures SuppliedFrom(args, 0) == [] ==> Chosen(args, boundary) == EMPTY_BODY
    ensures |SuppliedFrom(args, 0)| == 1 ==> Chosen(args, boundary) == GetBody(args, boundary, SuppliedFrom(args, 0)[0])
  {
    SelectBodyKinds(args, boundary);
  }

  lemma OnlyKindStatus(args: Args, boundary: string, k: nat)
    requires k < KINDS && Supplied(args, k) && SuppliedFrom(args, 0) == [k]
    ensures GetBody(args, boundary, k).status == if args.redirect.Some? then 304 else 200
  {
    KindStatus(args, boundary, k);
    if args.redirect.Some? {
      KindListed(args, 0, REDIRECT);
    }
  }

  /** A kind given is listed among the kinds supplied from any key up to it. */
  lemma {:induction false} KindListed(args: Args, k: nat, j: nat)
    requires k <= j < KINDS && Supplied(args, j)
    ensures j in SuppliedFrom(args, k)
    decreases j - k
  {
    if k < j {
      KindListed(args, k + 1, j);
    }
  }

  /** With no body kind: status 200 unless given, the empty body, and only
      the explicit headers. */
  lemma EmptyDefaults(args: Args, boundary: string)
    requires SuppliedFrom(args, 0) == []
    ensures SelectBody(args, boundary).Ok?
    ensures Chosen(args, boundary) == EMPTY_BODY
    ensures FinalStatus(args, boundary) == args.status.GetOr(200)
    ensures FinalHeaders(args, Chosen(args, boundary)) == Explicit(args)
  {
    SelectBodyKinds(args, boundary);
  }
}
