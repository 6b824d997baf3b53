/** The bridges between native views and ASGI applications of
    jackie/http/wrappers.py, and of its older copy jack/http/wrappers.py,
    which differs only in class names: which messages each side sends and
    how the other side decodes them back into chunks. The two copies are
    told apart by a `Package` where it matters, in the unwrapping rules. */
module Asgi {
  import opened Base

  type Header = (Bytes, Bytes)

  /** An ASGI event dict. `type` is always present; the keys the code reads
      with `.get(key, default)` or that only some kinds carry are optional. */
  datatype Message = Message(
    kind: string,
    body: Option<Bytes>,
    moreBody: Option<bool>,
    status: Option<int>,
    headers: Option<seq<Header>>)

  const HTTP_REQUEST: string := "http.request"
  const HTTP_DISCONNECT: string := "http.disconnect"
  const RESPONSE_START: string := "http.response.start"
  const RESPONSE_BODY: string := "http.response.body"

  /** `{'type': kind, 'body': body, 'more_body': more}` */
  function Frame(kind: string, body: Bytes, more: bool): Message {
    Message(kind, Some(body), Some(more), None, None)
  }

  /** `{'type': 'http.disconnect'}` */
  const DISCONNECT_MESSAGE: Message := Message(HTTP_DISCONNECT, None, None, None, None)

  /** `{'type': 'http.response.start', 'status': status, 'headers': headers}` */
  function StartMessage(status: int, headers: seq<Header>): Message {
    Message(RESPONSE_START, None, None, Some(status), Some(headers))
  }

  function UnexpectedType(kind: string): Exception {
    ValueError("unexpected message type: " + kind)
  }

  /** One frame with `more_body` set per chunk, in order. */
  function Frames(kind: string, chunks: seq<Bytes>): seq<Message>
    decreases |chunks|
  {
    if chunks == [] then [] else [Frame(kind, chunks[0], true)] + Frames(kind, chunks[1..])
  }

  lemma {:induction false} FramesSnoc(kind: string, chunks: seq<Bytes>, c: Bytes)
    ensures Frames(kind, chunks + [c]) == Frames(kind, chunks) + [Frame(kind, c, true)]
    decreases |chunks|
  {
    if chunks == [] {
      assert chunks + [c] == [c];
    } else {
      assert (chunks + [c])[1..] == chunks[1..] + [c];
      FramesSnoc(kind, chunks[1..], c);
    }
  }

  /** A chunk in front of what a feed yields. */
  function Prepend(c: Bytes, f: Feed): Feed {
    Feed([c] + f.chunks, f.end)
  }

  // ---------------------------------------------------------------------
  // Native to ASGI: the request body arriving as messages

  /** `get_request_body(receive)` drained, where `receive` returns the
      messages of `inbox` in order and then never returns. */
  function RequestBody(inbox: seq<Message>): Feed
    decreases |inbox|
  {
    if inbox == [] then Feed([], Starved)
    else
      var m := inbox[0];
      if m.kind == HTTP_REQUEST then
        var b := m.body.GetOr([]);
        if m.moreBody.GetOr(false) then Prepend(b, RequestBody(inbox[1..])) else Feed([b], Complete)
      else if m.kind == HTTP_DISCONNECT then Feed([], Failed(Disconnect))
      else Feed([], Failed(UnexpectedType(m.kind)))
  }

  /** `get_request_body`, receiving one message at a time. */
  method GetRequestBody(inbox: seq<Message>) returns (feed: Feed)
    ensures feed == RequestBody(inbox)
  {
    var chunks: seq<Bytes> := [];
    var i := 0;
    while true
      invariant i <= |inbox|
      invariant RequestBody(inbox) == Feed(chunks + RequestBody(inbox[i..]).chunks, RequestBody(inbox[i..]).end)
      decreases |inbox| - i
    {
      if i == |inbox| {
        return Feed(chunks, Starved);
      }
      var m := inbox[i];
      assert inbox[i..][0] == m && inbox[i..][1..] == inbox[i + 1..];
      i := i + 1;
      if m.kind == HTTP_REQUEST {
        chunks := chunks + [m.body.GetOr([])];
        if !m.moreBody.GetOr(false) {
          return Feed(chunks, Complete);
        }
      } else if m.kind == HTTP_DISCONNECT {
        return Feed(chunks, Failed(Disconnect));
      } else {
        return Feed(chunks, Failed(UnexpectedType(m.kind)));
      }
    }
  }

  /** Once the request body has ended, later messages are never received:
      the body is the messages up to the first final one. */
  lemma {:induction false} RequestBodyStops(inbox: seq<Message>, later: seq<Message>)
    requires !RequestBody(inbox).end.Starved?
    ensures RequestBody(inbox + later) == RequestBody(inbox)
    decreases |inbox|
  {
    assert (inbox + later)[0] == inbox[0];
    var m := inbox[0];
    if m.kind == HTTP_REQUEST && m.moreBody.GetOr(false) {
      assert (inbox + later)[1..] == inbox[1..] + later;
      RequestBodyStops(inbox[1..], later);
    }
  }

  // ---------------------------------------------------------------------
  // ASGI to native: the request body sent as messages

  /** What `send_request_body(chunks, send)` passes to `send`, and how it
      ends, for a source iterator that yields `feed`. A `Disconnect` from
      the source becomes one `http.disconnect` message. */
  function RequestMessages(feed: Feed): (seq<Message>, Termination) {
    var frames := Frames(HTTP_REQUEST, feed.chunks);
    match feed.end
    case Complete => (frames + [Frame(HTTP_REQUEST, [], false)], Complete)
    case Failed(Disconnect) => (frames + [DISCONNECT_MESSAGE], Complete)
    case Failed(e) => (frames, Failed(e))
    case Starved => (frames, Starved)
  }

  /** `send_request_body`, sending one message per chunk. */
  method SendRequestBody(feed: Feed) returns (sent: seq<Message>, end: Termination)
    ensures (sent, end) == RequestMessages(feed)
  {
    sent := [];
    var i := 0;
    while i < |feed.chunks|
      invariant i <= |feed.chunks|
      invariant sent == Frames(HTTP_REQUEST, feed.chunks[..i])
    {
      FramesSnoc(HTTP_REQUEST, feed.chunks[..i], feed.chunks[i]);
      assert feed.chunks[..i + 1] == feed.chunks[..i] + [feed.chunks[i]];
      sent := sent + [Frame(HTTP_REQUEST, feed.chunks[i], true)];
      i := i + 1;
    }
    assert feed.chunks[..i] == feed.chunks;
    match feed.end
    case Complete =>
      sent := sent + [Frame(HTTP_REQUEST, [], false)];
      end := Complete;
    case Failed(e) =>
      if e == Disconnect {
        sent := sent + [DISCONNECT_MESSAGE];
        end := Complete;
      } else {
        end := Failed(e);
      }
    case Starved =>
      end := Starved;
  }

  lemma {:induction false} RequestFramesReceived(chunks: seq<Bytes>, tail: seq<Message>)
    ensures RequestBody(Frames(HTTP_REQUEST, chunks) + tail)
         == Feed(chunks + RequestBody(tail).chunks, RequestBody(tail).end)
    decreases |chunks|
  {
    if chunks == [] {
      assert Frames(HTTP_REQUEST, chunks) + tail == tail;
    } else {
      var all := Frames(HTTP_REQUEST, chunks) + tail;
      assert all[0] == Frame(HTTP_REQUEST, chunks[0], true);
      assert all[1..] == Frames(HTTP_REQUEST, chunks[1..]) + tail;
      RequestFramesReceived(chunks[1..], tail);
      assert chunks == [chunks[0]] + chunks[1..];
    }
  }

  /** What the receiving side of a request body gets from what the sending
      side sends: every chunk, then an empty one when the source completes;
      a `Disconnect` of the source reaches the receiver; any other failure
      of the source leaves the receiver waiting. */
  lemma RequestRoundTrip(feed: Feed)
    ensures feed.end.Complete? ==>
              RequestBody(RequestMessages(feed).0) == Feed(feed.chunks + [[]], Complete)
    ensures feed.end == Failed(Disconnect) ==>
              RequestBody(RequestMessages(feed).0) == Feed(feed.chunks, Failed(Disconnect))
    ensures !feed.end.Complete? && feed.end != Failed(Disconnect) ==>
              RequestBody(RequestMessages(feed).0) == Feed(feed.chunks, Starved)
  {
    var frames := Frames(HTTP_REQUEST, feed.chunks);
    match feed.end
    case Complete =>
      RequestFramesReceived(feed.chunks, [Frame(HTTP_REQUEST, [], false)]);
    case Failed(e) =>
      if e == Disconnect {
        RequestFramesReceived(feed.chunks, [DISCONNECT_MESSAGE]);
      } else {
        RequestFramesReceived(feed.chunks, []);
        assert frames + [] == frames;
      }
    case Starved =>
      RequestFramesReceived(feed.chunks, []);
      assert frames + [] == frames;
  }

  /** The body bytes survive the trip: the trailing empty chunk adds nothing. */
  lemma RequestBodyPreserved(feed: Feed)
    requires feed.end.Complete?
    ensures Concat(RequestBody(RequestMessages(feed).0).chunks) == Concat(feed.chunks)
  {
    RequestRoundTrip(feed);
    ConcatAppend(feed.chunks, [[]]);
    var empty: seq<Bytes> := [[]];
    assert Concat(empty) == [] + Concat(empty[1..]);
  }

  // ---------------------------------------------------------------------
  // Native to ASGI: the response sent as messages

  /** A response as a native view returns it: status, `(str, str)` header
      pairs in order, and what `response.chunks()` yields. */
  datatype Response = Response(status: int, headers: seq<(string, string)>, body: Feed)

  /** How awaiting the view ends. */
  datatype ViewResult = Returned(response: Response) | ViewFailed(error: Exception) | ViewStarved

  /** `[(key.encode(), value.encode()) for key, value in headers]`: each
      header, in order, with both its name and its value UTF-8 encoded. */
  function EncodeHeaders(headers: seq<(string, string)>): (r: seq<Header>)
    ensures |r| == |headers|
    ensures forall i | 0 <= i < |r| :: r[i] == (Utf8(headers[i].0), Utf8(headers[i].1))
    decreases |headers|
  {
    if headers == [] then []
    else [(Utf8(headers[0].0), Utf8(headers[0].1))] + EncodeHeaders(headers[1..])
  }

  /** The messages `JackieToAsgi` sends for a returned response, and how the
      call ends: start, one frame per chunk, a final empty frame; a
      `Disconnect` from the body is swallowed and nothing more is sent. */
  function ResponseMessages(r: Response): (seq<Message>, Termination) {
    var head := [StartMessage(r.status, EncodeHeaders(r.headers))] + Frames(RESPONSE_BODY, r.body.chunks);
    match r.body.end
    case Complete => (head + [Frame(RESPONSE_BODY, [], false)], Complete)
    case Failed(Disconnect) => (head, Complete)
    case Failed(e) => (head, Failed(e))
    case Starved => (head, Starved)
  }

  /** `JackieToAsgi.__call__` for a scope of type `scopeType` whose view
      ends as `view`. */
  function Serve(scopeType: string, view: ViewResult): (seq<Message>, Termination) {
    if scopeType == "http" then
      match view
      case Returned(r) => ResponseMessages(r)
      case ViewFailed(Disconnect) => ([], Complete)
      case ViewFailed(e) => ([], Failed(e))
      case ViewStarved => ([], Starved)
    else if scopeType == "websocket" then ([], Failed(NotImplementedError))
    else ([], Failed(ValueError("unsupported scope type: " + scopeType)))
  }

  /** The sending part of `JackieToAsgi.__call__`, one message at a time. */
  method SendResponse(r: Response) returns (sent: seq<Message>, end: Termination)
    ensures (sent, end) == ResponseMessages(r)
  {
    var chunks := r.body.chunks;
    var head := [StartMessage(r.status, EncodeHeaders(r.headers))];
    sent := head;
    var i := 0;
    while i < |chunks|
      invariant i <= |chunks|
      invariant sent == head + Frames(RESPONSE_BODY, chunks[..i])
    {
      FramesSnoc(RESPONSE_BODY, chunks[..i], chunks[i]);
      assert chunks[..i + 1] == chunks[..i] + [chunks[i]];
      sent := sent + [Frame(RESPONSE_BODY, chunks[i], true)];
      i := i + 1;
    }
    assert chunks[..i] == chunks;
    match r.body.end
    case Complete =>
      sent := sent + [Frame(RESPONSE_BODY, [], false)];
      end := Complete;
    case Failed(e) =>
      end := if e == Disconnect then Complete else Failed(e);
    case Starved =>
      end := Starved;
  }

  /** `JackieToAsgi.__call__`: dispatch on the scope type, then serve. */
  method JackieToAsgi(scopeType: string, view: ViewResult) returns (sent: seq<Message>, end: Termination)
    ensures (sent, end) == Serve(scopeType, view)
  {
    if scopeType == "http" {
      match view
      case Returned(r) =>
        sent, end := SendResponse(r);
      case ViewFailed(e) =>
        sent := [];
        end := if e == Disconnect then Complete else Failed(e);
      case ViewStarved =>
        sent, end := [], Starved;
    } else if scopeType == "websocket" {
      sent, end := [], Failed(NotImplementedError);
    } else {
      sent, end := [], Failed(ValueError("unsupported scope type: " + scopeType));
    }
  }

  /** Only `http` scopes are served; a `Disconnect` of the view is
      swallowed with nothing sent. */
  lemma ServeScopes(scopeType: string, view: ViewResult)
    ensures scopeType != "http" ==> Serve(scopeType, view).0 == [] && Serve(scopeType, view).1.Failed?
    ensures scopeType == "websocket" ==> Serve(scopeType, view).1 == Failed(NotImplementedError)
    ensures scopeType != "http" && scopeType != "websocket" ==>
              Serve(scopeType, view).1 == Failed(ValueError("unsupported scope type: " + scopeType))
    ensures scopeType == "http" && view == ViewFailed(Disconnect) ==> Serve(scopeType, view) == ([], Complete)
    ensures scopeType == "http" && view.Returned? && view.response.body.end == Failed(Disconnect) ==>
              Serve(scopeType, view).1 == Complete
              && |Serve(scopeType, view).0| == 1 + |view.response.body.chunks|
  {
    if scopeType == "http" && view.Returned? {
      FramesLength(RESPONSE_BODY, view.response.body.chunks);
    }
  }

  lemma {:induction false} FramesLength(kind: string, chunks: seq<Bytes>)
    ensures |Frames(kind, chunks)| == |chunks|
    decreases |chunks|
  {
    if chunks != [] {
      FramesLength(kind, chunks[1..]);
    }
  }

  // ---------------------------------------------------------------------
  // ASGI to native: the response arriving as messages

  /** `get_response_body(receive)` drained. */
  function ResponseBody(inbox: seq<Message>): Feed
    decreases |inbox|
  {
    if inbox == [] then Feed([], Starved)
    else
      var m := inbox[0];
      if m.kind == RESPONSE_BODY then
        var b := m.body.GetOr([]);
        if m.moreBody.GetOr(false) then Prepend(b, ResponseBody(inbox[1..])) else Feed([b], Complete)
      else Feed([], Failed(UnexpectedType(m.kind)))
  }

  /** `get_response_body`, receiving one message at a time. */
  method GetResponseBody(inbox: seq<Message>) returns (feed: Feed)
    ensures feed == ResponseBody(inbox)
  {
    var chunks: seq<Bytes> := [];
    var i := 0;
    while true
      invariant i <= |inbox|
      invariant ResponseBody(inbox) == Feed(chunks + ResponseBody(inbox[i..]).chunks, ResponseBody(inbox[i..]).end)
      decreases |inbox| - i
    {
      if i == |inbox| {
        return Feed(chunks, Starved);
      }
      var m := inbox[i];
      assert inbox[i..][0] == m && inbox[i..][1..] == inbox[i + 1..];
      i := i + 1;
      if m.kind != RESPONSE_BODY {
        return Feed(chunks, Failed(UnexpectedType(m.kind)));
      }
      chunks := chunks + [m.body.GetOr([])];
      if !m.moreBody.GetOr(false) {
        return Feed(chunks, Complete);
      }
    }
  }

  /** How awaiting `AsgiToJackie(app)(request)` ends. */
  datatype Reply =
    | Replied(status: int, headers: seq<Header>, body: Feed)
    | ReplyFailed(error: Exception)
    | ReplyStarved

  /** `AsgiToJackie.__call__`, given every message the application puts on
      the output queue: the first must start the response; its status is
      required and its headers default to none; the rest is the body. The
      application's own outcome is not observed. */
  function AcceptResponse(outbox: seq<Message>): (r: Reply)
    ensures outbox == [] <==> r.ReplyStarved?
    ensures r.Replied? ==> r.body == ResponseBody(outbox[1..])
  {
    if outbox == [] then ReplyStarved
    else
      var m := outbox[0];
      if m.kind != RESPONSE_START then ReplyFailed(UnexpectedType(m.kind))
      else match m.status
        case None => ReplyFailed(KeyError("status"))
        case Some(s) => Replied(s, m.headers.GetOr([]), ResponseBody(outbox[1..]))
  }

  lemma {:induction false} ResponseFramesReceived(chunks: seq<Bytes>, tail: seq<Message>)
    ensures ResponseBody(Frames(RESPONSE_BODY, chunks) + tail)
         == Feed(chunks + ResponseBody(tail).chunks, ResponseBody(tail).end)
    decreases |chunks|
  {
    if chunks == [] {
      assert Frames(RESPONSE_BODY, chunks) + tail == tail;
    } else {
      var all := Frames(RESPONSE_BODY, chunks) + tail;
      assert all[0] == Frame(RESPONSE_BODY, chunks[0], true);
      assert all[1..] == Frames(RESPONSE_BODY, chunks[1..]) + tail;
      ResponseFramesReceived(chunks[1..], tail);
      assert chunks == [chunks[0]] + chunks[1..];
    }
  }

  /** A native view behind both bridges: the status and the encoded headers
      arrive unchanged, and the body arrives whole with a trailing empty
      chunk when it completes; when it fails the native caller waits. */
  lemma ResponseRoundTrip(r: Response)
    ensures AcceptResponse(ResponseMessages(r).0)
         == Replied(r.status, EncodeHeaders(r.headers),
                    if r.body.end.Complete? then Feed(r.body.chunks + [[]], Complete)
                    else Feed(r.body.chunks, Starved))
  {
    var frames := Frames(RESPONSE_BODY, r.body.chunks);
    var start := StartMessage(r.status, EncodeHeaders(r.headers));
    var sent := ResponseMessages(r).0;
    if r.body.end.Complete? {
      assert sent == [start] + (frames + [Frame(RESPONSE_BODY, [], false)]);
      ResponseFramesReceived(r.body.chunks, [Frame(RESPONSE_BODY, [], false)]);
    } else {
      assert sent == [start] + (frames + []);
      ResponseFramesReceived(r.body.chunks, []);
    }
  }

  /** A view that fails before responding leaves the native caller waiting,
      and a first message of any other type is a `ValueError`. */
  lemma AcceptFirstMessage(view: ViewResult, outbox: seq<Message>)
    ensures !view.Returned? ==> AcceptResponse(Serve("http", view).0) == ReplyStarved
    ensures outbox != [] && outbox[0].kind != RESPONSE_START ==>
              AcceptResponse(outbox) == ReplyFailed(ValueError("unexpected message type: " + outbox[0].kind))
    ensures outbox != [] && outbox[0].kind == RESPONSE_START && outbox[0].status.Some? ==>
              AcceptResponse(outbox).Replied?
              && AcceptResponse(outbox).status == outbox[0].status.value
              && (outbox[0].headers.None? ==> AcceptResponse(outbox).headers == [])
  {
  }

  // ---------------------------------------------------------------------
  // The decorators

  /** The two copies of the module: their wrapper classes are distinct. */
  datatype Package = Jackie | Jack

  /** A native view: one written natively, or `AsgiToJackie(app)`. */
  datatype View = NativeView(name: string) | AsgiWrapped(package: Package, app: App)

  /** An ASGI application: one written as such, or `JackieToAsgi(view)`. */
  datatype App = AsgiApp(name: string) | NativeWrapped(package: Package, view: View)

  /** `jackie_to_asgi(view)` (`jack_to_asgi` for `Jack`). */
  function ToAsgi(package: Package, view: View): (r: App)
    ensures view.AsgiWrapped? && view.package == package ==> r == view.app
    ensures !(view.AsgiWrapped? && view.package == package) ==> r == NativeWrapped(package, view)
  {
    if view.AsgiWrapped? && view.package == package then view.app else NativeWrapped(package, view)
  }

  /** `asgi_to_jackie(app)` (`asgi_to_jack` for `Jack`). */
  function ToNative(package: Package, app: App): (r: View)
    ensures app.NativeWrapped? && app.package == package ==> r == app.view
    ensures !(app.NativeWrapped? && app.package == package) ==> r == AsgiWrapped(package, app)
  {
    if app.NativeWrapped? && app.package == package then app.view else AsgiWrapped(package, app)
  }

  /** No wrapper directly around a wrapper of the other direction from the
      same package. */
  predicate ReducedView(v: View)
    decreases v
  {
    match v
    case NativeView(_) => true
    case AsgiWrapped(p, a) => !(a.NativeWrapped? && a.package == p) && ReducedApp(a)
  }

  predicate ReducedApp(a: App)
    decreases a
  {
    match a
    case AsgiApp(_) => true
    case NativeWrapped(p, v) => !(v.AsgiWrapped? && v.package == p) && ReducedView(v)
  }

  /** The decorators never build a wrapper around its own inverse. */
  lemma DecoratorsReduce(package: Package, view: View, app: App)
    requires ReducedView(view) && ReducedApp(app)
    ensures ReducedApp(ToAsgi(package, view)) && ReducedView(ToNative(package, app))
  {
  }

  /** Wrapping one way and back with the same package gives back what was
      wrapped, for every value the decorators can build. */
  lemma DecoratorsUndo(package: Package, view: View, app: App)
    requires ReducedView(view) && ReducedApp(app)
    ensures ToNative(package, ToAsgi(package, view)) == view
    ensures ToAsgi(package, ToNative(package, app)) == app
  {
    if view.AsgiWrapped? && view.package == package {
      assert ReducedApp(view.app);
    }
    if app.NativeWrapped? && app.package == package {
      assert ReducedView(app.view);
    }
  }

  /** A wrapper from the other copy of the module is wrapped again, never
      unwrapped. */
  lemma DecoratorsForeign(view: View, app: App)
    ensures ToNative(Jack, NativeWrapped(Jackie, view)) == AsgiWrapped(Jack, NativeWrapped(Jackie, view))
    ensures ToAsgi(Jackie, AsgiWrapped(Jack, app)) == NativeWrapped(Jackie, AsgiWrapped(Jack, app))
  {
  }
}
