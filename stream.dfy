/** The replayable byte stream of jackie/http/stream.py: an upstream chunk
    iterator whose items are fetched once into a cache that every cursor
    replays, `SendFile` items read from a file in bounded chunks, `body()`,
    and the content-type driven `charset`, `boundary` and `form()`. */
module Streams {
  import opened Base
  import Multipart

  /** `SendFile(path, offset=, size=)`. `content` is what the file at `path`
      holds; the file system itself is not modelled. */
  datatype SendFile = SendFile(path: string, content: Bytes, offset: nat, size: int)

  /** What the upstream iterator yields: bytes, or a file to send. */
  datatype Item = Chunk(data: Bytes) | FileRef(file: SendFile)

  /** The outcome of awaiting one cached `__anext__()` of the upstream. */
  datatype Pulled = Got(item: Item) | Stopped | Raised(error: Exception)

  /** The default `chunk_size` of `SendFile.chunks`. */
  const CHUNK_SIZE: int := 4096

  function Min(a: int, b: int): int {
    if a <= b then a else b
  }

  // ---------------------------------------------------------------------
  // SendFile.chunks

  /** The bytes a read sees after `f.seek(offset)`: nothing past the end. */
  function Available(f: SendFile): Bytes {
    if f.offset < |f.content| then f.content[f.offset..] else []
  }

  /** `f.read(n)` from the current position: at most `n` bytes, all of
      them when `n` is negative. */
  function Read(rest: Bytes, n: int): (r: Bytes)
    ensures |r| <= |rest| && r == rest[..|r|]
    ensures n < 0 ==> r == rest
    ensures 0 <= n ==> |r| == Min(n, |rest|)
  {
    if n < 0 || |rest| <= n then rest else rest[..n]
  }

  /** The `while size != 0` loop of `SendFile.chunks`, from the bytes still
      unread and the `size` still wanted. */
  function Reads(rest: Bytes, size: int, chunkSize: int): seq<Bytes>
    requires chunkSize >= 0
    decreases |rest|
  {
    if size == 0 then []
    else
      var chunk := Read(rest, if size < 0 then chunkSize else Min(chunkSize, size));
      if chunk == [] then [] else [chunk] + Reads(rest[|chunk|..], size - |chunk|, chunkSize)
  }

  /** Everything `SendFile.chunks(chunk_size=chunkSize)` yields. */
  function FileChunks(f: SendFile, chunkSize: int): seq<Bytes> {
    if chunkSize < 0 then [Read(Available(f), f.size)]
    else Reads(Available(f), f.size, chunkSize)
  }

  /** `SendFile.chunks`, reading the file as the code does. */
  method ReadFile(f: SendFile, chunkSize: int) returns (chunks: seq<Bytes>)
    ensures chunks == FileChunks(f, chunkSize)
  {
    var rest := Available(f);
    if chunkSize < 0 {
      chunks := [Read(rest, f.size)];
      return;
    }
    var size := f.size;
    chunks := [];
    while size != 0
      invariant chunks + Reads(rest, size, chunkSize) == Reads(Available(f), f.size, chunkSize)
      decreases |rest|
    {
      var chunk := Read(rest, if size < 0 then chunkSize else Min(chunkSize, size));
      ReadsStep(rest, size, chunkSize);
      if chunk == [] {
        break;
      }
      ListAssoc(chunks, [chunk], Reads(rest[|chunk|..], size - |chunk|, chunkSize));
      rest := rest[|chunk|..];
      size := size - |chunk|;
      chunks := chunks + [chunk];
    }
  }

  /** One pass of the loop: the read it makes, then the rest of the loop. */
  lemma ReadsStep(rest: Bytes, size: int, chunkSize: int)
    requires chunkSize >= 0 && size != 0
    ensures var chunk := Read(rest, if size < 0 then chunkSize else Min(chunkSize, size));
      Reads(rest, size, chunkSize)
      == if chunk == [] then [] else [chunk] + Reads(rest[|chunk|..], size - |chunk|, chunkSize)
  {
  }

  lemma ListAssoc(a: seq<Bytes>, b: seq<Bytes>, c: seq<Bytes>)
    ensures a + (b + c) == (a + b) + c
  {
  }

  /** The first read of the loop, when there is one. */
  lemma ReadsCons(rest: Bytes, size: int, chunkSize: int)
    requires chunkSize > 0 && size != 0
    ensures var chunk := Read(rest, if size < 0 then chunkSize else Min(chunkSize, size));
      && (chunk == [] <==> rest == [])
      && Reads(rest, size, chunkSize)
         == if chunk == [] then [] else [chunk] + Reads(rest[|chunk|..], size - |chunk|, chunkSize)
  {
  }

  /** With a positive chunk size the chunks together are the `size` bytes
      wanted (everything for a negative `size`). */
  lemma {:induction false} ReadsConcat(rest: Bytes, size: int, chunkSize: int)
    requires chunkSize > 0
    ensures Concat(Reads(rest, size, chunkSize)) == Read(rest, size)
    decreases |rest|
  {
    if size != 0 {
      ReadsCons(rest, size, chunkSize);
      var chunk := Read(rest, if size < 0 then chunkSize else Min(chunkSize, size));
      if chunk != [] {
        var more := rest[|chunk|..];
        var tail := Reads(more, size - |chunk|, chunkSize);
        Multipart.ConcatCons(chunk, tail);
        ReadsConcat(more, size - |chunk|, chunkSize);
        ReadSplit(rest, size, |chunk|);
      }
    }
  }

  /** A read of `size` bytes is a read of its first `k` followed by a read
      of the remaining `size - k`. */
  lemma ReadSplit(rest: Bytes, size: int, k: nat)
    requires 0 < k <= |rest| && (size < 0 || k <= size)
    ensures Read(rest, size) == rest[..k] + Read(rest[k..], size - k)
  {
    if size < 0 {
      assert rest == rest[..k] + rest[k..];
    } else if |rest| <= size {
      assert rest == rest[..k] + rest[k..];
    } else {
      assert rest[..size] == rest[..k] + rest[k..][..size - k];
    }
  }

  /** With a positive chunk size every chunk is non-empty and at most
      `chunkSize` long, and all but the last are exactly `chunkSize` long. */
  lemma {:induction false} ReadsSizes(rest: Bytes, size: int, chunkSize: int)
    requires chunkSize > 0
    ensures forall i | 0 <= i < |Reads(rest, size, chunkSize)| ::
              0 < |Reads(rest, size, chunkSize)[i]| <= chunkSize
    ensures forall i | 0 <= i < |Reads(rest, size, chunkSize)| - 1 ::
              |Reads(rest, size, chunkSize)[i]| == chunkSize
    decreases |rest|
  {
    if size != 0 {
      ReadsCons(rest, size, chunkSize);
      var chunk := Read(rest, if size < 0 then chunkSize else Min(chunkSize, size));
      if chunk != [] {
        var more := rest[|chunk|..];
        var tail := Reads(more, size - |chunk|, chunkSize);
        ReadsSizes(more, size - |chunk|, chunkSize);
        if |chunk| < chunkSize {
          assert more == [] || size - |chunk| == 0;
          assert tail == [];
        }
        SizesCons(chunk, tail, chunkSize);
      }
    }
  }

  /** The chunk sizes of `ReadsSizes`, one chunk in front of the rest. */
  lemma SizesCons(chunk: Bytes, tail: seq<Bytes>, chunkSize: int)
    requires 0 < |chunk| <= chunkSize && (|chunk| < chunkSize ==> tail == [])
    requires forall i | 0 <= i < |tail| :: 0 < |tail[i]| <= chunkSize
    requires forall i | 0 <= i < |tail| - 1 :: |tail[i]| == chunkSize
    ensures forall i | 0 <= i < |[chunk] + tail| :: 0 < |([chunk] + tail)[i]| <= chunkSize
    ensures forall i | 0 <= i < |[chunk] + tail| - 1 :: |([chunk] + tail)[i]| == chunkSize
  {
    var out := [chunk] + tail;
    assert forall i | 1 <= i < |out| :: out[i] == tail[i - 1];
  }

  /** `SendFile.chunks()` with the default chunk size reads the wanted bytes
      in chunks of 4096 bytes, the last one possibly shorter. */
  lemma FileChunksSpec(f: SendFile)
    ensures Concat(FileChunks(f, CHUNK_SIZE)) == Read(Available(f), f.size)
    ensures forall i | 0 <= i < |FileChunks(f, CHUNK_SIZE)| :: 0 < |FileChunks(f, CHUNK_SIZE)[i]| <= CHUNK_SIZE
    ensures forall i | 0 <= i < |FileChunks(f, CHUNK_SIZE)| - 1 :: |FileChunks(f, CHUNK_SIZE)[i]| == CHUNK_SIZE
  {
    ReadsConcat(Available(f), f.size, CHUNK_SIZE);
    ReadsSizes(Available(f), f.size, CHUNK_SIZE);
  }

  /** A zero chunk size reads nothing; a negative one makes a single read of
      `size` bytes. */
  lemma FileChunksEdges(f: SendFile, chunkSize: int)
    requires chunkSize <= 0
    ensures chunkSize == 0 ==> FileChunks(f, chunkSize) == []
    ensures chunkSize < 0 ==> FileChunks(f, chunkSize) == [Read(Available(f), f.size)]
  {
  }

  // ---------------------------------------------------------------------
  // What a cursor yields

  /** Byte strings as yielded items. */
  function AsItems(bs: seq<Bytes>): seq<Item>
    decreases |bs|
  {
    if bs == [] then [] else [Chunk(bs[0])] + AsItems(bs[1..])
  }

  /** What `chunks(expand_files=expand)` yields for one upstream item. */
  function ExpandOne(item: Item, expand: bool): seq<Item> {
    match item
    case Chunk(b) => [Chunk(b)]
    case FileRef(f) => if expand then AsItems(FileChunks(f, CHUNK_SIZE)) else [FileRef(f)]
  }

  /** What `chunks(expand_files=expand)` yields for a run of upstream items. */
  function Expand(items: seq<Item>, expand: bool): seq<Item>
    decreases |items|
  {
    if items == [] then [] else Expand(items[..|items| - 1], expand) + ExpandOne(items[|items| - 1], expand)
  }

  lemma ExpandSnoc(items: seq<Item>, item: Item, expand: bool)
    ensures Expand(items + [item], expand) == Expand(items, expand) + ExpandOne(item, expand)
  {
    assert (items + [item])[..|items|] == items;
  }

  /** Replaying more upstream items only extends the output. */
  lemma {:induction false} ExpandPrefix(items: seq<Item>, k: nat, expand: bool)
    requires k <= |items|
    ensures Expand(items[..k], expand) <= Expand(items, expand)
    decreases |items| - k
  {
    if k < |items| {
      ExpandPrefix(items, k + 1, expand);
      assert items[..k + 1] == items[..k] + [items[k]];
      ExpandSnoc(items[..k], items[k], expand);
    } else {
      assert items[..k] == items;
    }
  }

  /** Plain bytes pass through unchanged, whatever `expand_files` says. */
  lemma {:induction false} ExpandPlain(items: seq<Item>, expand: bool)
    requires forall i | 0 <= i < |items| :: items[i].Chunk?
    ensures Expand(items, expand) == items
    decreases |items|
  {
    if items != [] {
      var init := items[..|items| - 1];
      ExpandPlain(init, expand);
      assert init + [items[|items| - 1]] == items;
    }
  }

  /** With files expanded, every yielded item is bytes. */
  lemma {:induction false} ExpandedChunks(items: seq<Item>)
    ensures forall i | 0 <= i < |Expand(items, true)| :: Expand(items, true)[i].Chunk?
    decreases |items|
  {
    if items != [] {
      var init, last := items[..|items| - 1], items[|items| - 1];
      var a, b := Expand(init, true), ExpandOne(last, true);
      assert Expand(items, true) == a + b;
      ExpandedChunks(init);
      if last.FileRef? {
        AsItemsPointwise(FileChunks(last.file, CHUNK_SIZE));
      }
      assert forall i | 0 <= i < |b| :: b[i].Chunk?;
      ChunksAppend(a, b);
    }
  }

  lemma ChunksAppend(a: seq<Item>, b: seq<Item>)
    requires forall i | 0 <= i < |a| :: a[i].Chunk?
    requires forall i | 0 <= i < |b| :: b[i].Chunk?
    ensures forall i | 0 <= i < |a + b| :: (a + b)[i].Chunk?
  {
    assert forall i | |a| <= i < |a| + |b| :: (a + b)[i] == b[i - |a|];
  }

  lemma {:induction false} AsItemsPointwise(bs: seq<Bytes>)
    ensures |AsItems(bs)| == |bs|
    ensures forall i | 0 <= i < |bs| :: AsItems(bs)[i] == Chunk(bs[i])
    decreases |bs|
  {
    if bs != [] {
      var tail := AsItems(bs[1..]);
      AsItemsPointwise(bs[1..]);
      assert AsItems(bs) == [Chunk(bs[0])] + tail;
      assert forall i | 1 <= i < |bs| :: ([Chunk(bs[0])] + tail)[i] == tail[i - 1];
    }
  }

  /** The byte strings of items that are all bytes. */
  function Datas(items: seq<Item>): (r: seq<Bytes>)
    requires forall i | 0 <= i < |items| :: items[i].Chunk?
    ensures |r| == |items| && forall i | 0 <= i < |items| :: r[i] == items[i].data
  {
    seq(|items|, i requires 0 <= i < |items| => items[i].data)
  }

  /** `b''.join` of everything a cursor with files expanded yields. */
  function Joined(items: seq<Item>): Bytes {
    ExpandedChunks(items);
    Concat(Datas(Expand(items, true)))
  }

  /** How a cursor ends once the upstream is exhausted. */
  function Ending(failure: Option<Exception>): Step {
    match failure
    case None => Stop
    case Some(e) => Raise(e)
  }

  /** One `__anext__` of a cursor: a chunk, `StopAsyncIteration`, or the
      exception the upstream raised. */
  datatype Step = Yield(item: Item) | Stop | Raise(error: Exception)

  // ---------------------------------------------------------------------
  // Stream and its cursors

  class Stream {
    /** Everything the upstream iterator yields, in order. */
    const upstream: seq<Item>
    /** How the upstream iterator ends: `None` for `StopAsyncIteration`. */
    const failure: Option<Exception>
    /** `_cache`: the outcome of every `__anext__` made so far. */
    var cache: seq<Pulled>
    /** How many times the upstream has been advanced. */
    var pulls: nat

    /** The outcome of the `i`-th `__anext__` of the upstream. */
    function Pull(i: nat): Pulled {
      if i < |upstream| then Got(upstream[i])
      else if failure.Some? then Raised(failure.value)
      else Stopped
    }

    /** Every pull is cached in order, and the upstream is advanced at most
        once past its last item. */
    ghost predicate Valid()
      reads this
    {
      pulls == |cache| <= |upstream| + 1
      && forall i | 0 <= i < |cache| :: cache[i] == Pull(i)
    }

    /** `Stream(chunks)` for an iterable of chunks. */
    constructor (items: seq<Item>, failure: Option<Exception>)
      ensures upstream == items && this.failure == failure
      ensures cache == [] && pulls == 0 && Valid()
    {
      upstream := items;
      this.failure := failure;
      cache := [];
      pulls := 0;
    }

    /** `Stream(b)` for a `bytes` value: one chunk. `Stream()` is `FromBytes([])`. */
    constructor FromBytes(b: Bytes)
      ensures upstream == [Chunk(b)] && failure == None
      ensures cache == [] && pulls == 0 && Valid()
    {
      upstream := [Chunk(b)];
      failure := None;
      cache := [];
      pulls := 0;
    }

    /** The lookup at the top of the `chunks` loop: reuse `_cache[index]`,
        or advance the upstream once and cache the outcome. */
    method Fetch(index: nat) returns (p: Pulled)
      requires Valid() && index <= |cache| && index <= |upstream|
      modifies this
      ensures Valid() && p == Pull(index)
      ensures cache == if index < |old(cache)| then old(cache) else old(cache) + [Pull(index)]
    {
      if index < |cache| {
        p := cache[index];
      } else {
        p := Pull(pulls);
        pulls := pulls + 1;
        cache := cache + [p];
      }
    }

    /** `chunks(expand_files=...)`: a new cursor at the start. */
    method Chunks(expandFiles: bool) returns (c: Cursor)
      requires Valid()
      ensures fresh(c) && c.stream == this && c.expandFiles == expandFiles
      ensures c.Valid() && c.history == [] && !c.done
    {
      c := new Cursor(this, expandFiles);
    }

    /** `body()`: the bytes of every chunk, files read in, joined; or the
        exception the upstream raised. */
    method Body() returns (r: Result<Bytes, Exception>)
      requires Valid()
      modifies this
      ensures Valid() && old(cache) <= cache && |cache| == |upstream| + 1
      ensures failure.None? ==> r == Ok(Joined(upstream))
      ensures failure.Some? ==> r == Err(failure.value)
    {
      var c := Chunks(true);
      var chunks, end := Drain(c);
      assert chunks == Expand(upstream, true);
      ExpandedChunks(upstream);
      if end.Raise? {
        r := Err(end.error);
      } else {
        r := Ok(Concat(Datas(chunks)));
      }
    }
  }

  /** `async for chunk in cursor`: everything the cursor still yields, and
      how it ends. */
  method Drain(c: Cursor) returns (items: seq<Item>, end: Step)
    requires c.Valid() && !c.done
    modifies c, c.stream
    ensures c.Valid() && c.done && !end.Yield?
    ensures old(c.history) + items == Expand(c.stream.upstream, c.expandFiles)
    ensures end == Ending(c.stream.failure)
    ensures old(c.stream.cache) <= c.stream.cache && |c.stream.cache| == |c.stream.upstream| + 1
  {
    items := [];
    while true
      invariant c.Valid() && !c.done && c.history == old(c.history) + items
      invariant old(c.stream.cache) <= c.stream.cache
      decreases |c.stream.upstream| - c.index, |c.pending|
    {
      var s := c.Next();
      if !s.Yield? {
        c.HistoryPrefix();
        return items, s;
      }
      items := items + [s.item];
    }
  }

  class Cursor {
    const stream: Stream
    const expandFiles: bool
    /** `index` of the `chunks` loop: the upstream items consumed so far. */
    var index: nat
    /** The chunks of a file being expanded that are not yielded yet. */
    var pending: seq<Bytes>
    /** The generator has finished. */
    var done: bool
    /** Everything this cursor has yielded. */
    ghost var history: seq<Item>

    /** What was yielded, then the pending file chunks, is exactly the
        output for the upstream items consumed so far. */
    ghost predicate Valid()
      reads this, stream
    {
      stream.Valid() && index <= |stream.cache| && index <= |stream.upstream|
      && history + AsItems(pending) == Expand(stream.upstream[..index], expandFiles)
      && (done ==> pending == [] && index == |stream.upstream| && index < |stream.cache|)
    }

    constructor (stream: Stream, expandFiles: bool)
      requires stream.Valid()
      ensures this.stream == stream && this.expandFiles == expandFiles
      ensures Valid() && history == [] && !done
    {
      this.stream := stream;
      this.expandFiles := expandFiles;
      index := 0;
      pending := [];
      done := false;
      history := [];
      new;
      assert stream.upstream[..0] == [];
    }

    /** Whatever a cursor has yielded is a prefix of what every cursor of the
        same stream yields in full. */
    lemma HistoryPrefix()
      requires Valid()
      ensures history <= Expand(stream.upstream, expandFiles)
      ensures done ==> history == Expand(stream.upstream, expandFiles)
    {
      ExpandPrefix(stream.upstream, index, expandFiles);
      if done {
        assert stream.upstream[..index] == stream.upstream;
      }
    }

    /** One `__anext__` on the generator `chunks()` returns. */
    method Next() returns (s: Step)
      requires Valid()
      modifies this, stream
      ensures Valid()
      ensures s.Yield? ==> history == old(history) + [s.item] && !done
      ensures !s.Yield? ==> done && history == old(history)
      ensures !s.Yield? ==> s == if old(done) then Stop else Ending(stream.failure)
      ensures old(stream.cache) <= stream.cache
      ensures index > old(index) || (index == old(index) && |pending| < |old(pending)|) || done
    {
      if done {
        return Stop;
      }
      if pending != [] {
        s := TakePending();
      } else {
        s := Advance();
      }
    }

    /** Resuming inside the expansion of a file: its next chunk. */
    method TakePending() returns (s: Step)
      requires Valid() && pending != [] && !done
      modifies this
      ensures Valid() && !done && index == old(index) && pending == old(pending)[1..]
      ensures s == Yield(Chunk(old(pending)[0])) && history == old(history) + [s.item]
    {
      s := Yield(Chunk(pending[0]));
      history := history + [s.item];
      assert AsItems(old(pending)) == [s.item] + AsItems(pending[1..]);
      pending := pending[1..];
    }

    /** The `while True` loop of `chunks` from the top: fetch, and yield the
        item (or the first chunk of a non-empty file) or finish. */
    method Advance() returns (s: Step)
      requires Valid() && pending == [] && !done
      modifies this, stream
      ensures Valid()
      ensures s.Yield? ==> history == old(history) + [s.item] && !done && index > old(index)
      ensures !s.Yield? ==> done && history == old(history) && s == Ending(stream.failure)
      ensures old(stream.cache) <= stream.cache
    {
      while true
        invariant Valid() && pending == [] && !done && history == old(history)
        invariant index >= old(index) && old(stream.cache) <= stream.cache
        decreases |stream.upstream| - index
      {
        var p := stream.Fetch(index);
        if !p.Got? {
          done := true;
          return Ending(stream.failure);
        }
        var y := Accept(p.item);
        if y.Some? {
          return Yield(y.value);
        }
      }
    }

    /** One upstream item taken: yield it, or expand it when it is a file,
        yielding the file's first chunk if it has one. */
    method Accept(item: Item) returns (y: Option<Item>)
      requires Valid() && pending == [] && !done
      requires index < |stream.upstream| && index < |stream.cache| && stream.upstream[index] == item
      modifies this
      ensures Valid() && !done && index == old(index) + 1
      ensures y.Some? ==> history == old(history) + [y.value]
      ensures y.None? ==> history == old(history) && pending == []
    {
      assert AsItems(pending) == [] && history + [] == history;
      Consumed(history, stream.upstream, index, expandFiles);
      index := index + 1;
      if item.FileRef? && expandFiles {
        var chunks := ReadFile(item.file, CHUNK_SIZE);
        y := Taken(chunks);
      } else {
        y := Some(item);
        history := history + [item];
        assert AsItems(pending) == [];
      }
    }

    /** The chunks of a file just read: the first is yielded, the rest wait. */
    method Taken(chunks: seq<Bytes>) returns (y: Option<Item>)
      requires pending == []
      modifies this
      ensures y.None? <==> chunks == []
      ensures y.Some? ==> y.value == Chunk(chunks[0]) && pending == chunks[1..]
      ensures y.None? ==> pending == []
      ensures history + AsItems(pending) == old(history) + AsItems(chunks)
      ensures y.Some? ==> history == old(history) + [y.value]
      ensures y.None? ==> history == old(history)
      ensures index == old(index) && done == old(done)
    {
      if chunks == [] {
        return None;
      }
      y := Some(Chunk(chunks[0]));
      pending := chunks[1..];
      history := history + [y.value];
    }
  }

  /** Consuming the next upstream item adds its expansion to the output. */
  lemma Consumed(h: seq<Item>, items: seq<Item>, k: nat, expand: bool)
    requires k < |items| && h == Expand(items[..k], expand)
    ensures h + ExpandOne(items[k], expand) == Expand(items[..k + 1], expand)
  {
    var next := items[..k + 1];
    assert next[..|next| - 1] == items[..k] && next[|next| - 1] == items[k];
  }

  /** A cursor stays valid while other cursors of its stream advance: they
      only extend the shared cache. */
  twostate lemma OtherCursor(c: Cursor)
    requires old(c.Valid()) && c.stream.Valid() && unchanged(c)
    requires old(c.stream.cache) <= c.stream.cache
    ensures c.Valid()
  {
  }

  // ---------------------------------------------------------------------
  // Content type

  /** `charset`: the `charset` parameter, `UTF-8` by default. */
  function Charset(params: map<string, string>): (r: string)
    ensures "charset" in params ==> r == params["charset"]
    ensures "charset" !in params ==> r == "UTF-8"
  {
    if "charset" in params then params["charset"] else "UTF-8"
  }

  /** `boundary`: the `boundary` parameter, or `ValueError`. */
  function Boundary(params: map<string, string>): (r: Result<string, Exception>)
    ensures "boundary" in params <==> r.Ok?
    ensures r.Ok? ==> r.value == params["boundary"]
    ensures r.Err? ==> r.error == ValueError("no boundary provided")
  {
    if "boundary" in params then Ok(params["boundary"]) else Err(ValueError("no boundary provided"))
  }

  /** What `form()` hands on: the decoded text to `parse_qsl` (not part of
      this model), or the parsed multipart form. */
  datatype FormData = UrlEncoded(body: Bytes, charset: string) | MultipartForm(form: Multipart.Form)

  const URLENCODED: string := "application/x-www-form-urlencoded"
  const MULTIPART: string := "multipart/form-data"

  /** `form()`, given the parsed content type and the outcome of `body()`. */
  function FormOf(contentType: string, params: map<string, string>, body: Result<Bytes, Exception>)
    : (r: Result<FormData, Exception>)
    ensures contentType != URLENCODED && contentType != MULTIPART ==> r.Err? && r.error.ValueError?
    ensures (contentType == URLENCODED || contentType == MULTIPART) && body.Err? ==> r == Err(body.error)
    ensures contentType == URLENCODED && body.Ok? ==> r == Ok(UrlEncoded(body.value, Charset(params)))
    ensures contentType == MULTIPART && body.Ok? && "boundary" !in params ==>
              r == Err(ValueError("no boundary provided"))
    ensures contentType == MULTIPART && body.Ok? && "boundary" in params ==>
              match Multipart.Parse(body.value, params["boundary"])
              case Ok(form) => r == Ok(MultipartForm(form))
              case Err(fe) => r == Err(ValueError(Multipart.Message(fe)))
  {
    if contentType == URLENCODED then
      match body
      case Err(e) => Err(e)
      case Ok(b) => Ok(UrlEncoded(b, Charset(params)))
    else if contentType == MULTIPART then
      match body
      case Err(e) => Err(e)
      case Ok(b) =>
        match Boundary(params)
        case Err(e) => Err(e)
        case Ok(boundary) =>
          match Multipart.Parse(b, boundary)
          case Err(fe) => Err(ValueError(Multipart.Message(fe)))
          case Ok(form) => Ok(MultipartForm(form))
    else
      Err(ValueError("content type must be either " + URLENCODED + " or " + MULTIPART + ", not " + contentType))
  }

  /** A form serialized with a boundary and read back by `form()` under
      that boundary is the same form. */
  lemma FormRoundTrip(form: Multipart.Form, boundary: string)
    requires Multipart.Serializable(form, boundary)
    ensures FormOf(MULTIPART, map["boundary" := boundary], Ok(Concat(Multipart.SerializeChunks(form, boundary))))
            == Ok(MultipartForm(form))
  {
    Multipart.RoundTrip(form, boundary);
  }
}
