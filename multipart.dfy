/** The line-based `multipart/form-data` dialect of jackie/multipart.py:
    bare `\n` line ends, a `Content-Disposition` header split on `; `, no
    quoting.  `parse` is a loop over the lines of the body; `serialize`
    emits fixed pieces per field; the two are inverse on well-formed forms. */
module Multipart {
  import opened Base

  /** A parsed field value.  Text values and names keep their bytes: the
      `.decode()` / `.encode()` pair is not part of this model. */
  datatype FormValue =
    | Text(text: Bytes)
    | File(name: Bytes, contentType: Bytes, content: Bytes)

  /** The entries `appendlist` adds to the MultiDict, in order. */
  type Form = seq<(Bytes, FormValue)>

  function Content(v: FormValue): Bytes {
    match v
    case Text(t) => t
    case File(_, _, c) => c
  }

  datatype FormError =
    | MissingBoundary
    | UnexpectedEnd
    | ExpectedHeader
    | ExpectedDisposition
    | MissingDispositionData
    | UnexpectedDispositionData
    | ExpectedFormData
    | ExpectedName
    | ExpectedFilename
    | ExpectedContentType
    | UnexpectedHeader(key: Bytes)

  /** Text of a header key byte by byte (agrees with UTF-8 decoding on ASCII). */
  function Latin(s: Bytes): (r: string)
    ensures |r| == |s|
  {
    seq(|s|, i requires 0 <= i < |s| => s[i] as int as char)
  }

  /** The `ValueError` message `parse` raises for each error. */
  function Message(e: FormError): (m: string)
    ensures |m| > 19 && m[..19] == "invalid form data: "
  {
    "invalid form data: " +
    match e
    case MissingBoundary => "missing boundary"
    case UnexpectedEnd => "unexpected end of data"
    case ExpectedHeader => "expected header"
    case ExpectedDisposition => "expected header Content-Disposition"
    case MissingDispositionData => "missing data in Content-Disposition"
    case UnexpectedDispositionData => "unexpected data in Content-Disposition"
    case ExpectedFormData => "expected form-data Content-Disposition"
    case ExpectedName => "expected name in Content-Disposition"
    case ExpectedFilename => "expected filename in Content-Disposition"
    case ExpectedContentType => "expected header Content-Type"
    case UnexpectedHeader(k) => "unexpected header " + Latin(k)
  }

  const COLON_SP: Bytes := Ascii(": ")
  const CD_KEY: Bytes := Ascii("Content-Disposition")
  const CT_KEY: Bytes := Ascii("Content-Type")
  const SEMI_SP: Bytes := Ascii("; ")
  const CONTENT_DISPOSITION: Bytes := Ascii("content-disposition")
  const CONTENT_TYPE: Bytes := Ascii("content-type")
  const FORM_DATA: Bytes := Ascii("form-data")
  const NAME_EQ: Bytes := Ascii("name=")
  const FILENAME_EQ: Bytes := Ascii("filename=")
  /** `b'Content-Disposition: form-data; name='` */
  const CD_PREFIX: Bytes := CD_KEY + COLON_SP + FORM_DATA + SEMI_SP + NAME_EQ
  /** `b'; filename='` */
  const FILENAME_SEP: Bytes := SEMI_SP + FILENAME_EQ
  /** `b'\nContent-Type: '` */
  const NL_CT: Bytes := NL + CT_KEY + COLON_SP
  /** `b'\n\n'` */
  const NL_NL: Bytes := NL + NL

  const DASHES: Bytes := Ascii("--")

  function Start(b: Bytes): Bytes { DASHES + b }
  function End(b: Bytes): Bytes { DASHES + b + DASHES }

  predicate IsBoundary(line: Bytes, b: Bytes) {
    line == Start(b) || line == End(b)
  }

  // ---------------------------------------------------------------------
  // The per-part header dict: insertion ordered, assignment overwrites in place

  type HeaderTable = seq<(Bytes, Bytes)>

  function Lookup(h: HeaderTable, k: Bytes): Option<Bytes> {
    if h == [] then None else if h[0].0 == k then Some(h[0].1) else Lookup(h[1..], k)
  }

  /** `headers[k] = v` */
  function Put(h: HeaderTable, k: Bytes, v: Bytes): HeaderTable {
    if h == [] then [(k, v)]
    else if h[0].0 == k then [(k, v)] + h[1..]
    else [h[0]] + Put(h[1..], k, v)
  }

  /** `headers.pop(k)`, `None` standing for the KeyError. */
  function Pop(h: HeaderTable, k: Bytes): Option<(Bytes, HeaderTable)> {
    if h == [] then None
    else if h[0].0 == k then Some((h[0].1, h[1..]))
    else match Pop(h[1..], k)
      case None => None
      case Some((v, rest)) => Some((v, [h[0]] + rest))
  }

  /** After `headers[k] = v`, `k` maps to `v` and every other key is as before. */
  lemma {:induction false} PutLookup(h: HeaderTable, k: Bytes, v: Bytes, j: Bytes)
    ensures Lookup(Put(h, k, v), j) == if j == k then Some(v) else Lookup(h, j)
  {
    if h != [] && h[0].0 != k {
      PutLookup(h[1..], k, v, j);
      assert ([h[0]] + Put(h[1..], k, v))[1..] == Put(h[1..], k, v);
    }
  }

  /** Assignment keeps the key order: an existing key stays where it was,
      a new key goes last. */
  lemma {:induction false} PutOrder(h: HeaderTable, k: Bytes, v: Bytes)
    ensures |Put(h, k, v)| == if Lookup(h, k).Some? then |h| else |h| + 1
    ensures forall i | 0 <= i < |h| :: Put(h, k, v)[i].0 == h[i].0
    ensures Lookup(h, k).None? ==> Put(h, k, v)[|h|] == (k, v)
  {
    if h != [] && h[0].0 != k {
      PutOrder(h[1..], k, v);
      var r := Put(h, k, v);
      assert r == [h[0]] + Put(h[1..], k, v);
      forall i | 1 <= i < |h| ensures r[i].0 == h[i].0 {
        assert r[i] == Put(h[1..], k, v)[i - 1];
      }
    }
  }

  /** `headers.pop(k)` succeeds exactly when `k` is present, returns its
      value and leaves every other key as it was. */
  lemma {:induction false} PopLookup(h: HeaderTable, k: Bytes, j: Bytes)
    ensures Pop(h, k).None? <==> Lookup(h, k).None?
    ensures Pop(h, k).Some? ==> Some(Pop(h, k).value.0) == Lookup(h, k)
    ensures Pop(h, k).Some? && j != k ==> Lookup(Pop(h, k).value.1, j) == Lookup(h, j)
  {
    if h != [] && h[0].0 != k {
      PopLookup(h[1..], k, j);
      match Pop(h[1..], k)
      case None =>
      case Some((v, rest)) =>
        assert ([h[0]] + rest)[1..] == rest;
    }
  }

  // ---------------------------------------------------------------------
  // parse, as a specification over the list of lines

  /** The header block of one part: lines up to the first empty one.
      Returns the headers and the lines after the empty line. */
  function ReadHeaders(rest: seq<Bytes>, headers: HeaderTable): (r: Result<(HeaderTable, seq<Bytes>), FormError>)
    ensures r.Ok? ==> |r.value.1| < |rest|
    decreases |rest|
  {
    if rest == [] then Err(UnexpectedEnd)
    else if rest[0] == [] then Ok((headers, rest[1..]))
    else match SplitOnce(rest[0], COLON_SP)
      case None => Err(ExpectedHeader)
      case Some((k, v)) => ReadHeaders(rest[1..], Put(headers, Lower(k), v))
  }

  datatype PartHead = PartHead(name: Bytes, file: Option<(Bytes, Bytes)>)

  /** The checks on the header dict of one part, in the order `parse` makes them. */
  function CheckPart(headers: HeaderTable): Result<PartHead, FormError> {
    match Pop(headers, CONTENT_DISPOSITION)
    case None => Err(ExpectedDisposition)
    case Some((cd, rest)) =>
      var d := Split(cd, SEMI_SP);
      if |d| < 2 then Err(MissingDispositionData)
      else if |d| > 3 then Err(UnexpectedDispositionData)
      else if d[0] != FORM_DATA then Err(ExpectedFormData)
      else if !StartsWith(d[1], NAME_EQ) then Err(ExpectedName)
      else if |d| == 3 && !StartsWith(d[2], FILENAME_EQ) then Err(ExpectedFilename)
      else if |d| == 3 then
        match Pop(rest, CONTENT_TYPE)
        case None => Err(ExpectedContentType)
        case Some((ct, left)) =>
          if left != [] then Err(UnexpectedHeader(left[0].0))
          else Ok(PartHead(d[1][|NAME_EQ|..], Some((d[2][|FILENAME_EQ|..], ct))))
      else if rest != [] then Err(UnexpectedHeader(rest[0].0))
      else Ok(PartHead(d[1][|NAME_EQ|..], None))
  }

  /** An accepted header dict has Content-Disposition, has Content-Type
      exactly when the part names a file, and has no other key. */
  lemma CheckPartHeaders(headers: HeaderTable, k: Bytes)
    ensures Lookup(headers, CONTENT_DISPOSITION).None? ==> CheckPart(headers) == Err(ExpectedDisposition)
    ensures CheckPart(headers).Ok? ==>
              (CheckPart(headers).value.file.Some? <==> Lookup(headers, CONTENT_TYPE).Some?)
    ensures CheckPart(headers).Ok? && Lookup(headers, k).Some? ==>
              k == CONTENT_DISPOSITION || k == CONTENT_TYPE
  {
    PopLookup(headers, CONTENT_DISPOSITION, k);
    PopLookup(headers, CONTENT_DISPOSITION, CONTENT_TYPE);
    assert CONTENT_DISPOSITION != CONTENT_TYPE;
    match Pop(headers, CONTENT_DISPOSITION)
    case None =>
    case Some((cd, rest)) =>
      PopLookup(rest, CONTENT_TYPE, k);
  }

  /** Index of the first boundary line, which ends a part's value. */
  function ValueEnd(rest: seq<Bytes>, b: Bytes): (r: Option<nat>)
    ensures r.Some? ==> r.value < |rest| && IsBoundary(rest[r.value], b)
    ensures r.Some? ==> forall i | 0 <= i < r.value :: !IsBoundary(rest[i], b)
    ensures r.None? ==> forall i | 0 <= i < |rest| :: !IsBoundary(rest[i], b)
    decreases |rest|
  {
    if rest == [] then None
    else if IsBoundary(rest[0], b) then Some(0)
    else match ValueEnd(rest[1..], b)
      case None => None
      case Some(k) => Some(k + 1)
  }

  function MakeValue(head: PartHead, value: Bytes): FormValue {
    match head.file
    case None => Text(value)
    case Some((f, ct)) => File(f, ct, value)
  }

  /** One part read from the lines after a boundary line: the field, whether
      its value ended at the end line, and the lines after that boundary line. */
  function NextPart(rest: seq<Bytes>, b: Bytes): (r: Result<((Bytes, FormValue), bool, seq<Bytes>), FormError>)
    ensures r.Ok? ==> |r.value.2| < |rest|
  {
    match ReadHeaders(rest, [])
    case Err(e) => Err(e)
    case Ok((headers, body)) =>
      match CheckPart(headers)
      case Err(e) => Err(e)
      case Ok(head) =>
        match ValueEnd(body, b)
        case None => Err(UnexpectedEnd)
        case Some(k) =>
          Ok(((head.name, MakeValue(head, Join(body[..k], NL))), body[k] == End(b), body[k + 1..]))
  }

  /** The parts that follow a start line, appended to `acc`. */
  function Parts(rest: seq<Bytes>, b: Bytes, acc: Form): Result<Form, FormError>
    decreases |rest|
  {
    match NextPart(rest, b)
    case Err(e) => Err(e)
    case Ok((field, last, after)) =>
      if last then Ok(acc + [field]) else Parts(after, b, acc + [field])
  }

  function ParseLines(lines: seq<Bytes>, b: Bytes): Result<Form, FormError>
    requires |lines| >= 1
  {
    if lines[0] == End(b) then Ok([])
    else if lines[0] != Start(b) then Err(MissingBoundary)
    else Parts(lines[1..], b, [])
  }

  /** `parse(data, boundary)` */
  function Parse(data: Bytes, boundary: string): Result<Form, FormError> {
    ParseLines(Split(data, NL), Utf8(boundary))
  }

  // ---------------------------------------------------------------------
  // parse, as the code runs it

  /** One step of `ReadHeaders` at position `pos`. */
  lemma HeadersAt(lines: seq<Bytes>, pos: nat, headers: HeaderTable)
    requires pos < |lines|
    ensures ReadHeaders(lines[pos..], headers) ==
              if lines[pos] == [] then Ok((headers, lines[pos + 1..]))
              else if SplitOnce(lines[pos], COLON_SP).None? then Err(ExpectedHeader)
              else ReadHeaders(lines[pos + 1..], Put(headers, Lower(SplitOnce(lines[pos], COLON_SP).value.0),
                                                     SplitOnce(lines[pos], COLON_SP).value.1))
  {
    assert lines[pos..][0] == lines[pos] && lines[pos..][1..] == lines[pos + 1..];
  }

  /** One line of the header loop of `parse`: the outcome when the block
      ends at this line, else the dict with the line's header put in. */
  method HeaderStep(lines: seq<Bytes>, pos: nat, headers: HeaderTable)
    returns (done: Option<Result<(HeaderTable, nat), FormError>>, next: HeaderTable)
    requires pos < |lines|
    ensures done.Some? && done.value.Ok? ==>
              done.value.value.1 == pos + 1 && ReadHeaders(lines[pos..], headers) == Ok((done.value.value.0, lines[pos + 1..]))
    ensures done.Some? && done.value.Err? ==> ReadHeaders(lines[pos..], headers) == Err(done.value.error)
    ensures done.None? ==> ReadHeaders(lines[pos..], headers) == ReadHeaders(lines[pos + 1..], next)
  {
    var line := lines[pos];
    HeadersAt(lines, pos, headers);
    next := headers;
    if line == [] {
      return Some(Ok((headers, pos + 1))), next;
    }
    var kv := SplitOnce(line, COLON_SP);
    if kv.None? {
      return Some(Err(ExpectedHeader)), next;
    }
    next := Put(headers, Lower(kv.value.0), kv.value.1);
    done := None;
  }

  /** The header loop of `parse`: reads lines from `pos` into a fresh dict
      up to the empty line, and returns the dict and the next position. */
  method ReadHeaderBlock(lines: seq<Bytes>, pos0: nat) returns (r: Result<(HeaderTable, nat), FormError>)
    requires pos0 <= |lines|
    ensures r.Err? ==> ReadHeaders(lines[pos0..], []) == Err(r.error)
    ensures r.Ok? ==> (pos0 < r.value.1 <= |lines|
                       && ReadHeaders(lines[pos0..], []) == Ok((r.value.0, lines[r.value.1..])))
  {
    var pos := pos0;
    var headers: HeaderTable := [];
    ghost var want := ReadHeaders(lines[pos0..], []);
    while true
      invariant pos0 <= pos <= |lines|
      invariant ReadHeaders(lines[pos..], headers) == want
      decreases |lines| - pos
    {
      if pos == |lines| {
        assert lines[pos..] == [];
        return Err(UnexpectedEnd);
      }
      var done, next := HeaderStep(lines, pos, headers);
      if done.Some? {
        return done.value;
      }
      headers := next;
      pos := pos + 1;
    }
  }

  /** The value loop of `parse`: joins the lines from `pos` with newlines,
      writing the separator before every line but the first, up to the next
      boundary line; returns the value and the boundary line's position. */
  method ReadValueBlock(lines: seq<Bytes>, pos0: nat, b: Bytes) returns (r: Option<(Bytes, nat)>)
    requires pos0 <= |lines|
    ensures r.None? ==> ValueEnd(lines[pos0..], b).None?
    ensures r.Some? ==> (pos0 <= r.value.1 < |lines|
                         && ValueEnd(lines[pos0..], b) == Some(r.value.1 - pos0)
                         && r.value.0 == Join(lines[pos0..r.value.1], NL))
  {
    var start, end := Start(b), End(b);
    var pos := pos0;
    var value: Bytes := [];
    var first := true;
    while true
      invariant pos0 <= pos <= |lines|
      invariant forall i | pos0 <= i < pos :: !IsBoundary(lines[i], b)
      invariant first <==> pos == pos0
      invariant value == Join(lines[pos0..pos], NL)
      decreases |lines| - pos
    {
      if pos == |lines| {
        forall i | 0 <= i < |lines[pos0..]| ensures !IsBoundary(lines[pos0..][i], b) {
          assert lines[pos0..][i] == lines[pos0 + i];
        }
        return None;
      }
      var line := lines[pos];
      if line == start || line == end {
        ghost var body := lines[pos0..];
        assert body[pos - pos0] == line;
        forall i | 0 <= i < pos - pos0 ensures !IsBoundary(body[i], b) {
          assert body[i] == lines[pos0 + i];
        }
        return Some((value, pos));
      }
      assert lines[pos0..pos + 1] == lines[pos0..pos] + [line];
      if first {
        first := false;
      } else {
        JoinAppend(lines[pos0..pos], [line], NL);
        value := value + NL;
      }
      value := value + line;
      pos := pos + 1;
    }
  }

  /** One pass of the outer loop of `parse`: headers, checks, value. */
  method ReadPart(lines: seq<Bytes>, pos: nat, b: Bytes) returns (r: Result<((Bytes, FormValue), bool, nat), FormError>)
    requires pos <= |lines|
    ensures r.Err? ==> NextPart(lines[pos..], b) == Err(r.error)
    ensures r.Ok? ==> (pos < r.value.2 <= |lines|
                       && NextPart(lines[pos..], b) == Ok((r.value.0, r.value.1, lines[r.value.2..])))
  {
    var block := ReadHeaderBlock(lines, pos);
    if block.Err? {
      NextPartFails(lines[pos..], b);
      return Err(block.error);
    }
    var (headers, next) := block.value;
    var head := CheckPart(headers);
    if head.Err? {
      NextPartFails(lines[pos..], b);
      return Err(head.error);
    }
    var read := ReadValueBlock(lines, next, b);
    if read.None? {
      NextPartFails(lines[pos..], b);
      return Err(UnexpectedEnd);
    }
    var (value, at) := read.value;
    PartRead(lines, pos, headers, next, head.value, at, b);
    r := Ok(((head.value.name, MakeValue(head.value, value)), lines[at] == End(b), at + 1));
  }

  /** `NextPart` fails at the first of its three stages that fails. */
  lemma NextPartFails(rest: seq<Bytes>, b: Bytes)
    ensures ReadHeaders(rest, []).Err? ==> NextPart(rest, b) == Err(ReadHeaders(rest, []).error)
    ensures ReadHeaders(rest, []).Ok? && CheckPart(ReadHeaders(rest, []).value.0).Err? ==>
              NextPart(rest, b) == Err(CheckPart(ReadHeaders(rest, []).value.0).error)
    ensures ReadHeaders(rest, []).Ok? && CheckPart(ReadHeaders(rest, []).value.0).Ok?
            && ValueEnd(ReadHeaders(rest, []).value.1, b).None? ==>
              NextPart(rest, b) == Err(UnexpectedEnd)
  {
  }

  /** `NextPart` from its three stages. */
  lemma NextPartOf(rest: seq<Bytes>, headers: HeaderTable, body: seq<Bytes>, head: PartHead, k: nat, b: Bytes,
                    vl: seq<Bytes>, last: Bytes, tail: seq<Bytes>)
    requires ReadHeaders(rest, []) == Ok((headers, body))
    requires CheckPart(headers) == Ok(head)
    requires ValueEnd(body, b) == Some(k)
    requires k < |body|
    requires vl == body[..k]
    requires last == body[k]
    requires tail == body[k + 1..]
    ensures NextPart(rest, b) == Ok(((head.name, MakeValue(head, Join(vl, NL))), last == End(b), tail))
  {
  }

  /** `NextPart` from its three stages, read at positions of `lines`. */
  lemma PartRead(lines: seq<Bytes>, pos: nat, headers: HeaderTable, next: nat, head: PartHead, at: nat, b: Bytes)
    requires pos < next <= at < |lines|
    requires ReadHeaders(lines[pos..], []) == Ok((headers, lines[next..])) && CheckPart(headers) == Ok(head)
    requires ValueEnd(lines[next..], b) == Some(at - next)
    ensures NextPart(lines[pos..], b)
            == Ok(((head.name, MakeValue(head, Join(lines[next..at], NL))), lines[at] == End(b), lines[at + 1..]))
  {
    SliceOfSlice(lines, next, at);
  }

  lemma SliceOfSlice(lines: seq<Bytes>, next: nat, at: nat)
    requires next <= at < |lines|
    ensures lines[next..][..at - next] == lines[next..at]
    ensures lines[next..][at - next] == lines[at]
    ensures lines[next..][at - next + 1..] == lines[at + 1..]
  {
  }

  /** `parse`: the first line must be a boundary line, then parts follow
      until the end line, each appended to the result in order. */
  method ParseForm(data: Bytes, boundary: string) returns (r: Result<Form, FormError>)
    ensures r == Parse(data, boundary)
  {
    var b := Utf8(boundary);
    var lines := Split(data, NL);
    var form: Form := [];
    var line := lines[0];
    if line == End(b) {
      return Ok(form);
    }
    if line != Start(b) {
      return Err(MissingBoundary);
    }
    var pos := 1;
    while true
      invariant 1 <= pos <= |lines|
      invariant Parts(lines[pos..], b, form) == Parse(data, boundary)
      decreases |lines| - pos
    {
      var part := ReadPart(lines, pos, b);
      if part.Err? {
        return Err(part.error);
      }
      var (field, last, next) := part.value;
      form := form + [field];
      if last {
        return Ok(form);
      }
      pos := next;
    }
  }

  // ---------------------------------------------------------------------
  // serialize

  /** The pieces `serialize` yields for one field. */
  function FieldChunks(field: (Bytes, FormValue), b: Bytes): seq<Bytes> {
    [Start(b) + NL, CD_PREFIX, field.0]
    + (match field.1
       case Text(_) => []
       case File(f, ct, _) => [FILENAME_SEP, f, NL_CT, ct])
    + [NL_NL, Content(field.1), NL]
  }

  function FieldsChunks(form: Form, b: Bytes): seq<Bytes>
    decreases |form|
  {
    if form == [] then [] else FieldChunks(form[0], b) + FieldsChunks(form[1..], b)
  }

  /** `serialize(data, boundary)`: every chunk it yields, in order. */
  function SerializeChunks(form: Form, boundary: string): (r: seq<Bytes>)
    ensures r != [] && r[|r| - 1] == End(Utf8(boundary)) + NL
    ensures Concat(r) == Join(FormLines(form, Utf8(boundary)), NL)
  {
    var b := Utf8(boundary);
    SerializeLayout(form, b);
    FieldsChunks(form, b) + [End(b) + NL]
  }

  /** The Content-Disposition header line of a field. */
  function DispositionLine(name: Bytes, file: Option<Bytes>): Bytes {
    CD_PREFIX + name + (if file.Some? then FILENAME_SEP + file.value else [])
  }

  function TypeLine(ct: Bytes): Bytes {
    CT_KEY + COLON_SP + ct
  }

  /** The lines of one field after its start line. */
  function FieldLines(field: (Bytes, FormValue)): seq<Bytes> {
    match field.1
    case Text(t) => [DispositionLine(field.0, None), []] + Split(t, NL)
    case File(f, ct, c) => [DispositionLine(field.0, Some(f)), TypeLine(ct), []] + Split(c, NL)
  }

  /** The lines of a serialized form. */
  function FormLines(form: Form, b: Bytes): (r: seq<Bytes>)
    ensures |r| >= 2
    decreases |form|
  {
    if form == [] then [End(b), []]
    else [Start(b)] + FieldLines(form[0]) + FormLines(form[1..], b)
  }

  lemma ConcatCons(a: Bytes, rest: seq<Bytes>)
    ensures Concat([a] + rest) == a + Concat(rest)
  {
    assert ([a] + rest)[1..] == rest;
  }

  lemma JoinCons(a: Bytes, rest: seq<Bytes>)
    requires |rest| >= 1
    ensures Join([a] + rest, NL) == a + NL + Join(rest, NL)
  {
    assert ([a] + rest)[1..] == rest;
  }

  lemma {:induction false} ConcatDisplay(xs: seq<Bytes>)
    requires |xs| >= 1
    ensures Concat(xs) == xs[0] + Concat(xs[1..])
  {
  }

  /** The pieces of a text field, joined. */
  lemma TextChunks(s: Bytes, name: Bytes, c: Bytes)
    ensures Concat([s, CD_PREFIX, name, NL_NL, c, NL]) == s + (CD_PREFIX + (name + (NL_NL + (c + NL))))
  {
    var xs := [s, CD_PREFIX, name, NL_NL, c, NL];
    ConcatDisplay(xs);
    ConcatDisplay(xs[1..]);
    ConcatDisplay(xs[2..]);
    ConcatDisplay(xs[3..]);
    ConcatDisplay(xs[4..]);
    ConcatDisplay(xs[5..]);
  }

  /** The pieces of a file field, joined. */
  lemma FileChunks(s: Bytes, name: Bytes, f: Bytes, ct: Bytes, c: Bytes)
    ensures Concat([s, CD_PREFIX, name, FILENAME_SEP, f, NL_CT, ct, NL_NL, c, NL])
         == s + (CD_PREFIX + (name + (FILENAME_SEP + (f + (NL_CT + (ct + (NL_NL + (c + NL))))))))
  {
    var xs := [s, CD_PREFIX, name, FILENAME_SEP, f, NL_CT, ct, NL_NL, c, NL];
    ConcatDisplay(xs);
    ConcatDisplay(xs[1..]);
    ConcatDisplay(xs[2..]);
    ConcatDisplay(xs[3..]);
    ConcatDisplay(xs[4..]);
    ConcatDisplay(xs[5..]);
    ConcatDisplay(xs[6..]);
    ConcatDisplay(xs[7..]);
    ConcatDisplay(xs[8..]);
    ConcatDisplay(xs[9..]);
  }

  /** The value of a field after the empty line, as lines. */
  lemma ValueJoin(c: Bytes)
    ensures Join([[]] + Split(c, NL), NL) == NL + c
  {
    JoinCons([], Split(c, NL));
    JoinSplit(c, NL);
  }

  lemma TextAssoc(s: Bytes, p: Bytes, n: Bytes, c: Bytes)
    ensures (s + NL) + (p + (n + ((NL + NL) + (c + NL)))) == s + NL + ((p + n + []) + NL + (NL + c)) + NL
  {
  }

  lemma FileAssoc(s: Bytes, p: Bytes, n: Bytes, q: Bytes, f: Bytes, t: Bytes, ct: Bytes, c: Bytes)
    ensures (s + NL) + (p + (n + (q + (f + ((NL + t) + (ct + ((NL + NL) + (c + NL))))))))
         == s + NL + ((p + n + (q + f)) + NL + ((t + ct) + NL + (NL + c))) + NL
  {
  }

  lemma TextFieldBytes(name: Bytes, t: Bytes, b: Bytes)
    ensures Concat(FieldChunks((name, Text(t)), b)) == Join([Start(b)] + FieldLines((name, Text(t))), NL) + NL
  {
    var s := Start(b);
    var rest := [[]] + Split(t, NL);
    ValueJoin(t);
    assert FieldChunks((name, Text(t)), b) == [s + NL, CD_PREFIX, name, NL_NL, t, NL];
    TextChunks(s + NL, name, t);
    var dl := DispositionLine(name, None);
    assert [s] + FieldLines((name, Text(t))) == [s] + ([dl] + rest);
    JoinCons(dl, rest);
    JoinCons(s, [dl] + rest);
    TextAssoc(s, CD_PREFIX, name, t);
  }

  lemma FileFieldChunks(name: Bytes, f: Bytes, ct: Bytes, c: Bytes, b: Bytes)
    ensures FieldChunks((name, File(f, ct, c)), b)
         == [Start(b) + NL, CD_PREFIX, name, FILENAME_SEP, f, NL_CT, ct, NL_NL, c, NL]
  {
  }

  lemma FileFieldLines(name: Bytes, f: Bytes, ct: Bytes, c: Bytes, s: Bytes)
    ensures Join([s] + FieldLines((name, File(f, ct, c))), NL)
         == s + NL + (DispositionLine(name, Some(f)) + NL + (TypeLine(ct) + NL + (NL + c)))
  {
    var rest := [[]] + Split(c, NL);
    var dl := DispositionLine(name, Some(f));
    var tl := TypeLine(ct);
    assert [s] + FieldLines((name, File(f, ct, c))) == [s] + ([dl] + ([tl] + rest));
    JoinCons(tl, rest);
    JoinCons(dl, [tl] + rest);
    JoinCons(s, [dl] + ([tl] + rest));
    ValueJoin(c);
  }

  lemma NlCt()
    ensures NL_CT == NL + (CT_KEY + COLON_SP)
  {
  }

  lemma FileFieldBytes(name: Bytes, f: Bytes, ct: Bytes, c: Bytes, b: Bytes)
    ensures Concat(FieldChunks((name, File(f, ct, c)), b))
         == Join([Start(b)] + FieldLines((name, File(f, ct, c))), NL) + NL
  {
    var s := Start(b);
    FileFieldChunks(name, f, ct, c, b);
    FileChunks(s + NL, name, f, ct, c);
    FileFieldLines(name, f, ct, c, s);
    NlCt();
    FileAssoc(s, CD_PREFIX, name, FILENAME_SEP, f, CT_KEY + COLON_SP, ct, c);
  }



  /** The bytes of one field are its lines, each ended by a newline. */
  lemma FieldBytes(field: (Bytes, FormValue), b: Bytes)
    ensures Concat(FieldChunks(field, b)) == Join([Start(b)] + FieldLines(field), NL) + NL
  {
    match field.1
    case Text(t) => TextFieldBytes(field.0, t, b);
    case File(f, ct, c) => FileFieldBytes(field.0, f, ct, c, b);
  }

  /** Layout of `serialize`: start line, Content-Disposition line, the
      Content-Type line of a file, an empty line and the value's lines for
      each field, then the end line; every line ended by a newline. */
  lemma {:induction false} SerializeLayout(form: Form, b: Bytes)
    ensures Concat(FieldsChunks(form, b) + [End(b) + NL]) == Join(FormLines(form, b), NL)
    decreases |form|
  {
    if form == [] {
      assert FieldsChunks(form, b) + [End(b) + NL] == [End(b) + NL];
      ConcatCons(End(b) + NL, []);
      JoinCons(End(b), [[]]);
    } else {
      var rest := FieldsChunks(form[1..], b) + [End(b) + NL];
      SerializeLayout(form[1..], b);
      assert FieldsChunks(form, b) + [End(b) + NL] == FieldChunks(form[0], b) + rest;
      ConcatAppend(FieldChunks(form[0], b), rest);
      FieldBytes(form[0], b);
      JoinAppend([Start(b)] + FieldLines(form[0]), FormLines(form[1..], b), NL);
    }
  }

  // ---------------------------------------------------------------------
  // Round trip

  /** What a form must satisfy for `serialize` to be read back by `parse`:
      names, file names and content types on one line, names and file
      names without `; `, and no value line equal to a boundary line. */
  ghost predicate FieldOk(field: (Bytes, FormValue), b: Bytes) {
    10 !in field.0 && Free(field.0, SEMI_SP)
    && (field.1.File? ==>
          10 !in field.1.name && Free(field.1.name, SEMI_SP) && 10 !in field.1.contentType)
    && forall l | l in Split(Content(field.1), NL) :: !IsBoundary(l, b)
  }

  ghost predicate Serializable(form: Form, boundary: string) {
    (forall i | 0 <= i < |boundary| :: boundary[i] != '\n')
    && FieldsOk(form, Utf8(boundary))
  }

  lemma {:induction false} Utf8NoNewline(s: string)
    requires forall i | 0 <= i < |s| :: s[i] != '\n'
    ensures 10 !in Utf8(s)
  {
    if s != [] {
      Utf8NoNewline(s[1..]);
      var e := EncodeChar(s[0]);
      assert 10 !in e by {
        if s[0] as int >= 128 {
          EncodeHigh(s[0]);
        }
      }
    }
  }

  lemma EncodeHigh(c: char)
    requires c as int >= 128
    ensures forall i | 0 <= i < |EncodeChar(c)| :: EncodeChar(c)[i] >= 128
  {
  }

  lemma LineFree(line: Bytes)
    requires 10 !in line
    ensures Free(line, NL)
  {
    FreeOfHead(line, NL);
  }

  ghost predicate LinesFree(lines: seq<Bytes>) {
    forall i | 0 <= i < |lines| :: Free(lines[i], NL)
  }

  lemma LinesFreeAppend(a: seq<Bytes>, c: seq<Bytes>)
    requires LinesFree(a) && LinesFree(c)
    ensures LinesFree(a + c)
  {
    forall i | 0 <= i < |a + c| ensures Free((a + c)[i], NL) {
      if i >= |a| {
        assert (a + c)[i] == c[i - |a|];
      }
    }
  }

  lemma FieldLinesFree(field: (Bytes, FormValue), b: Bytes)
    requires FieldOk(field, b)
    ensures LinesFree(FieldLines(field))
  {
    var vl := Split(Content(field.1), NL);
    SplitPartsFree(Content(field.1), NL);
    LineFree([]);
    match field.1
    case Text(_) =>
      DispositionFree(field.0, None);
      LinesFreeAppend([DispositionLine(field.0, None), []], vl);
    case File(f, ct, _) =>
      DispositionFree(field.0, Some(f));
      TypeLineFree(ct);
      LinesFreeAppend([DispositionLine(field.0, Some(f)), TypeLine(ct), []], vl);
  }

  /** The `Content-Disposition` line holds no newline of its own. */
  lemma DispositionFree(name: Bytes, file: Option<Bytes>)
    requires 10 !in name && (file.Some? ==> 10 !in file.value)
    ensures Free(DispositionLine(name, file), NL)
  {
    assert 10 !in CD_PREFIX;
    assert 10 !in FILENAME_SEP;
    LineFree(DispositionLine(name, file));
  }

  /** The `Content-Type` line holds no newline of its own. */
  lemma TypeLineFree(ct: Bytes)
    requires 10 !in ct
    ensures Free(TypeLine(ct), NL)
  {
    assert 10 !in CT_KEY + COLON_SP;
    LineFree(TypeLine(ct));
  }

  lemma {:induction false} FormLinesFree(form: Form, b: Bytes)
    requires 10 !in b && FieldsOk(form, b)
    ensures LinesFree(FormLines(form, b))
    decreases |form|
  {
    LineFree(Start(b));
    LineFree(End(b));
    LineFree([]);
    if form != [] {
      FieldsOkTail(form, b);
      FormLinesFree(form[1..], b);
      FieldLinesFree(form[0], b);
      LinesFreeAppend([Start(b)], FieldLines(form[0]));
      LinesFreeAppend([Start(b)] + FieldLines(form[0]), FormLines(form[1..], b));
    }
  }

  /** Reading back one serialized header line. */
  lemma HeaderLine(key: Bytes, value: Bytes)
    requires 58 !in key
    ensures SplitOnce(key + COLON_SP + value, COLON_SP) == Some((key, value))
  {
    FreeOfHead(key, COLON_SP);
    FirstOccurrence(key, COLON_SP, value);
  }

  function DispositionParts(name: Bytes, file: Option<Bytes>): seq<Bytes> {
    [FORM_DATA, NAME_EQ + name] + (if file.Some? then [FILENAME_EQ + file.value] else [])
  }

  lemma DispositionJoin(name: Bytes, file: Option<Bytes>)
    ensures DispositionLine(name, file) == CD_KEY + COLON_SP + Join(DispositionParts(name, file), SEMI_SP)
  {
    var parts := DispositionParts(name, file);
    if file.Some? {
      var last := [FILENAME_EQ + file.value];
      JoinFront(NAME_EQ + name, last, SEMI_SP);
      JoinFront(FORM_DATA, [NAME_EQ + name] + last, SEMI_SP);
      assert parts == [FORM_DATA] + ([NAME_EQ + name] + last);
      DispositionAssoc(CD_KEY, FORM_DATA, NAME_EQ, name, FILENAME_EQ + file.value);
    } else {
      assert parts[1..] == [NAME_EQ + name];
      DispositionAssoc(CD_KEY, FORM_DATA, NAME_EQ, name, []);
    }
  }

  lemma DispositionAssoc(k: Bytes, fd: Bytes, ne: Bytes, n: Bytes, f: Bytes)
    ensures k + COLON_SP + fd + SEMI_SP + ne + n + (if f == [] then [] else SEMI_SP + f)
         == k + COLON_SP + (fd + SEMI_SP + (if f == [] then ne + n else (ne + n) + SEMI_SP + f))
  {
  }

  /** The Content-Disposition line is a header whose value is the `; `-joined
      fields, and that value splits back into them. */
  lemma DispositionFields(name: Bytes, file: Option<Bytes>)
    requires Free(name, SEMI_SP)
    requires file.Some? ==> Free(file.value, SEMI_SP)
    ensures DispositionLine(name, file) == CD_KEY + COLON_SP + Join(DispositionParts(name, file), SEMI_SP)
    ensures Split(Join(DispositionParts(name, file), SEMI_SP), SEMI_SP) == DispositionParts(name, file)
  {
    var parts := DispositionParts(name, file);
    DispositionJoin(name, file);
    FreeOfHead(FORM_DATA, SEMI_SP);
    FreePrefixed(NAME_EQ, name, SEMI_SP);
    if file.Some? {
      FreePrefixed(FILENAME_EQ, file.value, SEMI_SP);
      assert parts[1..] == [NAME_EQ + name, FILENAME_EQ + file.value];
      assert parts[1..][1..] == [FILENAME_EQ + file.value];
    } else {
      assert parts[1..] == [NAME_EQ + name];
    }
    SplitJoin(parts, SEMI_SP);
  }

  /** The header dict `parse` builds from a serialized field. */
  function FieldHeaders(field: (Bytes, FormValue)): HeaderTable {
    var file := if field.1.File? then Some(field.1.name) else None;
    var cd := (CONTENT_DISPOSITION, Join(DispositionParts(field.0, file), SEMI_SP));
    if field.1.File? then [cd, (CONTENT_TYPE, field.1.contentType)] else [cd]
  }

  function FieldHead(field: (Bytes, FormValue)): PartHead {
    PartHead(field.0, if field.1.File? then Some((field.1.name, field.1.contentType)) else None)
  }

  lemma PrefixParts(p: Bytes, x: Bytes)
    ensures StartsWith(p + x, p) && (p + x)[|p|..] == x
  {
    assert (p + x)[..|p|] == p;
  }

  lemma CheckTextHeaders(name: Bytes, cdv: Bytes)
    requires Split(cdv, SEMI_SP) == [FORM_DATA, NAME_EQ + name]
    ensures CheckPart([(CONTENT_DISPOSITION, cdv)]) == Ok(PartHead(name, None))
  {
    PrefixParts(NAME_EQ, name);
  }

  lemma CheckFileHeaders(name: Bytes, f: Bytes, cdv: Bytes, ct: Bytes)
    requires Split(cdv, SEMI_SP) == [FORM_DATA, NAME_EQ + name, FILENAME_EQ + f]
    ensures CheckPart([(CONTENT_DISPOSITION, cdv), (CONTENT_TYPE, ct)]) == Ok(PartHead(name, Some((f, ct))))
  {
    PrefixParts(NAME_EQ, name);
    PrefixParts(FILENAME_EQ, f);
    var h := [(CONTENT_DISPOSITION, cdv), (CONTENT_TYPE, ct)];
    assert h[1..] == [(CONTENT_TYPE, ct)];
    assert Pop(h, CONTENT_DISPOSITION) == Some((cdv, [(CONTENT_TYPE, ct)]));
  }

  /** The headers of a serialized field pass every check of `parse`. */
  lemma CheckFieldHeaders(field: (Bytes, FormValue), b: Bytes)
    requires FieldOk(field, b)
    ensures CheckPart(FieldHeaders(field)) == Ok(FieldHead(field))
  {
    match field.1
    case Text(_) =>
      DispositionFields(field.0, None);
      CheckTextHeaders(field.0, Join(DispositionParts(field.0, None), SEMI_SP));
    case File(f, ct, _) =>
      DispositionFields(field.0, Some(f));
      CheckFileHeaders(field.0, f, Join(DispositionParts(field.0, Some(f)), SEMI_SP), ct);
  }

  lemma ReadHeaderStep(key: Bytes, value: Bytes, more: seq<Bytes>, h: HeaderTable)
    requires 58 !in key
    ensures ReadHeaders([key + COLON_SP + value] + more, h) == ReadHeaders(more, Put(h, Lower(key), value))
  {
    HeaderLine(key, value);
    assert ([key + COLON_SP + value] + more)[1..] == more;
  }

  lemma ReadHeaderEnd(more: seq<Bytes>, h: HeaderTable)
    ensures ReadHeaders([[]] + more, h) == Ok((h, more))
  {
    assert ([[]] + more)[1..] == more;
  }

  lemma Regroup2(x: Bytes, y: Bytes, vs: seq<Bytes>, after: seq<Bytes>)
    ensures [x, y] + vs + after == [x] + ([y] + (vs + after))
  {
  }

  lemma Regroup3(x: Bytes, y: Bytes, z: Bytes, vs: seq<Bytes>, after: seq<Bytes>)
    ensures [x, y, z] + vs + after == [x] + ([y] + ([z] + (vs + after)))
  {
  }

  lemma ReadTextHeaders(name: Bytes, t: Bytes, after: seq<Bytes>)
    ensures ReadHeaders(FieldLines((name, Text(t))) + after, [])
         == Ok((FieldHeaders((name, Text(t))), Split(t, NL) + after))
  {
    var body := Split(t, NL) + after;
    var cdv := Join(DispositionParts(name, None), SEMI_SP);
    DispositionJoin(name, None);
    assert Lower(CD_KEY) == CONTENT_DISPOSITION;
    Regroup2(DispositionLine(name, None), [], Split(t, NL), after);
    ReadHeaderEnd(body, [(CONTENT_DISPOSITION, cdv)]);
    ReadHeaderStep(CD_KEY, cdv, [[]] + body, []);
  }

  /** The Content-Type line after the disposition, then the blank line. */
  lemma ReadTypeTail(cdv: Bytes, ct: Bytes, body: seq<Bytes>)
    ensures ReadHeaders([TypeLine(ct)] + ([[]] + body), [(CONTENT_DISPOSITION, cdv)])
         == Ok(([(CONTENT_DISPOSITION, cdv), (CONTENT_TYPE, ct)], body))
  {
    assert Lower(CT_KEY) == CONTENT_TYPE;
    var h1 := [(CONTENT_DISPOSITION, cdv)];
    assert Put(h1, CONTENT_TYPE, ct) == [(CONTENT_DISPOSITION, cdv), (CONTENT_TYPE, ct)] by {
      assert h1[1..] == [];
    }
    ReadHeaderEnd(body, [(CONTENT_DISPOSITION, cdv), (CONTENT_TYPE, ct)]);
    ReadHeaderStep(CT_KEY, ct, [[]] + body, h1);
  }

  lemma ReadFileHeaders(name: Bytes, f: Bytes, ct: Bytes, c: Bytes, after: seq<Bytes>)
    ensures ReadHeaders(FieldLines((name, File(f, ct, c))) + after, [])
         == Ok((FieldHeaders((name, File(f, ct, c))), Split(c, NL) + after))
  {
    var body := Split(c, NL) + after;
    var cdv := Join(DispositionParts(name, Some(f)), SEMI_SP);
    DispositionJoin(name, Some(f));
    assert Lower(CD_KEY) == CONTENT_DISPOSITION;
    Regroup3(DispositionLine(name, Some(f)), TypeLine(ct), [], Split(c, NL), after);
    ReadTypeTail(cdv, ct, body);
    ReadHeaderStep(CD_KEY, cdv, [TypeLine(ct)] + ([[]] + body), []);
  }

  lemma ReadFieldHeaders(field: (Bytes, FormValue), after: seq<Bytes>, b: Bytes)
    requires FieldOk(field, b)
    ensures ReadHeaders(FieldLines(field) + after, [])
         == Ok((FieldHeaders(field), Split(Content(field.1), NL) + after))
  {
    match field.1
    case Text(t) => ReadTextHeaders(field.0, t, after);
    case File(f, ct, c) => ReadFileHeaders(field.0, f, ct, c, after);
  }

  /** A value's lines run up to the next boundary line. */
  lemma {:induction false} ValueLines(vl: seq<Bytes>, after: seq<Bytes>, b: Bytes)
    requires forall l | l in vl :: !IsBoundary(l, b)
    requires |after| >= 1 && IsBoundary(after[0], b)
    ensures ValueEnd(vl + after, b) == Some(|vl|)
    decreases |vl|
  {
    if vl != [] {
      assert (vl + after)[1..] == vl[1..] + after;
      ValueLines(vl[1..], after, b);
    }
  }

  /** A serialized field reads back as itself, up to the next boundary line. */
  lemma FieldRoundTrip(field: (Bytes, FormValue), after: seq<Bytes>, b: Bytes)
    requires FieldOk(field, b)
    requires |after| >= 1 && IsBoundary(after[0], b)
    ensures NextPart(FieldLines(field) + after, b) == Ok((field, after[0] == End(b), after[1..]))
  {
    var vl := Split(Content(field.1), NL);
    ReadFieldHeaders(field, after, b);
    CheckFieldHeaders(field, b);
    ValueLines(vl, after, b);
    var body := vl + after;
    BodySlices(vl, after);
    NextPartOf(FieldLines(field) + after, FieldHeaders(field), body, FieldHead(field), |vl|, b, vl, after[0], after[1..]);
    FieldRebuilt(field);
  }

  lemma BodySlices(vl: seq<Bytes>, after: seq<Bytes>)
    requires |after| >= 1
    ensures (vl + after)[..|vl|] == vl && (vl + after)[|vl|] == after[0] && (vl + after)[|vl| + 1..] == after[1..]
  {
  }

  /** The head and the joined value lines of a field give the field back. */
  lemma FieldRebuilt(field: (Bytes, FormValue))
    ensures (FieldHead(field).name, MakeValue(FieldHead(field), Join(Split(Content(field.1), NL), NL))) == field
  {
    JoinSplit(Content(field.1), NL);
  }

  lemma PartsStep(rest: seq<Bytes>, b: Bytes, acc: Form, field: (Bytes, FormValue), last: bool, after: seq<Bytes>)
    requires NextPart(rest, b) == Ok((field, last, after))
    ensures Parts(rest, b, acc) == if last then Ok(acc + [field]) else Parts(after, b, acc + [field])
  {
  }

  ghost predicate FieldsOk(form: Form, b: Bytes) {
    forall i | 0 <= i < |form| :: FieldOk(form[i], b)
  }

  lemma FieldsOkTail(form: Form, b: Bytes)
    requires form != [] && FieldsOk(form, b)
    ensures FieldOk(form[0], b) && FieldsOk(form[1..], b)
  {
    forall i | 0 <= i < |form[1..]| ensures FieldOk(form[1..][i], b) {
      assert form[1..][i] == form[i + 1];
    }
  }

  lemma FormLinesFront(form: Form, b: Bytes)
    ensures IsBoundary(FormLines(form, b)[0], b)
    ensures FormLines(form, b)[0] == End(b) <==> form == []
    ensures form != [] ==> FormLines(form, b)[1..] == FieldLines(form[0]) + FormLines(form[1..], b)
  {
    assert |End(b)| != |Start(b)|;
    if form != [] {
      assert FormLines(form, b) == [Start(b)] + (FieldLines(form[0]) + FormLines(form[1..], b));
    }
  }

  lemma AppendFront<T>(acc: seq<T>, s: seq<T>)
    requires s != []
    ensures acc + [s[0]] + s[1..] == acc + s
    ensures s[1..] == [] ==> acc + [s[0]] == acc + s
  {
    assert s == [s[0]] + s[1..];
  }

  lemma {:induction false} PartsRoundTrip(form: Form, b: Bytes, acc: Form)
    requires form != [] && FieldsOk(form, b)
    ensures Parts(FieldLines(form[0]) + FormLines(form[1..], b), b, acc) == Ok(acc + form)
    decreases |form|
  {
    FieldsOkTail(form, b);
    var after := FormLines(form[1..], b);
    FormLinesFront(form[1..], b);
    FieldRoundTrip(form[0], after, b);
    PartsStep(FieldLines(form[0]) + after, b, acc, form[0], after[0] == End(b), after[1..]);
    AppendFront(acc, form);
    if form[1..] != [] {
      PartsRoundTrip(form[1..], b, acc + [form[0]]);
    }
  }

  /** `parse` reads back the lines `serialize` writes. */
  lemma ParseLinesRoundTrip(form: Form, b: Bytes)
    requires FieldsOk(form, b)
    ensures ParseLines(FormLines(form, b), b) == Ok(form)
  {
    FormLinesFront(form, b);
    if form != [] {
      PartsRoundTrip(form, b, []);
      assert [] + form == form;
    }
  }

  /** `parse` reads back what `serialize` writes. */
  lemma RoundTrip(form: Form, boundary: string)
    requires Serializable(form, boundary)
    ensures Parse(Concat(SerializeChunks(form, boundary)), boundary) == Ok(form)
  {
    var b := Utf8(boundary);
    Utf8NoNewline(boundary);
    SerializeLayout(form, b);
    FormLinesFree(form, b);
    SplitJoin(FormLines(form, b), NL);
    ParseLinesRoundTrip(form, b);
  }

  // ---------------------------------------------------------------------
  // The error paths of parse

  /** The first line decides at once: the end line gives the empty form, a
      line that is neither boundary line is a missing boundary. */
  lemma FirstLine(first: Bytes, rest: Bytes, boundary: string)
    requires 10 !in first
    ensures first == End(Utf8(boundary)) ==> Parse(first + NL + rest, boundary) == Ok([])
    ensures first != End(Utf8(boundary)) && first != Start(Utf8(boundary)) ==>
              Parse(first + NL + rest, boundary) == Err(MissingBoundary)
  {
    LineFree(first);
    SplitCons(first, NL, rest);
  }

  /** Data without a newline is its own first line: just the end line is
      the empty form, just the start line runs out of data, anything but a
      boundary line is a missing boundary. */
  lemma OnlyLine(data: Bytes, boundary: string)
    requires 10 !in data
    ensures data == Start(Utf8(boundary)) ==> Parse(data, boundary) == Err(UnexpectedEnd)
    ensures data == End(Utf8(boundary)) ==> Parse(data, boundary) == Ok([])
    ensures data != End(Utf8(boundary)) && data != Start(Utf8(boundary)) ==>
              Parse(data, boundary) == Err(MissingBoundary)
  {
    LineFree(data);
    SplitFree(data, NL);
  }

  /** A header line: non-empty, with a `: ` in it. */
  predicate IsHeaderLine(line: Bytes) {
    line != [] && SplitOnce(line, COLON_SP).Some?
  }

  /** Header lines up to the end of the data: `unexpected end of data`. */
  lemma {:induction false} HeadersRunOut(rest: seq<Bytes>, h: HeaderTable)
    requires forall i | 0 <= i < |rest| :: IsHeaderLine(rest[i])
    ensures ReadHeaders(rest, h) == Err(UnexpectedEnd)
    decreases |rest|
  {
    if rest != [] {
      var kv := SplitOnce(rest[0], COLON_SP).value;
      HeadersRunOut(rest[1..], Put(h, Lower(kv.0), kv.1));
    }
  }

  /** The first non-empty line without `: ` in a header block: `expected header`. */
  lemma {:induction false} HeaderWithoutColon(rest: seq<Bytes>, h: HeaderTable, k: nat)
    requires k < |rest| && rest[k] != [] && SplitOnce(rest[k], COLON_SP).None?
    requires forall i | 0 <= i < k :: IsHeaderLine(rest[i])
    ensures ReadHeaders(rest, h) == Err(ExpectedHeader)
    decreases k
  {
    if k > 0 {
      var kv := SplitOnce(rest[0], COLON_SP).value;
      assert rest[1..][k - 1] == rest[k];
      HeaderWithoutColon(rest[1..], Put(h, Lower(kv.0), kv.1), k - 1);
    }
  }

  /** A start line followed only by header lines: `unexpected end of data`. */
  lemma HeaderBlockRunsOut(lines: seq<Bytes>, b: Bytes)
    requires |lines| >= 1 && lines[0] == Start(b)
    requires forall i | 1 <= i < |lines| :: IsHeaderLine(lines[i])
    ensures ParseLines(lines, b) == Err(UnexpectedEnd)
  {
    assert |Start(b)| != |End(b)|;
    forall i | 0 <= i < |lines[1..]| ensures IsHeaderLine(lines[1..][i]) {
      assert lines[1..][i] == lines[i + 1];
    }
    HeadersRunOut(lines[1..], []);
  }

  /** A part whose value no boundary line closes: `unexpected end of data`. */
  lemma ValueRunsOut(lines: seq<Bytes>, b: Bytes, headers: HeaderTable, body: seq<Bytes>)
    requires |lines| >= 1 && lines[0] == Start(b)
    requires ReadHeaders(lines[1..], []) == Ok((headers, body)) && CheckPart(headers).Ok?
    requires forall i | 0 <= i < |body| :: !IsBoundary(body[i], b)
    ensures ParseLines(lines, b) == Err(UnexpectedEnd)
  {
    assert |Start(b)| != |End(b)|;
    assert ValueEnd(body, b).None?;
  }

  predicate KeysLower(h: HeaderTable) {
    forall i | 0 <= i < |h| :: Lower(h[i].0) == h[i].0
  }

  lemma LowerTwice(k: Bytes)
    ensures Lower(Lower(k)) == Lower(k)
  {
  }

  /** Header keys are stored lower-cased, so `unexpected header` names the
      key lower-cased. */
  lemma {:induction false} HeaderKeysLower(rest: seq<Bytes>, h: HeaderTable)
    requires KeysLower(h)
    ensures ReadHeaders(rest, h).Ok? ==> KeysLower(ReadHeaders(rest, h).value.0)
    decreases |rest|
  {
    if rest != [] && rest[0] != [] && SplitOnce(rest[0], COLON_SP).Some? {
      var kv := SplitOnce(rest[0], COLON_SP).value;
      var k := Lower(kv.0);
      PutOrder(h, k, kv.1);
      LowerTwice(kv.0);
      var h2 := Put(h, k, kv.1);
      assert KeysLower(h2) by {
        forall i | 0 <= i < |h2| ensures Lower(h2[i].0) == h2[i].0 {
          if i < |h| {
            assert h2[i].0 == h[i].0;
          }
        }
      }
      HeaderKeysLower(rest[1..], h2);
    }
  }
}
