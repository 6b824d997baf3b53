/** URL path patterns of jackie/router/matcher.py.  A pattern such as
    `foo/<key:int>/baz` is compiled into literal and typed-parameter parts;
    `match` walks the parts left to right with greedy, non-backtracking
    parameter scanners, and `reverse` builds a path back from parameters. */
module PathMatcher {
  import opened Base

  /** The keys of `PARAM_TYPES`. */
  datatype ParamType = StrType | IntType | PathType

  datatype Part =
    | Lit(content: string)
    | Param(name: string, ptype: ParamType)

  /** A `Matcher` is never changed after construction. */
  datatype Matcher = Matcher(parts: seq<Part>)

  /** A parameter value: `str` and `path` parse to a string, `int` to a number. */
  datatype Value = Str(s: string) | Int(n: int)

  type Params = map<string, Value>

  /** `Matcher.Error`: the index where matching stopped and what was expected there. */
  datatype MatchError = MatchError(index: nat, expected: Expected)
  datatype Expected = ExpectedLiteral(content: string) | ExpectedParam(ptype: ParamType) | ExpectedEnd

  function TypeName(t: ParamType): string {
    match t
    case StrType => "str"
    case IntType => "int"
    case PathType => "path"
  }

  /** Looking a name up in `PARAM_TYPES`. */
  function TypeNamed(name: string): (r: Option<ParamType>)
    ensures r.Some? ==> TypeName(r.value) == name
    ensures r.None? ==> forall t: ParamType :: TypeName(t) != name
  {
    if name == "str" then Some(StrType)
    else if name == "int" then Some(IntType)
    else if name == "path" then Some(PathType)
    else None
  }

  // ---------------------------------------------------------------------
  // Character classes and greedy runs

  /** The classes used by `PARAM_RE` and `PARAM_TYPES`: `[^/]`, `\d`, `.`
      (anything but a newline), `\s` and the word characters `[A-Za-z0-9_]`. */
  datatype CharClass = NotSlash | Digit | NotNewline | Space | WordChar

  predicate IsAsciiDigit(c: char) {
    '0' <= c <= '9'
  }

  /** The code point of the digit zero of the run of ten decimal digits
      (Unicode general category Nd, Unicode 15.0 as in Python 3.12) that
      would hold code point `n`: the largest such zero not above `n`, or the
      lowest one, `0`, below it. */
  function DigitZero(n: int): int {
    if n < 0x660 then 0x30
    else if n < 0x6F0 then 0x660
    else if n < 0x7C0 then 0x6F0
    else if n < 0x966 then 0x7C0
    else if n < 0x9E6 then 0x966
    else if n < 0xA66 then 0x9E6
    else if n < 0xAE6 then 0xA66
    else if n < 0xB66 then 0xAE6
    else if n < 0xBE6 then 0xB66
    else if n < 0xC66 then 0xBE6
    else if n < 0xCE6 then 0xC66
    else if n < 0xD66 then 0xCE6
    else if n < 0xDE6 then 0xD66
    else if n < 0xE50 then 0xDE6
    else if n < 0xED0 then 0xE50
    else if n < 0xF20 then 0xED0
    else if n < 0x1040 then 0xF20
    else if n < 0x1090 then 0x1040
    else if n < 0x17E0 then 0x1090
    else if n < 0x1810 then 0x17E0
    else if n < 0x1946 then 0x1810
    else if n < 0x19D0 then 0x1946
    else if n < 0x1A80 then 0x19D0
    else if n < 0x1A90 then 0x1A80
    else if n < 0x1B50 then 0x1A90
    else if n < 0x1BB0 then 0x1B50
    else if n < 0x1C40 then 0x1BB0
    else if n < 0x1C50 then 0x1C40
    else if n < 0xA620 then 0x1C50
    else if n < 0xA8D0 then 0xA620
    else if n < 0xA900 then 0xA8D0
    else if n < 0xA9D0 then 0xA900
    else if n < 0xA9F0 then 0xA9D0
    else if n < 0xAA50 then 0xA9F0
    else if n < 0xABF0 then 0xAA50
    else if n < 0xFF10 then 0xABF0
    else if n < 0x104A0 then 0xFF10
    else if n < 0x10D30 then 0x104A0
    else if n < 0x11066 then 0x10D30
    else if n < 0x110F0 then 0x11066
    else if n < 0x11136 then 0x110F0
    else if n < 0x111D0 then 0x11136
    else if n < 0x112F0 then 0x111D0
    else if n < 0x11450 then 0x112F0
    else if n < 0x114D0 then 0x11450
    else if n < 0x11650 then 0x114D0
    else if n < 0x116C0 then 0x11650
    else if n < 0x11730 then 0x116C0
    else if n < 0x118E0 then 0x11730
    else if n < 0x11950 then 0x118E0
    else if n < 0x11C50 then 0x11950
    else if n < 0x11D50 then 0x11C50
    else if n < 0x11DA0 then 0x11D50
    else if n < 0x11F50 then 0x11DA0
    else if n < 0x16A60 then 0x11F50
    else if n < 0x16AC0 then 0x16A60
    else if n < 0x16B50 then 0x16AC0
    else if n < 0x1D7CE then 0x16B50
    else if n < 0x1D7D8 then 0x1D7CE
    else if n < 0x1D7E2 then 0x1D7D8
    else if n < 0x1D7EC then 0x1D7E2
    else if n < 0x1D7F6 then 0x1D7EC
    else if n < 0x1E140 then 0x1D7F6
    else if n < 0x1E2F0 then 0x1E140
    else if n < 0x1E4F0 then 0x1E2F0
    else if n < 0x1E950 then 0x1E4F0
    else if n < 0x1FBF0 then 0x1E950
    else 0x1FBF0
  }

  /** `\d`: a Unicode decimal digit. */
  predicate IsDigit(c: char) {
    DigitZero(c as int) <= c as int < DigitZero(c as int) + 10
  }

  predicate IsWordStart(c: char) {
    'A' <= c <= 'Z' || 'a' <= c <= 'z' || c == '_'
  }

  /** The characters for which Python's `str.isspace` holds. */
  predicate IsSpace(c: char) {
    var n := c as int;
    9 <= n <= 13 || 0x1c <= n <= 0x20 || n == 0x85 || n == 0xa0 || n == 0x1680
    || 0x2000 <= n <= 0x200a || n == 0x2028 || n == 0x2029 || n == 0x202f
    || n == 0x205f || n == 0x3000
  }

  predicate In(c: char, cls: CharClass) {
    match cls
    case NotSlash => c != '/'
    case Digit => IsDigit(c)
    case NotNewline => c != '\n'
    case Space => IsSpace(c)
    case WordChar => IsWordStart(c) || IsAsciiDigit(c)
  }

  /** The end of the longest run of `cls` characters starting at `i`. */
  function RunFrom(s: string, i: nat, cls: CharClass): (r: nat)
    requires i <= |s|
    ensures i <= r <= |s|
    decreases |s| - i
  {
    if i == |s| || !In(s[i], cls) then i else RunFrom(s, i + 1, cls)
  }

  /** The run is greedy: everything in it is in the class, the character
      after it is not. */
  lemma {:induction false} RunLongest(s: string, i: nat, cls: CharClass)
    requires i <= |s|
    ensures forall j :: i <= j < RunFrom(s, i, cls) ==> In(s[j], cls)
    ensures RunFrom(s, i, cls) == |s| || !In(s[RunFrom(s, i, cls)], cls)
    decreases |s| - i
  {
    if i < |s| && In(s[i], cls) {
      RunLongest(s, i + 1, cls);
    }
  }

  /** The run ends at `k` when everything before `k` is in the class and `s[k]` is not. */
  lemma {:induction false} RunExact(s: string, i: nat, k: nat, cls: CharClass)
    requires i <= k <= |s|
    requires forall j :: i <= j < k ==> In(s[j], cls)
    requires k == |s| || !In(s[k], cls)
    ensures RunFrom(s, i, cls) == k
    decreases k - i
  {
    if i < k {
      RunExact(s, i + 1, k, cls);
    }
  }

  predicate IsWord(s: string) {
    s != [] && IsWordStart(s[0]) && forall i :: 1 <= i < |s| ==> In(s[i], WordChar)
  }

  /** A word followed by one more word character is still a word. */
  lemma WordExtend(s: string, start: nat, i: nat)
    requires start < i < |s| && IsWord(s[start..i]) && In(s[i], WordChar)
    ensures IsWord(s[start..i + 1])
  {
    var w := s[start..i + 1];
    forall x | 1 <= x < |w| ensures In(w[x], WordChar) {
      if x < |w| - 1 {
        assert w[x] == s[start..i][x];
      }
    }
  }

  // ---------------------------------------------------------------------
  // Compiling a pattern

  /** Where the scan of `PARAM_RE` stands after the `<`. */
  datatype Stage =
    | BeforeName                                 // in the spaces before the name
    | InName(start: nat)                         // inside the name begun at `start`
    | AfterName(name: string)                    // in the spaces after the name
    | BeforeType(name: string)                   // in the spaces after `:`
    | InType(name: string, start: nat)           // inside the type name begun at `start`
    | AfterType(name: string, typeName: string)  // in the spaces before `>`

  function Rank(st: Stage): nat {
    if st.InName? || st.InType? then 1 else 0
  }

  /** A word stage has consumed at least its first character. */
  predicate Begun(st: Stage, i: nat) {
    match st
    case InName(start) => start < i
    case InType(_, start) => start < i
    case _ => true
  }

  /** `PARAM_RE`, `<\s*(W)\s*(?::\s*(W)\s*)?>`, read from `i` on in stage
      `st`.  Every repetition in it is followed by a character it cannot
      contain, so reading greedily one character at a time finds the only
      match: the name, the optional type name and the index after `>`. */
  function Scan(s: string, i: nat, st: Stage): (r: Option<(string, Option<string>, nat)>)
    requires i <= |s| && Begun(st, i)
    ensures r.Some? ==> i < r.value.2 <= |s|
    decreases |s| - i, Rank(st)
  {
    var more := i < |s|;
    match st
    case BeforeName =>
      if more && IsSpace(s[i]) then Scan(s, i + 1, st)
      else if more && IsWordStart(s[i]) then Scan(s, i + 1, InName(i))
      else None
    case InName(start) =>
      if more && In(s[i], WordChar) then Scan(s, i + 1, st)
      else Scan(s, i, AfterName(s[start..i]))
    case AfterName(name) =>
      if more && IsSpace(s[i]) then Scan(s, i + 1, st)
      else if more && s[i] == '>' then Some((name, None, i + 1))
      else if more && s[i] == ':' then Scan(s, i + 1, BeforeType(name))
      else None
    case BeforeType(name) =>
      if more && IsSpace(s[i]) then Scan(s, i + 1, st)
      else if more && IsWordStart(s[i]) then Scan(s, i + 1, InType(name, i))
      else None
    case InType(name, start) =>
      if more && In(s[i], WordChar) then Scan(s, i + 1, st)
      else Scan(s, i, AfterType(name, s[start..i]))
    case AfterType(name, typeName) =>
      if more && IsSpace(s[i]) then Scan(s, i + 1, st)
      else if more && s[i] == '>' then Some((name, Some(typeName), i + 1))
      else None
  }

  /** `PARAM_RE.match(s, i)`. */
  function ParamAt(s: string, i: nat): (r: Option<(string, Option<string>, nat)>)
    requires i <= |s|
    ensures r.Some? ==> i < r.value.2 <= |s|
  {
    if i == |s| || s[i] != '<' then None else Scan(s, i + 1, BeforeName)
  }

  /** Word characters keep the scan inside the word. */
  lemma {:induction false} ScanWord(s: string, j: nat, k: nat, st: Stage)
    requires (st.InName? || st.InType?) && j <= k <= |s| && Begun(st, j)
    requires forall x :: j <= x < k ==> In(s[x], WordChar)
    ensures Scan(s, j, st) == Scan(s, k, st)
    decreases k - j
  {
    if j < k {
      ScanWord(s, j + 1, k, st);
    }
  }

  /** One `PARAM_RE` match in a pattern: where it starts and ends, the
      parameter name and the optional type name. */
  datatype ParamMatch = ParamMatch(start: nat, end: nat, name: string, typeName: Option<string>)

  /** Matches in ascending order, apart from each other, inside `[from, to]`. */
  predicate Chained(ms: seq<ParamMatch>, from: nat, to: nat) {
    ms == [] || (from <= ms[0].start < ms[0].end <= to && Chained(ms[1..], ms[0].end, to))
  }

  /** `PARAM_RE.finditer(pattern)` from `pos` on: the search tries each
      position in turn and resumes at the end of every match. */
  function FindFrom(p: string, pos: nat): (r: seq<ParamMatch>)
    requires pos <= |p|
    ensures Chained(r, pos, |p|)
    decreases |p| - pos
  {
    if pos == |p| then []
    else match ParamAt(p, pos)
      case None => FindFrom(p, pos + 1)
      case Some((name, typeName, end)) =>
        assert ([ParamMatch(pos, end, name, typeName)] + FindFrom(p, end))[1..] == FindFrom(p, end);
        [ParamMatch(pos, end, name, typeName)] + FindFrom(p, end)
  }

  /** What `__init__` does with a `PARAM_RE` match of `name` and the
      optional `typeName` at `pos`: the literal text since the last match,
      then the parameter, whose type must be one of `PARAM_TYPES`. */
  function Found(p: string, pos: nat, index: nat, acc: seq<Part>, name: string, typeName: Option<string>)
    : Result<seq<Part>, Exception>
    requires index <= pos <= |p|
  {
    var lit := if index != pos then [Lit(p[index..pos])] else [];
    var tn := typeName.GetOr("str");
    match TypeNamed(tn)
    case None => Err(ValueError("invalid param type: " + tn))
    case Some(t) => Ok(acc + lit + [Param(name, t)])
  }

  /** The loop of `Matcher.__init__` over the matches, `index` being the end
      of the previous one, then the trailing literal. */
  function Build(p: string, ms: seq<ParamMatch>, index: nat, acc: seq<Part>): Result<seq<Part>, Exception>
    requires index <= |p| && Chained(ms, index, |p|)
  {
    if ms == [] then Ok(if index != |p| then acc + [Lit(p[index..])] else acc)
    else match Found(p, ms[0].start, index, acc, ms[0].name, ms[0].typeName)
      case Err(e) => Err(e)
      case Ok(more) => Build(p, ms[1..], ms[0].end, more)
  }

  function Compiled(pattern: string): Result<seq<Part>, Exception> {
    Build(pattern, FindFrom(pattern, 0), 0, [])
  }

  /** The body of `__init__`'s loop for one `PARAM_RE` match. */
  method AddParam(pattern: string, pos: nat, index: nat, parts: seq<Part>, name: string, typeName: Option<string>)
    returns (r: Result<seq<Part>, Exception>)
    requires index <= pos <= |pattern|
    ensures r == Found(pattern, pos, index, parts, name, typeName)
  {
    var more := parts;
    if index != pos {
      more := more + [Lit(pattern[index..pos])];
    }
    var tn := typeName.GetOr("str");
    match TypeNamed(tn) {
      case None =>
        return Err(ValueError("invalid param type: " + tn));
      case Some(t) =>
        assert more == parts + (if index != pos then [Lit(pattern[index..pos])] else []);
        return Ok(more + [Param(name, t)]);
    }
  }

  /** The parts `Matcher(pattern)` builds for a string pattern. */
  method Compile(pattern: string) returns (r: Result<seq<Part>, Exception>)
    ensures r == Compiled(pattern)
  {
    var matches := FindFrom(pattern, 0);
    var parts: seq<Part> := [];
    var index: nat := 0;
    for k := 0 to |matches|
      invariant index <= |pattern| && Chained(matches[k..], index, |pattern|)
      invariant Build(pattern, matches[k..], index, parts) == Compiled(pattern)
    {
      var m := matches[k];
      assert matches[k..][1..] == matches[k + 1..];
      var found := AddParam(pattern, m.start, index, parts, m.name, m.typeName);
      match found {
        case Err(e) =>
          return Err(e);
        case Ok(more) =>
          parts := more;
          index := m.end;
      }
    }
    if index != |pattern| {
      parts := parts + [Lit(pattern[index..])];
    }
    return Ok(parts);
  }

  /** The shape every compiled pattern has: literals are non-empty, no two are
      adjacent, and parameter names are words. */
  predicate Shaped(parts: seq<Part>) {
    (forall i :: 0 <= i < |parts| && parts[i].Lit? ==> parts[i].content != [])
    && (forall i, j :: 0 <= i < |parts| && 0 <= j < |parts| && j == i + 1 && parts[i].Lit? ==> parts[j].Param?)
    && (forall i :: 0 <= i < |parts| && parts[i].Param? ==> IsWord(parts[i].name))
  }

  /** What the scan has read so far is a word where it should be. */
  predicate Named(s: string, i: nat, st: Stage)
    requires i <= |s| && Begun(st, i)
  {
    match st
    case BeforeName => true
    case InName(start) => IsWord(s[start..i])
    case AfterName(name) => IsWord(name)
    case BeforeType(name) => IsWord(name)
    case InType(name, _) => IsWord(name)
    case AfterType(name, _) => IsWord(name)
  }

  lemma {:induction false} ScanNamed(s: string, i: nat, st: Stage)
    requires i <= |s| && Begun(st, i) && Named(s, i, st)
    ensures Scan(s, i, st).Some? ==> IsWord(Scan(s, i, st).value.0)
    decreases |s| - i, Rank(st)
  {
    var more := i < |s|;
    match st {
      case BeforeName =>
        if more && IsSpace(s[i]) {
          ScanNamed(s, i + 1, st);
        } else if more && IsWordStart(s[i]) {
          assert s[i..i + 1][0] == s[i];
          ScanNamed(s, i + 1, InName(i));
        }
      case InName(start) =>
        if more && In(s[i], WordChar) {
          WordExtend(s, start, i);
          ScanNamed(s, i + 1, st);
        } else {
          ScanNamed(s, i, AfterName(s[start..i]));
        }
      case AfterName(name) =>
        if more && IsSpace(s[i]) {
          ScanNamed(s, i + 1, st);
        } else if more && s[i] == ':' {
          ScanNamed(s, i + 1, BeforeType(name));
        }
      case BeforeType(name) =>
        if more && IsSpace(s[i]) {
          ScanNamed(s, i + 1, st);
        } else if more && IsWordStart(s[i]) {
          ScanNamed(s, i + 1, InType(name, i));
        }
      case InType(name, start) =>
        if more && In(s[i], WordChar) {
          ScanNamed(s, i + 1, st);
        } else {
          ScanNamed(s, i, AfterType(name, s[start..i]));
        }
      case AfterType(name, _) =>
        if more && IsSpace(s[i]) {
          ScanNamed(s, i + 1, st);
        }
    }
  }

  /** A parameter's name is a word. */
  lemma ParamAtName(s: string, i: nat)
    requires i <= |s| && ParamAt(s, i).Some?
    ensures IsWord(ParamAt(s, i).value.0)
  {
    ScanNamed(s, i + 1, BeforeName);
  }

  predicate NamesAreWords(ms: seq<ParamMatch>) {
    forall i :: 0 <= i < |ms| ==> IsWord(ms[i].name)
  }

  lemma {:induction false} FoundNames(p: string, pos: nat)
    requires pos <= |p|
    ensures NamesAreWords(FindFrom(p, pos))
    decreases |p| - pos
  {
    if pos < |p| {
      match ParamAt(p, pos) {
        case None =>
          FoundNames(p, pos + 1);
        case Some((name, typeName, end)) =>
          ParamAtName(p, pos);
          FoundNames(p, end);
          var ms := FindFrom(p, end);
          assert forall i :: 1 <= i < |ms| + 1 ==> ([ParamMatch(pos, end, name, typeName)] + ms)[i] == ms[i - 1];
      }
    }
  }

  lemma ShapedAppend(acc: seq<Part>, lit: seq<Part>, q: Part)
    requires Shaped(acc) && (acc == [] || acc[|acc| - 1].Param?)
    requires lit == [] || (|lit| == 1 && lit[0].Lit? && lit[0].content != [])
    requires q.Param? && IsWord(q.name)
    ensures Shaped(acc + lit + [q])
  {
    var r := acc + lit + [q];
    assert forall i | 0 <= i < |acc| :: r[i] == acc[i];
    assert forall i | |acc| <= i < |acc| + |lit| :: r[i] == lit[0];
    assert r[|r| - 1] == q;
    forall i, j | 0 <= i < |r| && 0 <= j < |r| && j == i + 1 && r[i].Lit? ensures r[j].Param? {
      if j < |acc| {
        assert acc[i].Lit?;
      }
    }
  }

  lemma ShapedLast(acc: seq<Part>, c: string)
    requires Shaped(acc) && (acc == [] || acc[|acc| - 1].Param?)
    requires c != []
    ensures Shaped(acc + [Lit(c)])
  {
  }

  lemma {:induction false} BuildShaped(p: string, ms: seq<ParamMatch>, index: nat, acc: seq<Part>)
    requires index <= |p| && Chained(ms, index, |p|) && NamesAreWords(ms)
    requires Shaped(acc) && (acc == [] || acc[|acc| - 1].Param?)
    ensures Build(p, ms, index, acc).Ok? ==> Shaped(Build(p, ms, index, acc).value)
    decreases |ms|
  {
    if ms == [] {
      if index != |p| {
        ShapedLast(acc, p[index..]);
      }
    } else {
      var m := ms[0];
      var lit := if index != m.start then [Lit(p[index..m.start])] else [];
      match TypeNamed(m.typeName.GetOr("str")) {
        case None =>
        case Some(t) =>
          assert IsWord(m.name);
          ShapedAppend(acc, lit, Param(m.name, t));
          assert NamesAreWords(ms[1..]) by {
            assert forall i :: 0 <= i < |ms[1..]| ==> ms[1..][i] == ms[i + 1];
          }
          BuildShaped(p, ms[1..], m.end, acc + lit + [Param(m.name, t)]);
      }
    }
  }

  /** Every pattern compiles to parts of the shape above. */
  lemma CompiledShaped(pattern: string)
    ensures Compiled(pattern).Ok? ==> Shaped(Compiled(pattern).value)
  {
    FoundNames(pattern, 0);
    BuildShaped(pattern, FindFrom(pattern, 0), 0, []);
  }

  // ---------------------------------------------------------------------
  // Writing parts back as a pattern

  function Piece(name: string, t: string): string {
    "<" + name + ":" + t + ">"
  }

  /** The pattern text of some parts, every parameter with its type written out. */
  function Render(parts: seq<Part>): string {
    if parts == [] then "" else Text(parts[0]) + Render(parts[1..])
  }

  /** The pattern text of one part. */
  function Text(q: Part): string {
    match q
    case Lit(c) => c
    case Param(n, t) => Piece(n, TypeName(t))
  }

  /** The parts `Render` can write so that they read back unchanged. */
  predicate Renderable(parts: seq<Part>) {
    Shaped(parts) && forall i :: 0 <= i < |parts| && parts[i].Lit? ==> '<' !in parts[i].content
  }

  lemma PieceSlices(p: string, pos: nat, name: string, t: string)
    requires pos + |Piece(name, t)| <= |p| && p[pos..pos + |Piece(name, t)|] == Piece(name, t)
    ensures pos + |name| + |t| + 3 <= |p|
    ensures p[pos] == '<' && p[pos + 1..pos + 1 + |name|] == name && p[pos + 1 + |name|] == ':'
    ensures p[pos + 2 + |name|..pos + 2 + |name| + |t|] == t && p[pos + 2 + |name| + |t|] == '>'
  {
    var s := p[pos..pos + |Piece(name, t)|];
    assert s == "<" + name + ":" + t + ">";
    assert s[0] == '<' && s[1 + |name|] == ':' && s[2 + |name| + |t|] == '>';
    assert s[1..1 + |name|] == name;
    assert s[2 + |name|..2 + |name| + |t|] == t;
    SubSlice(p, pos, pos + |Piece(name, t)|, 1, 1 + |name|);
    SubSlice(p, pos, pos + |Piece(name, t)|, 2 + |name|, 2 + |name| + |t|);
  }

  lemma SubSlice(p: string, a: nat, b: nat, i: nat, j: nat)
    requires a <= b <= |p| && i <= j <= b - a
    ensures p[a..b][i..j] == p[a + i..a + j]
  {
    assert forall k | 0 <= k < j - i :: p[a..b][i..j][k] == p[a + i + k];
  }

  /** A word written at `lo`: its first character, then word characters. */
  lemma WordAt(s: string, lo: nat, w: string)
    requires IsWord(w) && lo + |w| <= |s| && s[lo..lo + |w|] == w
    ensures s[lo] == w[0]
    ensures forall x | lo + 1 <= x < lo + |w| :: In(s[x], WordChar)
  {
    forall x | lo + 1 <= x < lo + |w| ensures In(s[x], WordChar) {
      assert s[x] == w[x - lo];
    }
  }

  /** `PARAM_RE` on `<name:t>` written without spaces. */
  lemma ParamAtPlain(s: string, i: nat, name: string, t: string)
    requires IsWord(name) && IsWord(t)
    requires i + |name| + |t| + 3 <= |s|
    requires s[i] == '<' && s[i + 1..i + 1 + |name|] == name && s[i + 1 + |name|] == ':'
    requires s[i + 2 + |name|..i + 2 + |name| + |t|] == t && s[i + 2 + |name| + |t|] == '>'
    ensures ParamAt(s, i) == Some((name, Some(t), i + |name| + |t| + 3))
  {
    ScanNameWord(s, i + 1, name);
    ScanTypeWord(s, i + 2 + |name|, name, t);
    assert ParamAt(s, i) == Scan(s, i + 1, BeforeName);
  }

  /** The name of `<name:` read up to the type. */
  lemma ScanNameWord(s: string, lo: nat, name: string)
    requires IsWord(name) && lo + |name| < |s| && s[lo..lo + |name|] == name && s[lo + |name|] == ':'
    ensures Scan(s, lo, BeforeName) == Scan(s, lo + |name| + 1, BeforeType(name))
  {
    var k := lo + |name|;
    WordAt(s, lo, name);
    ScanEnterName(s, lo);
    ScanWord(s, lo + 1, k, InName(lo));
    ScanColon(s, lo, k, name);
  }

  /** The type of `t>` read to the end of the parameter. */
  lemma ScanTypeWord(s: string, lo: nat, name: string, t: string)
    requires IsWord(t) && lo + |t| < |s| && s[lo..lo + |t|] == t && s[lo + |t|] == '>'
    ensures Scan(s, lo, BeforeType(name)) == Some((name, Some(t), lo + |t| + 1))
  {
    var k := lo + |t|;
    WordAt(s, lo, t);
    ScanEnterType(s, lo, name);
    ScanWord(s, lo + 1, k, InType(name, lo));
    ScanClose(s, name, lo, k, t);
  }

  /** A word start opens the name. */
  lemma ScanEnterName(s: string, j: nat)
    requires j < |s| && IsWordStart(s[j])
    ensures Scan(s, j, BeforeName) == Scan(s, j + 1, InName(j))
  {
  }

  /** A `:` after the name opens the type. */
  lemma ScanColon(s: string, start: nat, k: nat, name: string)
    requires start < k < |s| && s[k] == ':' && s[start..k] == name
    ensures Scan(s, k, InName(start)) == Scan(s, k + 1, BeforeType(name))
  {
  }

  /** A word start opens the type. */
  lemma ScanEnterType(s: string, j: nat, name: string)
    requires j < |s| && IsWordStart(s[j])
    ensures Scan(s, j, BeforeType(name)) == Scan(s, j + 1, InType(name, j))
  {
  }

  /** A `>` after the type closes the parameter. */
  lemma ScanClose(s: string, name: string, start: nat, k: nat, t: string)
    requires start < k < |s| && s[k] == '>' && s[start..k] == t
    ensures Scan(s, k, InType(name, start)) == Some((name, Some(t), k + 1))
  {
  }

  lemma FindSkip(p: string, pos: nat)
    requires pos < |p| && p[pos] != '<'
    ensures FindFrom(p, pos) == FindFrom(p, pos + 1)
  {
  }

  /** No parameter starts inside a literal without `<`. */
  lemma {:induction false} FindLiteral(p: string, pos: nat, n: nat)
    requires pos + n <= |p|
    requires forall i :: pos <= i < pos + n ==> p[i] != '<'
    ensures FindFrom(p, pos) == FindFrom(p, pos + n)
    decreases n
  {
    if n > 0 {
      FindSkip(p, pos);
      FindLiteral(p, pos + 1, n - 1);
    }
  }

  /** A written parameter is found where it starts. */
  lemma FindPiece(p: string, pos: nat, name: string, t: string)
    requires IsWord(name) && IsWord(t)
    requires pos + |Piece(name, t)| <= |p| && p[pos..pos + |Piece(name, t)|] == Piece(name, t)
    ensures FindFrom(p, pos)
         == [ParamMatch(pos, pos + |Piece(name, t)|, name, Some(t))] + FindFrom(p, pos + |Piece(name, t)|)
  {
    PieceSlices(p, pos, name, t);
    ParamAtPlain(p, pos, name, t);
    FindAt(p, pos, name, Some(t), pos + |Piece(name, t)|);
  }

  /** A match at `pos` is the first one found from `pos`. */
  lemma FindAt(p: string, pos: nat, name: string, typeName: Option<string>, end: nat)
    requires pos <= |p| && ParamAt(p, pos) == Some((name, typeName, end))
    ensures FindFrom(p, pos) == [ParamMatch(pos, end, name, typeName)] + FindFrom(p, end)
  {
  }

  lemma TypeNameWord(t: ParamType)
    ensures IsWord(TypeName(t))
  {
    var tn := TypeName(t);
    forall i | 1 <= i < |tn| ensures In(tn[i], WordChar) { }
  }

  /** `Build` over the first match found from `index`. */
  lemma BuildAt(p: string, index: nat, m: ParamMatch, acc: seq<Part>)
    requires index <= |p| && m.end <= |p| && FindFrom(p, index) == [m] + FindFrom(p, m.end)
    ensures index <= m.start
    ensures Build(p, FindFrom(p, index), index, acc)
         == match Found(p, m.start, index, acc, m.name, m.typeName)
            case Err(x) => Err(x)
            case Ok(more) => Build(p, FindFrom(p, m.end), m.end, more)
  {
    var ms := FindFrom(p, m.end);
    assert ([m] + ms)[1..] == ms;
  }

  /** A parameter of a known type is added after the literal before it. */
  lemma FoundKnown(p: string, pos: nat, index: nat, acc: seq<Part>, n: string, t: ParamType)
    requires index <= pos <= |p|
    ensures Found(p, pos, index, acc, n, Some(TypeName(t)))
         == Ok(acc + (if index != pos then [Lit(p[index..pos])] else []) + [Param(n, t)])
  {
    assert TypeNamed(TypeName(t)) == Some(t);
  }

  lemma RenderCons(q: Part, rest: seq<Part>)
    ensures Render([q] + rest) == Text(q) + Render(rest)
  {
    assert ([q] + rest)[1..] == rest;
  }

  lemma ShapedTail(parts: seq<Part>)
    requires parts != [] && Shaped(parts)
    ensures Shaped(parts[1..])
  {
    var tail := parts[1..];
    forall i, j | 0 <= i < |tail| && 0 <= j < |tail| && j == i + 1 && tail[i].Lit? ensures tail[j].Param? {
      assert tail[i] == parts[i + 1] && tail[j] == parts[j + 1];
    }
  }

  lemma RenderableTail(parts: seq<Part>)
    requires parts != [] && Renderable(parts)
    ensures Renderable(parts[1..])
  {
    ShapedTail(parts);
  }

  lemma FindText(p: string, pos: nat, c: string)
    requires '<' !in c
    requires pos + |c| <= |p| && p[pos..pos + |c|] == c
    ensures FindFrom(p, pos) == FindFrom(p, pos + |c|)
  {
    forall i | pos <= i < pos + |c| ensures p[i] != '<' {
      assert p[i] == c[i - pos];
    }
    FindLiteral(p, pos, |c|);
  }

  /** How many characters a part takes in the rendered text. */

  /** The texts of the parts lie one after another in `p` from `pos` to its end. */
  predicate Laid(p: string, pos: nat, parts: seq<Part>)
    decreases |parts|
  {
    if parts == [] then pos == |p|
    else
      pos + |Text(parts[0])| <= |p|
      && p[pos..pos + |Text(parts[0])|] == Text(parts[0])
      && Laid(p, pos + |Text(parts[0])|, parts[1..])
  }

  lemma SliceCons(p: string, pos: nat, a: string, b: string)
    requires pos <= |p| && p[pos..] == a + b
    ensures pos + |a| <= |p| && p[pos..pos + |a|] == a && p[pos + |a|..] == b
  {
    assert p[pos..pos + |a|] == p[pos..][..|a|];
    assert p[pos + |a|..] == p[pos..][|a|..];
  }

  lemma {:induction false} RenderLaid(p: string, pos: nat, parts: seq<Part>)
    requires pos <= |p| && p[pos..] == Render(parts)
    ensures Laid(p, pos, parts)
    decreases |parts|
  {
    if parts != [] {
      var n := RenderStep(p, pos, parts);
      RenderLaid(p, pos + n, parts[1..]);
      LaidCons(p, pos, parts);
    }
  }

  /** The first part of a rendering, and where the rest of it starts. */
  lemma RenderStep(p: string, pos: nat, parts: seq<Part>) returns (n: nat)
    requires parts != [] && pos <= |p| && p[pos..] == Render(parts)
    ensures n == |Text(parts[0])| && pos + n <= |p|
    ensures p[pos..pos + n] == Text(parts[0]) && p[pos + n..] == Render(parts[1..])
  {
    n := |Text(parts[0])|;
    SliceCons(p, pos, Text(parts[0]), Render(parts[1..]));
  }

  lemma LaidCons(p: string, pos: nat, parts: seq<Part>)
    requires parts != [] && pos + |Text(parts[0])| <= |p|
    requires p[pos..pos + |Text(parts[0])|] == Text(parts[0])
    requires Laid(p, pos + |Text(parts[0])|, parts[1..])
    ensures Laid(p, pos, parts)
  {
  }

  /** The matches `ms` found from `pos` on are exactly the parameters of
      `parts`, and every literal of `parts` is written as itself between them. */
  predicate Tiles(p: string, ms: seq<ParamMatch>, pos: nat, parts: seq<Part>)
    decreases |parts|
  {
    if parts == [] then ms == [] && pos == |p|
    else match parts[0]
      case Lit(c) => pos + |c| <= |p| && p[pos..pos + |c|] == c && Tiles(p, ms, pos + |c|, parts[1..])
      case Param(n, t) =>
        ms != [] && ms[0].start == pos && ms[0].name == n && ms[0].typeName == Some(TypeName(t))
        && Tiles(p, ms[1..], ms[0].end, parts[1..])
  }

  /** Literals are non-empty and each one ends the parts or precedes a parameter. */
  predicate Alternating(parts: seq<Part>)
    decreases |parts|
  {
    if parts == [] then true
    else if parts[0].Param? then Alternating(parts[1..])
    else parts[0].content != [] && (|parts| == 1 || (parts[1].Param? && Alternating(parts[2..])))
  }

  lemma {:induction false} ShapedAlternating(parts: seq<Part>)
    requires Shaped(parts)
    ensures Alternating(parts)
    decreases |parts|
  {
    if parts != [] {
      ShapedTail(parts);
      if parts[0].Param? {
        ShapedAlternating(parts[1..]);
      } else if |parts| > 1 {
        ShapedTail(parts[1..]);
        assert parts[1..][1..] == parts[2..];
        ShapedAlternating(parts[2..]);
      }
    }
  }

  /** No literal holds `<` and every parameter is named by a word. */
  predicate Plain(parts: seq<Part>)
    decreases |parts|
  {
    parts == []
    || ((match parts[0] case Lit(c) => '<' !in c case Param(n, _) => IsWord(n)) && Plain(parts[1..]))
  }

  lemma {:induction false} RenderablePlain(parts: seq<Part>)
    requires Renderable(parts)
    ensures Plain(parts)
    decreases |parts|
  {
    if parts != [] {
      RenderableTail(parts);
      RenderablePlain(parts[1..]);
    }
  }

  /** Searching the laid-out text of plain parts finds exactly their parameters. */
  lemma {:induction false} FindRender(p: string, pos: nat, parts: seq<Part>)
    requires Plain(parts) && Laid(p, pos, parts)
    ensures Tiles(p, FindFrom(p, pos), pos, parts)
    decreases |parts|, 1
  {
    if parts != [] {
      match parts[0] {
        case Lit(c) => FindRenderLit(p, pos, c, parts);
        case Param(n, t) => FindRenderParam(p, pos, n, t, parts);
      }
    }
  }

  lemma {:induction false} FindRenderLit(p: string, pos: nat, c: string, parts: seq<Part>)
    requires parts != [] && parts[0] == Lit(c) && Plain(parts) && Laid(p, pos, parts)
    ensures Tiles(p, FindFrom(p, pos), pos, parts)
    decreases |parts|, 0
  {
    FindRender(p, pos + |c|, parts[1..]);
    FindText(p, pos, c);
  }

  lemma {:induction false} FindRenderParam(p: string, pos: nat, n: string, t: ParamType, parts: seq<Part>)
    requires parts != [] && parts[0] == Param(n, t) && Plain(parts) && Laid(p, pos, parts)
    ensures Tiles(p, FindFrom(p, pos), pos, parts)
    decreases |parts|, 0
  {
    var e := pos + |Piece(n, TypeName(t))|;
    FindRender(p, e, parts[1..]);
    TypeNameWord(t);
    FindPiece(p, pos, n, TypeName(t));
    var m := ParamMatch(pos, e, n, Some(TypeName(t)));
    assert ([m] + FindFrom(p, e))[1..] == FindFrom(p, e);
  }

  /** `Build` over those matches gives the parts back. */
  lemma {:induction false} BuildTiles(p: string, ms: seq<ParamMatch>, pos: nat, parts: seq<Part>, acc: seq<Part>)
    requires Alternating(parts) && Tiles(p, ms, pos, parts)
    requires pos <= |p| && Chained(ms, pos, |p|)
    ensures Build(p, ms, pos, acc) == Ok(acc + parts)
    decreases |parts|, 1
  {
    if parts == [] {
      assert acc + parts == acc;
    } else if parts[0].Param? {
      BuildTilesParam(p, ms, pos, parts, acc);
    } else if |parts| == 1 {
      assert parts == [Lit(parts[0].content)];
      assert p[pos..] == p[pos..|p|];
    } else {
      BuildTilesLit(p, ms, pos, parts, acc);
    }
  }

  lemma {:induction false} BuildTilesParam(p: string, ms: seq<ParamMatch>, pos: nat, parts: seq<Part>, acc: seq<Part>)
    requires parts != [] && parts[0].Param? && Alternating(parts) && Tiles(p, ms, pos, parts)
    requires pos <= |p| && Chained(ms, pos, |p|)
    ensures Build(p, ms, pos, acc) == Ok(acc + parts)
    decreases |parts|, 0
  {
    var n, t, rest := parts[0].name, parts[0].ptype, parts[1..];
    BuildTiles(p, ms[1..], ms[0].end, rest, acc + [Param(n, t)]);
    FoundKnown(p, pos, pos, acc, n, t);
    assert acc + [] == acc;
    assert [parts[0]] + rest == parts;
    assert acc + [Param(n, t)] + rest == acc + parts;
  }

  lemma {:induction false} BuildTilesLit(p: string, ms: seq<ParamMatch>, pos: nat, parts: seq<Part>, acc: seq<Part>)
    requires |parts| >= 2 && parts[0].Lit? && Alternating(parts) && Tiles(p, ms, pos, parts)
    requires pos <= |p| && Chained(ms, pos, |p|)
    ensures Build(p, ms, pos, acc) == Ok(acc + parts)
    decreases |parts|, 0
  {
    var c, n, t, rest := parts[0].content, parts[1].name, parts[1].ptype, parts[2..];
    var mid := pos + |c|;
    assert parts[1..][1..] == rest;
    assert Tiles(p, ms, mid, parts[1..]);
    BuildTiles(p, ms[1..], ms[0].end, rest, acc + [Lit(c)] + [Param(n, t)]);
    FoundKnown(p, mid, pos, acc, n, t);
    assert [parts[0], parts[1]] + rest == parts;
    assert acc + [Lit(c)] + [Param(n, t)] + rest == acc + parts;
  }

  /** Compiling the rendered text of renderable parts gives back those parts. */
  lemma CompileRender(parts: seq<Part>)
    requires Renderable(parts)
    ensures Compiled(Render(parts)) == Ok(parts)
  {
    var p := Render(parts);
    assert p[0..] == p;
    RenderLaid(p, 0, parts);
    RenderablePlain(parts);
    FindRender(p, 0, parts);
    ShapedAlternating(parts);
    BuildTiles(p, FindFrom(p, 0), 0, parts, []);
    assert [] + parts == parts;
  }

  /** A type name outside `PARAM_TYPES` raises `ValueError`, whatever follows. */
  lemma UnknownType(lit: string, name: string, t: string, rest: string)
    requires '<' !in lit
    requires IsWord(name) && IsWord(t) && TypeNamed(t).None?
    ensures Compiled(lit + Piece(name, t) + rest) == Err(ValueError("invalid param type: " + t))
  {
    var p := lit + Piece(name, t) + rest;
    assert p[0..|lit|] == lit;
    assert p[0..] == p;
    assert p[|lit|..|lit| + |Piece(name, t)|] == Piece(name, t);
    FindText(p, 0, lit);
    FindPiece(p, |lit|, name, t);
    BuildAt(p, 0, ParamMatch(|lit|, |lit| + |Piece(name, t)|, name, Some(t)), []);
  }

  // ---------------------------------------------------------------------
  // Matching a path

  function ClassOf(t: ParamType): CharClass {
    match t
    case StrType => NotSlash
    case IntType => Digit
    case PathType => NotNewline
  }

  function DigitValue(c: char): nat
    requires IsDigit(c)
  {
    c as int - DigitZero(c as int)
  }

  /** `int` of a run of decimal digits, of any script. */
  function ParseNat(s: string): nat
    requires forall i :: 0 <= i < |s| ==> IsDigit(s[i])
  {
    if s == [] then 0 else ParseNat(s[..|s| - 1]) * 10 + DigitValue(s[|s| - 1])
  }

  lemma RunClass(s: string, i: nat, cls: CharClass)
    requires i <= |s|
    ensures forall j :: 0 <= j < RunFrom(s, i, cls) - i ==> In(s[i..RunFrom(s, i, cls)][j], cls)
  {
    RunLongest(s, i, cls);
  }

  /** `param_re.match(path, index)` followed by the type's parser: the value
      and the index after it. */
  function Take(path: string, index: nat, t: ParamType): (r: Option<(Value, nat)>)
    requires index <= |path|
    ensures r.Some? ==> index < r.value.1 <= |path|
  {
    var e := RunFrom(path, index, ClassOf(t));
    RunClass(path, index, ClassOf(t));
    if e == index then None
    else
      var text := path[index..e];
      Some((if t == IntType then Int(ParseNat(text)) else Str(text), e))
  }

  /** The loop of `Matcher.match` from part `parts[0]` on, at `index`, with the
      parameters found so far. */
  function MatchFrom(parts: seq<Part>, path: string, index: nat, params: Params): Result<Params, MatchError>
    requires index <= |path|
    decreases |parts|
  {
    if parts == [] then
      if index != |path| then Err(MatchError(index, ExpectedEnd)) else Ok(params)
    else match parts[0]
      case Lit(c) =>
        if !StartsWith(path[index..], c) then Err(MatchError(index, ExpectedLiteral(c)))
        else MatchFrom(parts[1..], path, index + |c|, params)
      case Param(name, t) =>
        match Take(path, index, t)
        case None => Err(MatchError(index, ExpectedParam(t)))
        case Some((v, next)) => MatchFrom(parts[1..], path, next, params[name := v])
  }

  function Matched(m: Matcher, path: string): Result<Params, MatchError> {
    MatchFrom(m.parts, path, 0, map[])
  }

  /** `Matcher.match`. */
  method Match(m: Matcher, path: string) returns (r: Result<Params, MatchError>)
    ensures r == Matched(m, path)
  {
    var params: Params := map[];
    var index: nat := 0;
    for k := 0 to |m.parts|
      invariant index <= |path|
      invariant MatchFrom(m.parts[k..], path, index, params) == Matched(m, path)
    {
      assert m.parts[k..][1..] == m.parts[k + 1..];
      match m.parts[k] {
        case Lit(c) =>
          if !StartsWith(path[index..], c) {
            return Err(MatchError(index, ExpectedLiteral(c)));
          }
          index := index + |c|;
        case Param(name, t) =>
          match Take(path, index, t) {
            case None =>
              return Err(MatchError(index, ExpectedParam(t)));
            case Some((v, next)) =>
              params := params[name := v];
              index := next;
          }
      }
    }
    if index != |path| {
      return Err(MatchError(index, ExpectedEnd));
    }
    return Ok(params);
  }

  /** A matcher made of one literal matches exactly that literal. */
  lemma LiteralMatch(c: string, path: string)
    ensures Matched(Matcher([Lit(c)]), path).Ok? <==> path == c
  {
    var r := Matched(Matcher([Lit(c)]), path);
    assert [Lit(c)][1..] == [];
    assert path[0..] == path;
    assert path[..|path|] == path;
    if StartsWith(path, c) {
      assert r == MatchFrom([], path, |c|, map[]);
      assert path[..|c|] == c;
      assert r.Ok? <==> |c| == |path|;
    } else {
      assert r == Err(MatchError(0, ExpectedLiteral(c)));
    }
  }

  function Names(parts: seq<Part>): set<string> {
    if parts == [] then {}
    else (if parts[0].Param? then {parts[0].name} else {}) + Names(parts[1..])
  }

  /** A successful match binds exactly the parameter names of the pattern. */
  lemma {:induction false} MatchKeys(parts: seq<Part>, path: string, index: nat, params: Params)
    requires index <= |path|
    requires MatchFrom(parts, path, index, params).Ok?
    ensures MatchFrom(parts, path, index, params).value.Keys == params.Keys + Names(parts)
    decreases |parts|
  {
    if parts != [] {
      match parts[0] {
        case Lit(c) =>
          MatchKeys(parts[1..], path, index + |c|, params);
        case Param(name, t) =>
          var (v, next) := Take(path, index, t).value;
          MatchKeys(parts[1..], path, next, params[name := v]);
      }
    }
  }

  /** An `int` parameter takes a decimal digit of any script, with its value:
      `/٣` (ARABIC-INDIC DIGIT THREE) matches `/<n:int>` with `n` bound to 3. */
  lemma DigitParam(c: char)
    requires IsDigit(c)
    ensures Matched(Matcher([Lit("/"), Param("n", IntType)]), ['/', c]) == Ok(map["n" := Int(DigitValue(c))])
    ensures IsDigit('\U{0663}') && DigitValue('\U{0663}') == 3
  {
    var path := ['/', c];
    assert StartsWith(path[0..], "/");
    assert RunFrom(path, 2, Digit) == 2;
    assert RunFrom(path, 1, Digit) == 2;
    assert path[1..2] == [c];
    assert ParseNat([c]) == DigitValue(c) by {
      assert [c][..0] == [];
    }
    var parts := [Lit("/"), Param("n", IntType)];
    assert parts[1..][1..] == [];
  }

  // ---------------------------------------------------------------------
  // Reversing

  function DigitChar(d: nat): (c: char)
    requires d < 10
    ensures IsDigit(c) && DigitValue(c) == d
  {
    ('0' as int + d) as char
  }

  /** `str` of a natural number. */
  function NatText(n: nat): (r: string)
    ensures r != [] && forall i :: 0 <= i < |r| ==> IsDigit(r[i])
  {
    if n < 10 then [DigitChar(n)] else NatText(n / 10) + [DigitChar(n % 10)]
  }

  lemma {:induction false} ParseNatText(n: nat)
    ensures ParseNat(NatText(n)) == n
  {
    if n >= 10 {
      var s := NatText(n);
      assert s[..|s| - 1] == NatText(n / 10);
      ParseNatText(n / 10);
    }
  }

  /** The serializer `str` of a parameter value. */
  function Show(v: Value): string {
    match v
    case Str(s) => s
    case Int(n) => if n < 0 then "-" + NatText(-n) else NatText(n)
  }

  /** `Matcher.reverse`: the literals and serialized parameters in part order,
      `KeyError` for the first parameter not supplied. */
  function Reversed(parts: seq<Part>, params: Params): Result<string, Exception> {
    if parts == [] then Ok("")
    else
      var head := match parts[0]
        case Lit(c) => Ok(c)
        case Param(name, _) => if name in params then Ok(Show(params[name])) else Err(KeyError(name));
      Joined(head, Reversed(parts[1..], params))
  }

  /** Two results joined: the first error, or the concatenation. */
  function Joined(a: Result<string, Exception>, b: Result<string, Exception>): Result<string, Exception> {
    match a
    case Err(e) => Err(e)
    case Ok(x) => match b case Err(e) => Err(e) case Ok(y) => Ok(x + y)
  }

  lemma JoinedEmpty(r: Result<string, Exception>)
    ensures Joined(Ok(""), r) == r
  {
    if r.Ok? {
      assert "" + r.value == r.value;
    }
  }

  lemma JoinedAssoc(a: Result<string, Exception>, b: Result<string, Exception>, c: Result<string, Exception>)
    ensures Joined(a, Joined(b, c)) == Joined(Joined(a, b), c)
  {
    if a.Ok? && b.Ok? && c.Ok? {
      assert a.value + (b.value + c.value) == a.value + b.value + c.value;
    }
  }

  method Reverse(m: Matcher, params: Params) returns (r: Result<string, Exception>)
    ensures r == Reversed(m.parts, params)
  {
    var pieces: seq<string> := [];
    assert m.parts[0..] == m.parts;
    JoinedEmpty(Reversed(m.parts, params));
    for k := 0 to |m.parts|
      invariant Reversed(m.parts, params) == Joined(Ok(Concat(pieces)), Reversed(m.parts[k..], params))
    {
      assert m.parts[k..][1..] == m.parts[k + 1..];
      var piece;
      match m.parts[k] {
        case Lit(c) =>
          piece := c;
        case Param(name, _) =>
          if name !in params {
            return Err(KeyError(name));
          }
          piece := Show(params[name]);
      }
      JoinedAssoc(Ok(Concat(pieces)), Ok(piece), Reversed(m.parts[k + 1..], params));
      ConcatAppend(pieces, [piece]);
      assert [piece][1..] == [] && piece + [] == piece;
      pieces := pieces + [piece];
    }
    assert m.parts[|m.parts|..] == [];
    assert Concat(pieces) + "" == Concat(pieces);
    return Ok(Concat(pieces));
  }

  /** Every parameter of `parts` is supplied with a value its type reads back. */
  predicate Fits(parts: seq<Part>, params: Params) {
    forall i :: 0 <= i < |parts| && parts[i].Param? ==>
      parts[i].name in params && ValueFits(params[parts[i].name], parts[i].ptype)
  }

  predicate ValueFits(v: Value, t: ParamType) {
    match t
    case StrType => v.Str? && v.s != [] && forall i :: 0 <= i < |v.s| ==> v.s[i] != '/'
    case IntType => v.Int? && v.n >= 0
    case PathType => v.Str? && v.s != [] && forall i :: 0 <= i < |v.s| ==> v.s[i] != '\n'
  }

  /** Each parameter ends the pattern, or is a `str` or `int` followed by a
      literal starting with `/`: the greedy scanner then stops where the
      value ends. */
  predicate Delimited(parts: seq<Part>) {
    forall i, j :: 0 <= i < |parts| && 0 <= j < |parts| && j == i + 1 && parts[i].Param? ==>
      parts[i].ptype != PathType && parts[j].Lit? && parts[j].content != [] && parts[j].content[0] == '/'
  }

  function Restrict(params: Params, names: set<string>): Params {
    map k | k in params.Keys && k in names :: params[k]
  }

  lemma RestrictAdd(acc: Params, params: Params, name: string, names: set<string>)
    requires name in params
    ensures acc[name := params[name]] + Restrict(params, names) == acc + Restrict(params, {name} + names)
  {
    var l := acc[name := params[name]] + Restrict(params, names);
    var r := acc + Restrict(params, {name} + names);
    assert l.Keys == r.Keys;
    forall k | k in l ensures l[k] == r[k] {
    }
  }

  lemma FitsTail(parts: seq<Part>, params: Params)
    requires parts != [] && Fits(parts, params) && Delimited(parts)
    ensures Fits(parts[1..], params) && Delimited(parts[1..])
  {
    var tail := parts[1..];
    forall i, j | 0 <= i < |tail| && 0 <= j < |tail| && j == i + 1 && tail[i].Param?
      ensures tail[i].ptype != PathType && tail[j].Lit? && tail[j].content != [] && tail[j].content[0] == '/'
    {
      assert tail[i] == parts[i + 1] && tail[j] == parts[j + 1];
    }
  }

  lemma ReversedHead(parts: seq<Part>, params: Params)
    requires parts != [] && parts[0].Lit? && parts[0].content != []
    requires Reversed(parts, params).Ok?
    ensures Reversed(parts, params).value != [] && Reversed(parts, params).value[0] == parts[0].content[0]
  {
  }

  /** The value a fitting parameter writes is exactly what its scanner takes back. */
  lemma TakeShown(path: string, index: nat, t: ParamType, v: Value, tail: string)
    requires ValueFits(v, t)
    requires index <= |path| && path[index..] == Show(v) + tail
    requires tail == [] || (t != PathType && tail[0] == '/')
    ensures Take(path, index, t) == Some((v, index + |Show(v)|))
  {
    var s := Show(v);
    var k := index + |s|;
    assert path[index..k] == s;
    forall j | index <= j < k ensures In(path[j], ClassOf(t)) {
      assert path[j] == s[j - index];
    }
    if k < |path| {
      assert path[k] == tail[0];
    }
    RunExact(path, index, k, ClassOf(t));
    if t == IntType {
      ParseNatText(v.n);
    }
  }

  /** One step of `Reversed`: the head's text, then the rest's. */
  lemma ReversedCons(parts: seq<Part>, params: Params)
    requires parts != [] && Reversed(parts, params).Ok?
    ensures Reversed(parts[1..], params).Ok?
    ensures parts[0].Lit? ==>
      (Reversed(parts, params).value == parts[0].content + Reversed(parts[1..], params).value)
    ensures parts[0].Param? ==>
      (parts[0].name in params
       && Reversed(parts, params).value == Show(params[parts[0].name]) + Reversed(parts[1..], params).value)
  {
  }

  lemma {:induction false} MatchShown(parts: seq<Part>, params: Params, path: string, index: nat, acc: Params)
    requires Fits(parts, params) && Delimited(parts)
    requires Reversed(parts, params).Ok?
    requires index <= |path| && path[index..] == Reversed(parts, params).value
    ensures MatchFrom(parts, path, index, acc) == Ok(acc + Restrict(params, Names(parts)))
    decreases |parts|, 1
  {
    if parts == [] {
      assert Restrict(params, {}) == map[];
      assert acc + map[] == acc;
    } else if parts[0].Lit? {
      MatchShownLit(parts, params, path, index, acc);
    } else {
      MatchShownParam(parts, params, path, index, acc);
    }
  }

  lemma {:induction false} MatchShownLit(parts: seq<Part>, params: Params, path: string, index: nat, acc: Params)
    requires parts != [] && parts[0].Lit?
    requires Fits(parts, params) && Delimited(parts)
    requires Reversed(parts, params).Ok?
    requires index <= |path| && path[index..] == Reversed(parts, params).value
    ensures MatchFrom(parts, path, index, acc) == Ok(acc + Restrict(params, Names(parts)))
    decreases |parts|, 0
  {
    var c, rest := parts[0].content, parts[1..];
    FitsTail(parts, params);
    ReversedCons(parts, params);
    var tail := Reversed(rest, params).value;
    assert path[index..][..|c|] == c;
    assert path[index + |c|..] == path[index..][|c|..];
    MatchShown(rest, params, path, index + |c|, acc);
    assert Names(parts) == Names(rest);
    assert StartsWith(path[index..], c);
  }

  lemma {:induction false} MatchShownParam(parts: seq<Part>, params: Params, path: string, index: nat, acc: Params)
    requires parts != [] && parts[0].Param?
    requires Fits(parts, params) && Delimited(parts)
    requires Reversed(parts, params).Ok?
    requires index <= |path| && path[index..] == Reversed(parts, params).value
    ensures MatchFrom(parts, path, index, acc) == Ok(acc + Restrict(params, Names(parts)))
    decreases |parts|, 0
  {
    var name, t, rest := parts[0].name, parts[0].ptype, parts[1..];
    FitsTail(parts, params);
    ReversedCons(parts, params);
    var tail := Reversed(rest, params).value;
    var v := params[name];
    assert ValueFits(v, t);
    if rest != [] {
      assert rest[0] == parts[1];
      ReversedHead(rest, params);
    }
    TakeShown(path, index, t, v, tail);
    assert path[index + |Show(v)|..] == path[index..][|Show(v)|..];
    MatchShown(rest, params, path, index + |Show(v)|, acc[name := v]);
    RestrictAdd(acc, params, name, Names(rest));
  }

  lemma {:induction false} ReversedOk(parts: seq<Part>, params: Params)
    requires Fits(parts, params)
    ensures Reversed(parts, params).Ok?
  {
    if parts != [] {
      assert Fits(parts[1..], params) by {
        forall i | 0 <= i < |parts[1..]| && parts[1..][i].Param?
          ensures parts[1..][i].name in params && ValueFits(params[parts[1..][i].name], parts[1..][i].ptype)
        {
          assert parts[1..][i] == parts[i + 1];
        }
      }
      ReversedOk(parts[1..], params);
    }
  }

  /** `reverse` fails exactly when a parameter of the pattern is not
      supplied, and then with the `KeyError` of the first one missing. */
  lemma {:induction false} ReversedMissing(parts: seq<Part>, params: Params, k: nat)
    requires k < |parts| && parts[k].Param? && parts[k].name !in params
    requires forall i | 0 <= i < k && parts[i].Param? :: parts[i].name in params
    ensures Reversed(parts, params) == Err(KeyError(parts[k].name))
    decreases k
  {
    if k > 0 {
      forall i | 0 <= i < k - 1 && parts[1..][i].Param?
        ensures parts[1..][i].name in params
      {
        assert parts[1..][i] == parts[i + 1];
      }
      ReversedMissing(parts[1..], params, k - 1);
    }
  }

  /** `match(reverse(**params)) == params` for delimited patterns and fitting
      values: the path reverse builds reads back as the parameters it used. */
  lemma MatchReverse(m: Matcher, params: Params)
    requires Fits(m.parts, params) && Delimited(m.parts)
    requires params.Keys == Names(m.parts)
    ensures Reversed(m.parts, params).Ok?
    ensures Matched(m, Reversed(m.parts, params).value) == Ok(params)
  {
    ReversedOk(m.parts, params);
    var path := Reversed(m.parts, params).value;
    assert path[0..] == path;
    MatchShown(m.parts, params, path, 0, map[]);
    assert map[] + Restrict(params, Names(m.parts)) == params;
  }

  // ---------------------------------------------------------------------
  // Concatenation

  /** `a + b`: the parts of both, a trailing literal of `a` merged with a
      leading literal of `b`. */
  function Add(a: Matcher, b: Matcher): (m: Matcher)
    ensures Render(m.parts) == Render(a.parts) + Render(b.parts)
    ensures Names(m.parts) == Names(a.parts) + Names(b.parts)
  {
    var l := a.parts;
    var r := b.parts;
    RenderAppend(l, r);
    NamesAppend(l, r);
    if l != [] && l[|l| - 1].Lit? && r != [] && r[0].Lit? then
      var init := l[..|l| - 1];
      var c1 := l[|l| - 1].content;
      var c2 := r[0].content;
      assert l == init + [Lit(c1)];
      assert r == [Lit(c2)] + r[1..];
      MergedRender(init, c1, c2, r[1..]);
      MergedNames(init, c1, c2, r[1..]);
      Matcher(init + [Lit(c1 + c2)] + r[1..])
    else
      Matcher(l + r)
  }

  lemma RenderLit(c: string)
    ensures Render([Lit(c)]) == c
  {
    assert [Lit(c)][1..] == [];
  }

  /** Merging the literals that meet keeps the text and the names. */
  lemma MergedRender(init: seq<Part>, c1: string, c2: string, rest: seq<Part>)
    ensures Render(init + [Lit(c1 + c2)] + rest) == Render(init + [Lit(c1)]) + Render([Lit(c2)] + rest)
  {
    var merged := init + [Lit(c1 + c2)];
    var left := init + [Lit(c1)];
    var right := [Lit(c2)] + rest;
    RenderAppend(merged, rest);
    RenderAppend(init, [Lit(c1 + c2)]);
    RenderLit(c1 + c2);
    RenderAppend(init, [Lit(c1)]);
    RenderLit(c1);
    RenderCons(Lit(c2), rest);
    StringAssoc(Render(init), c1, c2, Render(rest));
  }

  lemma StringAssoc(a: string, b: string, c: string, d: string)
    ensures a + (b + c) + d == (a + b) + (c + d)
  {
  }

  lemma MergedNames(init: seq<Part>, c1: string, c2: string, rest: seq<Part>)
    ensures Names(init + [Lit(c1 + c2)] + rest) == Names(init + [Lit(c1)]) + Names([Lit(c2)] + rest)
  {
    NamesAppend(init + [Lit(c1 + c2)], rest);
    NamesAppend(init, [Lit(c1 + c2)]);
    NamesAppend(init, [Lit(c1)]);
    assert [Lit(c1 + c2)][1..] == [] && [Lit(c1)][1..] == [];
    assert ([Lit(c2)] + rest)[1..] == rest;
  }

  lemma {:induction false} RenderAppend(x: seq<Part>, y: seq<Part>)
    ensures Render(x + y) == Render(x) + Render(y)
  {
    if x == [] {
      assert x + y == y;
    } else {
      assert (x + y)[1..] == x[1..] + y;
      RenderAppend(x[1..], y);
    }
  }

  lemma {:induction false} NamesAppend(x: seq<Part>, y: seq<Part>)
    ensures Names(x + y) == Names(x) + Names(y)
  {
    if x == [] {
      assert x + y == y;
    } else {
      assert (x + y)[1..] == x[1..] + y;
      NamesAppend(x[1..], y);
    }
  }

  lemma {:induction false} ReversedAppend(x: seq<Part>, y: seq<Part>, params: Params)
    ensures Reversed(x + y, params) == Joined(Reversed(x, params), Reversed(y, params))
  {
    if x == [] {
      assert x + y == y;
      match Reversed(y, params) {
        case Ok(s) => assert "" + s == s;
        case Err(_) =>
      }
    } else {
      assert (x + y)[0] == x[0];
      assert (x + y)[1..] == x[1..] + y;
      ReversedAppend(x[1..], y, params);
      JoinedAssoc(
        match x[0] case Lit(c) => Ok(c)
          case Param(name, _) => if name in params then Ok(Show(params[name])) else Err(KeyError(name)),
        Reversed(x[1..], params), Reversed(y, params));
    }
  }

  lemma ReversedLit(c: string, params: Params)
    ensures Reversed([Lit(c)], params) == Ok(c)
  {
    assert [Lit(c)][1..] == [];
    assert c + "" == c;
  }

  /** The path reverse builds for `a + b` is the one for `a` followed by the one
      for `b`, and a missing parameter is reported in the same order. */
  lemma AddReverse(a: Matcher, b: Matcher, params: Params)
    ensures Reversed(Add(a, b).parts, params) == Joined(Reversed(a.parts, params), Reversed(b.parts, params))
  {
    var l := a.parts;
    var r := b.parts;
    if l != [] && l[|l| - 1].Lit? && r != [] && r[0].Lit? {
      var init := l[..|l| - 1];
      var c1 := l[|l| - 1].content;
      var c2 := r[0].content;
      var rest := r[1..];
      assert l == init + [Lit(c1)];
      assert r == [Lit(c2)] + rest;
      ReversedAppend(init + [Lit(c1 + c2)], rest, params);
      ReversedAppend(init, [Lit(c1 + c2)], params);
      ReversedAppend(init, [Lit(c1)], params);
      ReversedAppend([Lit(c2)], rest, params);
      ReversedLit(c1 + c2, params);
      ReversedLit(c1, params);
      ReversedLit(c2, params);
      JoinedAssoc(Reversed(init, params), Ok(c1), Joined(Ok(c2), Reversed(rest, params)));
      JoinedAssoc(Ok(c1), Ok(c2), Reversed(rest, params));
      JoinedAssoc(Reversed(init, params), Ok(c1 + c2), Reversed(rest, params));
    } else {
      ReversedAppend(l, r, params);
    }
  }

  /** The empty matcher is a unit of `+`. */
  lemma AddEmpty(m: Matcher)
    ensures Add(Matcher([]), m) == m && Add(m, Matcher([])) == m
  {
    assert [] + m.parts == m.parts;
    assert m.parts + [] == m.parts;
  }
}
