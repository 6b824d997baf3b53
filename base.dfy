/** Shared vocabulary: optional values and results, byte strings, the
    `split`/`join` operations the Python code relies on, UTF-8 encoding of
    `str` values, and the exceptions that cross component boundaries. */
module Base {

  datatype Option<+T> = None | Some(value: T) {
    /** `value if value is not None else default` */
    function GetOr(default: T): T {
      match this
      case Some(v) => v
      case None => default
    }
  }

  datatype Result<+T, +E> = Ok(value: T) | Err(error: E)

  /** The exceptions that the modelled code raises or lets pass. `Disconnect`
      is the cooperative "peer is gone" signal of jackie/http/exceptions.py
      (not part of this model beyond its name). */
  datatype Exception =
    | Disconnect
    | ValueError(message: string)
    | KeyError(key: string)
    | NotImplementedError
    | AttributeError(attribute: string)
    | AppError(name: string)   // any other exception raised by code outside the model

  /** How a lazily consumed sequence of chunks ends: normally, by raising, or
      never (an `await` on a queue that nobody fills again). */
  datatype Termination = Complete | Failed(error: Exception) | Starved

  /** Everything one consumer gets out of a chunk iterator: the chunks, then how it ended. */
  datatype Feed = Feed(chunks: seq<Bytes>, end: Termination)

  // ---------------------------------------------------------------------
  // Bytes

  newtype byte = x: int | 0 <= x < 256
  type Bytes = seq<byte>

  predicate IsAscii(s: string) {
    forall i | 0 <= i < |s| :: s[i] < 128 as char
  }

  /** A Python `b'...'` literal written with ASCII characters. */
  function Ascii(s: string): (r: Bytes)
    requires IsAscii(s)
    ensures |r| == |s|
    ensures forall i | 0 <= i < |s| :: r[i] as int == s[i] as int
  {
    seq(|s|, i requires 0 <= i < |s| => s[i] as int as byte)
  }

  const NL: Bytes := [10]

  /** ASCII case folding of `bytes.lower()`. */
  function LowerByte(b: byte): (r: byte)
    ensures 65 <= b <= 90 ==> r == b + 32
    ensures !(65 <= b <= 90) ==> r == b
  {
    if 65 <= b <= 90 then b + 32 else b
  }

  function Lower(s: Bytes): (r: Bytes)
    ensures |r| == |s|
    ensures forall i | 0 <= i < |s| :: r[i] == LowerByte(s[i])
  {
    seq(|s|, i requires 0 <= i < |s| => LowerByte(s[i]))
  }

  // ---------------------------------------------------------------------
  // UTF-8, the default codec of `str.encode()`

  function EncodeChar(c: char): (r: Bytes)
    ensures 1 <= |r| <= 4
    ensures c as int < 128 ==> r == [c as int as byte]
    ensures c as int >= 128 ==> |r| >= 2
  {
    var n := c as int;
    if n < 0x80 then [n as byte]
    else if n < 0x800 then [(0xC0 + n / 64) as byte, (0x80 + n % 64) as byte]
    else if n < 0x1_0000 then
      [(0xE0 + n / 4096) as byte, (0x80 + (n / 64) % 64) as byte, (0x80 + n % 64) as byte]
    else
      [(0xF0 + n / 262144) as byte, (0x80 + (n / 4096) % 64) as byte,
       (0x80 + (n / 64) % 64) as byte, (0x80 + n % 64) as byte]
  }

  function Utf8(s: string): Bytes
  {
    if s == [] then [] else EncodeChar(s[0]) + Utf8(s[1..])
  }

  /** Encoding distributes over concatenation. */
  lemma {:induction false} Utf8Append(a: string, b: string)
    ensures Utf8(a + b) == Utf8(a) + Utf8(b)
  {
    if a == [] {
      assert a + b == b;
    } else {
      assert (a + b)[0] == a[0];
      assert (a + b)[1..] == a[1..] + b;
      Utf8Append(a[1..], b);
    }
  }

  /** On ASCII text UTF-8 is the identity, so `'...'.encode() == b'...'`. */
  lemma {:induction false} Utf8Ascii(s: string)
    requires IsAscii(s)
    ensures Utf8(s) == Ascii(s)
  {
    if s != [] {
      Utf8Ascii(s[1..]);
      assert Ascii(s) == [s[0] as int as byte] + Ascii(s[1..]);
    }
  }

  // ---------------------------------------------------------------------
  // Searching, splitting and joining (Python's `find`, `split`, `join`)

  predicate StartsWith<T(==)>(s: seq<T>, prefix: seq<T>) {
    |prefix| <= |s| && s[..|prefix|] == prefix
  }

  predicate OccursAt<T(==)>(s: seq<T>, sep: seq<T>, i: int) {
    0 <= i && i + |sep| <= |s| && s[i..i + |sep|] == sep
  }

  /** `sep not in s` */
  ghost predicate Free<T>(s: seq<T>, sep: seq<T>) {
    forall i :: !OccursAt(s, sep, i)
  }

  /** No proper suffix of `sep` is also a prefix of it, so two occurrences
      can never overlap (true of `\n`, `: ` and `; `). */
  predicate Unbordered<T(==)>(sep: seq<T>) {
    forall k | 0 < k < |sep| :: sep[k..] != sep[..|sep| - k]
  }

  lemma OccursShift<T>(s: seq<T>, sep: seq<T>, i: int)
    requires |s| > 0 && i >= 1
    ensures OccursAt(s, sep, i) == OccursAt(s[1..], sep, i - 1)
  {
    if i + |sep| <= |s| {
      assert s[1..][i - 1..i - 1 + |sep|] == s[i..i + |sep|];
    }
  }

  /** Leftmost occurrence of `sep` in `s`, as `bytes.find` returns it. */
  function IndexOf<T(==)>(s: seq<T>, sep: seq<T>): (r: Option<nat>)
    ensures r.Some? ==> OccursAt(s, sep, r.value)
    ensures r.Some? ==> forall j | 0 <= j < r.value :: !OccursAt(s, sep, j)
    ensures r.None? ==> Free(s, sep)
    decreases |s|
  {
    if |s| < |sep| then None
    else if s[..|sep|] == sep then Some(0)
    else
      var rest := IndexOf(s[1..], sep);
      assert forall j | j >= 1 :: OccursAt(s, sep, j) == OccursAt(s[1..], sep, j - 1) by {
        forall j | j >= 1 ensures OccursAt(s, sep, j) == OccursAt(s[1..], sep, j - 1) {
          OccursShift(s, sep, j);
        }
      }
      match rest
      case None => None
      case Some(k) => Some(k + 1)
  }

  /** `s.split(sep)`: always at least one part. */
  function Split<T(==)>(s: seq<T>, sep: seq<T>): (r: seq<seq<T>>)
    requires |sep| > 0
    ensures |r| >= 1
    decreases |s|
  {
    match IndexOf(s, sep)
    case None => [s]
    case Some(k) => [s[..k]] + Split(s[k + |sep|..], sep)
  }

  /** The text before the leftmost occurrence holds no occurrence. */
  lemma PrefixFree<T>(s: seq<T>, sep: seq<T>, k: nat)
    requires |sep| > 0 && k <= |s|
    requires forall j | 0 <= j < k :: !OccursAt(s, sep, j)
    ensures Free(s[..k], sep)
  {
    forall j ensures !OccursAt(s[..k], sep, j) {
      if 0 <= j && j + |sep| <= k {
        assert s[..k][j..j + |sep|] == s[j..j + |sep|];
        assert !OccursAt(s, sep, j);
      }
    }
  }

  /** `s.split(sep, 1)` unpacked into exactly two values, or `None` when the
      unpacking would fail because `sep` does not occur. */
  function SplitOnce<T(==)>(s: seq<T>, sep: seq<T>): (r: Option<(seq<T>, seq<T>)>)
    requires |sep| > 0
    ensures r.None? <==> Free(s, sep)
    ensures r.Some? ==> s == r.value.0 + sep + r.value.1 && Free(r.value.0, sep)
  {
    match IndexOf(s, sep)
    case None => None
    case Some(k) =>
      assert s == s[..k] + s[k..k + |sep|] + s[k + |sep|..];
      PrefixFree(s, sep, k);
      Some((s[..k], s[k + |sep|..]))
  }

  /** `sep.join(parts)` */
  function Join<T>(parts: seq<seq<T>>, sep: seq<T>): seq<T>
    decreases |parts|
  {
    if |parts| == 0 then []
    else if |parts| == 1 then parts[0]
    else parts[0] + sep + Join(parts[1..], sep)
  }

  /** `b''.join(parts)` */
  function Concat<T>(parts: seq<seq<T>>): seq<T>
    decreases |parts|
  {
    if parts == [] then [] else parts[0] + Concat(parts[1..])
  }

  lemma {:induction false} ConcatAppend<T>(a: seq<seq<T>>, b: seq<seq<T>>)
    ensures Concat(a + b) == Concat(a) + Concat(b)
  {
    if a == [] {
      assert a + b == b;
    } else {
      assert (a + b)[0] == a[0];
      assert (a + b)[1..] == a[1..] + b;
      ConcatAppend(a[1..], b);
    }
  }

  /** Joining splits back: `sep.join(s.split(sep)) == s`. */
  lemma {:induction false} JoinSplit<T>(s: seq<T>, sep: seq<T>)
    requires |sep| > 0
    ensures Join(Split(s, sep), sep) == s
    decreases |s|
  {
    var i := IndexOf(s, sep);
    if i.Some? {
      var k := i.value;
      var rest := s[k + |sep|..];
      JoinSplit(rest, sep);
      JoinFront(s[..k], Split(rest, sep), sep);
      Reassemble(s, k, |sep|);
    }
  }

  lemma Reassemble<T>(s: seq<T>, k: nat, n: nat)
    requires k + n <= |s|
    ensures s == s[..k] + s[k..k + n] + s[k + n..]
  {
  }

  lemma JoinFront<T>(a: seq<T>, rest: seq<seq<T>>, sep: seq<T>)
    requires |rest| >= 1
    ensures Join([a] + rest, sep) == a + sep + Join(rest, sep)
  {
    assert ([a] + rest)[1..] == rest;
  }

  lemma {:induction false} JoinAppend<T>(a: seq<seq<T>>, b: seq<seq<T>>, sep: seq<T>)
    requires |a| >= 1 && |b| >= 1
    ensures Join(a + b, sep) == Join(a, sep) + sep + Join(b, sep)
    decreases |a|
  {
    if |a| == 1 {
      assert (a + b)[1..] == b;
    } else {
      assert (a + b)[1..] == a[1..] + b;
      JoinAppend(a[1..], b, sep);
    }
  }

  /** A separator whose first element never occurs cannot occur. */
  lemma FreeOfHead<T>(s: seq<T>, sep: seq<T>)
    requires |sep| > 0 && sep[0] !in s
    ensures Free(s, sep)
  {
    forall i ensures !OccursAt(s, sep, i) {
      if 0 <= i && i + |sep| <= |s| {
        assert s[i..i + |sep|][0] == s[i];
      }
    }
  }

  /** A literal without the separator's first element can be put in front. */
  lemma FreePrefixed<T>(lit: seq<T>, s: seq<T>, sep: seq<T>)
    requires |sep| > 0 && sep[0] !in lit && Free(s, sep)
    ensures Free(lit + s, sep)
  {
    forall i ensures !OccursAt(lit + s, sep, i) {
      if 0 <= i < |lit| && i + |sep| <= |lit + s| {
        assert (lit + s)[i..i + |sep|][0] == lit[i];
      } else if |lit| <= i && i + |sep| <= |lit + s| {
        assert (lit + s)[i..i + |sep|] == s[i - |lit|..i - |lit| + |sep|];
        assert !OccursAt(s, sep, i - |lit|);
      }
    }
  }

  /** With `sep` absent from `p` and unable to overlap itself, the leftmost
      occurrence in `p + sep + rest` is the one right after `p`. */
  lemma FirstOccurrence<T>(p: seq<T>, sep: seq<T>, rest: seq<T>)
    requires |sep| > 0 && Unbordered(sep) && Free(p, sep)
    ensures IndexOf(p + sep + rest, sep) == Some(|p|)
  {
    var s := p + sep + rest;
    assert s[|p|..|p| + |sep|] == sep;
    assert OccursAt(s, sep, |p|);
    forall j | 0 <= j < |p| ensures !OccursAt(s, sep, j) {
      if j + |sep| <= |p| {
        assert s[j..j + |sep|] == p[j..j + |sep|];
        assert !OccursAt(p, sep, j);
      } else {
        var k := |p| - j;
        assert s[j..j + |sep|] == p[j..] + sep[..|sep| - k];
        assert (p[j..] + sep[..|sep| - k])[k..] == sep[..|sep| - k];
        assert sep[k..] != sep[..|sep| - k];
      }
    }
  }

  lemma SplitFree<T>(p: seq<T>, sep: seq<T>)
    requires |sep| > 0 && Free(p, sep)
    ensures Split(p, sep) == [p]
  {
  }

  lemma SplitCons<T>(p: seq<T>, sep: seq<T>, rest: seq<T>)
    requires |sep| > 0 && Unbordered(sep) && Free(p, sep)
    ensures Split(p + sep + rest, sep) == [p] + Split(rest, sep)
  {
    FirstOccurrence(p, sep, rest);
    var s := p + sep + rest;
    assert s[..|p|] == p;
    assert s[|p| + |sep|..] == rest;
  }

  /** Splitting undoes joining when no part contains the separator:
      `sep.join(parts).split(sep) == parts`. */
  lemma {:induction false} SplitJoin<T>(parts: seq<seq<T>>, sep: seq<T>)
    requires |sep| > 0 && Unbordered(sep) && |parts| >= 1
    requires forall i | 0 <= i < |parts| :: Free(parts[i], sep)
    ensures Split(Join(parts, sep), sep) == parts
    decreases |parts|
  {
    if |parts| == 1 {
      SplitFree(parts[0], sep);
    } else {
      SplitJoin(parts[1..], sep);
      SplitCons(parts[0], sep, Join(parts[1..], sep));
    }
  }

  /** Every part produced by a split is free of the separator. */
  lemma {:induction false} SplitPartsFree<T>(s: seq<T>, sep: seq<T>)
    requires |sep| > 0
    ensures forall i | 0 <= i < |Split(s, sep)| :: Free(Split(s, sep)[i], sep)
    decreases |s|
  {
    var i := IndexOf(s, sep);
    if i.Some? {
      var k := i.value;
      var rest := s[k + |sep|..];
      SplitPartsFree(rest, sep);
      PrefixFree(s, sep, k);
      assert Split(s, sep) == [s[..k]] + Split(rest, sep);
    }
  }
}
