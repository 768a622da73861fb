/**
 The path language of routing rules: `pod.labels["app.kubernetes.io/name"]`.

 The language is given by a printer. A path is a list of segments, each a bare key or a
 bracketed one, and `Spells(segments, path)` says that printing the segments gives the path.
 The parser is proved to accept exactly the printed paths and to return the keys printed.
 Every printing function takes the text that follows what it prints.
 */
module PropertyPath {
  import opened Base

  const DOT: byte := 46
  const OPEN: byte := 91
  const CLOSE: byte := 93
  const QUOTE: byte := 34
  const BACKSLASH: byte := 92

  // ---------------------------------------------------------------- the printer

  datatype Segment = Bare(key: Bytes) | Bracketed(key: Bytes)

  predicate BareKey(key: Bytes) {
    DOT !in key && OPEN !in key
  }

  predicate WellFormedSegment(s: Segment, first: bool) {
    |s.key| > 0 && (s.Bare? ==> BareKey(s.key)) && (first ==> s.Bare?)
  }

  predicate WellFormed(segments: seq<Segment>) {
    |segments| > 0 && forall i :: 0 <= i < |segments| ==> WellFormedSegment(segments[i], i == 0)
  }

  function EscapeByte(b: byte, rest: Bytes): Bytes {
    if b == QUOTE || b == BACKSLASH then [BACKSLASH, b] + rest else [b] + rest
  }

  function Escape(key: Bytes, rest: Bytes): Bytes {
    if |key| == 0 then rest else EscapeByte(key[0], Escape(key[1..], rest))
  }

  function PrintSegment(s: Segment, first: bool, rest: Bytes): Bytes {
    match s
    case Bare(key) => if first then key + rest else [DOT] + (key + rest)
    case Bracketed(key) => [OPEN, QUOTE] + Escape(key, [QUOTE, CLOSE] + rest)
  }

  /** The text of the segments from index k on, followed by rest. */
  function PrintFrom(segments: seq<Segment>, k: nat, rest: Bytes): Bytes
    requires k <= |segments|
    decreases |segments| - k
  {
    if k == |segments| then rest
    else PrintSegment(segments[k], k == 0, PrintFrom(segments, k + 1, rest))
  }

  function Print(segments: seq<Segment>): Bytes {
    PrintFrom(segments, 0, [])
  }

  function Keys(segments: seq<Segment>): (keys: seq<Bytes>)
    ensures |keys| == |segments|
  {
    seq(|segments|, i requires 0 <= i < |segments| => segments[i].key)
  }

  ghost predicate Spells(segments: seq<Segment>, path: Bytes) {
    WellFormed(segments) && Print(segments) == path
  }

  ghost predicate IsPath(path: Bytes) {
    exists segments :: Spells(segments, path)
  }

  /** The keys a path names, by inverting the printer. */
  ghost function PathKeys(path: Bytes): Option<seq<Bytes>> {
    if IsPath(path) then
      var segments :| Spells(segments, path); Some(Keys(segments))
    else None
  }

  // ---------------------------------------------------------------- printed paths are unambiguous

  /** A segment's text is followed by nothing or by the start of another segment. */
  predicate Boundary(rest: Bytes) {
    |rest| == 0 || rest[0] == DOT || rest[0] == OPEN
  }

  lemma EscapeByteUnique(p: byte, q: byte, x: Bytes, y: Bytes)
    requires EscapeByte(p, x) == EscapeByte(q, y)
    ensures p == q && x == y
  {
    var s, t := EscapeByte(p, x), EscapeByte(q, y);
    assert s[0] == t[0] && |s| == |t|;
    if s[0] == BACKSLASH {
      assert s[1] == p && t[1] == q && s[2..] == x && t[2..] == y;
    } else {
      assert s[0] == p && t[0] == q && s[1..] == x && t[1..] == y;
    }
  }

  /** Text that starts with an escaped key can only be that of a key it is a prefix of. */
  lemma {:induction false} EscapePrefix(a: Bytes, b: Bytes, x: Bytes, y: Bytes)
    requires |y| > 0 && y[0] == QUOTE
    requires Escape(a, x) == Escape(b, y)
    ensures |a| <= |b| && a == b[..|a|] && x == Escape(b[|a|..], y)
    decreases |a|
  {
    if |a| == 0 {
      assert b[0..] == b;
    } else {
      assert |b| > 0 by {
        assert EscapeByte(a[0], Escape(a[1..], x))[0] != QUOTE;
      }
      EscapeByteUnique(a[0], b[0], Escape(a[1..], x), Escape(b[1..], y));
      EscapePrefix(a[1..], b[1..], x, y);
      assert a == [a[0]] + a[1..] && b[..|a|] == [b[0]] + b[1..][..|a| - 1];
    }
  }

  lemma EscapeHead(key: Bytes, rest: Bytes)
    requires |key| > 0
    ensures |Escape(key, rest)| > 0 && Escape(key, rest)[0] != QUOTE
  {
  }

  lemma EscapeUnique(a: Bytes, b: Bytes, x: Bytes, y: Bytes)
    requires |x| > 0 && x[0] == QUOTE && |y| > 0 && y[0] == QUOTE
    requires Escape(a, x) == Escape(b, y)
    ensures a == b && x == y
  {
    EscapePrefix(a, b, x, y);
    if |b| > |a| {
      EscapeHead(b[|a|..], y);
    }
  }

  lemma BareUnique(a: Bytes, b: Bytes, x: Bytes, y: Bytes)
    requires a + x == b + y
    requires BareKey(a) && BareKey(b) && Boundary(x) && Boundary(y)
    ensures a == b && x == y
  {
    var s := a + x;
    assert s == b + y;
    assert |a| < |s| ==> s[|a|] == x[0];
    assert |b| < |s| ==> s[|b|] == y[0];
    assert forall i :: 0 <= i < |a| ==> s[i] == a[i];
    assert forall i :: 0 <= i < |b| ==> s[i] == b[i];
    assert |a| == |b|;
    assert a == s[..|a|] && b == s[..|b|] && x == s[|a|..] && y == s[|b|..];
  }

  /** The first byte tells the kinds of segment apart. */
  lemma SegmentShape(s: Segment, first: bool, rest: Bytes)
    requires WellFormedSegment(s, first)
    ensures var text := PrintSegment(s, first, rest);
            && |text| > 0
            && (text[0] == OPEN <==> s.Bracketed?)
            && (s.Bare? && !first ==> text[0] == DOT && text[1..] == s.key + rest)
            && (s.Bracketed? ==> |text| >= 2 && text[1] == QUOTE && text[2..] == Escape(s.key, [QUOTE, CLOSE] + rest))
  {
  }

  lemma SegmentUnique(s: Segment, t: Segment, first: bool, x: Bytes, y: Bytes)
    requires WellFormedSegment(s, first) && WellFormedSegment(t, first) && Boundary(x) && Boundary(y)
    requires PrintSegment(s, first, x) == PrintSegment(t, first, y)
    ensures s == t && x == y
  {
    SegmentShape(s, first, x);
    SegmentShape(t, first, y);
    if s.Bare? {
      BareUnique(s.key, t.key, x, y);
    } else {
      EscapeUnique(s.key, t.key, [QUOTE, CLOSE] + x, [QUOTE, CLOSE] + y);
      assert x == ([QUOTE, CLOSE] + x)[2..] && y == ([QUOTE, CLOSE] + y)[2..];
    }
  }

  lemma PrintFromBoundary(segments: seq<Segment>, k: nat, rest: Bytes)
    requires WellFormed(segments) && 0 < k <= |segments| && Boundary(rest)
    ensures Boundary(PrintFrom(segments, k, rest))
  {
    if k < |segments| {
      SegmentShape(segments[k], false, PrintFrom(segments, k + 1, rest));
    }
  }

  lemma PrintPrefixStep(a: seq<Segment>, b: seq<Segment>, k: nat, rest: Bytes)
    requires WellFormed(a) && WellFormed(b) && Boundary(rest)
    requires k < |a| && k <= |b|
    requires PrintFrom(a, k, rest) == PrintFrom(b, k, [])
    ensures k < |b| && a[k] == b[k] && PrintFrom(a, k + 1, rest) == PrintFrom(b, k + 1, [])
  {
    PrintFromBoundary(a, k + 1, rest);
    SegmentShape(a[k], k == 0, PrintFrom(a, k + 1, rest));
    if k < |b| {
      PrintFromBoundary(b, k + 1, []);
      SegmentUnique(a[k], b[k], k == 0, PrintFrom(a, k + 1, rest), PrintFrom(b, k + 1, []));
    }
  }

  /** Text that starts with the segments of a can only be printed by extending them. */
  lemma {:induction false} PrintPrefix(a: seq<Segment>, b: seq<Segment>, n: nat, rest: Bytes)
    requires WellFormed(a) && WellFormed(b) && Boundary(rest)
    requires PrintFrom(a, 0, rest) == Print(b)
    requires n <= |a|
    ensures n <= |b| && PrintFrom(a, n, rest) == PrintFrom(b, n, [])
  {
    if n == 0 {
    } else {
      PrintPrefix(a, b, n - 1, rest);
      PrintPrefixStep(a, b, n - 1, rest);
    }
  }

  /** Every accepted path is the print of its keys under exactly one choice of brackets. */
  lemma SpellingIsUnique(a: seq<Segment>, b: seq<Segment>, path: Bytes)
    requires Spells(a, path) && Spells(b, path)
    ensures a == b
  {
    PrintPrefix(a, b, |a|, []);
    PrintPrefix(b, a, |b|, []);
    forall i | 0 <= i < |a| ensures a[i] == b[i] {
      PrintPrefix(a, b, i, []);
      PrintPrefixStep(a, b, i, []);
    }
  }

  /** Parsing what was printed gives the keys back, however the keys were bracketed. */
  lemma PathKeysOfPrint(segments: seq<Segment>)
    requires WellFormed(segments)
    ensures PathKeys(Print(segments)) == Some(Keys(segments))
  {
    var path := Print(segments);
    assert Spells(segments, path);
    var other :| Spells(other, path) && PathKeys(path) == Some(Keys(other));
    SpellingIsUnique(segments, other, path);
  }

  // ---------------------------------------------------------------- reading a bracketed key

  /** A well-formed `["..."]` holding key occupies path[i..end]. */
  ghost predicate BracketAt(path: Bytes, i: nat, key: Bytes, end: nat) {
    i < end <= |path| && |key| > 0 && path[i..] == PrintSegment(Bracketed(key), false, path[end..])
  }

  ghost predicate NoBracketAt(path: Bytes, i: nat) {
    forall key, end: nat :: !BracketAt(path, i, key, end)
  }

  lemma BracketBody(path: Bytes, i: nat, key: Bytes, end: nat)
    requires BracketAt(path, i, key, end)
    ensures i + 2 <= |path| && path[i] == OPEN && path[i + 1] == QUOTE
    ensures path[i + 2..] == Escape(key, [QUOTE, CLOSE] + path[end..])
  {
    SegmentShape(Bracketed(key), false, path[end..]);
    assert path[i..][1] == path[i + 1];
    assert path[i..][2..] == path[i + 2..];
  }

  lemma BracketUnique(path: Bytes, i: nat, k: Bytes, end: nat, k': Bytes, end': nat)
    requires BracketAt(path, i, k, end) && BracketAt(path, i, k', end')
    ensures k == k' && end == end'
  {
    BracketBody(path, i, k, end);
    BracketBody(path, i, k', end');
    EscapeUnique(k, k', [QUOTE, CLOSE] + path[end..], [QUOTE, CLOSE] + path[end'..]);
    assert |path[end..]| == |path[end'..]|;
  }

  lemma NoQuote(path: Bytes, i: nat)
    requires i + 1 >= |path| || path[i + 1] != QUOTE
    ensures NoBracketAt(path, i)
  {
    forall key, end: nat | BracketAt(path, i, key, end) ensures false {
      BracketBody(path, i, key, end);
    }
  }

  /** What cannot stand after the escapes of key when a bracket is well formed. */
  predicate Malformed(rest: Bytes, key: Bytes) {
    || |rest| < 2
    || (rest[0] == BACKSLASH && rest[1] != QUOTE && rest[1] != BACKSLASH)
    || (rest[0] == QUOTE && (rest[1] != CLOSE || |key| == 0))
  }

  lemma NotBracketed(path: Bytes, i: nat, key: Bytes, rest: Bytes)
    requires i + 2 <= |path| && path[i + 2..] == Escape(key, rest)
    requires Malformed(rest, key)
    ensures NoBracketAt(path, i)
  {
    forall k, end: nat | BracketAt(path, i, k, end) ensures false {
      var y := [QUOTE, CLOSE] + path[end..];
      BracketBody(path, i, k, end);
      EscapePrefix(key, k, rest, y);
      assert rest == Escape(k[|key|..], y);
      EscapeIsNotMalformed(k, k[|key|..], y, key);
    }
  }

  lemma EscapeIsNotMalformed(k: Bytes, tail: Bytes, y: Bytes, key: Bytes)
    requires |k| > 0 && |tail| + |key| == |k|
    requires |y| >= 2 && y[0] == QUOTE && y[1] == CLOSE
    ensures !Malformed(Escape(tail, y), key)
  {
    if |tail| > 0 {
      EscapeGrows(tail[1..], y);
    }
  }

  lemma {:induction false} EscapeGrows(key: Bytes, rest: Bytes)
    ensures |Escape(key, rest)| >= |key| + |rest|
  {
    if |key| == 0 {
    } else {
      EscapeGrows(key[1..], rest);
    }
  }

  lemma {:induction false} EscapeSnoc(key: Bytes, b: byte, rest: Bytes)
    ensures Escape(key + [b], rest) == Escape(key, EscapeByte(b, rest))
  {
    if |key| == 0 {
      assert key + [b] == [b] && [b][1..] == [];
    } else {
      EscapeSnoc(key[1..], b, rest);
      assert (key + [b])[1..] == key[1..] + [b];
    }
  }

  lemma ReadEscape(path: Bytes, start: nat, key: Bytes, j: nat)
    requires start <= j && j + 2 <= |path| && path[start..] == Escape(key, path[j..])
    requires path[j] == BACKSLASH && (path[j + 1] == QUOTE || path[j + 1] == BACKSLASH)
    ensures path[start..] == Escape(key + [path[j + 1]], path[j + 2..])
  {
    assert path[j..] == EscapeByte(path[j + 1], path[j + 2..]);
    EscapeSnoc(key, path[j + 1], path[j + 2..]);
  }

  lemma ReadPlain(path: Bytes, start: nat, key: Bytes, j: nat)
    requires start <= j < |path| && path[start..] == Escape(key, path[j..])
    requires path[j] != BACKSLASH && path[j] != QUOTE
    ensures path[start..] == Escape(key + [path[j]], path[j + 1..])
  {
    assert path[j..] == EscapeByte(path[j], path[j + 1..]);
    EscapeSnoc(key, path[j], path[j + 1..]);
  }

  lemma ReadClose(path: Bytes, i: nat, key: Bytes, j: nat)
    requires i + 2 <= j && j + 2 <= |path| && path[i + 2..] == Escape(key, path[j..])
    requires path[i] == OPEN && path[i + 1] == QUOTE && path[j] == QUOTE && path[j + 1] == CLOSE
    requires |key| > 0
    ensures BracketAt(path, i, key, j + 2)
  {
    var rest := path[j + 2..];
    TwoBytes(path, j);
    TwoBytes(path, i);
    assert PrintSegment(Bracketed(key), false, rest) == [OPEN, QUOTE] + Escape(key, [QUOTE, CLOSE] + rest);
  }

  lemma TwoBytes(path: Bytes, i: nat)
    requires i + 2 <= |path|
    ensures path[i..] == [path[i], path[i + 1]] + path[i + 2..]
  {
  }

  /** Reads the bracketed key at path[i]; refuses exactly when no well-formed one stands there. */
  method ParseBracketedKey(path: Bytes, i: nat) returns (r: Option<(Bytes, nat)>)
    requires i < |path| && path[i] == OPEN
    ensures r.Some? ==> BracketAt(path, i, r.value.0, r.value.1)
    ensures r.None? ==> NoBracketAt(path, i)
  {
    var j := i + 1;
    if j == |path| || path[j] != QUOTE {
      NoQuote(path, i);
      return None;
    }
    j := j + 1;

    var key: Bytes := [];
    while j < |path|
      invariant i + 2 <= j <= |path|
      invariant path[i + 2..] == Escape(key, path[j..])
    {
      if path[j] == BACKSLASH {
        if j + 1 == |path| || (path[j + 1] != QUOTE && path[j + 1] != BACKSLASH) {
          NotBracketed(path, i, key, path[j..]);
          return None;
        }
        ReadEscape(path, i + 2, key, j);
        key := key + [path[j + 1]];
        j := j + 2;
      } else if path[j] == QUOTE {
        if j + 1 == |path| || path[j + 1] != CLOSE || key == [] {
          NotBracketed(path, i, key, path[j..]);
          return None;
        }
        ReadClose(path, i, key, j);
        return Some((key, j + 2));
      } else {
        ReadPlain(path, i + 2, key, j);
        key := key + [path[j]];
        j := j + 1;
      }
    }
    NotBracketed(path, i, key, path[j..]);
    return None;
  }

  // ---------------------------------------------------------------- reading a path

  /** path is the text of the segments read so far followed by path[mark..]. */
  ghost predicate ReadTo(segments: seq<Segment>, path: Bytes, mark: nat) {
    && mark <= |path|
    && path == PrintFrom(segments, 0, path[mark..])
    && if |segments| == 0 then mark == 0 else WellFormed(segments)
  }

  lemma {:induction false} PrintSnoc(segments: seq<Segment>, s: Segment, k: nat, rest: Bytes)
    requires k <= |segments|
    ensures PrintFrom(segments + [s], k, rest) == PrintFrom(segments, k, PrintSegment(s, |segments| == 0, rest))
    decreases |segments| - k
  {
    var more := segments + [s];
    if k == |segments| {
      assert more[k] == s && PrintFrom(more, k + 1, rest) == rest;
    } else {
      assert more[k] == segments[k];
      PrintSnoc(segments, s, k + 1, rest);
    }
  }

  lemma Extend(segments: seq<Segment>, s: Segment, path: Bytes, mark: nat, i: nat)
    requires ReadTo(segments, path, mark) && i <= |path|
    requires path[mark..] == PrintSegment(s, |segments| == 0, path[i..])
    requires WellFormedSegment(s, |segments| == 0)
    ensures ReadTo(segments + [s], path, i)
    ensures Keys(segments + [s]) == Keys(segments) + [s.key]
  {
    PrintSnoc(segments, s, 0, path[i..]);
  }

  lemma ExtendBare(segments: seq<Segment>, path: Bytes, mark: nat, start: nat, i: nat)
    requires ReadTo(segments, path, mark) && start < i <= |path|
    requires if |segments| == 0 then start == 0 else start == mark + 1 && path[mark] == DOT
    requires forall n :: start <= n < i ==> path[n] != DOT && path[n] != OPEN
    ensures ReadTo(segments + [Bare(path[start..i])], path, i)
    ensures Keys(segments + [Bare(path[start..i])]) == Keys(segments) + [path[start..i]]
  {
    assert path[start..] == path[start..i] + path[i..];
    assert |segments| > 0 ==> path[mark..] == [DOT] + path[start..];
    Extend(segments, Bare(path[start..i]), path, mark, i);
  }

  /** What a complete spelling must have next, once the segments read so far are printed. */
  lemma NextSegment(segments: seq<Segment>, full: seq<Segment>, path: Bytes, mark: nat)
    requires Spells(full, path)
    requires ReadTo(segments, path, mark) && mark < |path| && (|segments| > 0 ==> Boundary(path[mark..]))
    ensures |segments| < |full|
    ensures var n := |segments|; var rest := PrintFrom(full, n + 1, []);
            && WellFormedSegment(full[n], n == 0)
            && Boundary(rest)
            && path[mark..] == PrintSegment(full[n], n == 0, rest)
  {
    var n := |segments|;
    if |segments| == 0 {
      assert path[0..] == path;
    } else {
      PrintPrefix(segments, full, n, path[mark..]);
    }
    PrintFromBoundary(full, n + 1, []);
  }

  /** No well-formed segment stands at path[mark..]. */
  ghost predicate DeadEnd(path: Bytes, mark: nat, first: bool)
    requires mark < |path|
  {
    if first || path[mark] == DOT then
      var at := if first then mark else mark + 1;
      at == |path| || path[at] == DOT || path[at] == OPEN
    else
      && path[mark] == OPEN
      && forall key, end: nat :: BracketAt(path, mark, key, end) ==> end < |path| && !Boundary(path[end..])
  }

  lemma SegmentIsNoDeadEnd(path: Bytes, mark: nat, s: Segment, first: bool, rest: Bytes)
    requires mark < |path| && path[mark..] == PrintSegment(s, first, rest)
    requires WellFormedSegment(s, first) && Boundary(rest)
    ensures !DeadEnd(path, mark, first)
  {
    SegmentShape(s, first, rest);
    if s.Bare? {
      assert !first ==> path[mark + 1..] == path[mark..][1..];
      var at := if first then mark else mark + 1;
      assert path[at..] == s.key + rest;
      assert path[at] == path[at..][0] == s.key[0];
    } else {
      EscapeGrows(s.key, [QUOTE, CLOSE] + rest);
      RestIsSuffix(path, mark, s.key, rest);
    }
  }

  lemma {:induction false} EscapeSuffix(key: Bytes, rest: Bytes)
    ensures |Escape(key, rest)| >= |rest| && Escape(key, rest)[|Escape(key, rest)| - |rest|..] == rest
  {
    if |key| == 0 {
    } else {
      EscapeSuffix(key[1..], rest);
      var inner := Escape(key[1..], rest);
      var n := |Escape(key, rest)| - |inner|;
      assert Escape(key, rest)[n..] == inner;
    }
  }

  lemma RestIsSuffix(path: Bytes, mark: nat, key: Bytes, rest: Bytes)
    requires mark < |path| && |key| > 0 && path[mark..] == PrintSegment(Bracketed(key), false, rest)
    ensures |rest| <= |path| - mark && path[|path| - |rest|..] == rest
    ensures BracketAt(path, mark, key, |path| - |rest|)
  {
    EscapeSuffix(key, [QUOTE, CLOSE] + rest);
    var inner := Escape(key, [QUOTE, CLOSE] + rest);
    assert path[mark..][2..] == inner;
    var end := |path| - |rest|;
    assert path[end..] == inner[|inner| - |rest|..];
    assert inner[|inner| - |rest| - 2..][2..] == inner[|inner| - |rest|..];
  }

  /** Text read so far that leads to a dead end has no spelling at all. */
  lemma Refuse(segments: seq<Segment>, path: Bytes, mark: nat)
    requires ReadTo(segments, path, mark) && mark < |path| && (|segments| > 0 ==> Boundary(path[mark..]))
    requires DeadEnd(path, mark, |segments| == 0)
    ensures PathKeys(path) == None
  {
    forall full: seq<Segment> | Spells(full, path) ensures false {
      NextSegment(segments, full, path, mark);
      var n := |segments|;
      SegmentIsNoDeadEnd(path, mark, full[n], n == 0, PrintFrom(full, n + 1, []));
    }
  }

  /** A bracket may only be followed by another segment. */
  lemma RefuseUnexpected(segments: seq<Segment>, path: Bytes, mark: nat, key: Bytes, end: nat)
    requires |segments| > 0 && ReadTo(segments, path, mark)
    requires mark < |path| && path[mark] == OPEN
    requires BracketAt(path, mark, key, end) && end < |path| && !Boundary(path[end..])
    ensures PathKeys(path) == None
  {
    forall key', end': nat | BracketAt(path, mark, key', end') ensures end' == end {
      BracketUnique(path, mark, key, end, key', end');
    }
    Refuse(segments, path, mark);
  }

  /** Splits a path into the keys it names; refuses exactly the texts that spell no path. */
  method ParsePropertyPath(path: Bytes) returns (r: Option<seq<Bytes>>)
    ensures r == PathKeys(path)
  {
    assert path[0..] == path;
    if path == [] {
      forall full: seq<Segment> | WellFormed(full) ensures Print(full) != path {
        SegmentShape(full[0], true, PrintFrom(full, 1, []));
      }
      return None;
    }
    if path[0] == OPEN {
      Refuse([], path, 0);
      return None;
    }

    var keys: seq<Bytes> := [];
    var afterDot := false;
    var i := 0;
    ghost var segments: seq<Segment> := [];
    while i < |path|
      invariant i <= |path| && keys == Keys(segments)
      invariant afterDot ==> 0 < i < |path| && path[i - 1] == DOT && |segments| > 0
      invariant !afterDot && |segments| > 0 && i < |path| ==> path[i] == OPEN
      invariant ReadTo(segments, path, if afterDot then i - 1 else i)
    {
      ghost var mark, before := if afterDot then i - 1 else i, segments;
      var key: Bytes;
      if path[i] == OPEN {
        if afterDot {
          Refuse(segments, path, mark);
          return None;
        }
        var bracket := ParseBracketedKey(path, i);
        if bracket.None? {
          Refuse(segments, path, mark);
          return None;
        }
        key, i := bracket.value.0, bracket.value.1;
        Extend(segments, Bracketed(key), path, mark, i);
        segments := segments + [Bracketed(key)];
      } else {
        var start := i;
        while i < |path| && path[i] != DOT && path[i] != OPEN
          invariant start <= i <= |path|
          invariant forall n :: start <= n < i ==> path[n] != DOT && path[n] != OPEN
        {
          i := i + 1;
        }
        if i == start {
          Refuse(segments, path, mark);
          return None;
        }
        key := path[start..i];
        ExtendBare(segments, path, mark, start, i);
        segments := segments + [Bare(key)];
      }
      keys := keys + [key];
      afterDot := false;

      if i == |path| {
      } else if path[i] == DOT {
        i := i + 1;
        if i == |path| {
          Refuse(segments, path, i - 1);
          return None;
        }
        afterDot := true;
      } else if path[i] == OPEN {
      } else {
        RefuseUnexpected(before, path, mark, key, i);
        return None;
      }
    }
    assert path[i..] == [];
    PathKeysOfPrint(segments);
    r := Some(keys);
  }

  // ---------------------------------------------------------------- attribute names

  /** The attribute a configured spelling names: brackets are punctuation over a flat dotted name. */
  ghost function AttributeName(configured: Bytes): Option<Bytes> {
    if OPEN !in configured then Some(configured)
    else
      match PathKeys(configured)
      case None => None
      case Some(keys) => Some(Join(keys, DOT))
  }

  method ResolveAttributeName(configured: Bytes) returns (r: Option<Bytes>)
    ensures r == AttributeName(configured)
  {
    if OPEN !in configured {
      return Some(configured);
    }
    var segments := ParsePropertyPath(configured);
    if segments.None? {
      return None;
    }
    return Some(Join(segments.value, DOT));
  }

  /** The keys from index k on as a join writes them, with the dot before each but the first. */
  function DottedFrom(segments: seq<Segment>, k: nat): Bytes
    requires k <= |segments|
    decreases |segments| - k
  {
    if k == |segments| then []
    else if k == 0 then segments[k].key + DottedFrom(segments, k + 1)
    else [DOT] + (segments[k].key + DottedFrom(segments, k + 1))
  }

  lemma {:induction false} JoinIsDotted(segments: seq<Segment>, k: nat)
    requires k < |segments|
    ensures DottedFrom(segments, k) == (if k == 0 then [] else [DOT]) + Join(Keys(segments)[k..], DOT)
    decreases |segments| - k
  {
    var keys := Keys(segments);
    if k + 1 < |segments| {
      JoinIsDotted(segments, k + 1);
      assert keys[k..][1..] == keys[k + 1..];
      assert Join(keys[k..], DOT) == segments[k].key + [DOT] + Join(keys[k + 1..], DOT);
    } else {
      assert keys[k..] == [segments[k].key];
    }
  }

  predicate AllBareFrom(segments: seq<Segment>, k: nat)
    requires k <= |segments|
    decreases |segments| - k
  {
    k == |segments| || (segments[k].Bare? && AllBareFrom(segments, k + 1))
  }

  /** A print is the dotted join exactly when nothing is bracketed; otherwise it is longer. */
  lemma {:induction false} DottedOrLonger(segments: seq<Segment>, k: nat)
    requires WellFormed(segments) && k <= |segments|
    ensures var dotted, printed := DottedFrom(segments, k), PrintFrom(segments, k, []);
            if AllBareFrom(segments, k) then printed == dotted && OPEN !in dotted
            else |dotted| < |printed| && OPEN in printed
    decreases |segments| - k
  {
    if k == |segments| {
    } else {
      DottedOrLonger(segments, k + 1);
      var rest := PrintFrom(segments, k + 1, []);
      SegmentShape(segments[k], k == 0, rest);
      if segments[k].Bare? {
        DottedOrLongerBare(segments[k].key, k == 0, DottedFrom(segments, k + 1), rest);
      } else {
        EscapeGrows(segments[k].key, [QUOTE, CLOSE] + rest);
      }
    }
  }

  lemma DottedOrLongerBare(key: Bytes, first: bool, dotted: Bytes, printed: Bytes)
    requires BareKey(key)
    ensures OPEN in PrintSegment(Bare(key), first, printed) <==> OPEN in printed
    ensures |PrintSegment(Bare(key), first, printed)| == (if first then 0 else 1) + |key| + |printed|
  {
    assert OPEN in key + printed <==> OPEN in printed;
    assert OPEN in [DOT] + (key + printed) <==> OPEN in key + printed;
  }

  /** However the keys are bracketed, a spelling names the keys joined by dots. */
  lemma SpellingsAgree(segments: seq<Segment>)
    requires WellFormed(segments)
    ensures AttributeName(Print(segments)) == Some(Join(Keys(segments), DOT))
  {
    DottedOrLonger(segments, 0);
    JoinIsDotted(segments, 0);
    assert Keys(segments)[0..] == Keys(segments) && [] + Join(Keys(segments), DOT) == Join(Keys(segments), DOT);
    PathKeysOfPrint(segments);
  }

  /** Resolution leaves a name alone exactly when there is no bracket in it. */
  lemma ResolvedNameIsStable(configured: Bytes)
    ensures AttributeName(configured) == Some(configured) <==> OPEN !in configured
  {
    if OPEN in configured && IsPath(configured) {
      var segments :| Spells(segments, configured);
      PathKeysOfPrint(segments);
      DottedOrLonger(segments, 0);
      JoinIsDotted(segments, 0);
      assert Keys(segments)[0..] == Keys(segments);
    }
  }
}
