/**
 Backtick expressions inside configuration strings.

 A string is lexed into literal bytes and expressions, followed by what is wrong with its end,
 if anything. Its meaning is given by the pieces; the scanner, which evaluates as it goes and
 never builds them, is proved to compute that meaning on every string.
 */
module Backticks {
  import opened Base
  import opened Values

  const TICK: byte := 96
  const SLASH: byte := 92

  /** What expr.Eval reports; NilFetch is its "cannot fetch ... from <nil>" error. */
  datatype EvalResult = Result(value: Value) | NilFetch | EvalError

  /** The expression language and the %v format, as functions. */
  datatype Library = Library(eval: (Bytes, Properties) -> EvalResult, render: Value -> Bytes)

  datatype Failure = DanglingEscape | EmptyExpression | EvalFailed | Unbalanced

  /** Expanded(Nil) is the result of an expression that reached through a missing field. */
  datatype Outcome = Expanded(value: Value) | Failed(reason: Failure)

  // ---------------------------------------------------------------- blank expressions

  /** The length of the white-space rune that UTF-8 text t starts with, or zero. */
  function SpaceLength(t: Bytes): (n: nat)
    ensures n <= |t|
  {
    if |t| >= 1 && (9 <= t[0] <= 13 || t[0] == 32) then 1
    else if |t| >= 2 && t[0] == 0xC2 && (t[1] == 0x85 || t[1] == 0xA0) then 2
    else if |t| >= 3 && t[0] == 0xE1 && t[1] == 0x9A && t[2] == 0x80 then 3
    else if |t| >= 3 && t[0] == 0xE2 && t[1] == 0x80
            && (0x80 <= t[2] <= 0x8A || t[2] == 0xA8 || t[2] == 0xA9 || t[2] == 0xAF) then 3
    else if |t| >= 3 && t[0] == 0xE2 && t[1] == 0x81 && t[2] == 0x9F then 3
    else if |t| >= 3 && t[0] == 0xE3 && t[1] == 0x80 && t[2] == 0x80 then 3
    else 0
  }

  /** strings.TrimSpace(t) == "" */
  predicate Blank(t: Bytes) {
    |t| == 0 || (SpaceLength(t) > 0 && Blank(t[SpaceLength(t)..]))
  }

  /** A code point of the basic plane. */
  type Rune = r: int | 0 <= r < 0x10000

  /** The code points that Unicode calls white space. */
  predicate WhiteSpace(r: Rune) {
    || 9 <= r <= 13 || r == 32 || r == 0x85 || r == 0xA0 || r == 0x1680 || 0x2000 <= r <= 0x200A
    || r == 0x2028 || r == 0x2029 || r == 0x202F || r == 0x205F || r == 0x3000
  }

  function Utf8(r: Rune): Bytes {
    if r < 0x80 then [r as byte]
    else if r < 0x800 then [(0xC0 + r / 64) as byte, (0x80 + r % 64) as byte]
    else [(0xE0 + r / 4096) as byte, (0x80 + r / 64 % 64) as byte, (0x80 + r % 64) as byte]
  }

  function Utf8All(runes: seq<Rune>): Bytes {
    if |runes| == 0 then [] else Utf8(runes[0]) + Utf8All(runes[1..])
  }

  /** The code point of the white space that t starts with. */
  function SpaceAt(t: Bytes): (r: Rune)
    requires SpaceLength(t) > 0
  {
    match SpaceLength(t)
    case 1 => t[0] as int
    case 2 => (t[0] as int - 0xC0) * 64 + (t[1] as int - 0x80)
    case _ => (t[0] as int - 0xE0) * 4096 + (t[1] as int - 0x80) * 64 + (t[2] as int - 0x80)
  }

  lemma SpaceIsEncoded(t: Bytes) returns (r: Rune)
    requires SpaceLength(t) > 0
    ensures WhiteSpace(r) && t == Utf8(r) + t[SpaceLength(t)..]
  {
    r := SpaceAt(t);
    if SpaceLength(t) == 3 {
      assert t[1] as int - 0x80 < 64 && t[2] as int - 0x80 < 64;
    }
    assert t[..SpaceLength(t)] == Utf8(r);
  }

  lemma EncodedIsSpace(r: Rune, rest: Bytes)
    requires WhiteSpace(r)
    ensures SpaceLength(Utf8(r) + rest) == |Utf8(r)|
  {
    var t := Utf8(r) + rest;
    assert t[0] == Utf8(r)[0];
  }

  /** Text is blank exactly when it is the UTF-8 encoding of white space and nothing else. */
  lemma BlankExactly(t: Bytes)
    ensures Blank(t) <==>
        exists runes: seq<Rune> :: (forall r: Rune :: r in runes ==> WhiteSpace(r)) && Utf8All(runes) == t
  {
    if Blank(t) {
      var runes := SpacesOf(t);
    }
    if runes: seq<Rune> :| (forall r: Rune :: r in runes ==> WhiteSpace(r)) && Utf8All(runes) == t {
      SpacesAreBlank(runes);
    }
  }

  lemma {:induction false} SpacesOf(t: Bytes) returns (runes: seq<Rune>)
    requires Blank(t)
    ensures (forall r: Rune :: r in runes ==> WhiteSpace(r)) && Utf8All(runes) == t
    decreases |t|
  {
    if |t| == 0 {
      runes := [];
    } else {
      var r := SpaceIsEncoded(t);
      var more := SpacesOf(t[SpaceLength(t)..]);
      runes := [r] + more;
      assert runes[1..] == more;
    }
  }

  lemma {:induction false} SpacesAreBlank(runes: seq<Rune>)
    requires forall r: Rune :: r in runes ==> WhiteSpace(r)
    ensures Blank(Utf8All(runes))
  {
    if |runes| == 0 {
    } else {
      var rest := Utf8All(runes[1..]);
      SpacesAreBlank(runes[1..]);
      EncodedIsSpace(runes[0], rest);
      assert (Utf8(runes[0]) + rest)[|Utf8(runes[0])|..] == rest;
    }
  }

  // ---------------------------------------------------------------- pieces

  datatype Piece = Lit(b: byte) | Expr(text: Bytes)

  datatype Tail = End | Dangling | Unclosed

  datatype Lexed = Lexed(pieces: seq<Piece>, tail: Tail)

  function Before(p: Piece, rest: Lexed): Lexed {
    Lexed([p] + rest.pieces, rest.tail)
  }

  function LexText(s: Bytes): Lexed
    decreases |s|
  {
    if |s| == 0 then Lexed([], End)
    else if s[0] == TICK then LexExpr([], s[1..])
    else if s[0] != SLASH then Before(Lit(s[0]), LexText(s[1..]))
    else if |s| == 1 then Lexed([], Dangling)
    else if s[1] == TICK then Before(Lit(TICK), LexText(s[2..]))
    else Before(Lit(SLASH), LexText(s[1..]))
  }

  /** Lexes s inside an expression of which text has been read. */
  function LexExpr(text: Bytes, s: Bytes): Lexed
    decreases |s|
  {
    if |s| == 0 then Lexed([], Unclosed)
    else if s[0] == TICK then Before(Expr(text), LexText(s[1..]))
    else if s[0] != SLASH then LexExpr(text + [s[0]], s[1..])
    else if |s| == 1 then Lexed([], Dangling)
    else if s[1] == TICK then LexExpr(text + [SLASH, TICK], s[2..])
    else LexExpr(text + [SLASH], s[1..])
  }

  /** The backticks escaped inside an expression; each is also written to the output. */
  function Ticks(text: Bytes): Bytes {
    if |text| == 0 then []
    else Ticks(text[..|text| - 1]) + if text[|text| - 1] == TICK then [TICK] else []
  }

  // ---------------------------------------------------------------- meaning

  predicate Evaluates(lib: Library, env: Properties, p: Piece) {
    p.Expr? ==> !Blank(p.text) && lib.eval(p.text, env).Result?
  }

  function Stopped(lib: Library, env: Properties, text: Bytes): Outcome {
    if Blank(text) then Failed(EmptyExpression)
    else if lib.eval(text, env).NilFetch? then Expanded(Nil)
    else Failed(EvalFailed)
  }

  /** The index of the first expression without a value, or the number of pieces. */
  function FirstStop(lib: Library, env: Properties, pieces: seq<Piece>): (n: nat)
    ensures n <= |pieces|
    ensures n < |pieces| ==> !Evaluates(lib, env, pieces[n])
    ensures forall i :: 0 <= i < n ==> Evaluates(lib, env, pieces[i])
  {
    if |pieces| == 0 || !Evaluates(lib, env, pieces[0]) then 0
    else 1 + FirstStop(lib, env, pieces[1..])
  }

  /** What a piece writes to the output. */
  function Shown(lib: Library, env: Properties, p: Piece): Bytes {
    match p
    case Lit(b) => [b]
    case Expr(text) =>
      var r := lib.eval(text, env);
      Ticks(text) + if r.Result? then lib.render(r.value) else []
  }

  /** The result a piece contributes, if it is an expression with one. */
  function ResultOf(lib: Library, env: Properties, p: Piece): seq<Value> {
    if p.Expr? && lib.eval(p.text, env).Result? then [lib.eval(p.text, env).value] else []
  }

  function Output(lib: Library, env: Properties, pieces: seq<Piece>): Bytes {
    if |pieces| == 0 then [] else Shown(lib, env, pieces[0]) + Output(lib, env, pieces[1..])
  }

  function Results(lib: Library, env: Properties, pieces: seq<Piece>): seq<Value> {
    if |pieces| == 0 then [] else ResultOf(lib, env, pieces[0]) + Results(lib, env, pieces[1..])
  }

  /** A lone expression keeps its type; anything else is text. */
  function Assembled(lib: Library, output: Bytes, results: seq<Value>): Value {
    if |results| == 1 && output == lib.render(results[0]) then results[0] else Str(output)
  }

  /** The meaning of the rest of a string, once some output and results are at hand. */
  function Completed(lib: Library, env: Properties, output: Bytes, results: seq<Value>, rest: Lexed): Outcome {
    var n := FirstStop(lib, env, rest.pieces);
    if n < |rest.pieces| then Stopped(lib, env, rest.pieces[n].text)
    else
      match rest.tail
      case Dangling => Failed(DanglingEscape)
      case Unclosed => Failed(Unbalanced)
      case End =>
        Expanded(Assembled(lib, output + Output(lib, env, rest.pieces), results + Results(lib, env, rest.pieces)))
  }

  /**
   The meaning of a string. The first expression without a value decides, whatever follows it;
   then a bad end; and otherwise the literals and rendered results are concatenated.
   */
  function Meaning(lib: Library, env: Properties, s: Bytes): Outcome {
    Completed(lib, env, [], [], LexText(s))
  }

  lemma CompletedStep(lib: Library, env: Properties, output: Bytes, results: seq<Value>, p: Piece, rest: Lexed)
    ensures Completed(lib, env, output, results, Before(p, rest)) ==
            if Evaluates(lib, env, p)
            then Completed(lib, env, output + Shown(lib, env, p), results + ResultOf(lib, env, p), rest)
            else Stopped(lib, env, p.text)
  {
    var pieces := [p] + rest.pieces;
    assert pieces[1..] == rest.pieces;
    ConcatAssociative(output, Shown(lib, env, p), Output(lib, env, rest.pieces));
    ConcatAssociative(results, ResultOf(lib, env, p), Results(lib, env, rest.pieces));
  }

  lemma CompletedLit(lib: Library, env: Properties, output: Bytes, results: seq<Value>, b: byte, rest: Lexed)
    ensures Completed(lib, env, output, results, Before(Lit(b), rest))
        == Completed(lib, env, output + [b], results, rest)
  {
    CompletedStep(lib, env, output, results, Lit(b), rest);
    assert results + [] == results;
  }

  lemma TicksSnoc(text: Bytes, b: byte)
    ensures Ticks(text + [b]) == Ticks(text) + if b == TICK then [TICK] else []
  {
    assert (text + [b])[..|text|] == text;
  }

  // ---------------------------------------------------------------- the scanner

  /** What is left to lex at index i, with an expression open from start unless start is -1. */
  function LexAt(s: Bytes, start: int, i: nat): Lexed
    requires -1 <= start <= i <= |s|
  {
    if start == -1 then LexText(s[i..]) else LexExpr(s[start..i], s[i..])
  }

  /** A byte other than a backtick, or a backslash that escapes nothing. */
  predicate Plain(s: Bytes, i: nat)
    requires i < |s|
  {
    s[i] != TICK && (s[i] == SLASH ==> i + 1 < |s| && s[i + 1] != TICK)
  }

  lemma LexLit(s: Bytes, i: nat)
    requires i < |s| && Plain(s, i)
    ensures LexAt(s, -1, i) == Before(Lit(s[i]), LexAt(s, -1, i + 1))
  {
    assert s[i..][1..] == s[i + 1..];
  }

  lemma LexEscape(s: Bytes, i: nat)
    requires i + 1 < |s| && s[i] == SLASH && s[i + 1] == TICK
    ensures LexAt(s, -1, i) == Before(Lit(TICK), LexAt(s, -1, i + 2))
  {
    assert s[i..][2..] == s[i + 2..];
  }

  lemma LexInside(s: Bytes, start: nat, i: nat)
    requires start <= i < |s| && Plain(s, i)
    ensures LexAt(s, start, i) == LexAt(s, start, i + 1)
    ensures Ticks(s[start..i]) == Ticks(s[start..i + 1])
  {
    TicksSnoc(s[start..i], s[i]);
    assert s[start..i + 1] == s[start..i] + [s[i]];
    assert s[i..][1..] == s[i + 1..];
  }

  lemma LexEscapeInside(s: Bytes, start: nat, i: nat)
    requires start <= i && i + 1 < |s| && s[i] == SLASH && s[i + 1] == TICK
    ensures LexAt(s, start, i) == LexAt(s, start, i + 2)
    ensures Ticks(s[start..i]) + [TICK] == Ticks(s[start..i + 2])
  {
    var text := s[start..i];
    TicksSnoc(text, SLASH);
    TicksSnoc(text + [SLASH], TICK);
    assert s[start..i + 2] == text + [SLASH] + [TICK] == text + [SLASH, TICK];
    assert s[i..][2..] == s[i + 2..];
  }

  lemma LexOpen(s: Bytes, i: nat)
    requires i < |s| && s[i] == TICK
    ensures LexAt(s, -1, i) == LexAt(s, i + 1, i + 1)
    ensures Ticks(s[i + 1..i + 1]) == []
  {
    assert s[i + 1..i + 1] == [];
    assert s[i..][1..] == s[i + 1..];
  }

  lemma LexClose(s: Bytes, start: nat, i: nat)
    requires start <= i < |s| && s[i] == TICK
    ensures LexAt(s, start, i) == Before(Expr(s[start..i]), LexAt(s, -1, i + 1))
  {
    assert s[i..][1..] == s[i + 1..];
  }

  lemma ScanLit(lib: Library, env: Properties, s: Bytes, i: nat, output: Bytes, results: seq<Value>)
    requires i < |s| && Plain(s, i)
    ensures Completed(lib, env, output, results, LexAt(s, -1, i))
         == Completed(lib, env, output + [s[i]], results, LexAt(s, -1, i + 1))
  {
    LexLit(s, i);
    CompletedLit(lib, env, output, results, s[i], LexAt(s, -1, i + 1));
  }

  lemma ScanEscape(lib: Library, env: Properties, s: Bytes, i: nat, output: Bytes, results: seq<Value>)
    requires i + 1 < |s| && s[i] == SLASH && s[i + 1] == TICK
    ensures Completed(lib, env, output, results, LexAt(s, -1, i))
         == Completed(lib, env, output + [TICK], results, LexAt(s, -1, i + 2))
  {
    LexEscape(s, i);
    CompletedLit(lib, env, output, results, TICK, LexAt(s, -1, i + 2));
  }

  lemma ScanClose(lib: Library, env: Properties, s: Bytes, start: nat, i: nat, output: Bytes, results: seq<Value>)
    requires start <= i < |s| && s[i] == TICK
    ensures var text := s[start..i]; var r := lib.eval(text, env);
            Completed(lib, env, output, results, LexAt(s, start, i)) ==
            if !Blank(text) && r.Result?
            then Completed(lib, env, output + Ticks(text) + lib.render(r.value), results + [r.value],
                           LexAt(s, -1, i + 1))
            else Stopped(lib, env, text)
  {
    var text := s[start..i];
    var r := lib.eval(text, env);
    LexClose(s, start, i);
    CompletedStep(lib, env, output, results, Expr(text), LexAt(s, -1, i + 1));
    if r.Result? {
      ConcatAssociative(output, Ticks(text), lib.render(r.value));
    }
  }

  lemma LexBadEnd(s: Bytes, start: int)
    requires |s| > 0 && s[|s| - 1] == SLASH && -1 <= start < |s|
    ensures LexAt(s, start, |s| - 1) == Lexed([], Dangling)
  {
    assert s[|s| - 1..] == [SLASH];
  }

  /** The scanner's variables, and what it has written outside expressions. */
  datatype Scan = Scan(start: int, i: nat, output: Bytes, outside: Bytes, results: seq<Value>)

  /** r is what the rest of the string makes of what the scanner has. */
  predicate Answers(lib: Library, env: Properties, s: Bytes, scan: Scan, r: Outcome)
    requires -1 <= scan.start <= scan.i <= |s|
  {
    r == Completed(lib, env, scan.outside, scan.results, LexAt(s, scan.start, scan.i))
  }

  /** The scanner has written what is `outside` expressions, and the backticks escaped in the open one. */
  predicate Written(s: Bytes, scan: Scan)
    requires -1 <= scan.start <= scan.i <= |s|
  {
    scan.output == if scan.start == -1 then scan.outside else scan.outside + Ticks(s[scan.start..scan.i])
  }

  /** The scanner on its way: what it has written is right, and the rest will make the string's meaning of it. */
  ghost predicate Scanning(lib: Library, env: Properties, s: Bytes, scan: Scan) {
    && -1 <= scan.start <= scan.i <= |s|
    && forall r :: Answers(lib, env, s, scan, r) ==> r == Meaning(lib, env, s) && Written(s, scan)
  }

  lemma Promised(lib: Library, env: Properties, s: Bytes, scan: Scan)
    requires Scanning(lib, env, s, scan)
    ensures Completed(lib, env, scan.outside, scan.results, LexAt(s, scan.start, scan.i)) == Meaning(lib, env, s)
    ensures Written(s, scan)
  {
    assert Answers(lib, env, s, scan, Completed(lib, env, scan.outside, scan.results, LexAt(s, scan.start, scan.i)));
  }

  lemma ScanStart(lib: Library, env: Properties, s: Bytes)
    ensures Scanning(lib, env, s, Scan(-1, 0, [], [], []))
  {
    assert s[0..] == s;
  }

  lemma ScanOutside(lib: Library, env: Properties, s: Bytes, i: nat, output: Bytes, outside: Bytes, results: seq<Value>)
    requires Scanning(lib, env, s, Scan(-1, i, output, outside, results)) && i < |s| && Plain(s, i)
    ensures Scanning(lib, env, s, Scan(-1, i + 1, output + [s[i]], outside + [s[i]], results))
  {
    Promised(lib, env, s, Scan(-1, i, output, outside, results));
    ScanLit(lib, env, s, i, outside, results);
  }

  lemma ScanInside(lib: Library, env: Properties, s: Bytes, start: nat, i: nat, output: Bytes, outside: Bytes,
                   results: seq<Value>)
    requires Scanning(lib, env, s, Scan(start, i, output, outside, results)) && i < |s| && Plain(s, i)
    ensures Scanning(lib, env, s, Scan(start, i + 1, output, outside, results))
  {
    Promised(lib, env, s, Scan(start, i, output, outside, results));
    LexInside(s, start, i);
  }

  lemma ScanEscapedOutside(lib: Library, env: Properties, s: Bytes, i: nat, output: Bytes, outside: Bytes,
                           results: seq<Value>)
    requires Scanning(lib, env, s, Scan(-1, i, output, outside, results))
    requires i + 1 < |s| && s[i] == SLASH && s[i + 1] == TICK
    ensures Scanning(lib, env, s, Scan(-1, i + 2, output + [TICK], outside + [TICK], results))
  {
    Promised(lib, env, s, Scan(-1, i, output, outside, results));
    ScanEscape(lib, env, s, i, outside, results);
  }

  lemma ScanEscapedInside(lib: Library, env: Properties, s: Bytes, start: nat, i: nat, output: Bytes, outside: Bytes,
                          results: seq<Value>)
    requires Scanning(lib, env, s, Scan(start, i, output, outside, results))
    requires i + 1 < |s| && s[i] == SLASH && s[i + 1] == TICK
    ensures Scanning(lib, env, s, Scan(start, i + 2, output + [TICK], outside, results))
  {
    Promised(lib, env, s, Scan(start, i, output, outside, results));
    LexEscapeInside(s, start, i);
    ConcatAssociative(outside, Ticks(s[start..i]), [TICK]);
  }

  lemma ScanOpen(lib: Library, env: Properties, s: Bytes, i: nat, output: Bytes, outside: Bytes, results: seq<Value>)
    requires Scanning(lib, env, s, Scan(-1, i, output, outside, results)) && i < |s| && s[i] == TICK
    ensures Scanning(lib, env, s, Scan(i + 1, i + 1, output, outside, results))
  {
    Promised(lib, env, s, Scan(-1, i, output, outside, results));
    LexOpen(s, i);
    ConcatNothing(outside);
  }

  lemma ScanClosed(lib: Library, env: Properties, s: Bytes, start: nat, i: nat, output: Bytes, outside: Bytes,
                   results: seq<Value>, v: Value)
    requires Scanning(lib, env, s, Scan(start, i, output, outside, results)) && i < |s| && s[i] == TICK
    requires !Blank(s[start..i]) && lib.eval(s[start..i], env) == Result(v)
    ensures Scanning(lib, env, s, Scan(-1, i + 1, output + lib.render(v), output + lib.render(v), results + [v]))
  {
    var text := s[start..i];
    assert output == outside + Ticks(text) && Completed(lib, env, outside, results, LexAt(s, start, i)) ==
           Meaning(lib, env, s) by {
      Promised(lib, env, s, Scan(start, i, output, outside, results));
    }
    ScanClose(lib, env, s, start, i, outside, results);
  }

  lemma ScanStopped(lib: Library, env: Properties, s: Bytes, start: nat, i: nat, output: Bytes, outside: Bytes,
                    results: seq<Value>)
    requires Scanning(lib, env, s, Scan(start, i, output, outside, results)) && i < |s| && s[i] == TICK
    requires Blank(s[start..i]) || !lib.eval(s[start..i], env).Result?
    ensures Meaning(lib, env, s) == Stopped(lib, env, s[start..i])
  {
    Promised(lib, env, s, Scan(start, i, output, outside, results));
    ScanClose(lib, env, s, start, i, outside, results);
  }

  lemma ScanDangling(lib: Library, env: Properties, s: Bytes, start: int, i: nat, output: Bytes, outside: Bytes,
                     results: seq<Value>)
    requires Scanning(lib, env, s, Scan(start, i, output, outside, results)) && i + 1 == |s| && s[i] == SLASH
    ensures Meaning(lib, env, s) == Failed(DanglingEscape)
  {
    Promised(lib, env, s, Scan(start, i, output, outside, results));
    LexBadEnd(s, start);
  }

  lemma ScanEnd(lib: Library, env: Properties, s: Bytes, start: int, i: nat, output: Bytes, outside: Bytes,
                results: seq<Value>)
    requires Scanning(lib, env, s, Scan(start, i, output, outside, results)) && i == |s|
    ensures Meaning(lib, env, s)
         == if start == -1 then Expanded(Assembled(lib, output, results)) else Failed(Unbalanced)
  {
    Promised(lib, env, s, Scan(start, i, output, outside, results));
    assert s[|s|..] == [];
    ConcatNothing(output);
    ConcatNothing(results);
  }

  method EvalBackticksInConfigValue(lib: Library, env: Properties, configValue: Bytes) returns (r: Outcome)
    ensures r == Meaning(lib, env, configValue)
  {
    var exprStartIndex := -1;
    var output: Bytes := [];
    var expansions: seq<Value> := [];
    var i := 0;
    ghost var outside: Bytes := [];
    ScanStart(lib, env, configValue);
    while i < |configValue|
      invariant Scanning(lib, env, configValue, Scan(exprStartIndex, i, output, outside, expansions))
      decreases |configValue| - i
    {
      var b := configValue[i];
      if b == SLASH {
        if i + 1 == |configValue| {
          ScanDangling(lib, env, configValue, exprStartIndex, i, output, outside, expansions);
          return Failed(DanglingEscape);
        }
        if configValue[i + 1] != TICK {
          if exprStartIndex == -1 {
            ScanOutside(lib, env, configValue, i, output, outside, expansions);
            output, outside := output + [b], outside + [b];
          } else {
            ScanInside(lib, env, configValue, exprStartIndex, i, output, outside, expansions);
          }
        } else {
          if exprStartIndex == -1 {
            ScanEscapedOutside(lib, env, configValue, i, output, outside, expansions);
            outside := outside + [TICK];
          } else {
            ScanEscapedInside(lib, env, configValue, exprStartIndex, i, output, outside, expansions);
          }
          output := output + [configValue[i + 1]];
          i := i + 1;
        }
      } else if b == TICK {
        if exprStartIndex == -1 {
          ScanOpen(lib, env, configValue, i, output, outside, expansions);
          exprStartIndex := i + 1;
        } else {
          var exprText := configValue[exprStartIndex..i];
          if Blank(exprText) {
            ScanStopped(lib, env, configValue, exprStartIndex, i, output, outside, expansions);
            return Failed(EmptyExpression);
          }
          var res := lib.eval(exprText, env);
          if !res.Result? {
            ScanStopped(lib, env, configValue, exprStartIndex, i, output, outside, expansions);
            return if res.NilFetch? then Expanded(Nil) else Failed(EvalFailed);
          }
          ScanClosed(lib, env, configValue, exprStartIndex, i, output, outside, expansions, res.value);
          expansions := expansions + [res.value];
          output := output + lib.render(res.value);
          outside := output;
          exprStartIndex := -1;
        }
      } else {
        if exprStartIndex == -1 {
          ScanOutside(lib, env, configValue, i, output, outside, expansions);
          output, outside := output + [b], outside + [b];
        } else {
          ScanInside(lib, env, configValue, exprStartIndex, i, output, outside, expansions);
        }
      }
      i := i + 1;
    }

    ScanEnd(lib, env, configValue, exprStartIndex, i, output, outside, expansions);
    if exprStartIndex != -1 {
      return Failed(Unbalanced);
    }
    if |expansions| == 1 && output == lib.render(expansions[0]) {
      return Expanded(expansions[0]);
    }
    return Expanded(Str(output));
  }

  // ---------------------------------------------------------------- writing strings

  /** Text that can stand between backticks: each backtick in it escaped, no escape left open. */
  predicate RawText(t: Bytes)
    decreases |t|
  {
    || |t| == 0
    || (&& t[0] != TICK
        && if t[0] != SLASH then RawText(t[1..])
           else |t| >= 2 && if t[1] == TICK then RawText(t[2..]) else RawText(t[1..]))
  }

  /** A literal backslash reads as one only in front of another literal, or of a rest that is no backtick. */
  predicate Writable(pieces: seq<Piece>, rest: Bytes) {
    || |pieces| == 0
    || (&& (pieces[0].Expr? ==> RawText(pieces[0].text))
        && (pieces[0] == Lit(SLASH) ==>
              if |pieces| > 1 then pieces[1].Lit? else |rest| > 0 && rest[0] != TICK)
        && Writable(pieces[1..], rest))
  }

  predicate WellFormed(pieces: seq<Piece>) {
    Writable(pieces, [])
  }

  function Print(pieces: seq<Piece>): Bytes {
    if |pieces| == 0 then []
    else
      match pieces[0]
      case Lit(b) => if b == TICK then [SLASH, TICK] + Print(pieces[1..]) else [b] + Print(pieces[1..])
      case Expr(text) => [TICK] + (text + ([TICK] + Print(pieces[1..])))
  }

  lemma {:induction false} LexRaw(read: Bytes, text: Bytes, rest: Bytes)
    requires RawText(text)
    ensures LexExpr(read, text + ([TICK] + rest)) == Before(Expr(read + text), LexText(rest))
    decreases |text|
  {
    var s := text + ([TICK] + rest);
    if |text| == 0 {
      assert s == [TICK] + rest && s[1..] == rest && read + text == read;
    } else {
      var n := if text[0] == SLASH && text[1] == TICK then 2 else 1;
      assert s[n..] == text[n..] + ([TICK] + rest);
      assert read + text == (read + text[..n]) + text[n..];
      assert text[..n] == if n == 2 then [SLASH, TICK] else [text[0]];
      LexRaw(read + text[..n], text[n..], rest);
    }
  }

  lemma PrintExpr(text: Bytes, more: seq<Piece>, rest: Bytes)
    requires RawText(text) && Writable(more, rest)
    ensures Writable([Expr(text)] + more, rest)
    ensures Print([Expr(text)] + more) + rest == [TICK] + (text + ([TICK] + (Print(more) + rest)))
  {
    assert ([Expr(text)] + more)[1..] == more;
  }

  lemma PrintLit(b: byte, more: seq<Piece>, rest: Bytes)
    requires Writable(more, rest)
    requires b == SLASH ==> |Print(more) + rest| > 0 && (Print(more) + rest)[0] != TICK
    ensures Writable([Lit(b)] + more, rest)
    ensures Print([Lit(b)] + more) + rest == (if b == TICK then [SLASH, TICK] else [b]) + (Print(more) + rest)
  {
    assert ([Lit(b)] + more)[1..] == more;
    assert |more| > 0 && more[0].Expr? ==> (Print(more) + rest)[0] == TICK;
  }

  /** A literal backslash is followed by something that is no backtick. */
  lemma LitGoesOn(pieces: seq<Piece>, rest: Bytes)
    requires |pieces| > 0 && Writable(pieces, rest) && pieces[0] == Lit(SLASH)
    ensures var t := Print(pieces[1..]) + rest; |t| > 0 && t[0] != TICK
  {
    if |pieces| > 1 {
      assert |Print(pieces[1..])| > 0 && Print(pieces[1..])[0] != TICK;
    }
  }

  /** Lexing what pieces print, with more after it, gives the pieces and then those of the rest. */
  lemma {:induction false} LexThen(pieces: seq<Piece>, rest: Bytes)
    requires Writable(pieces, rest)
    ensures LexText(Print(pieces) + rest) == Lexed(pieces + LexText(rest).pieces, LexText(rest).tail)
  {
    if |pieces| == 0 {
      assert Print(pieces) + rest == rest && pieces + LexText(rest).pieces == LexText(rest).pieces;
    } else {
      var more := pieces[1..];
      LexThen(more, rest);
      assert pieces == [pieces[0]] + more;
      ConcatAssociative([pieces[0]], more, LexText(rest).pieces);
      match pieces[0]
      case Lit(b) =>
        if b == SLASH {
          LitGoesOn(pieces, rest);
        }
        PrintLit(b, more, rest);
        LexOfLit(b, Print(more) + rest);
      case Expr(text) =>
        PrintExpr(text, more, rest);
        LexOfExpr(text, Print(more) + rest);
    }
  }

  lemma LexOfLit(b: byte, t: Bytes)
    requires b == SLASH ==> |t| > 0 && t[0] != TICK
    ensures LexText((if b == TICK then [SLASH, TICK] else [b]) + t) == Before(Lit(b), LexText(t))
  {
    if b == TICK {
      assert ([SLASH, TICK] + t)[2..] == t;
    } else {
      assert ([b] + t)[1..] == t;
    }
  }

  lemma LexOfExpr(text: Bytes, t: Bytes)
    requires RawText(text)
    ensures LexText([TICK] + (text + ([TICK] + t))) == Before(Expr(text), LexText(t))
  {
    var s := text + ([TICK] + t);
    assert ([TICK] + s)[1..] == s;
    LexRaw([], text, t);
    assert [] + text == text;
  }

  /** Lexing a printed string gives back the pieces printed. */
  lemma LexOfPrint(pieces: seq<Piece>)
    requires WellFormed(pieces)
    ensures LexText(Print(pieces)) == Lexed(pieces, End)
  {
    LexThen(pieces, []);
    ConcatNothing(Print(pieces));
    ConcatNothing(pieces);
  }

  /**
   Evaluating a printed string: the first expression without a value decides the outcome, and
   when all have one the literals and the rendered results are concatenated in order.
   */
  lemma MeaningOfPrint(lib: Library, env: Properties, pieces: seq<Piece>)
    requires WellFormed(pieces)
    ensures var n := FirstStop(lib, env, pieces);
            Meaning(lib, env, Print(pieces)) ==
            if n < |pieces| then Stopped(lib, env, pieces[n].text)
            else Expanded(Assembled(lib, Output(lib, env, pieces), Results(lib, env, pieces)))
  {
    LexOfPrint(pieces);
    ConcatNothing(Output(lib, env, pieces));
    ConcatNothing(Results(lib, env, pieces));
  }

  /** An expression that closes is raw text up to its closing backtick. */
  lemma {:induction false} SplitExpr(read: Bytes, s: Bytes) returns (text: Bytes, rest: Bytes)
    requires |LexExpr(read, s).pieces| > 0
    ensures RawText(text) && s == text + ([TICK] + rest)
    ensures LexExpr(read, s) == Before(Expr(read + text), LexText(rest))
    decreases |s|
  {
    if s[0] == TICK {
      text, rest := [], s[1..];
      assert read + [] == read && s == [] + ([TICK] + rest);
    } else {
      var n := if s[0] == SLASH && s[1] == TICK then 2 else 1;
      var head := s[..n];
      assert head == if n == 2 then [SLASH, TICK] else [s[0]];
      text, rest := SplitExpr(read + head, s[n..]);
      RawGrows(head, text, s[n..], [TICK] + rest);
      ConcatAssociative(read, head, text);
      ConcatAssociative(head, text, [TICK] + rest);
      text := head + text;
      assert s == head + s[n..];
    }
  }

  lemma RawGrows(head: Bytes, text: Bytes, s: Bytes, rest: Bytes)
    requires RawText(text) && s == text + rest && |s| > 0 && |rest| > 0 && rest[0] == TICK
    requires head == [SLASH, TICK] || (|head| == 1 && head[0] != TICK && (head[0] == SLASH ==> s[0] != TICK))
    ensures RawText(head + text)
  {
    var t := head + text;
    assert t[|head|..] == text;
    if |head| == 1 && |text| > 0 {
      assert t[1] == text[0] == s[0];
    }
  }

  // ---------------------------------------------------------------- ends

  /** Every backtick has a backslash right before it. */
  predicate Guarded(t: Bytes) {
    forall i :: 0 <= i < |t| && t[i] == TICK ==> i > 0 && t[i - 1] == SLASH
  }

  lemma GuardedNext(t: Bytes)
    requires |t| > 0
    ensures var n := if t[0] == SLASH && |t| > 1 && t[1] == TICK then 2 else 1;
            Guarded(t) <==> t[0] != TICK && Guarded(t[n..])
  {
    var n := if t[0] == SLASH && |t| > 1 && t[1] == TICK then 2 else 1;
    assert forall i :: n <= i < |t| ==> t[n..][i - n] == t[i];
    if Guarded(t) {
      forall i | 0 <= i < |t| - n && t[n..][i] == TICK ensures i > 0 && t[n..][i - 1] == SLASH {
        assert t[n + i] == TICK;
      }
    }
    if t[0] != TICK && Guarded(t[n..]) {
      forall i | 0 <= i < |t| && t[i] == TICK ensures i > 0 && t[i - 1] == SLASH {
        if i >= n {
          assert t[n..][i - n] == TICK;
        }
      }
    }
  }

  /** Raw text is text with every backtick guarded and no backslash at its end. */
  lemma {:induction false} RawTextExactly(t: Bytes)
    ensures RawText(t) <==> Guarded(t) && (|t| > 0 ==> t[|t| - 1] != SLASH)
    decreases |t|
  {
    if |t| == 0 {
    } else {
      var n := if t[0] == SLASH && |t| > 1 && t[1] == TICK then 2 else 1;
      GuardedNext(t);
      RawTextExactly(t[n..]);
      assert |t| > n ==> t[n..][|t| - n - 1] == t[|t| - 1];
    }
  }

  /** An expression stays open to the end of the text exactly when every backtick in it is guarded. */
  lemma {:induction false} OpenExactly(read: Bytes, t: Bytes)
    ensures |LexExpr(read, t).pieces| == 0 <==> Guarded(t)
    ensures Guarded(t) ==> LexExpr(read, t).tail == if |t| > 0 && t[|t| - 1] == SLASH then Dangling else Unclosed
    decreases |t|
  {
    if |t| == 0 || t[0] == TICK || t == [SLASH] {
    } else {
      var n := if t[0] == SLASH && t[1] == TICK then 2 else 1;
      GuardedNext(t);
      OpenExactly(read + if n == 2 then [SLASH, TICK] else [t[0]], t[n..]);
      assert |t| > n ==> t[n..][|t| - n - 1] == t[|t| - 1];
    }
  }

  /** The end of a string that is no piece: an expression that does not close, or a lone backslash. */
  predicate BadEnd(rest: Bytes) {
    rest == [SLASH] || (|rest| > 0 && rest[0] == TICK && Guarded(rest[1..]))
  }

  /** A bad end is a dangling escape if it ends in a backslash, and an unbalanced expression otherwise. */
  lemma LexOfEnd(rest: Bytes)
    requires BadEnd(rest)
    ensures LexText(rest) == Lexed([], if rest[|rest| - 1] == SLASH then Dangling else Unclosed)
  {
    if rest[0] == TICK {
      OpenExactly([], rest[1..]);
    }
  }

  /** When every expression of the pieces has a value, what a bad end makes of the string. */
  lemma BadEnds(lib: Library, env: Properties, pieces: seq<Piece>, rest: Bytes)
    requires Writable(pieces, rest) && BadEnd(rest)
    requires forall i :: 0 <= i < |pieces| && pieces[i].Expr? ==>
        !Blank(pieces[i].text) && lib.eval(pieces[i].text, env).Result?
    ensures Meaning(lib, env, Print(pieces) + rest)
         == Failed(if rest[|rest| - 1] == SLASH then DanglingEscape else Unbalanced)
  {
    LexThen(pieces, rest);
    LexOfEnd(rest);
    ConcatNothing(pieces);
    CompletedBadly(lib, env, pieces, LexText(rest).tail);
  }

  lemma CompletedBadly(lib: Library, env: Properties, pieces: seq<Piece>, tail: Tail)
    requires tail != End
    requires forall i :: 0 <= i < |pieces| && pieces[i].Expr? ==>
        !Blank(pieces[i].text) && lib.eval(pieces[i].text, env).Result?
    ensures Completed(lib, env, [], [], Lexed(pieces, tail))
         == Failed(if tail == Dangling then DanglingEscape else Unbalanced)
  {
    var n := FirstStop(lib, env, pieces);
    assert n < |pieces| ==> !Evaluates(lib, env, pieces[n]);
  }

  lemma {:induction false} SplitEnd(s: Bytes) returns (pieces: seq<Piece>, rest: Bytes)
    ensures Writable(pieces, rest) && s == Print(pieces) + rest && (|rest| == 0 || BadEnd(rest))
    decreases |s|
  {
    if |s| == 0 || s == [SLASH] {
      pieces, rest := [], s;
    } else if s[0] == TICK && Guarded(s[1..]) {
      pieces, rest := [], s;
    } else if s[0] == TICK {
      OpenExactly([], s[1..]);
      var text, after := SplitExpr([], s[1..]);
      var more;
      more, rest := SplitEnd(after);
      pieces := [Expr(text)] + more;
      PrintExpr(text, more, rest);
      assert s == [TICK] + s[1..];
    } else {
      var n := if s[0] == SLASH && s[1] == TICK then 2 else 1;
      var more;
      more, rest := SplitEnd(s[n..]);
      var b := if n == 2 then TICK else s[0];
      pieces := [Lit(b)] + more;
      PrintLit(b, more, rest);
      assert s == (if n == 2 then [SLASH, TICK] else [b]) + s[n..];
    }
  }

  /** Every string is the print of some pieces with nothing or a bad end after it. */
  lemma EveryString(s: Bytes)
    ensures exists pieces, rest ::
              Writable(pieces, rest) && s == Print(pieces) + rest && (|rest| == 0 || BadEnd(rest))
  {
    var pieces, rest := SplitEnd(s);
  }

  /** A string that lexes to its end is the print of its pieces. */
  lemma PrintOfLex(s: Bytes)
    requires LexText(s).tail == End
    ensures WellFormed(LexText(s).pieces) && Print(LexText(s).pieces) == s
  {
    var pieces, rest := SplitEnd(s);
    LexThen(pieces, rest);
    if BadEnd(rest) {
      LexOfEnd(rest);
    }
    ConcatNothing(Print(pieces));
    ConcatNothing(pieces);
  }

  /**
   The strings the scanner reads to the end without a complaint of its own are exactly the
   printed ones, each with one list of pieces.
   */
  lemma PrintedExactly(s: Bytes)
    ensures LexText(s).tail == End <==> exists pieces :: WellFormed(pieces) && Print(pieces) == s
    ensures forall pieces :: WellFormed(pieces) && Print(pieces) == s ==> LexText(s) == Lexed(pieces, End)
  {
    forall pieces | WellFormed(pieces) && Print(pieces) == s ensures LexText(s) == Lexed(pieces, End) {
      LexOfPrint(pieces);
    }
    if LexText(s).tail == End {
      PrintOfLex(s);
    }
  }

  // ---------------------------------------------------------------- types

  function Literals(pieces: seq<Piece>): nat {
    if |pieces| == 0 then 0
    else (match pieces[0] case Lit(_) => 1 case Expr(text) => |Ticks(text)|) + Literals(pieces[1..])
  }

  function RenderAll(lib: Library, results: seq<Value>): Bytes {
    if |results| == 0 then [] else lib.render(results[0]) + RenderAll(lib, results[1..])
  }

  lemma RenderAllAppend(lib: Library, first: seq<Value>, more: seq<Value>)
    requires |first| <= 1
    ensures RenderAll(lib, first + more) == RenderAll(lib, first) + RenderAll(lib, more)
    ensures |first| == 1 ==> RenderAll(lib, first) == lib.render(first[0])
  {
    if |first| == 1 {
      assert (first + more)[1..] == more && first[1..] == [];
    } else {
      assert first + more == more;
    }
  }

  lemma {:induction false} OutputLength(lib: Library, env: Properties, pieces: seq<Piece>)
    ensures |Output(lib, env, pieces)| == Literals(pieces) + |RenderAll(lib, Results(lib, env, pieces))|
  {
    if |pieces| == 0 {
    } else {
      OutputLength(lib, env, pieces[1..]);
      RenderAllAppend(lib, ResultOf(lib, env, pieces[0]), Results(lib, env, pieces[1..]));
    }
  }

  lemma {:induction false} OutputOfResults(lib: Library, env: Properties, pieces: seq<Piece>)
    requires Literals(pieces) == 0
    ensures Output(lib, env, pieces) == RenderAll(lib, Results(lib, env, pieces))
  {
    if |pieces| == 0 {
    } else {
      OutputOfResults(lib, env, pieces[1..]);
      var p := pieces[0];
      RenderAllAppend(lib, ResultOf(lib, env, p), Results(lib, env, pieces[1..]));
      assert Shown(lib, env, p) == RenderAll(lib, ResultOf(lib, env, p));
    }
  }

  /** The string is well formed and every expression in it has a value. */
  predicate Succeeds(lib: Library, env: Properties, s: Bytes) {
    var l := LexText(s);
    l.tail.End? && forall i :: 0 <= i < |l.pieces| ==> Evaluates(lib, env, l.pieces[i])
  }

  /** Comparing the output with the one result's text tells whether anything else was written. */
  lemma SameTextExactly(lib: Library, env: Properties, pieces: seq<Piece>)
    requires |Results(lib, env, pieces)| == 1
    ensures Output(lib, env, pieces) == lib.render(Results(lib, env, pieces)[0]) <==> Literals(pieces) == 0
  {
    OutputLength(lib, env, pieces);
    RenderAllAppend(lib, Results(lib, env, pieces), []);
    if Literals(pieces) == 0 {
      OutputOfResults(lib, env, pieces);
    }
  }

  /**
   A string that evaluates successfully gives its expression's own value, type and all, exactly
   when there was one expansion and no literal byte was written, escaped backticks included;
   otherwise it gives text, whatever the render function is. Any other string fails or gives nil.
   */
  lemma TypeKeptExactly(lib: Library, env: Properties, s: Bytes)
    ensures var pieces := LexText(s).pieces; var results := Results(lib, env, pieces);
            Succeeds(lib, env, s) ==>
              Meaning(lib, env, s) == Expanded(
                if |results| == 1 && Literals(pieces) == 0 then results[0] else Str(Output(lib, env, pieces)))
    ensures !Succeeds(lib, env, s) ==> Meaning(lib, env, s).Failed? || Meaning(lib, env, s) == Expanded(Nil)
  {
    var pieces := LexText(s).pieces;
    ConcatNothing(Output(lib, env, pieces));
    ConcatNothing(Results(lib, env, pieces));
    if |Results(lib, env, pieces)| == 1 {
      SameTextExactly(lib, env, pieces);
    }
  }

  // ---------------------------------------------------------------- what each piece comes to

  /** What one piece is written as. */
  function Spelled(p: Piece): Bytes {
    match p
    case Lit(b) => if b == TICK then [SLASH, TICK] else [b]
    case Expr(text) => [TICK] + text + [TICK]
  }

  /** Strings are printed piece by piece. */
  lemma {:induction false} PrintExactly(pieces: seq<Piece>)
    ensures Print(pieces) == FlatMap(Spelled, pieces)
  {
    if |pieces| == 0 {
    } else {
      PrintExactly(pieces[1..]);
      var rest := Print(pieces[1..]);
      if pieces[0].Expr? {
        var text := pieces[0].text;
        assert [TICK] + (text + ([TICK] + rest)) == [TICK] + text + [TICK] + rest;
      }
    }
  }

  /** A backslash stands before a literal backtick, and backticks around an expression. */
  lemma SpelledExactly(b: byte, text: Bytes)
    ensures Ascii("`") == [TICK] && Ascii("\\") == [SLASH]
    ensures Spelled(Lit(b)) == if b == TICK then [SLASH, TICK] else [b]
    ensures Spelled(Expr(text)) == [TICK] + text + [TICK]
  {
  }

  /**
   The first expression without a value decides what the string means, whatever follows it: an empty
   one and one that cannot be evaluated fail, and one that reaches through a missing field gives nil.
   */
  lemma FirstStopDecides(lib: Library, env: Properties, s: Bytes, n: nat)
    requires n < |LexText(s).pieces| && LexText(s).pieces[n].Expr?
    requires forall i :: 0 <= i < n && LexText(s).pieces[i].Expr? ==>
        !Blank(LexText(s).pieces[i].text) && lib.eval(LexText(s).pieces[i].text, env).Result?
    ensures var text := LexText(s).pieces[n].text; var r := lib.eval(text, env);
            && (Blank(text) ==> Meaning(lib, env, s) == Failed(EmptyExpression))
            && (!Blank(text) && r == NilFetch ==> Meaning(lib, env, s) == Expanded(Nil))
            && (!Blank(text) && r == EvalError ==> Meaning(lib, env, s) == Failed(EvalFailed))
  {
    var pieces := LexText(s).pieces;
    var m := FirstStop(lib, env, pieces);
    assert forall i :: 0 <= i < n ==> Evaluates(lib, env, pieces[i]);
    assert m >= n && (m > n ==> Evaluates(lib, env, pieces[n]));
  }

  function Shower(lib: Library, env: Properties): Piece -> Bytes {
    p => Shown(lib, env, p)
  }

  function Evaluator(lib: Library, env: Properties): Piece -> seq<Value> {
    p => ResultOf(lib, env, p)
  }

  /** What pieces show, and the results they contribute, one after the other. */
  lemma {:induction false} OutputExactly(lib: Library, env: Properties, pieces: seq<Piece>)
    ensures Output(lib, env, pieces) == FlatMap(Shower(lib, env), pieces)
    ensures Results(lib, env, pieces) == FlatMap(Evaluator(lib, env), pieces)
  {
    if |pieces| == 0 {
    } else {
      OutputExactly(lib, env, pieces[1..]);
    }
  }

  /** A literal shows itself; an expression with a value shows a backtick for each it escapes, then the value. */
  lemma ShownExactly(lib: Library, env: Properties, b: byte, text: Bytes)
    ensures Shower(lib, env)(Lit(b)) == [b] && Evaluator(lib, env)(Lit(b)) == []
    ensures var r := lib.eval(text, env);
            r.Result? ==>
              && Evaluator(lib, env)(Expr(text)) == [r.value]
              && Shower(lib, env)(Expr(text)) == seq(multiset(text)[TICK], _ => TICK) + lib.render(r.value)
  {
    TicksExactly(text);
  }

  lemma {:induction false} TicksExactly(text: Bytes)
    ensures Ticks(text) == seq(multiset(text)[TICK], _ => TICK)
  {
    if |text| == 0 {
    } else {
      var n := |text| - 1;
      TicksExactly(text[..n]);
      assert text == text[..n] + [text[n]];
    }
  }

  /** No literal byte is written exactly when all pieces are expressions without a backtick in them. */
  lemma {:induction false} LiteralsExactly(pieces: seq<Piece>)
    ensures Literals(pieces) == 0 <==> forall i :: 0 <= i < |pieces| ==> pieces[i].Expr? && TICK !in pieces[i].text
  {
    if |pieces| == 0 {
    } else {
      LiteralsExactly(pieces[1..]);
      assert forall i :: 0 < i < |pieces| ==> pieces[i] == pieces[1..][i - 1];
      assert forall i :: 0 <= i < |pieces[1..]| ==> pieces[1..][i] == pieces[i + 1];
      if pieces[0].Expr? {
        TicksExactly(pieces[0].text);
        assert |Ticks(pieces[0].text)| == 0 <==> TICK !in pieces[0].text;
      }
    }
  }

  /**
   A string that is one expression and nothing else: its value with its type, unless the expression
   escapes backticks, when they and the rendered value are text; nil, or one of the two errors.
   */
  lemma OneExpression(lib: Library, env: Properties, text: Bytes)
    requires RawText(text)
    ensures var r := lib.eval(text, env); var n := multiset(text)[TICK];
            Meaning(lib, env, [TICK] + (text + [TICK])) ==
            if Blank(text) then Failed(EmptyExpression)
            else match r
              case NilFetch => Expanded(Nil)
              case EvalError => Failed(EvalFailed)
              case Result(v) => Expanded(if n == 0 then v else Str(seq(n, _ => TICK) + lib.render(v)))
  {
    var pieces, s := [Expr(text)], [TICK] + (text + [TICK]);
    assert pieces[1..] == [];
    assert Print(pieces) == [TICK] + (text + ([TICK] + [])) == s;
    LexOfPrint(pieces);
    ShownExactly(lib, env, TICK, text);
    ConcatNothing(Shown(lib, env, pieces[0]));
    ConcatNothing(ResultOf(lib, env, pieces[0]));
    TicksExactly(text);
    TypeKeptExactly(lib, env, s);
    if Blank(text) || !lib.eval(text, env).Result? {
      FirstStopDecides(lib, env, s, 0);
    } else {
      assert Succeeds(lib, env, s);
      assert Literals(pieces) == |Ticks(text)|;
    }
  }

  // ---------------------------------------------------------------- escaping literals

  /** Writes a literal for a template: a backslash before each backtick. */
  function EscapeLiteral(s: Bytes): Bytes {
    if |s| == 0 then []
    else if s[0] == TICK then [SLASH, TICK] + EscapeLiteral(s[1..])
    else [s[0]] + EscapeLiteral(s[1..])
  }

  function Lits(s: Bytes): (pieces: seq<Piece>)
    ensures |pieces| == |s|
  {
    seq(|s|, i requires 0 <= i < |s| => Lit(s[i]))
  }

  lemma {:induction false} LexEscaped(s: Bytes)
    ensures LexText(EscapeLiteral(s)) ==
            if |s| > 0 && s[|s| - 1] == SLASH then Lexed(Lits(s[..|s| - 1]), Dangling) else Lexed(Lits(s), End)
  {
    if |s| == 0 {
    } else {
      var rest := EscapeLiteral(s[1..]);
      LexEscaped(s[1..]);
      assert Lits(s) == [Lit(s[0])] + Lits(s[1..]);
      if |s| > 1 {
        assert s[..|s| - 1][1..] == s[1..][..|s| - 2];
        assert Lits(s[..|s| - 1]) == [Lit(s[0])] + Lits(s[1..][..|s| - 2]);
      }
      if s[0] == TICK {
        assert ([SLASH, TICK] + rest)[2..] == rest;
      } else {
        assert ([s[0]] + rest)[1..] == rest;
        assert |rest| > 0 ==> rest[0] != TICK;
      }
      assert |s| == 1 ==> Lits(s[..0]) == [];
    }
  }

  lemma {:induction false} LitsMean(lib: Library, env: Properties, s: Bytes)
    ensures FirstStop(lib, env, Lits(s)) == |s| && Output(lib, env, Lits(s)) == s && Results(lib, env, Lits(s)) == []
  {
    if |s| == 0 {
    } else {
      assert Lits(s)[1..] == Lits(s[1..]);
      LitsMean(lib, env, s[1..]);
    }
  }

  lemma LitsCompleted(lib: Library, env: Properties, s: Bytes)
    ensures Completed(lib, env, [], [], Lexed(Lits(s), End)) == Expanded(Str(s))
    ensures Completed(lib, env, [], [], Lexed(Lits(s), Dangling)) == Failed(DanglingEscape)
  {
    LitsMean(lib, env, s);
    assert [] + s == s;
  }

  /** Escaping the backticks of a literal gives it back exactly when it does not end in a backslash. */
  lemma EscapeRoundTrip(lib: Library, env: Properties, s: Bytes)
    ensures Meaning(lib, env, EscapeLiteral(s)) == Expanded(Str(s)) <==> (|s| > 0 ==> s[|s| - 1] != SLASH)
  {
    LexEscaped(s);
    LitsCompleted(lib, env, s);
    if |s| > 0 {
      LitsCompleted(lib, env, s[..|s| - 1]);
    }
  }
}
