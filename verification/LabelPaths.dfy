/** The label paths of the documentation, as characters: one spelling of each key and the name it resolves to. */
module LabelPaths {
  import opened Base
  import opened PropertyPath

  lemma {:induction false} PlainKey(key: Bytes, rest: Bytes)
    requires QUOTE !in key && BACKSLASH !in key
    ensures Escape(key, rest) == key + rest
  {
    if |key| == 0 {
      ConcatNothing(rest);
    } else {
      var head, tail := key[0], key[1..];
      PlainKey(tail, rest);
      assert key == [head] + tail;
      ConcatAssociative([head], tail, rest);
    }
  }

  lemma AsciiConcat(a: string, b: string)
    ensures Ascii(a + b) == Ascii(a) + Ascii(b)
  {
  }

  lemma Punctuation()
    ensures Ascii(".") == [DOT] && Ascii("[\"") == [OPEN, QUOTE] && Ascii("\"]") == [QUOTE, CLOSE]
    ensures Ascii("\\") == [BACKSLASH]
  {
  }

  /** Three segments as they are written. */
  lemma PrintOfThree(a: Bytes, b: Bytes, c: Bytes)
    ensures Print([Bare(a), Bare(b), Bracketed(c)])
         == a + ([DOT] + (b + ([OPEN, QUOTE] + Escape(c, [QUOTE, CLOSE] + []))))
    ensures Keys([Bare(a), Bare(b), Bracketed(c)]) == [a, b, c]
    ensures Join([a, b, c], DOT) == a + [DOT] + (b + [DOT] + c)
  {
    var segments := [Bare(a), Bare(b), Bracketed(c)];
    assert PrintFrom(segments, 2, []) == PrintSegment(Bracketed(c), false, PrintFrom(segments, 3, []));
    assert PrintFrom(segments, 1, []) == PrintSegment(Bare(b), false, PrintFrom(segments, 2, []));
    assert [a, b, c][1..] == [b, c] && [b, c][1..] == [c];
    assert Join([b, c], DOT) == b + [DOT] + Join([c], DOT);
  }

  /** A text such as `pod.labels["app.kubernetes.io/name"]` names three keys, and an attribute with a flat name. */
  lemma LabelPath(a: string, b: string, c: string)
    requires |a| > 0 && |b| > 0 && |c| > 0 && BareKey(Ascii(a)) && BareKey(Ascii(b))
    requires QUOTE !in Ascii(c) && BACKSLASH !in Ascii(c)
    ensures PathKeys(Ascii(a + ("." + (b + ("[\"" + (c + "\"]")))))) == Some([Ascii(a), Ascii(b), Ascii(c)])
    ensures AttributeName(Ascii(a + ("." + (b + ("[\"" + (c + "\"]")))))) == Some(Ascii(a + "." + (b + "." + c)))
  {
    var segments := [Bare(Ascii(a)), Bare(Ascii(b)), Bracketed(Ascii(c))];
    LabelPathText(a, b, c);
    PathKeysOfPrint(segments);
    SpellingsAgree(segments);
  }

  lemma LabelPathText(a: string, b: string, c: string)
    requires QUOTE !in Ascii(c) && BACKSLASH !in Ascii(c)
    ensures var segments := [Bare(Ascii(a)), Bare(Ascii(b)), Bracketed(Ascii(c))];
            && Print(segments) == Ascii(a + ("." + (b + ("[\"" + (c + "\"]")))))
            && Keys(segments) == [Ascii(a), Ascii(b), Ascii(c)]
            && Join(Keys(segments), DOT) == Ascii(a + "." + (b + "." + c))
  {
    Punctuation();
    PrintOfThree(Ascii(a), Ascii(b), Ascii(c));
    PlainKey(Ascii(c), [QUOTE, CLOSE] + []);
    ConcatNothing([QUOTE, CLOSE]);
    AsciiConcat(c, "\"]");
    AsciiConcat("[\"", c + "\"]");
    AsciiConcat(b, "[\"" + (c + "\"]"));
    AsciiConcat(".", b + ("[\"" + (c + "\"]")));
    AsciiConcat(a, "." + (b + ("[\"" + (c + "\"]"))));
    AsciiConcat(b, ".");
    AsciiConcat(b + ".", c);
    AsciiConcat(a, ".");
    AsciiConcat(a + ".", b + "." + c);
  }

  /** Between the quotes a quote and a backslash are written with a backslash before them, other bytes as they are. */
  lemma EscapedBytes(key: Bytes, b: byte, rest: Bytes)
    ensures Escape(key + [b], rest)
        == Escape(key, (if b == QUOTE || b == BACKSLASH then [BACKSLASH, b] else [b]) + rest)
    ensures Escape([], rest) == rest
  {
    EscapeSnoc(key, b, rest);
  }
}
