/** Turning the chunks of a process's output into log lines. */
module LineStream {
  import opened Collections
  import opened Text

  function Lines(text: string): (r: seq<string>)
    ensures r != []
  {
    Split(text, '\n')
  }

  function NonEmpty(lines: seq<string>): seq<string> {
    if lines == [] then []
    else (if lines[0] == "" then [] else [lines[0]]) + NonEmpty(lines[1..])
  }

  /** The lines a reader of the whole text sees. */
  function LinesOf(text: string): seq<string> {
    NonEmpty(Lines(text))
  }

  // ---- One more chunk ----

  /** The segments before the last, and the last one, which the next chunk continues. */
  function Closed(s: string): seq<string> {
    Lines(s)[..|Lines(s)| - 1]
  }

  function Open(s: string): string {
    Lines(s)[|Lines(s)| - 1]
  }

  lemma ConsUnbroken(c: char, a: string, b: string)
    requires c != '\n' && |Lines(a)| == 1
    requires Lines(a + b) == Lines(Open(a) + b)
    ensures Lines([c] + a + b) == Closed([c] + a) + Lines(Open([c] + a) + b)
  {
    hide Split;
    SplitCons('\n', c, a);
    SplitCons('\n', c, a + b);
    SplitCons('\n', c, Open(a) + b);
    assert [c] + a + b == [c] + (a + b);
    assert Open([c] + a) + b == [c] + (Open(a) + b);
    assert Closed([c] + a) == [];
  }

  lemma ConsBroken(c: char, a: string, b: string)
    requires c == '\n' || |Lines(a)| > 1
    requires Lines(a + b) == Closed(a) + Lines(Open(a) + b)
    ensures Lines([c] + a + b) == Closed([c] + a) + Lines(Open([c] + a) + b)
  {
    hide Split;
    SplitCons('\n', c, a);
    SplitCons('\n', c, a + b);
    assert [c] + a + b == [c] + (a + b);
    assert Open([c] + a) == Open(a);
    var tail := Lines(Open(a) + b);
    if c == '\n' {
      assert Closed([c] + a) == [""] + Closed(a);
    } else {
      assert Closed([c] + a) == [[c] + Lines(a)[0]] + Closed(a)[1..];
      assert (Closed(a) + tail)[1..] == Closed(a)[1..] + tail;
    }
  }

  /** Appending text only continues the last segment. */
  lemma {:induction false} LinesConcat(a: string, b: string)
    ensures Lines(a + b) == Closed(a) + Lines(Open(a) + b)
  {
    if a == "" {
      assert a + b == b && Open(a) + b == b && Closed(a) == [];
    } else {
      var c, rest := a[0], a[1..];
      assert a == [c] + rest;
      LinesConcat(rest, b);
      hide Split;
      if c == '\n' || |Lines(rest)| > 1 {
        ConsBroken(c, rest, b);
      } else {
        assert Closed(rest) == [];
        ConsUnbroken(c, rest, b);
      }
    }
  }

  lemma {:induction false} NonEmptyConcat(a: seq<string>, b: seq<string>)
    ensures NonEmpty(a + b) == NonEmpty(a) + NonEmpty(b)
  {
    if a == [] {
      assert a + b == b;
    } else {
      assert (a + b)[1..] == a[1..] + b;
      NonEmptyConcat(a[1..], b);
    }
  }

  lemma {:induction false} NonEmptyKeepsAll(lines: seq<string>)
    requires forall i :: 0 <= i < |lines| ==> lines[i] != ""
    ensures NonEmpty(lines) == lines
  {
    if lines != [] {
      NonEmptyKeepsAll(lines[1..]);
    }
  }

  /** Lines written one per row are the lines read back. */
  lemma WrittenLinesAreRead(lines: seq<string>)
    requires lines != [] && forall i :: 0 <= i < |lines| ==> lines[i] != "" && '\n' !in lines[i]
    ensures LinesOf(JoinWith(lines, '\n')) == lines
  {
    SplitJoin(lines, '\n');
    NonEmptyKeepsAll(lines);
  }

  // ---- streamLines ----

  /** Push every complete line that is not empty. */
  method PushLines(lines: seq<string>, pushed: seq<string>) returns (messages: seq<string>)
    ensures messages == pushed + NonEmpty(lines)
  {
    messages := pushed;
    for i := 0 to |lines|
      invariant messages == pushed + NonEmpty(lines[..i])
    {
      NonEmptyConcat(lines[..i], [lines[i]]);
      assert lines[..i + 1] == lines[..i] + [lines[i]];
      if |lines[i]| > 0 {
        messages := messages + [lines[i]];
      }
    }
    assert lines[..|lines|] == lines;
  }

  /** One chunk: what is now complete, and what stays open. */
  lemma ReadChunk(before: string, chunk: string)
    ensures Open(before + chunk) == Open(Open(before) + chunk)
    ensures NonEmpty(Closed(before + chunk)) == NonEmpty(Closed(before)) + NonEmpty(Closed(Open(before) + chunk))
  {
    LinesConcat(before, chunk);
    hide Split;
    assert Closed(before + chunk) == Closed(before) + Closed(Open(before) + chunk);
    NonEmptyConcat(Closed(before), Closed(Open(before) + chunk));
  }

  lemma LastLine(text: string)
    ensures LinesOf(text) == NonEmpty(Closed(text)) + (if Open(text) == "" then [] else [Open(text)])
  {
    assert Lines(text) == Closed(text) + [Open(text)];
    NonEmptyConcat(Closed(text), [Open(text)]);
  }

  /** However the text is cut into chunks, its non-empty lines are pushed, in order. */
  method StreamLines(chunks: seq<string>) returns (messages: seq<string>)
    ensures messages == LinesOf(Flatten(chunks))
  {
    messages := [];
    var partial := "";
    for i := 0 to |chunks|
      invariant messages == NonEmpty(Closed(Flatten(chunks[..i])))
      invariant partial == Open(Flatten(chunks[..i]))
    {
      var lines := Lines(partial + chunks[i]);
      ReadChunk(Flatten(chunks[..i]), chunks[i]);
      FlattenSnoc(chunks[..i], chunks[i]);
      assert chunks[..i + 1] == chunks[..i] + [chunks[i]];
      partial := lines[|lines| - 1];
      messages := PushLines(lines[..|lines| - 1], messages);
    }
    assert chunks[..|chunks|] == chunks;
    LastLine(Flatten(chunks));
    if |partial| > 0 {
      messages := messages + [partial];
    }
  }
}
