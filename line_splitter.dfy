/** The character-by-character splitter that turns ffmpeg's combined output
    into lines (ffmpeg_recorder.py, the loop inside `_run`). A newline emits the
    buffered text as a line, a carriage return throws the buffer away (ffmpeg
    redraws its progress line with it), any other character is appended. The
    buffer survives from one 100-byte read to the next. */
module LineSplitter {

  /** Emitted lines so far and the text buffered since the last line break. */
  datatype Splitter = Splitter(lines: seq<string>, buf: string)

  /** The effect of one decoded character. */
  function Step(s: Splitter, c: char): Splitter {
    if c == '\n' then Splitter(s.lines + [s.buf], "")
    else if c == '\r' then Splitter(s.lines, "")
    else Splitter(s.lines, s.buf + [c])
  }

  /** The effect of a run of characters, one `Step` per character in order. */
  function Feed(s: Splitter, cs: string): Splitter
    decreases |cs|
  {
    if cs == [] then s else Step(Feed(s, cs[..|cs| - 1]), cs[|cs| - 1])
  }

  /** Text holding no line-break character. */
  predicate Clean(x: string) {
    '\n' !in x && '\r' !in x
  }

  /** `r` is what follows the last carriage return of `x` (all of `x` if it has
      none). */
  predicate AfterLastReturn(x: string, r: string) {
    |r| <= |x| && x[|x| - |r|..] == r && '\r' !in r && (|r| == |x| || x[|x| - |r| - 1] == '\r')
  }

  /** The read chunks joined in order. */
  function Concat(chunks: seq<string>): string {
    if chunks == [] then "" else Concat(chunks[..|chunks| - 1]) + chunks[|chunks| - 1]
  }

  /** Feeding one more character is one more `Step`. */
  lemma FeedSnoc(s: Splitter, a: string, c: char)
    ensures Feed(s, a + [c]) == Step(Feed(s, a), c)
  {
    assert (a + [c])[..|a|] == a;
  }

  /** Feeding two runs one after the other is feeding their concatenation: since
      the buffer is carried over, the 100-byte boundaries do not matter. */
  lemma {:induction false} FeedConcat(s: Splitter, a: string, b: string)
    ensures Feed(s, a + b) == Feed(Feed(s, a), b)
    decreases |b|
  {
    if b != [] {
      var init := b[..|b| - 1];
      var c := b[|b| - 1];
      assert b == init + [c];
      assert a + b == (a + init) + [c];
      FeedSnoc(s, a + init, c);
      FeedSnoc(Feed(s, a), init, c);
      FeedConcat(s, a, init);
    } else {
      assert a + b == a;
    }
  }

  /** Lines already emitted are never taken back or changed. */
  lemma {:induction false} FeedExtendsLines(s: Splitter, cs: string)
    ensures |s.lines| <= |Feed(s, cs).lines|
    ensures Feed(s, cs).lines[..|s.lines|] == s.lines
    decreases |cs|
  {
    if cs != [] {
      FeedExtendsLines(s, cs[..|cs| - 1]);
    }
  }

  /** From a clean buffer, every line emitted and the final buffer are clean. */
  lemma {:induction false} FeedEmitsCleanLines(s: Splitter, cs: string)
    requires Clean(s.buf)
    ensures Clean(Feed(s, cs).buf)
    ensures forall i :: |s.lines| <= i < |Feed(s, cs).lines| ==> Clean(Feed(s, cs).lines[i])
    decreases |cs|
  {
    if cs != [] {
      FeedEmitsCleanLines(s, cs[..|cs| - 1]);
      FeedExtendsLines(s, cs[..|cs| - 1]);
    }
  }

  /** Without a newline nothing is emitted, and what is buffered is the text
      after the last carriage return. */
  lemma {:induction false} FeedWithoutNewline(s: Splitter, x: string)
    requires Clean(s.buf) && '\n' !in x
    ensures Feed(s, x).lines == s.lines
    ensures AfterLastReturn(s.buf + x, Feed(s, x).buf)
    decreases |x|
  {
    if x != [] {
      var init := x[..|x| - 1];
      var c := x[|x| - 1];
      assert '\n' !in init by {
        forall i | 0 <= i < |init| ensures init[i] != '\n' { assert init[i] == x[i]; }
      }
      FeedWithoutNewline(s, init);
      var b := Feed(s, init).buf;
      var whole := s.buf + x;
      assert whole == (s.buf + init) + [c];
      if c != '\r' {
        assert whole[|whole| - |b + [c]|..] == (s.buf + init)[|s.buf + init| - |b|..] + [c];
      }
    }
  }

  /** A newline-terminated run emits exactly one line: the text after the last
      carriage return, counting from the carried-over buffer. */
  lemma FeedOneLine(s: Splitter, x: string)
    requires Clean(s.buf) && '\n' !in x
    ensures Feed(s, x + "\n").buf == ""
    ensures |Feed(s, x + "\n").lines| == |s.lines| + 1
    ensures Feed(s, x + "\n").lines[..|s.lines|] == s.lines
    ensures AfterLastReturn(s.buf + x, Feed(s, x + "\n").lines[|s.lines|])
  {
    FeedConcat(s, x, "\n");
    FeedWithoutNewline(s, x);
    assert Feed(Feed(s, x), "\n") == Step(Feed(s, x), '\n');
  }

  /** Text after the last newline of the stream is never emitted. */
  lemma TrailingTextNotEmitted(s: Splitter, cs: string, tail: string)
    requires Clean(s.buf) && '\n' !in tail
    ensures Feed(s, cs + tail).lines == Feed(s, cs).lines
  {
    FeedConcat(s, cs, tail);
    FeedEmitsCleanLines(s, cs);
    FeedWithoutNewline(Feed(s, cs), tail);
  }

  /** `AfterLastReturn` singles out one string. */
  lemma AfterLastReturnUnique(x: string, r1: string, r2: string)
    requires AfterLastReturn(x, r1) && AfterLastReturn(x, r2)
    ensures r1 == r2
  {
  }

  lemma ProgressResetExample()
    ensures Feed(Splitter([], ""), "a\r b\nc\n") == Splitter([" b", "c"], "")
  {
    var s0 := Splitter([], "");
    var text := "a\r b\nc\n";
    forall i | 0 <= i < |text| ensures Feed(s0, text[..i + 1]) == Step(Feed(s0, text[..i]), text[i]) {
      assert text[..i + 1] == text[..i] + [text[i]];
      FeedSnoc(s0, text[..i], text[i]);
    }
    assert Feed(s0, text[..0]) == s0;
    assert Feed(s0, text[..1]) == Splitter([], "a");
    assert Feed(s0, text[..2]) == Splitter([], "");
    assert Feed(s0, text[..3]) == Splitter([], " ");
    assert Feed(s0, text[..4]) == Splitter([], " b");
    assert Feed(s0, text[..5]) == Splitter([" b"], "");
    assert Feed(s0, text[..6]) == Splitter([" b"], "c");
    assert Feed(s0, text[..7]) == Splitter([" b", "c"], "");
    assert text[..7] == text;
  }

  /** The reads the loop consumes: an empty read is end of file, so only the
      reads before the first empty one count. */
  function ReadsBeforeEof(chunks: seq<string>): (r: seq<string>)
    ensures |r| <= |chunks| && r == chunks[..|r|]
    ensures forall k | 0 <= k < |r| :: r[k] != ""
    ensures |r| < |chunks| ==> chunks[|r|] == ""
  {
    if chunks == [] || chunks[0] == "" then [] else [chunks[0]] + ReadsBeforeEof(chunks[1..])
  }

  /** The splitter as the source runs it: an outer loop over the successive
      reads of the pipe, which ends at the first empty read (end of file), and
      an inner loop over each read's characters, starting from buffer `buf`.
      Returns the lines emitted and the buffer left over. */
  method SplitChunks(buf: string, chunks: seq<string>) returns (lines: seq<string>, rest: string)
    ensures Splitter(lines, rest) == Feed(Splitter([], buf), Concat(ReadsBeforeEof(chunks)))
  {
    lines, rest := [], buf;
    ghost var consumed := ReadsBeforeEof(chunks);
    var k := 0;
    while k < |chunks| && chunks[k] != ""
      invariant 0 <= k <= |consumed|
      invariant Splitter(lines, rest) == Feed(Splitter([], buf), Concat(chunks[..k]))
    {
      var chunk := chunks[k];
      ghost var before := Splitter(lines, rest);
      var i := 0;
      while i < |chunk|
        invariant 0 <= i <= |chunk|
        invariant Splitter(lines, rest) == Feed(before, chunk[..i])
      {
        var c := chunk[i];
        if c == '\n' {
          lines := lines + [rest];
          rest := "";
        } else if c == '\r' {
          rest := "";
        } else {
          rest := rest + [c];
        }
        assert chunk[..i + 1][..i] == chunk[..i];
        i := i + 1;
      }
      assert chunk[..i] == chunk;
      assert chunks[..k + 1][..k] == chunks[..k];
      FeedConcat(Splitter([], buf), Concat(chunks[..k]), chunk);
      k := k + 1;
    }
    assert chunks[..k] == consumed;
  }
}
