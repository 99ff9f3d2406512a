/** Recognising ffmpeg's "[segment @ ...] Opening '<file>' for writing" lines
    (ffmpeg_recorder.py, `FILE_PTT` and `_process_stdout`). */
module SegmentPattern {
  import opened Wrappers
  import opened Text

  /** The first single quote at or after `from`. */
  function FindQuote(s: string, from: nat): (r: Option<nat>)
    ensures r.Some? ==> from <= r.value < |s| && s[r.value] == '\''
    ensures r.Some? ==> forall k :: from <= k < r.value ==> s[k] != '\''
    ensures r.None? ==> forall k :: from <= k < |s| ==> s[k] != '\''
    decreases |s| - from
  {
    if from >= |s| then None
    else if s[from] == '\'' then Some(from)
    else FindQuote(s, from + 1)
  }

  /** One way the pattern `.+?'(.+?)'.*` can match at the start of `line`: a
      non-empty prefix, an opening quote at `q`, a non-empty capture and a
      closing quote at `c`, with no newline before `c` ('.' does not match a
      newline). The trailing `.*` may match nothing, so nothing is asked of the
      rest. */
  ghost predicate Span(line: string, q: int, c: int) {
    1 <= q && q + 2 <= c < |line| && line[q] == '\'' && line[c] == '\'' && '\n' !in line[..c]
  }

  /** `FILE_PTT.match(line)`, giving `group(1)` when it matches. */
  function MatchFile(line: string): Option<string> {
    match FindQuote(line, 1)
    case None => None
    case Some(q) =>
      match FindQuote(line, q + 2)
      case None => None
      case Some(c) => if '\n' in line[..c] then None else Some(line[q + 1..c])
  }

  /** The backtracking matcher tries the shortest prefix first and, for it, the
      shortest capture: `MatchFile` succeeds exactly when some `Span` exists, and
      then captures between the least such pair of quotes. */
  lemma MatchFileIsFirstMatch(line: string)
    ensures MatchFile(line).Some? <==> exists q, c :: Span(line, q, c)
    ensures MatchFile(line).Some? ==>
      exists q, c :: Span(line, q, c) && MatchFile(line).value == line[q + 1..c] &&
        forall q', c' :: Span(line, q', c') ==> q < q' || (q == q' && c <= c')
  {
    var fq := FindQuote(line, 1);
    if fq.Some? {
      var q := fq.value;
      var fc := FindQuote(line, q + 2);
      if fc.Some? {
        var c := fc.value;
        forall q', c' | Span(line, q', c') ensures q <= q' && c <= c' && '\n' !in line[..c] {
          assert line[..c] == line[..c'][..c];
        }
        if '\n' !in line[..c] {
          assert Span(line, q, c);
        }
      }
    }
  }

  /** A line of the muxer announcing a new segment: starts with `[segment` and
      contains `writing`. */
  predicate IsSegmentWriting(line: string) {
    StartsWith(line, "[segment") && Contains(line, "writing")
  }

  /** The file name a line reports, if it reports one. */
  function Reported(line: string): Option<string> {
    if IsSegmentWriting(line) then MatchFile(line) else None
  }

  /** The segment line the source logs as "Can't find file name". */
  predicate IsParseError(line: string) {
    IsSegmentWriting(line) && MatchFile(line).None?
  }

  /** `_current_filename` after handling one line. */
  function NextFilename(cur: Option<string>, line: string): Option<string> {
    if Reported(line).Some? then Reported(line) else cur
  }

  /** `_current_filename` after handling `lines` in order. */
  function FilenameAfter(cur: Option<string>, lines: seq<string>): Option<string>
    decreases |lines|
  {
    if lines == [] then cur else NextFilename(FilenameAfter(cur, lines[..|lines| - 1]), lines[|lines| - 1])
  }

  /** Lines that report no file name leave the current one alone. */
  lemma {:induction false} FilenameKeptWithoutReport(cur: Option<string>, lines: seq<string>)
    requires forall i :: 0 <= i < |lines| ==> Reported(lines[i]).None?
    ensures FilenameAfter(cur, lines) == cur
    decreases |lines|
  {
    if lines != [] {
      FilenameKeptWithoutReport(cur, lines[..|lines| - 1]);
    }
  }

  /** Otherwise the current name is the one reported by the last reporting
      line. */
  lemma {:induction false} FilenameIsLastReport(cur: Option<string>, lines: seq<string>, j: nat)
    requires j < |lines| && Reported(lines[j]).Some?
    requires forall i :: j < i < |lines| ==> Reported(lines[i]).None?
    ensures FilenameAfter(cur, lines) == Reported(lines[j])
    decreases |lines|
  {
    if j < |lines| - 1 {
      FilenameIsLastReport(cur, lines[..|lines| - 1], j);
    }
  }

  /** The lines taken from the queue before the `None` sentinel (all of them
      when there is none). */
  function BeforeStop(queue: seq<Option<string>>): (r: seq<string>)
    ensures |r| <= |queue|
    ensures forall i :: 0 <= i < |r| ==> queue[i] == Some(r[i])
    ensures |r| < |queue| ==> queue[|r|].None?
  {
    if queue == [] || queue[0].None? then [] else [queue[0].value] + BeforeStop(queue[1..])
  }

  /** Whatever follows the first sentinel is never looked at. */
  lemma {:induction false} StopIgnoresRest(queue: seq<Option<string>>, rest: seq<Option<string>>)
    requires forall i :: 0 <= i < |queue| ==> queue[i].Some?
    ensures BeforeStop(queue + [None] + rest) == BeforeStop(queue)
    ensures |BeforeStop(queue)| == |queue|
    decreases |queue|
  {
    if queue != [] {
      assert (queue + [None] + rest)[1..] == queue[1..] + [None] + rest;
      StopIgnoresRest(queue[1..], rest);
    } else {
      assert (queue + [None] + rest)[0] == None;
    }
  }

  /** `FindQuote` finds the first quote: any quote with none before it. */
  lemma FindQuoteFirst(s: string, from: nat, q: nat)
    requires from <= q < |s| && s[q] == '\''
    requires forall k :: from <= k < q ==> s[k] != '\''
    ensures FindQuote(s, from) == Some(q)
  {
  }

  /** Prefixing text keeps a start and moves an occurrence along. */
  lemma PrefixKeepsMarks(p: string, t: string, head: string, w: string, i: int)
    requires StartsWith(p, head) && OccursAt(t, w, i)
    ensures StartsWith(p + t, head) && OccursAt(p + t, w, |p| + i)
  {
    assert (p + t)[..|head|] == p[..|head|];
    assert (p + t)[|p| + i..|p| + i + |w|] == t[i..i + |w|];
  }

  /** A line opened by a `[segment` head, with "writing" in what follows the
      quoted name, is a segment line. */
  lemma QuotedLineIsSegmentWriting(head: string, name: string, tail: string)
    requires StartsWith(head, "[segment") && Contains(tail, "writing")
    ensures IsSegmentWriting(head + "'" + name + "'" + tail)
  {
    var prefix := head + "'" + name + "'";
    assert StartsWith(prefix, "[segment") by {
      assert prefix[..|head|] == head;
    }
    var i :| 0 <= i <= |tail| - 7 && OccursAt(tail, "writing", i);
    PrefixKeepsMarks(prefix, tail, "[segment", "writing", i);
  }

  /** The pattern captures the first quoted, non-empty name after a non-empty
      quote-free head. */
  lemma QuotedNameMatches(head: string, name: string, tail: string)
    requires |head| >= 1 && '\'' !in head && '\n' !in head
    requires |name| >= 1 && '\'' !in name && '\n' !in name
    ensures MatchFile(head + "'" + name + "'" + tail) == Some(name)
  {
    var line := head + "'" + name + "'" + tail;
    var q := |head|;
    var c := q + 1 + |name|;
    assert forall k :: 0 <= k < q ==> line[k] == head[k];
    assert forall k :: q < k < c ==> line[k] == name[k - q - 1];
    FindQuoteFirst(line, 1, q);
    FindQuoteFirst(line, q + 2, c);
    assert line[..c] == head + "'" + name;
    assert line[q + 1..c] == name;
  }

  /** A `[segment ... writing` line with a quoted, non-empty name reports
      exactly that name. */
  lemma ReportsQuotedName(head: string, name: string, tail: string)
    requires StartsWith(head, "[segment") && '\'' !in head && '\n' !in head
    requires |name| >= 1 && '\'' !in name && '\n' !in name
    requires Contains(tail, "writing")
    ensures Reported(head + "'" + name + "'" + tail) == Some(name)
  {
    QuotedLineIsSegmentWriting(head, name, tail);
    QuotedNameMatches(head, name, tail);
  }
}
