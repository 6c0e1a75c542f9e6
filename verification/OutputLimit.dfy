/** Exactly when the reports of the observer do not depend on how its output arrives. */
module OutputLimit {
  import opened Basics
  import opened OutputText
  import opened OutputReads

  // ---------- what can be observed ----------

  predicate AllShort(output: string) { forall i :: 0 <= i < |AllLines(output)| ==> |AllLines(output)[i]| <= LINE_LIMIT }

  /**
   What the observer may make of an output, by the ways it can be cut: every line as itself or as
   one of its visible endings; a last line without its newline never stays longer than the limit.
   */
  predicate Observable(seen: seq<string>, output: string) {
    && AllSeenAs(seen, AllLines(output))
    && (Open(output) != "" ==> |seen[|seen| - 1]| <= LINE_LIMIT)
  }

  lemma OpenIsLast(output: string)
    requires Open(output) != ""
    ensures AllLines(output) != [] && AllLines(output)[|AllLines(output)| - 1] == Open(output)
  {
    hide Lines, Open;
  }

  /** The observer's lines, over all ways of cutting an output, are exactly the observable ones. */
  lemma ObservedExactly(output: string, seen: seq<string>)
    ensures (exists chunks :: Concat(chunks) == output && FinalLines(chunks) == seen) <==> Observable(seen, output)
  {
    hide Concat, FinalLines, AllLines, AllSeenAs, Open, OpenSeen, LinesSeen;
    if chunks :| Concat(chunks) == output && FinalLines(chunks) == seen {
      FinalSeenAs(chunks);
      LastStaysShort(chunks);
    }
    if Observable(seen, output) {
      SomeReads(output, seen);
      ReadExactly(output, |output| + 1, seen);
    }
  }

  /** Reads as long as the output cut it anywhere. */
  lemma SomeReads(output: string, seen: seq<string>)
    requires Observable(seen, output)
    ensures ReadObservable(seen, output, |output| + 1)
  {
    hide Lines, Open, SeenAs, ReadAs;
    var lines, most := AllLines(output), |output| + 1;
    forall i | 0 <= i < |lines| ensures ReadAs(seen[i], lines[i], most, i < |Lines(output)|) {
      LineWithin(output, i);
      SeenIsRead(seen[i], lines[i], most, i < |Lines(output)|);
    }
  }

  lemma LineWithin(output: string, i: nat)
    requires i < |AllLines(output)|
    ensures |AllLines(output)[i]| <= |output|
  {
    hide Lines, Open;
    if i < |Lines(output)| { LineIsShorter(output, i); }
  }

  lemma SeenIsRead(e: string, line: string, most: nat, ended: bool)
    requires SeenAs(e, line) && |line| < most && (!ended ==> |e| <= LINE_LIMIT)
    ensures ReadAs(e, line, most, ended)
  {
    if |e| < |line| { assert CutAt(0, |line| - |e| + LINE_KEPT, most); }
  }

  lemma LastStaysShort(chunks: seq<string>)
    ensures Open(Concat(chunks)) != "" ==>
              FinalLines(chunks) != [] && |FinalLines(chunks)[|FinalLines(chunks)| - 1]| <= LINE_LIMIT
  {
    hide Lines, Open, Concat, LinesSeen, SeenAs;
    ChunksSeenAs(chunks);
    OpenStaysShort(chunks);
    if Open(Concat(chunks)) != "" { SomethingSeen(OpenSeen(chunks), Open(Concat(chunks))); }
  }

  lemma SomethingSeen(seen: string, line: string)
    requires SeenAs(seen, line) && line != ""
    ensures seen != ""
  {}

  lemma OpenStaysShort(chunks: seq<string>)
    ensures |OpenSeen(chunks)| <= LINE_LIMIT
  {
    hide Lines, Open;
  }

  // ---------- lines ----------

  /** Every line seen as itself, except an overlong open one, which is seen as its end. */
  function Plainly(output: string): seq<string> {
    if |Open(output)| > LINE_LIMIT then Lines(output) + [Last(Open(output), LINE_KEPT)] else AllLines(output)
  }

  lemma PlainlyObservable(output: string)
    ensures Observable(Plainly(output), output) && |Plainly(output)| == |AllLines(output)|
  {
    hide Lines, Open, SeenAs;
    var lines := AllLines(output);
    forall i | 0 <= i < |lines| ensures SeenAs(Plainly(output)[i], lines[i]) {
      SelfSeen(lines[i]);
      if |lines[i]| > LINE_LIMIT { EndSeen(lines[i]); }
    }
  }

  lemma EndSeen(line: string)
    requires |line| > LINE_LIMIT
    ensures SeenAs(Last(line, LINE_KEPT), line) && Last(line, LINE_KEPT) != line
  {}

  /** One line seen as an ending of it, and all others plainly. */
  lemma OneEnding(output: string, i: nat, e: string)
    requires i < |AllLines(output)| && SeenAs(e, AllLines(output)[i])
    requires Open(output) != "" && i == |AllLines(output)| - 1 ==> |e| <= LINE_LIMIT
    ensures |Plainly(output)| == |AllLines(output)| && Observable(Plainly(output)[i := e], output)
  {
    hide Lines, Open, SeenAs, Plainly;
    PlainlyObservable(output);
  }

  /** The lines observed are the lines of the output, for every way of cutting it, exactly when no line is overlong. */
  lemma LinesObservedIffShort(output: string)
    ensures (forall chunks :: Concat(chunks) == output ==> FinalLines(chunks) == AllLines(output)) <==> AllShort(output)
  {
    hide Concat, FinalLines, AllLines, Observable, SeenAs, Open, Plainly, AllSeenAs;
    if AllShort(output) {
      forall chunks | Concat(chunks) == output ensures FinalLines(chunks) == AllLines(output) {
        FinalSeenAs(chunks);
        ShortLinesAreSeen(FinalLines(chunks), AllLines(output));
      }
    } else {
      var i :| 0 <= i < |AllLines(output)| && |AllLines(output)[i]| > LINE_LIMIT;
      var end := Last(AllLines(output)[i], LINE_KEPT);
      EndSeen(AllLines(output)[i]);
      OneEnding(output, i, end);
      ObservedExactly(output, Plainly(output)[i := end]);
    }
  }

  // ---------- outcomes ----------

  /** An ending of a line that some way of cutting the output leaves of it. */
  predicate Visible(e: string, output: string, i: nat)
    requires i < |AllLines(output)|
  {
    SeenAs(e, AllLines(output)[i]) && (Open(output) != "" && i == |AllLines(output)| - 1 ==> |e| <= LINE_LIMIT)
  }

  /** Every line reports the same as each ending that may be left of it. */
  ghost predicate EndingsReportAlike(output: string, task: Option<string>, decode: string -> string) {
    forall i: nat, e: string :: i < |AllLines(output)| && Visible(e, output, i) ==>
                                  Report(task, decode, e) == Report(task, decode, AllLines(output)[i])
  }

  lemma {:induction false} AlikeReports(task: Option<string>, decode: string -> string, a: seq<string>, b: seq<string>)
    requires |a| == |b| && forall i :: 0 <= i < |a| ==> Report(task, decode, a[i]) == Report(task, decode, b[i])
    ensures Reports(task, decode, a) == Reports(task, decode, b)
  {
    hide Report;
    if a != [] { AlikeReports(task, decode, a[..|a| - 1], b[..|b| - 1]); }
  }

  lemma {:induction false} ReportsAppend(task: Option<string>, decode: string -> string, a: seq<string>, b: seq<string>)
    ensures Reports(task, decode, a + b) == Reports(task, decode, a) + Reports(task, decode, b)
  {
    hide Report;
    if b == [] {
      assert a + b == a;
    } else {
      ReportsAppend(task, decode, a, b[..|b| - 1]);
      assert (a + b)[..|a + b| - 1] == a + b[..|b| - 1];
      Regrouped(Reports(task, decode, a), Reports(task, decode, b[..|b| - 1]), Report(task, decode, b[|b| - 1]));
    }
  }

  /** One line that reports otherwise makes the whole report another. */
  lemma OneReportCounts(task: Option<string>, decode: string -> string, lines: seq<string>, i: nat, e: string)
    requires i < |lines| && Reports(task, decode, lines[i := e]) == Reports(task, decode, lines)
    ensures Report(task, decode, e) == Report(task, decode, lines[i])
  {
    hide Report;
    var front, back := lines[..i], lines[i + 1..];
    assert lines == front + [lines[i]] + back && lines[i := e] == front + [e] + back;
    forall x ensures Reports(task, decode, front + [x] + back)
                     == Reports(task, decode, front) + Report(task, decode, x) + Reports(task, decode, back)
    {
      ReportsAppend(task, decode, front + [x], back);
      assert (front + [x])[..i] == front;
    }
    SameMiddle(Reports(task, decode, front), Report(task, decode, e), Report(task, decode, lines[i]),
      Reports(task, decode, back));
  }

  lemma SameMiddle(a: seq<string>, x: seq<string>, y: seq<string>, b: seq<string>)
    requires a + x + b == a + y + b
    ensures x == y
  {
    assert |x| == |y|;
    assert x == (a + x + b)[|a|..|a| + |x|] && y == (a + y + b)[|a|..|a| + |y|];
  }

  lemma FinalIsVisible(output: string, chunks: seq<string>, i: nat)
    requires Concat(chunks) == output && i < |AllLines(output)|
    ensures i < |FinalLines(chunks)| == |AllLines(output)| && Visible(FinalLines(chunks)[i], output, i)
  {
    hide Concat, FinalLines, AllLines, SeenAs, Open;
    ObservedExactly(output, FinalLines(chunks));
  }

  /**
   For one task and one decoder, the outcomes are those of batch line splitting, for every way of
   cutting the output, exactly when every line reports the same as each ending that may be left of it.
   */
  lemma OutcomesAreBatchIff(output: string, task: Option<string>, decode: string -> string)
    ensures (forall chunks :: Concat(chunks) == output ==>
              Outcomes(chunks, task, decode) == Reports(task, decode, AllLines(output)))
            <==> EndingsReportAlike(output, task, decode)
  {
    hide Concat, FinalLines, AllLines, Reports, Report, Visible;
    if EndingsReportAlike(output, task, decode) {
      forall chunks | Concat(chunks) == output
        ensures Outcomes(chunks, task, decode) == Reports(task, decode, AllLines(output))
      {
        var lines, seen := AllLines(output), FinalLines(chunks);
        ObservedExactly(output, seen);
        assert |seen| == |lines| by { hide SeenAs; }
        forall i | 0 <= i < |seen| ensures Report(task, decode, seen[i]) == Report(task, decode, lines[i]) {
          FinalIsVisible(output, chunks, i);
        }
        AlikeReports(task, decode, seen, lines);
      }
    }
    if forall chunks ::
      Concat(chunks) == output ==> Outcomes(chunks, task, decode) == Reports(task, decode, AllLines(output)) {
      forall i: nat, e: string | i < |AllLines(output)| && Visible(e, output, i)
        ensures Report(task, decode, e) == Report(task, decode, AllLines(output)[i])
      {
        EndingMatters(output, task, decode, i, e);
      }
    }
  }

  /** What an ending reports shows in the outcomes of some way of cutting the output. */
  lemma EndingMatters(output: string, task: Option<string>, decode: string -> string, i: nat, e: string)
    requires forall chunks ::
             Concat(chunks) == output ==> Outcomes(chunks, task, decode) == Reports(task, decode, AllLines(output))
    requires i < |AllLines(output)| && Visible(e, output, i)
    ensures Report(task, decode, e) == Report(task, decode, AllLines(output)[i])
  {
    hide Concat, FinalLines, AllLines, Reports, Report, SeenAs, Open, Plainly, Observable;
    var plain := Plainly(output);
    PlainlyObservable(output);
    ObservedExactly(output, plain);
    OneEnding(output, i, e);
    ObservedExactly(output, plain[i := e]);
    OneReportCounts(task, decode, plain, i, e);
    PlainReport(output, task, decode, i);
  }

  /** Seen plainly, every line reports as it does whole, if the outcomes are those of batch splitting. */
  lemma PlainReport(output: string, task: Option<string>, decode: string -> string, i: nat)
    requires i < |AllLines(output)| && |Plainly(output)| == |AllLines(output)|
    requires Reports(task, decode, Plainly(output)) == Reports(task, decode, AllLines(output))
    ensures Report(task, decode, Plainly(output)[i]) == Report(task, decode, AllLines(output)[i])
  {
    hide Lines, Open, Reports, Report;
    var lines, plain := AllLines(output), Plainly(output);
    if |Open(output)| > LINE_LIMIT {
      var last := |lines| - 1;
      assert plain == lines[last := Last(Open(output), LINE_KEPT)];
      OneReportCounts(task, decode, lines, last, plain[last]);
    }
  }

  // ---------- outcomes of bounded reads ----------

  /** Of every line, whatever may be left of it by the reads reports the same. */
  ghost predicate EndingsAgree(output: string, most: nat, task: Option<string>, decode: string -> string) {
    forall i: nat, a: string, b: string ::
      i < |AllLines(output)| && Left(a, output, most, i) && Left(b, output, most, i) ==>
      Report(task, decode, a) == Report(task, decode, b)
  }

  /** What some reads leave of a line. */
  ghost predicate Left(e: string, output: string, most: nat, i: nat)
    requires i < |AllLines(output)|
  {
    ReadAs(e, AllLines(output)[i], most, i < |Lines(output)|)
  }

  /** Reading as much as possible each time. */
  function FullReads(output: string, most: nat): seq<string>
    requires most >= 1
    decreases |output|
  {
    if output == "" then []
    else if |output| <= most then [output]
    else FullReads(output[..|output| - most], most) + [output[|output| - most..]]
  }

  lemma {:induction false} FullReadsAre(output: string, most: nat)
    requires most >= 1
    ensures Reads(FullReads(output, most), most) && Concat(FullReads(output, most)) == output
    decreases |output|
  {
    if |output| <= most {
      ShortRead(output, most);
    } else {
      hide FullReads, Concat;
      var front, back := output[..|output| - most], output[|output| - most..];
      FullReadsAre(front, most);
      LastRead(output, most);
      assert output == front + back;
    }
  }

  lemma ShortRead(output: string, most: nat)
    requires |output| <= most && most >= 1
    ensures Reads(FullReads(output, most), most) && Concat(FullReads(output, most)) == output
  {
    assert [output][..0] == [] && "" + output == output;
  }

  lemma LastRead(output: string, most: nat)
    requires |output| > most >= 1
    ensures var front, back := output[..|output| - most], output[|output| - most..];
            && FullReads(output, most) == FullReads(front, most) + [back]
            && Concat(FullReads(output, most)) == Concat(FullReads(front, most)) + back
  {
    OneMoreChunk(FullReads(output[..|output| - most], most), output[|output| - most..]);
  }

  lemma LeftByReads(output: string, most: nat, chunks: seq<string>)
    requires Reads(chunks, most) && Concat(chunks) == output
    ensures |FinalLines(chunks)| == |AllLines(output)|
    ensures forall i :: 0 <= i < |AllLines(output)| ==> Left(FinalLines(chunks)[i], output, most, i)
  {
    hide FinalLines, AllLines, Lines, ReadAs;
    FinalReadAs(chunks, most);
  }

  /**
   For one task, one decoder and reads of at most so many bytes: the outcomes are always those of batch
   line splitting exactly when they are for full reads, and nothing that may be left of a line by other
   reads reports otherwise.
   */
  lemma ReadOutcomesAreBatchIff(output: string, most: nat, task: Option<string>, decode: string -> string)
    requires most >= 1
    ensures (forall chunks :: Reads(chunks, most) && Concat(chunks) == output ==>
              Outcomes(chunks, task, decode) == Reports(task, decode, AllLines(output)))
            <==> (&& Outcomes(FullReads(output, most), task, decode) == Reports(task, decode, AllLines(output))
                  && EndingsAgree(output, most, task, decode))
  {
    hide Concat, FinalLines, AllLines, Reports, Report, Left, FullReads, Reads;
    var full := FullReads(output, most);
    FullReadsAre(output, most);
    LeftByReads(output, most, full);
    if EndingsAgree(output, most, task, decode) {
      forall chunks | Reads(chunks, most) && Concat(chunks) == output
        ensures Outcomes(chunks, task, decode) == Outcomes(full, task, decode)
      {
        LeftByReads(output, most, chunks);
        AlikeReports(task, decode, FinalLines(chunks), FinalLines(full));
      }
    }
    if forall chunks :: Reads(chunks, most) && Concat(chunks) == output ==>
        Outcomes(chunks, task, decode) == Reports(task, decode, AllLines(output)) {
      forall i: nat, a: string, b: string | i < |AllLines(output)| && Left(a, output, most, i)
        && Left(b, output, most, i)
        ensures Report(task, decode, a) == Report(task, decode, b)
      {
        LeftMatters(output, most, task, decode, i, a);
        LeftMatters(output, most, task, decode, i, b);
      }
    }
  }

  /** What may be left of a line shows in the outcomes of some reads. */
  lemma LeftMatters(output: string, most: nat, task: Option<string>, decode: string -> string, i: nat, e: string)
    requires most >= 1 && i < |AllLines(output)| && Left(e, output, most, i)
    requires forall chunks :: Reads(chunks, most) && Concat(chunks) == output ==>
               Outcomes(chunks, task, decode) == Reports(task, decode, AllLines(output))
    ensures i < |FinalLines(FullReads(output, most))|
    ensures Report(task, decode, e) == Report(task, decode, FinalLines(FullReads(output, most))[i])
  {
    hide Concat, FinalLines, AllLines, Reports, Report, ReadAs, FullReads, Reads, Lines;
    FullReadsAre(output, most);
    LeftByReads(output, most, FullReads(output, most));
    var seen := FinalLines(FullReads(output, most));
    forall k | 0 <= k < |seen| ensures ReadAs(seen[i := e][k], AllLines(output)[k], most, k < |Lines(output)|) {
      assert Left(seen[k], output, most, k);
    }
    ReadExactly(output, most, seen[i := e]);
    OneReportCounts(task, decode, seen, i, e);
  }

  // ---------- all tasks and decoders ----------

  const MISLEADING: string := "> Task :a"

  /** A decoder that turns one line into a task line and every other into nothing. */
  function Marking(line: string): string -> string { bytes => if bytes == line then MISLEADING else "" }

  lemma MarkedReport(line: string, bytes: string)
    ensures Report(Some(":a"), Marking(line), bytes) == if bytes == line then ["EXECUTED"] else []
  {
    hide TaskOutcome, PlainText;
    NoEscapes(MISLEADING);
    NoEscapes("");
    IndentedTask(0);
    assert Repeat(' ', 0) + MISLEADING == MISLEADING;
    NoTaskInNothing();
  }

  lemma NoTaskInNothing()
    ensures TaskOutcome("", ":a") == None
  {}

  /** For all tasks and decoders at once, that is when no line is overlong. */
  lemma OutcomesAreBatchIffShort(output: string)
    ensures (forall chunks, task, decode :: Concat(chunks) == output ==>
              Outcomes(chunks, task, decode) == Reports(task, decode, AllLines(output))) <==> AllShort(output)
  {
    hide Concat, FinalLines, AllLines, Reports, Report, Marking, Open, SeenAs;
    if AllShort(output) {
      LinesObservedIffShort(output);
    } else {
      var i: nat :| i < |AllLines(output)| && |AllLines(output)[i]| > LINE_LIMIT;
      var line := AllLines(output)[i];
      EndSeen(line);
      MarkedReport(line, line);
      MarkedReport(line, Last(line, LINE_KEPT));
      assert Visible(Last(line, LINE_KEPT), output, i);
      OutcomesAreBatchIff(output, Some(":a"), Marking(line));
    }
  }

  // ---------- an output ----------

  function AsText(bytes: string): string { bytes }

  lemma {:induction false} SpacesSkipped(n: nat, s: string)
    ensures SkipSpace(Repeat(' ', n) + s) == SkipSpace(s)
  {
    if n == 0 {
      assert Repeat(' ', 0) + s == s;
    } else {
      assert (Repeat(' ', n) + s)[1..] == Repeat(' ', n - 1) + s;
      SpacesSkipped(n - 1, s);
    }
  }

  lemma {:induction false} NoEscapes(s: string)
    requires forall i :: 0 <= i < |s| ==> s[i] != '\U{1B}'
    ensures PlainText(s) == s
  {
    if s != "" { NoEscapes(s[1..]); }
  }

  lemma NotATask(s: string, task: string)
    requires s != "" && s[0] == 'x'
    ensures TaskOutcome(s, task) == None
  {
    assert SkipSpace(s) == s;
  }

  lemma IndentedTask(n: nat)
    ensures TaskOutcome(Repeat(' ', n) + MISLEADING, ":a") == Some("EXECUTED")
  {
    SpacesSkipped(n, MISLEADING);
    assert SkipSpace(MISLEADING) == MISLEADING;
    assert MISLEADING[7..] == ":a" && MISLEADING[9..] == "";
    assert Word(":a") == ":a" by { assert ":a"[1..] == "a" && "a"[1..] == ""; }
  }

  /** Read as the program reads, an overlong line that mentions a task only at its end is reported as that task. */
  lemma OverlongLineMisleads()
    ensures var line := Repeat('x', LINE_LIMIT + 1 - LINE_KEPT) + (Repeat(' ', LINE_KEPT - |MISLEADING|) + MISLEADING);
            var chunks := [line[..READ_SIZE], line[READ_SIZE..2 * READ_SIZE], line[2 * READ_SIZE..]];
            && |line| == LINE_LIMIT + 1 && Reads(chunks, READ_SIZE) && Concat(chunks) == line
            && Reports(Some(":a"), AsText, AllLines(line)) == []
            && Outcomes(chunks, Some(":a"), AsText) == ["EXECUTED"]
  {
    hide TaskOutcome, PlainText, Lines, Open, LinesSeen, OpenSeen, Concat;
    var n := LINE_KEPT - |MISLEADING|;
    var end := Repeat(' ', n) + MISLEADING;
    var line := Repeat('x', LINE_LIMIT + 1 - LINE_KEPT) + end;
    var a, b, c := line[..READ_SIZE], line[READ_SIZE..2 * READ_SIZE], line[2 * READ_SIZE..];
    Unsplit(line);
    NoReads(READ_SIZE);
    assert a + b == line[..2 * READ_SIZE] && a + b + c == line;
    assert OneLine(a) && OneLine(a + b) && OneLine(a + b + c);
    assert "" + a == a;
    assert [] + [a] == [a] && [a] + [b] == [a, b] && [a, b] + [c] == [a, b, c];
    assert Guarded(a) == a && Guarded(a + b) == a + b;
    ReadOne([], READ_SIZE, "", [], "", a);
    ReadOne([a], READ_SIZE, a, [], a, b);
    ReadOne([a, b], READ_SIZE, a + b, [], a + b, c);
    assert Guarded(line) == end;
    OneReport(line);
    OneReport(end);
    NoEscapes(line);
    NoEscapes(end);
    NotATask(line, ":a");
    IndentedTask(n);
  }

  /** A line of one letter, as long as it may be, is harmless: none of its endings mentions a task. */
  lemma LetterLineIsHarmless(n: nat)
    ensures EndingsReportAlike(Repeat('x', n), Some(":a"), AsText)
  {
    hide TaskOutcome, PlainText, Lines, Open;
    var line := Repeat('x', n);
    Unsplit(line);
    forall i: nat, e: string | i < |AllLines(line)| && Visible(e, line, i)
      ensures Report(Some(":a"), AsText, e) == Report(Some(":a"), AsText, AllLines(line)[i])
    {
      assert AllLines(line)[i] == line;
      NoEscapes(line);
      NoEscapes(e);
      NotATask(line, ":a");
      NotATask(e, ":a");
    }
  }

  lemma OneReport(line: string)
    ensures Reports(Some(":a"), AsText, [line]) == Report(Some(":a"), AsText, line)
  {
    hide Report;
    assert [line][..0] == [] && Reports(Some(":a"), AsText, []) == [];
  }
}
