/**
 Searching and splitting a stream that arrives in chunks. Bytes are written as the characters
 with their codes; decoding a line as UTF-8 is a parameter.
 */
module OutputText {
  import opened Basics
  import opened PythonText

  const LINE_LIMIT := 16 * 1024
  const LINE_KEPT := 1024

  // ---------- searching ----------

  function LowerByte(c: char): char { if 'A' <= c <= 'Z' then c - 'A' + 'a' else c }

  function Lower(s: string): (r: string)
    ensures |r| == |s| && forall i :: 0 <= i < |s| ==> r[i] == LowerByte(s[i])
  {
    seq(|s|, i requires 0 <= i < |s| => LowerByte(s[i]))
  }

  lemma LowerConcat(a: string, b: string)
    ensures Lower(a + b) == Lower(a) + Lower(b)
  {}

  function Last(s: string, n: nat): string { if |s| <= n then s else s[|s| - n..] }

  lemma AtPrefix(pattern: string, a: string, b: string, i: nat)
    requires i + |pattern| <= |a|
    ensures PartAt(a + b, pattern, i) <==> PartAt(a, pattern, i)
  {
    assert (a + b)[i..i + |pattern|] == a[i..i + |pattern|];
  }

  lemma AtSuffix(pattern: string, s: string, k: nat, i: nat)
    requires k <= |s|
    ensures PartAt(s[k..], pattern, i) <==> PartAt(s, pattern, k + i)
  {
    if k + i + |pattern| <= |s| { assert s[k..][i..i + |pattern|] == s[k + i..k + i + |pattern|]; }
  }

  /** A pattern occurs in a stream that grew iff it did before or meets the new part, with a short carry. */
  lemma OccursAcross(pattern: string, a: string, b: string, n: nat)
    requires 1 <= |pattern| <= n + 1
    ensures Contains(a + b, pattern) <==> Contains(a, pattern) || Contains(Last(a, n) + b, pattern)
  {
    var k := |a| - |Last(a, n)|;
    var end := Last(a, n) + b;
    assert (a + b)[k..] == end;
    if Contains(a, pattern) {
      var i :| 0 <= i <= |a| && PartAt(a, pattern, i);
      AtPrefix(pattern, a, b, i);
    }
    if Contains(end, pattern) {
      var i :| 0 <= i <= |end| && PartAt(end, pattern, i);
      AtSuffix(pattern, a + b, k, i);
    }
    if Contains(a + b, pattern) {
      var i :| 0 <= i <= |a + b| && PartAt(a + b, pattern, i);
      if i + |pattern| <= |a| { AtPrefix(pattern, a, b, i); } else { AtSuffix(pattern, a + b, k, i - k); }
    }
  }

  lemma LastLast(a: string, b: string, n: nat)
    ensures Last(Last(a, n) + b, n) == Last(a + b, n)
  {}

  lemma LastNone(s: string)
    ensures Last(s, 0) == ""
  {}

  /** The tail kept of a stream; a limit of zero removes nothing. */
  function Tail(s: string, limit: nat): string { if limit == 0 then s else Last(s, limit) }

  lemma TailGrows(s: string, data: string, limit: nat)
    ensures var t := Tail(s, limit) + data; (if |t| > limit then Tail(t, limit) else t) == Tail(s + data, limit)
  {
    LastLast(s, data, limit);
  }

  /** The names whose pattern occurs. */
  function Hits(patterns: map<string, string>, s: string): set<string> {
    set name | name in patterns && Contains(s, patterns[name])
  }

  // ---------- lines ----------

  predicate OneLine(s: string) { forall i :: 0 <= i < |s| ==> s[i] != '\n' }

  function Newline(s: string): (i: nat)
    ensures i <= |s| && (i < |s| ==> s[i] == '\n') && forall k :: 0 <= k < i ==> s[k] != '\n'
  {
    if s == "" || s[0] == '\n' then 0 else 1 + Newline(s[1..])
  }

  /** The complete lines, and what follows the last newline. */
  function Lines(s: string): seq<string>
    decreases |s|
  {
    var n := Newline(s);
    if n == |s| then [] else [s[..n]] + Lines(s[n + 1..])
  }

  function Open(s: string): (r: string)
    ensures |r| <= |s| && OneLine(r)
    decreases |s|
  {
    var n := Newline(s);
    if n == |s| then s else Open(s[n + 1..])
  }

  lemma NewlineIs(s: string, n: nat)
    requires n <= |s| && OneLine(s[..n]) && (n < |s| ==> s[n] == '\n')
    ensures Newline(s) == n
  {
    assert forall k :: 0 <= k < n ==> s[k] == s[..n][k];
  }

  lemma Unsplit(s: string)
    requires OneLine(s)
    ensures Lines(s) == [] && Open(s) == s
  {
    assert s[..|s|] == s;
    NewlineIs(s, |s|);
  }

  lemma Split(first: string, rest: string)
    requires OneLine(first)
    ensures Lines(first + ['\n'] + rest) == [first] + Lines(rest) && Open(first + ['\n'] + rest) == Open(rest)
  {
    var s := first + ['\n'] + rest;
    assert s[..|first|] == first && s[|first| + 1..] == rest;
    NewlineIs(s, |first|);
  }

  lemma AtNewline(s: string)
    requires Newline(s) < |s|
    ensures OneLine(s[..Newline(s)]) && s == s[..Newline(s)] + ['\n'] + s[Newline(s) + 1..]
  {
    Recompose(s, Newline(s));
  }

  lemma Recompose(s: string, n: nat)
    requires n < |s|
    ensures s == s[..n] + [s[n]] + s[n + 1..]
  {}

  lemma LinesUnfold(s: string)
    ensures var n := Newline(s);
            && Lines(s) == (if n == |s| then [] else [s[..n]] + Lines(s[n + 1..]))
            && Open(s) == (if n == |s| then s else Open(s[n + 1..]))
  {
    hide Newline, OneLine;
    if Newline(s) < |s| {
      assert Lines(s) == [s[..Newline(s)]] + Lines(s[Newline(s) + 1..]) by { hide Open; }
      assert Open(s) == Open(s[Newline(s) + 1..]) by { hide Lines; }
    }
  }

  /** Splitting may go on from the open line. */
  lemma {:induction false} LinesConcat(a: string, b: string)
    ensures Lines(a + b) == Lines(a) + Lines(Open(a) + b) && Open(a + b) == Open(Open(a) + b)
    decreases |a|
  {
    hide Newline, Lines, Open;
    var n := Newline(a);
    if n < |a| {
      AtNewline(a);
      var first, rest := a[..n], a[n + 1..];
      LinesConcat(rest, b);
      Split(first, rest);
      Split(first, rest + b);
      assert a + b == first + ['\n'] + (rest + b);
      assert [first] + (Lines(rest) + Lines(Open(rest) + b)) == [first] + Lines(rest) + Lines(Open(rest) + b);
    } else {
      assert a[..n] == a;
      Unsplit(a);
    }
  }

  /**
   A line seen through the length guard: itself, or an ending of it that begins where the guard can
   have cut, after more than LINE_LIMIT characters less the LINE_KEPT ones it keeps.
   */
  predicate SeenAs(seen: string, line: string) {
    && |seen| <= |line| && seen == line[|line| - |seen|..]
    && (|seen| < |line| ==> LINE_KEPT <= |seen| <= |line| - (LINE_LIMIT + 1 - LINE_KEPT))
  }

  predicate AllSeenAs(seen: seq<string>, lines: seq<string>) {
    |seen| == |lines| && forall i :: 0 <= i < |lines| ==> SeenAs(seen[i], lines[i])
  }

  lemma SeenAsExtends(seen: string, line: string, more: string)
    requires SeenAs(seen, line)
    ensures SeenAs(seen + more, line + more)
  {}

  lemma SelfSeen(line: string)
    ensures SeenAs(line, line)
  {
    assert line == line[0..];
  }

  lemma AllSeenFrom(seen: string, line: string, rest: seq<string>)
    requires SeenAs(seen, line)
    ensures AllSeenAs([seen] + rest, [line] + rest)
  {
    hide SeenAs;
    forall i | 0 <= i < |rest| ensures SeenAs(rest[i], rest[i]) { SelfSeen(rest[i]); }
  }

  lemma AllSeenAppend(a: seq<string>, b: seq<string>, c: seq<string>, d: seq<string>)
    requires AllSeenAs(a, b) && AllSeenAs(c, d)
    ensures AllSeenAs(a + c, b + d)
  {
    hide SeenAs;
  }

  /** Feeding after a guarded open line gives guarded lines. */
  lemma FeedSeenAs(seen: string, line: string, data: string)
    requires SeenAs(seen, line) && OneLine(line)
    ensures AllSeenAs(Lines(seen + data), Lines(line + data)) && SeenAs(Open(seen + data), Open(line + data))
  {
    hide Newline, Lines, Open, SeenAs, OneLine;
    var n := Newline(data);
    EndsClean(seen, line);
    if n == |data| {
      OneLineData(seen, data);
      OneLineData(line, data);
      Unsplit(seen + data);
      Unsplit(line + data);
      SeenAsExtends(seen, line, data);
    } else {
      AtNewline(data);
      var first, rest := data[..n], data[n + 1..];
      OneLineAppend(seen, first);
      OneLineAppend(line, first);
      assert seen + data == (seen + first) + ['\n'] + rest && line + data == (line + first) + ['\n'] + rest;
      Split(seen + first, rest);
      Split(line + first, rest);
      SeenAsExtends(seen, line, first);
      AllSeenFrom(seen + first, line + first, Lines(rest));
      SelfSeen(Open(rest));
    }
  }

  lemma OneLineAppend(a: string, b: string)
    requires OneLine(a) && OneLine(b)
    ensures OneLine(a + b)
  {}

  lemma OneLineData(a: string, data: string)
    requires OneLine(a) && Newline(data) == |data|
    ensures OneLine(a + data)
  {}

  lemma EndsClean(seen: string, line: string)
    requires SeenAs(seen, line) && OneLine(line)
    ensures OneLine(seen)
  {}

  /** Dropping all but the end of an overlong open line. */
  function Guarded(partial: string): string { if |partial| > LINE_LIMIT then Last(partial, LINE_KEPT) else partial }

  lemma GuardedSeenAs(partial: string, line: string)
    requires SeenAs(partial, line)
    ensures SeenAs(Guarded(partial), line)
  {}

  // ---------- chunks ----------

  function Concat(chunks: seq<string>): string {
    if chunks == [] then "" else Concat(chunks[..|chunks| - 1]) + chunks[|chunks| - 1]
  }

  /** The guarded open line, and the lines observed, after some chunks. */
  function OpenSeen(chunks: seq<string>): string {
    if chunks == [] then "" else Guarded(Open(OpenSeen(chunks[..|chunks| - 1]) + chunks[|chunks| - 1]))
  }

  function LinesSeen(chunks: seq<string>): seq<string> {
    if chunks == [] then []
    else LinesSeen(chunks[..|chunks| - 1]) + Lines(OpenSeen(chunks[..|chunks| - 1]) + chunks[|chunks| - 1])
  }

  /** All lines observed once the stream is over: the open line counts when it is not empty. */
  function FinalLines(chunks: seq<string>): seq<string> {
    LinesSeen(chunks) + if OpenSeen(chunks) == "" then [] else [OpenSeen(chunks)]
  }

  lemma OneMoreChunk(chunks: seq<string>, data: string)
    ensures Concat(chunks + [data]) == Concat(chunks) + data
    ensures LinesSeen(chunks + [data]) == LinesSeen(chunks) + Lines(OpenSeen(chunks) + data)
    ensures OpenSeen(chunks + [data]) == Guarded(Open(OpenSeen(chunks) + data))
  {
    hide Lines, Open, Guarded;
    assert (chunks + [data])[..|chunks|] == chunks;
  }

  /** However a stream is cut, the lines observed are its lines, each seen through the guard. */
  lemma {:induction false} ChunksSeenAs(chunks: seq<string>)
    ensures AllSeenAs(LinesSeen(chunks), Lines(Concat(chunks))) && SeenAs(OpenSeen(chunks), Open(Concat(chunks)))
  {
    hide Lines, Open, SeenAs, AllSeenAs, Guarded;
    if chunks == [] {
      NothingSeen();
    } else {
      var front, data := chunks[..|chunks| - 1], chunks[|chunks| - 1];
      ChunksSeenAs(front);
      FeedSeenAs(OpenSeen(front), Open(Concat(front)), data);
      LinesConcat(Concat(front), data);
      AllSeenAppend(LinesSeen(front), Lines(Concat(front)), Lines(OpenSeen(front) + data),
        Lines(Open(Concat(front)) + data));
      GuardedSeenAs(Open(OpenSeen(front) + data), Open(Open(Concat(front)) + data));
    }
  }

  lemma NothingSeen()
    ensures AllSeenAs([], Lines("")) && SeenAs("", Open(""))
  {}

  lemma FinalSeenAs(chunks: seq<string>)
    ensures AllSeenAs(FinalLines(chunks), AllLines(Concat(chunks)))
  {
    hide Lines, Open;
    ChunksSeenAs(chunks);
  }

  // ---------- task lines ----------

  function SkipSpace(s: string): string { if s != "" && IsSpace(s[0]) then SkipSpace(s[1..]) else s }

  function Word(s: string): (w: string)
    ensures w <= s
  {
    if s != "" && !IsSpace(s[0]) then [s[0]] + Word(s[1..]) else ""
  }

  const OUTCOMES: seq<string> := ["UP-TO-DATE", "FROM-CACHE", "NO-SOURCE", "SKIPPED", "FAILED"]

  /** The outcome a whole-line match of the task pattern reports for the given task. */
  function TaskOutcome(text: string, task: string): Option<string> {
    var s := SkipSpace(text);
    if !("> Task " <= s) then None
    else
      var name := Word(s[7..]);
      var rest := s[7 + |name|..];
      if name == "" || name != task then None
      else if SkipSpace(rest) == "" then Some("EXECUTED")
      else
        var outcome := Word(rest[1..]);
        if rest[0] == ' ' && outcome in OUTCOMES && SkipSpace(rest[1 + |outcome|..]) == "" then Some(outcome) else None
  }

  function StripReturns(s: string): string
    decreases |s|
  {
    if s != "" && s[|s| - 1] == '\r' then StripReturns(s[..|s| - 1]) else s
  }

  function Skip(s: string, low: char, high: char): (r: string)
    ensures |r| <= |s|
  {
    if s != "" && low <= s[0] <= high then Skip(s[1..], low, high) else s
  }

  /** The text without terminal escapes: `ESC [`, parameters, intermediates and a final character. */
  function PlainText(s: string): string
    decreases |s|
  {
    if s == "" then ""
    else if |s| >= 2 && s[0] == '\U{1B}' && s[1] == '[' then
      var rest := Skip(Skip(s[2..], '0', '?'), ' ', '/');
      if rest != "" && '@' <= rest[0] <= '~' then PlainText(rest[1..]) else [s[0]] + PlainText(s[1..])
    else [s[0]] + PlainText(s[1..])
  }

  /** What one raw line adds to the outcomes. */
  function Report(task: Option<string>, decode: string -> string, line: string): seq<string> {
    if task.None? || task.value == "" then []
    else
      match TaskOutcome(PlainText(StripReturns(decode(line))), task.value)
      case None => []
      case Some(outcome) => [outcome]
  }

  function Reports(task: Option<string>, decode: string -> string, lines: seq<string>): seq<string> {
    if lines == [] then []
    else Reports(task, decode, lines[..|lines| - 1]) + Report(task, decode, lines[|lines| - 1])
  }

  /** All lines of a finished stream: the open line counts when it is not empty. */
  function AllLines(s: string): seq<string> { Lines(s) + if Open(s) == "" then [] else [Open(s)] }

  /** What the observer reports, as a function of the chunks it is fed. */
  function Outcomes(chunks: seq<string>, task: Option<string>, decode: string -> string): seq<string> {
    Reports(task, decode, FinalLines(chunks))
  }

  /** Without overlong lines, what is seen is what batch splitting gives. */
  lemma ShortLinesAreSeen(seen: seq<string>, lines: seq<string>)
    requires AllSeenAs(seen, lines) && forall i :: 0 <= i < |lines| ==> |lines[i]| <= LINE_LIMIT
    ensures seen == lines
  {}
}
