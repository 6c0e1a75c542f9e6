/**
 What the observer makes of output that is read a bounded number of bytes at a time. An open line is
 cut only where a read ends, so the bound decides where a line can be cut and how long it can stay.
 */
module OutputReads {
  import opened Basics
  import opened OutputText

  /** The most bytes the program reads at once. */
  const READ_SIZE := 8192

  /** How much longer a guarded line must grow to be cut once more. */
  const STEP := LINE_LIMIT - LINE_KEPT

  predicate Reads(chunks: seq<string>, most: nat) { forall i :: 0 <= i < |chunks| ==> 1 <= |chunks[i]| <= most }

  // ---------- where a line can be cut ----------

  /** Between these two places of a line its cut number k is made, the first one having number 0. */
  function Earliest(k: nat): nat { if k == 0 then LINE_LIMIT + 1 else Earliest(k - 1) + STEP + 1 }

  function Latest(k: nat, most: nat): nat { if k == 0 then LINE_LIMIT + most else Latest(k - 1, most) + STEP + most }

  ghost predicate CutPlace(p: int, most: nat) { exists k: nat :: CutAt(k, p, most) }

  predicate CutAt(k: nat, p: int, most: nat) { Earliest(k) <= p <= Latest(k, most) }

  /** The line itself, or what follows a place where it can be cut, with the part kept before it. */
  ghost predicate EndingOf(e: string, line: string, most: nat) {
    && |e| <= |line| && e == line[|line| - |e|..]
    && (|e| < |line| ==> |e| >= LINE_KEPT && CutPlace(|line| - |e| + LINE_KEPT, most))
  }

  /** What is observed of a line: with the read that ends it, it may be longer than the limit. */
  ghost predicate ReadAs(e: string, line: string, most: nat, ended: bool) {
    EndingOf(e, line, most) && |e| <= LINE_LIMIT + if ended then most - 1 else 0
  }

  ghost predicate AllReadAs(seen: seq<string>, lines: seq<string>, most: nat) {
    |seen| == |lines| && forall i :: 0 <= i < |lines| ==> ReadAs(seen[i], lines[i], most, true)
  }

  /** What may be observed of an output that is read so. */
  ghost predicate ReadObservable(seen: seq<string>, output: string, most: nat) {
    && |seen| == |AllLines(output)|
    && forall i :: 0 <= i < |seen| ==> ReadAs(seen[i], AllLines(output)[i], most, i < |Lines(output)|)
  }

  // ---------- nothing else is observed ----------

  lemma EndingExtends(e: string, line: string, more: string, most: nat)
    requires EndingOf(e, line, most)
    ensures EndingOf(e + more, line + more, most)
  {
    hide CutPlace;
    assert (line + more)[|line| - |e|..] == e + more;
  }

  lemma SelfEnding(line: string, most: nat)
    ensures EndingOf(line, line, most)
  {}

  /** One more cut. */
  lemma CutAgain(partial: string, line: string, most: nat)
    requires EndingOf(partial, line, most) && LINE_LIMIT < |partial| <= LINE_LIMIT + most
    ensures EndingOf(Last(partial, LINE_KEPT), line, most)
  {
    if |partial| == |line| {
      assert CutAt(0, |line|, most);
    } else {
      var k: nat :| CutAt(k, |line| - |partial| + LINE_KEPT, most);
      assert CutAt(k + 1, |line|, most);
    }
  }

  lemma GuardedEnding(partial: string, line: string, most: nat)
    requires EndingOf(partial, line, most) && |partial| <= LINE_LIMIT + most
    ensures EndingOf(Guarded(partial), line, most) && |Guarded(partial)| <= LINE_LIMIT
  {
    hide EndingOf;
    if |partial| > LINE_LIMIT { CutAgain(partial, line, most); }
  }

  lemma {:induction false} WholeLines(data: string, most: nat)
    requires |data| < most
    ensures AllReadAs(Lines(data), Lines(data), most) && |Open(data)| <= |data|
  {
    hide Lines, Open, EndingOf;
    forall i | 0 <= i < |Lines(data)| ensures ReadAs(Lines(data)[i], Lines(data)[i], most, true) {
      SelfEnding(Lines(data)[i], most);
      LineIsShorter(data, i);
    }
  }

  lemma {:induction false} LineIsShorter(data: string, i: nat)
    requires i < |Lines(data)|
    ensures |Lines(data)[i]| < |data|
    decreases |data|
  {
    hide Newline;
    LinesUnfold(data);
    var n := Newline(data);
    if n < |data| && i > 0 { LineIsShorter(data[n + 1..], i - 1); }
  }

  /** One read after a guarded open line. */
  lemma FeedReadAs(e: string, line: string, data: string, most: nat)
    requires EndingOf(e, line, most) && OneLine(line) && |e| <= LINE_LIMIT && |data| <= most
    ensures AllReadAs(Lines(e + data), Lines(line + data), most)
    ensures EndingOf(Open(e + data), Open(line + data), most) && |Open(e + data)| <= LINE_LIMIT + most
  {
    hide Newline, Lines, Open, EndingOf, OneLine;
    EndingClean(e, line, most);
    var n := Newline(data);
    if n == |data| {
      OneLineData(e, data);
      OneLineData(line, data);
      Unsplit(e + data);
      Unsplit(line + data);
      EndingExtends(e, line, data, most);
    } else {
      AtNewline(data);
      var first, rest := data[..n], data[n + 1..];
      OneLineAppend(e, first);
      OneLineAppend(line, first);
      assert e + data == (e + first) + ['\n'] + rest && line + data == (line + first) + ['\n'] + rest;
      Split(e + first, rest);
      Split(line + first, rest);
      EndingExtends(e, line, first, most);
      WholeLines(rest, most);
      SelfEnding(Open(rest), most);
    }
  }

  lemma EndingClean(e: string, line: string, most: nat)
    requires EndingOf(e, line, most) && OneLine(line)
    ensures OneLine(e)
  {
    hide CutPlace;
  }

  lemma AllReadAppend(a: seq<string>, b: seq<string>, c: seq<string>, d: seq<string>, most: nat)
    requires AllReadAs(a, b, most) && AllReadAs(c, d, most)
    ensures AllReadAs(a + c, b + d, most)
  {
    hide ReadAs;
  }

  lemma {:induction false} ChunksReadAs(chunks: seq<string>, most: nat)
    requires Reads(chunks, most)
    ensures AllReadAs(LinesSeen(chunks), Lines(Concat(chunks)), most)
    ensures EndingOf(OpenSeen(chunks), Open(Concat(chunks)), most) && |OpenSeen(chunks)| <= LINE_LIMIT
  {
    hide Lines, Open, EndingOf, AllReadAs, Guarded;
    if chunks == [] {
      NothingRead(most);
    } else {
      var front, data := chunks[..|chunks| - 1], chunks[|chunks| - 1];
      ChunksReadAs(front, most);
      FeedReadAs(OpenSeen(front), Open(Concat(front)), data, most);
      LinesConcat(Concat(front), data);
      AllReadAppend(LinesSeen(front), Lines(Concat(front)), Lines(OpenSeen(front) + data),
        Lines(Open(Concat(front)) + data), most);
      GuardedEnding(Open(OpenSeen(front) + data), Open(Open(Concat(front)) + data), most);
    }
  }

  lemma NothingRead(most: nat)
    ensures AllReadAs([], Lines(""), most) && EndingOf("", Open(""), most)
  {}

  lemma FinalReadAs(chunks: seq<string>, most: nat)
    requires Reads(chunks, most)
    ensures ReadObservable(FinalLines(chunks), Concat(chunks), most)
  {
    hide Lines, Open, EndingOf, LinesSeen, OpenSeen, Concat;
    ChunksReadAs(chunks, most);
    EmptyEnding(OpenSeen(chunks), Open(Concat(chunks)), most);
  }

  lemma EmptyEnding(e: string, line: string, most: nat)
    requires EndingOf(e, line, most)
    ensures e == "" <==> line == ""
  {
    hide CutPlace;
  }

  // ---------- all of it is observed for some reads ----------

  /** Some reads: their text, the lines observed, and the open line as it is kept. */
  ghost predicate At(chunks: seq<string>, most: nat, text: string, seen: seq<string>, partial: string) {
    Reads(chunks, most) && Concat(chunks) == text && LinesSeen(chunks) == seen && OpenSeen(chunks) == partial
  }

  lemma ReadOne(chunks: seq<string>, most: nat, text: string, seen: seq<string>, partial: string, x: string)
    requires At(chunks, most, text, seen, partial) && OneLine(partial + x) && 1 <= |x| <= most
    ensures At(chunks + [x], most, text + x, seen, Guarded(partial + x))
  {
    hide Lines, Open, LinesSeen, OpenSeen, Concat, Guarded;
    OneMoreChunk(chunks, x);
    Unsplit(partial + x);
    assert seen + [] == seen;
  }

  /** As long as the open line stays within the limit, nothing is cut. */
  lemma {:induction false} ReadQuietly(
    chunks: seq<string>, most: nat, text: string, seen: seq<string>, partial: string, x: string)
    returns (more: seq<string>)
    requires At(chunks, most, text, seen, partial) && OneLine(partial + x) && |partial + x| <= LINE_LIMIT && most >= 1
    ensures At(more, most, text + x, seen, partial + x)
    decreases |x|
  {
    hide LinesSeen, OpenSeen, Concat, At;
    if x == "" {
      more := chunks;
      assert text + x == text && partial + x == partial;
    } else {
      var a, b := x[..1], x[1..];
      assert x == a + b;
      assert partial + x == (partial + a) + b;
      OneLineParts(partial + x, |partial + a|);
      ReadOne(chunks, most, text, seen, partial, a);
      more := ReadQuietly(chunks + [a], most, text + a, seen, partial + a, b);
      assert text + a + b == text + x && partial + a + b == partial + x;
    }
  }

  lemma OneLineParts(line: string, n: nat)
    requires OneLine(line) && n <= |line|
    ensures OneLine(line[..n]) && OneLine(line[n..])
  {}

  /** Growing beyond the limit at the end of a read, so that the line is cut there. */
  lemma ReadAndCut(chunks: seq<string>, most: nat, text: string, seen: seq<string>, partial: string, x: string)
    returns (more: seq<string>)
    requires At(chunks, most, text, seen, partial) && OneLine(partial + x)
    requires |partial| <= LINE_LIMIT < |partial + x| <= LINE_LIMIT + most
    ensures At(more, most, text + x, seen, Last(partial + x, LINE_KEPT))
  {
    hide LinesSeen, OpenSeen, Concat, At;
    var n := LINE_LIMIT - |partial|;
    var a, b := x[..n], x[n..];
    assert x == a + b;
    assert partial + x == (partial + a) + b;
    OneLineParts(partial + x, |partial + a|);
    var front := ReadQuietly(chunks, most, text, seen, partial, a);
    ReadOne(front, most, text + a, seen, partial + a, b);
    more := front + [b];
    assert text + a + b == text + x;
  }

  /** Reads that cut a line at any place where it can be cut. */
  lemma {:induction false} ReadToCut(
    chunks: seq<string>, most: nat, text: string, seen: seq<string>, line: string, k: nat, p: nat)
    returns (more: seq<string>)
    requires At(chunks, most, text, seen, "") && OneLine(line) && p <= |line| && CutAt(k, p, most) && most >= 1
    ensures LINE_KEPT <= p && At(more, most, text + line[..p], seen, line[p - LINE_KEPT..p])
    decreases k
  {
    hide LinesSeen, OpenSeen, Concat, At, CutAt, OneLine;
    CutIsLate(k, p, most);
    if k == 0 {
      FirstCut(p, most);
      Slices(line, 0, 0, p);
      assert line[0..0] == "" && line[..0] == "" && text + "" == text;
      more := ReadAndCut(chunks, most, text, seen, "", line[0..p]);
    } else {
      var q := PreviousCut(k, p, most);
      CutIsLate(k - 1, q, most);
      var front := ReadToCut(chunks, most, text, seen, line, k - 1, q);
      Slices(line, q - LINE_KEPT, q, p);
      more := ReadAndCut(front, most, text + line[..q], seen, line[q - LINE_KEPT..q], line[q..p]);
      assert text + line[..q] + line[q..p] == text + line[..p];
    }
  }

  lemma CutIsLate(k: nat, p: nat, most: nat)
    requires CutAt(k, p, most)
    ensures p > LINE_LIMIT
  {
    EarliestIsLate(k);
  }

  lemma FirstCut(p: nat, most: nat)
    requires CutAt(0, p, most)
    ensures LINE_LIMIT < p <= LINE_LIMIT + most
  {}

  /** A cut that can come before another one. */
  lemma PreviousCut(k: nat, p: nat, most: nat) returns (q: nat)
    requires k >= 1 && most >= 1 && CutAt(k, p, most)
    ensures CutAt(k - 1, q, most) && STEP + 1 <= p - q <= STEP + most
  {
    SomePlace(k - 1, most);
    q := if p - STEP - most > Earliest(k - 1) then p - STEP - most else Earliest(k - 1);
  }

  lemma {:induction false} SomePlace(k: nat, most: nat)
    requires most >= 1
    ensures Earliest(k) <= Latest(k, most)
  {
    if k > 0 { SomePlace(k - 1, most); }
  }

  lemma Slices(line: string, i: nat, q: nat, p: nat)
    requires i <= q <= p <= |line| && OneLine(line) && p - i > LINE_KEPT
    ensures line[i..q] + line[q..p] == line[i..p] && line[..q] + line[q..p] == line[..p]
    ensures OneLine(line[i..q] + line[q..p]) && Last(line[i..q] + line[q..p], LINE_KEPT) == line[p - LINE_KEPT..p]
  {}

  lemma {:induction false} EarliestIsLate(k: nat)
    ensures Earliest(k) > LINE_LIMIT
  {
    if k > 0 { EarliestIsLate(k - 1); }
  }

  /** Reads up to the last cut that leaves the ending wanted, if any. */
  lemma ReadToEnding(chunks: seq<string>, most: nat, text: string, seen: seq<string>, line: string, e: string)
    returns (more: seq<string>, partial: string, rest: string)
    requires At(chunks, most, text, seen, "") && OneLine(line) && EndingOf(e, line, most) && most >= 1
    ensures partial + rest == e && |partial| <= LINE_LIMIT && |rest| <= |line|
    ensures At(more, most, text + line[..|line| - |rest|], seen, partial) && rest == line[|line| - |rest|..]
  {
    hide LinesSeen, OpenSeen, Concat, At;
    if |e| == |line| {
      more, partial, rest := chunks, "", line;
      assert text + line[..0] == text && "" + line == line;
    } else {
      var p: nat := |line| - |e| + LINE_KEPT;
      var k: nat :| CutAt(k, p, most);
      more := ReadToCut(chunks, most, text, seen, line, k, p);
      partial, rest := line[p - LINE_KEPT..p], line[p..];
    }
  }

  /** A line and its newline, read so that it is observed as wanted. */
  lemma LineRead(chunks: seq<string>, most: nat, text: string, seen: seq<string>, line: string, e: string)
    returns (more: seq<string>)
    requires At(chunks, most, text, seen, "") && OneLine(line) && ReadAs(e, line, most, true) && most >= 1
    ensures At(more, most, text + (line + ['\n']), seen + [e], "")
  {
    hide LinesSeen, OpenSeen, Concat, At, EndingOf;
    EndingClean(e, line, most);
    var front, partial, rest := ReadToEnding(chunks, most, text, seen, line, e);
    var n := if |e| <= LINE_LIMIT then |rest| else LINE_LIMIT - |partial|;
    var before, a, b := line[..|line| - |rest|], rest[..n], rest[n..];
    CutInTwo(partial, rest, n);
    CutInThree(text, line, rest, n);
    var quiet := ReadQuietly(front, most, text + before, seen, partial, a);
    EndLine(quiet, most, text + before + a, seen, partial + a, b);
    more := quiet + [b + ['\n']];
  }

  lemma CutInTwo(partial: string, rest: string, n: nat)
    requires n <= |rest| && OneLine(partial + rest)
    ensures (partial + rest[..n]) + rest[n..] == partial + rest && OneLine(partial + rest[..n])
  {
    assert partial + rest[..n] == (partial + rest)[..|partial| + n];
  }

  lemma CutInThree(text: string, line: string, rest: string, n: nat)
    requires n <= |rest| <= |line| && rest == line[|line| - |rest|..]
    ensures text + line[..|line| - |rest|] + rest[..n] + (rest[n..] + ['\n']) == text + (line + ['\n'])
  {
    var before := line[..|line| - |rest|];
    assert line == before + rest && rest == rest[..n] + rest[n..];
    Regrouped(text + before, rest[..n], rest[n..] + ['\n']);
    Regrouped(text, before, rest + ['\n']);
    Regrouped(rest[..n], rest[n..], ['\n']);
    Regrouped(before, rest, ['\n']);
  }

  lemma EndLine(chunks: seq<string>, most: nat, text: string, seen: seq<string>, partial: string, b: string)
    requires At(chunks, most, text, seen, partial) && OneLine(partial + b) && |b| < most
    ensures At(chunks + [b + ['\n']], most, text + (b + ['\n']), seen + [partial + b], "")
  {
    hide Lines, Open, LinesSeen, OpenSeen, Concat;
    var c := b + ['\n'];
    OneMoreChunk(chunks, c);
    assert partial + c == (partial + b) + ['\n'] + "";
    Split(partial + b, "");
    EmptyIsClean();
  }

  lemma EmptyIsClean()
    ensures Lines("") == [] && Open("") == "" && Guarded("") == ""
  {}

  /** What is left without a newline. */
  lemma OpenRead(chunks: seq<string>, most: nat, text: string, seen: seq<string>, line: string, e: string)
    returns (more: seq<string>)
    requires At(chunks, most, text, seen, "") && OneLine(line) && ReadAs(e, line, most, false) && most >= 1
    ensures At(more, most, text + line, seen, e)
  {
    hide LinesSeen, OpenSeen, Concat, At, EndingOf;
    EndingClean(e, line, most);
    var front, partial, rest := ReadToEnding(chunks, most, text, seen, line, e);
    var before := line[..|line| - |rest|];
    assert line == before + rest;
    more := ReadQuietly(front, most, text + before, seen, partial, rest);
    assert text + before + rest == text + line;
  }

  /** Everything that may be observed is observed for some reads. */
  lemma {:induction false} ReadsReach(
    chunks: seq<string>, most: nat, text: string, before: seq<string>, rest: string, seen: seq<string>)
    returns (more: seq<string>)
    requires At(chunks, most, text, before, "") && ReadObservable(seen, rest, most) && most >= 1
    ensures Reads(more, most) && Concat(more) == text + rest && FinalLines(more) == before + seen
    decreases |rest|
  {
    hide Newline, Lines, Open, AllLines, OneLine, ReadAs, LinesSeen, OpenSeen, Concat;
    var n := Newline(rest);
    if n == |rest| {
      LastLine(rest);
      if rest == "" {
        assert text + rest == text && before + seen == before;
        more := chunks;
      } else {
        more := OpenRead(chunks, most, text, before, rest, seen[0]);
        assert seen == [seen[0]];
        NonemptyRead(seen[0], rest, most);
      }
    } else {
      AtNewline(rest);
      var first, after := rest[..n], rest[n + 1..];
      FirstLine(first, after);
      RestObservable(seen, first, after, most);
      var next := LineRead(chunks, most, text, before, first, seen[0]);
      more := ReadsReach(next, most, text + (first + ['\n']), before + [seen[0]], after, seen[1..]);
      assert before + [seen[0]] + seen[1..] == before + seen;
      assert text + (first + ['\n']) + after == text + rest;
    }
  }

  lemma NonemptyRead(e: string, line: string, most: nat)
    requires ReadAs(e, line, most, false) && line != ""
    ensures e != ""
  {
    EmptyEnding(e, line, most);
  }

  lemma RestObservable(seen: seq<string>, first: string, after: string, most: nat)
    requires OneLine(first) && ReadObservable(seen, first + ['\n'] + after, most)
    ensures seen != [] && ReadAs(seen[0], first, most, true) && ReadObservable(seen[1..], after, most)
  {
    hide Lines, Open, ReadAs, AllLines;
    FirstLine(first, after);
    assert ReadAs(seen[0], AllLines(first + ['\n'] + after)[0], most, true);
    forall i | 0 <= i < |AllLines(after)| ensures ReadAs(seen[1..][i], AllLines(after)[i], most, i < |Lines(after)|) {
      assert ReadAs(seen[i + 1], AllLines(first + ['\n'] + after)[i + 1], most, i + 1 < |Lines(after)| + 1);
    }
  }

  lemma LastLine(s: string)
    requires Newline(s) == |s|
    ensures OneLine(s) && Open(s) == s && Lines(s) == [] && AllLines(s) == if s == "" then [] else [s]
  {
    assert s[..|s|] == s;
    Unsplit(s);
  }

  lemma FirstLine(first: string, rest: string)
    requires OneLine(first)
    ensures AllLines(first + ['\n'] + rest) == [first] + AllLines(rest) && Open(first + ['\n'] + rest) == Open(rest)
    ensures Lines(first + ['\n'] + rest) == [first] + Lines(rest)
  {
    hide Lines, Open, OneLine;
    Split(first, rest);
  }

  lemma NoReads(most: nat)
    ensures At([], most, "", [], "")
  {}

  /** Over all reads of at most so many bytes, the lists of lines observed are exactly those that may be. */
  lemma ReadExactly(output: string, most: nat, seen: seq<string>)
    requires most >= 1
    ensures (exists chunks :: Reads(chunks, most) && Concat(chunks) == output && FinalLines(chunks) == seen)
            <==> ReadObservable(seen, output, most)
  {
    hide Concat, FinalLines, Reads, ReadObservable, At;
    if chunks :| Reads(chunks, most) && Concat(chunks) == output && FinalLines(chunks) == seen {
      FinalReadAs(chunks, most);
    }
    if ReadObservable(seen, output, most) {
      NoReads(most);
      var more := ReadsReach([], most, "", [], output, seen);
      assert "" + output == output && [] + seen == seen;
    }
  }

  // ---------- reads of the program ----------

  /** With its reads, a line is cut anywhere beyond the limit but in one gap, which no number of cuts reaches. */
  lemma CutPlacesOfProgram(p: int)
    ensures CutPlace(p, READ_SIZE) <==> p > LINE_LIMIT && !(24576 < p < 31746)
  {
    if CutPlace(p, READ_SIZE) {
      var k: nat :| CutAt(k, p, READ_SIZE);
      EarliestIsLate(k);
      assert k == 1 ==> Earliest(1) == Earliest(0) + STEP + 1;
      if k > 1 { EarliestGrows(1, k); }
    } else if p > 24576 {
      assert Earliest(1) == 31746;
    }
    if p >= 31746 { PlacesOverlap(p, 1); }
    if LINE_LIMIT < p <= 24576 { assert CutAt(0, p, READ_SIZE); }
  }

  lemma {:induction false} EarliestGrows(j: nat, k: nat)
    requires j <= k
    ensures Earliest(j) <= Earliest(k)
  {
    if j < k { EarliestGrows(j, k - 1); }
  }

  lemma {:induction false} PlacesOverlap(p: int, k: nat)
    requires k >= 1 && p >= Earliest(k)
    ensures CutPlace(p, READ_SIZE)
    decreases p - Earliest(k)
  {
    if p <= Latest(k, READ_SIZE) {
      assert CutAt(k, p, READ_SIZE);
    } else {
      NextPlace(k);
      PlacesOverlap(p, k + 1);
    }
  }

  /** From the second cut on, the places of one cut begin before those of the cut before it end. */
  lemma {:induction false} NextPlace(k: nat)
    requires k >= 1
    ensures Earliest(k) < Earliest(k + 1) <= Latest(k, READ_SIZE) + 1
  {
    if k == 1 {
      assert Earliest(1) == Earliest(0) + STEP + 1 && Latest(1, READ_SIZE) == Latest(0, READ_SIZE) + STEP + READ_SIZE;
    } else {
      NextPlace(k - 1);
    }
  }
}
