/** The observer of a process's output, fed chunk by chunk, and what is kept of the output. */
module OutputWatch {
  import opened Basics
  import opened PythonText
  import opened OutputText

  const HARD_RESOURCE_PATTERNS: map<string, string> := map[
    "jvm_oom" := "java.lang.outofmemoryerror",
    "heap_reservation_failed" := "could not reserve enough space for object heap",
    "native_allocation_failed" := "cannot allocate memory",
    "native_thread_exhausted" := "unable to create native thread",
    "disk_full" := "no space left on device"]

  const SUSPECTED_RESOURCE_PATTERNS: map<string, string> := map[
    "gradle_daemon_disappeared" := "gradle build daemon disappeared unexpectedly",
    "resource_temporarily_unavailable" := "resource temporarily unavailable"]

  const TOOLCHAIN_PATTERNS: map<string, string> := map[
    "android_sdk_missing" := "sdk location not found",
    "java_home_missing" := "java_home is not set",
    "android_licenses_missing" := "license agreements have not been accepted",
    "dependency_resolution" := "could not resolve all files",
    "network_unreachable" := "network is unreachable",
    "permission_denied" := "permission denied",
    "gradle_task_missing" := "task '"]

  const PATTERNS: map<string, string> := HARD_RESOURCE_PATTERNS + SUSPECTED_RESOURCE_PATTERNS + TOOLCHAIN_PATTERNS

  lemma PatternsAreNonempty(name: string)
    requires name in PATTERNS
    ensures |PATTERNS[name]| >= 1
  {
    hide HARD_RESOURCE_PATTERNS, SUSPECTED_RESOURCE_PATTERNS, TOOLCHAIN_PATTERNS;
    HardAreNonempty(name);
    SuspectedAreNonempty(name);
    ToolchainAreNonempty(name);
  }

  lemma HardAreNonempty(name: string)
    ensures name in HARD_RESOURCE_PATTERNS ==> |HARD_RESOURCE_PATTERNS[name]| >= 1
  {}

  lemma SuspectedAreNonempty(name: string)
    ensures name in SUSPECTED_RESOURCE_PATTERNS ==> |SUSPECTED_RESOURCE_PATTERNS[name]| >= 1
  {}

  lemma ToolchainAreNonempty(name: string)
    ensures name in TOOLCHAIN_PATTERNS ==> |TOOLCHAIN_PATTERNS[name]| >= 1
  {}

  method LongestPattern(patterns: map<string, string>) returns (longest: nat)
    ensures longest >= 1 && forall name :: name in patterns ==> |patterns[name]| <= longest
    ensures longest == 1 || exists name :: name in patterns && |patterns[name]| == longest
  {
    longest := 1;
    var names := patterns.Keys;
    while names != {}
      invariant longest >= 1 && names <= patterns.Keys
      invariant forall name :: name in patterns && name !in names ==> |patterns[name]| <= longest
      invariant longest == 1 || exists name :: name in patterns && |patterns[name]| == longest
    {
      var name :| name in names;
      if |patterns[name]| > longest { longest := |patterns[name]|; }
      names := names - {name};
    }
  }

  class OutputObserver {
    const gradleTask: Option<string>
    const decode: string -> string
    const patterns: map<string, string>
    var carrySize: nat
    var partial: string
    var found: set<string>
    var carry: string
    var gradleOutcomes: seq<string>

    /** The chunks fed, their concatenation, and the lines observed so far. */
    ghost var chunks: seq<string>
    ghost var stream: string
    ghost var seen: seq<string>

    ghost predicate SearchOk() reads this {
      && (forall name :: name in patterns ==> 1 <= |patterns[name]| <= carrySize + 1)
      && found == Hits(patterns, Lower(stream))
      && carry == Last(Lower(stream), carrySize)
    }

    ghost predicate LinesOk() reads this {
      && stream == Concat(chunks) && seen == LinesSeen(chunks) && partial == OpenSeen(chunks)
      && gradleOutcomes == Reports(gradleTask, decode, seen)
    }

    ghost predicate Valid() reads this { SearchOk() && LinesOk() }

    constructor (task: Option<string>, decoder: string -> string)
      ensures Valid() && chunks == [] && stream == "" && gradleTask == task && decode == decoder && patterns == PATTERNS
    {
      gradleTask, decode, patterns := task, decoder, PATTERNS;
      partial, found, carry, gradleOutcomes := "", {}, "", [];
      chunks, stream, seen := [], "", [];
      var longest := LongestPattern(PATTERNS);
      carrySize := longest - 1;
      new;
      hide PATTERNS;
      forall name | name in patterns ensures |patterns[name]| >= 1 { PatternsAreNonempty(name); }
    }

    /** The search half of `feed`. */
    method Search(data: string)
      requires SearchOk()
      modifies `found, `carry
      ensures found == Hits(patterns, Lower(stream + data)) && carry == Last(Lower(stream + data), carrySize)
    {
      hide Contains, Last, Lower;
      ghost var before := Lower(stream);
      var lowered := carry + Lower(data);
      var names := patterns.Keys;
      while names != {}
        invariant names <= patterns.Keys
        invariant forall name :: name in found <==>
                    name in patterns
                      && (Contains(before, patterns[name]) || (name !in names && Contains(lowered, patterns[name])))
      {
        var name :| name in names;
        if name !in found && Contains(lowered, patterns[name]) { found := found + {name}; }
        names := names - {name};
      }
      carry := if carrySize > 0 then Last(lowered, carrySize) else "";
      LowerConcat(stream, data);
      LastLast(before, Lower(data), carrySize);
      LastNone(lowered);
      forall name | name in patterns
        ensures Contains(Lower(stream + data), patterns[name])
                <==> Contains(before, patterns[name]) || Contains(lowered, patterns[name])
      {
        OccursAcross(patterns[name], before, Lower(data), carrySize);
      }
    }

    method ObserveLine(raw: string)
      requires gradleOutcomes == Reports(gradleTask, decode, seen)
      modifies `gradleOutcomes, `seen
      ensures seen == old(seen) + [raw] && gradleOutcomes == Reports(gradleTask, decode, seen)
    {
      hide TaskOutcome, PlainText, StripReturns;
      seen := seen + [raw];
      assert seen[..|seen| - 1] == old(seen);
      if gradleTask.None? || gradleTask.value == "" { return; }
      var outcome := TaskOutcome(PlainText(StripReturns(decode(raw))), gradleTask.value);
      if outcome.Some? { gradleOutcomes := gradleOutcomes + [outcome.value]; }
    }

    /** The line half of `feed`. */
    method TakeLines(data: string)
      requires LinesOk()
      modifies `partial, `gradleOutcomes, `seen
      ensures seen == LinesSeen(chunks + [data]) && partial == OpenSeen(chunks + [data])
      ensures AllSeenAs(seen, Lines(stream + data)) && SeenAs(partial, Open(stream + data))
      ensures gradleOutcomes == Reports(gradleTask, decode, seen)
    {
      hide Reports, SeenAs, OneLine, AllSeenAs, Lines, Open, Newline, Last, Concat, LinesSeen, OpenSeen;
      partial := partial + data;
      ghost var whole, taken := partial, [];
      while true
        invariant gradleOutcomes == Reports(gradleTask, decode, seen)
        invariant seen == old(seen) + taken
        invariant taken + Lines(partial) == Lines(whole) && Open(partial) == Open(whole)
        decreases |partial|
      {
        LinesUnfold(partial);
        var newline := Newline(partial);
        if newline == |partial| { break; }
        var line := partial[..newline];
        partial := partial[newline + 1..];
        ObserveLine(line);
        taken := taken + [line];
      }
      assert taken == Lines(whole) && partial == Open(whole);
      OneMoreChunk(chunks, data);
      ChunksSeenAs(chunks + [data]);
      if |partial| > LINE_LIMIT { partial := Last(partial, LINE_KEPT); }
    }

    method Feed(data: string)
      requires Valid()
      modifies this
      ensures Valid() && chunks == old(chunks) + [data] && stream == old(stream) + data && carrySize == old(carrySize)
    {
      hide Hits, Lower, Last, Reports, AllSeenAs, SeenAs, Lines, Open, Concat, LinesSeen, OpenSeen;
      OneMoreChunk(chunks, data);
      Search(data);
      TakeLines(data);
      chunks, stream := chunks + [data], stream + data;
    }

    /** The open line is observed as if it were complete. */
    method Finish()
      requires Valid()
      modifies `partial, `gradleOutcomes, `seen
      ensures seen == FinalLines(chunks) && gradleOutcomes == Outcomes(chunks, gradleTask, decode) && partial == ""
      ensures AllSeenAs(seen, AllLines(stream))
    {
      hide Hits, Lower, Last, Reports, Lines, Open, Concat, LinesSeen, OpenSeen, AllSeenAs, AllLines;
      FinalSeenAs(chunks);
      if partial != "" {
        ObserveLine(partial);
        partial := "";
      }
    }

    /** The names of one table that were found. */
    function Named(table: map<string, string>): set<string> reads this { set name | name in table && name in found }
  }

  /** The hits reported from one table are the patterns of that table that occur. */
  lemma HitsOfTable(table: map<string, string>, s: string)
    requires table == HARD_RESOURCE_PATTERNS || table == SUSPECTED_RESOURCE_PATTERNS || table == TOOLCHAIN_PATTERNS
    ensures (set name | name in table && name in Hits(PATTERNS, s)) == Hits(table, s)
  {
    hide Contains, HARD_RESOURCE_PATTERNS, SUSPECTED_RESOURCE_PATTERNS, TOOLCHAIN_PATTERNS;
    forall name | name in table ensures name in PATTERNS && PATTERNS[name] == table[name] {
      TablesAreDisjoint(name);
    }
  }

  lemma TablesAreDisjoint(name: string)
    ensures name in HARD_RESOURCE_PATTERNS ==> name !in SUSPECTED_RESOURCE_PATTERNS && name !in TOOLCHAIN_PATTERNS
    ensures name in SUSPECTED_RESOURCE_PATTERNS ==> name !in TOOLCHAIN_PATTERNS
  {}

  /** What is kept of the output of one process. */
  class OutputCapture {
    const observer: OutputObserver
    const tailLimit: nat
    var tail: string
    var outputBytes: nat

    ghost predicate Valid() reads this, observer {
      observer.Valid() && tail == Tail(observer.stream, tailLimit) && outputBytes == |observer.stream|
    }

    constructor (task: Option<string>, decode: string -> string, limit: nat)
      ensures Valid() && fresh(observer) && tailLimit == limit && observer.stream == "" && observer.chunks == []
      ensures observer.gradleTask == task && observer.decode == decode && observer.patterns == PATTERNS
    {
      hide OutputObserver.Valid;
      observer := new OutputObserver(task, decode);
      tailLimit, tail, outputBytes := limit, "", 0;
    }

    method Read(data: string)
      requires Valid()
      modifies this, observer
      ensures Valid() && observer.stream == old(observer.stream) + data
      ensures observer.chunks == old(observer.chunks) + [data]
    {
      hide Last, OutputObserver.Valid;
      outputBytes := outputBytes + |data|;
      observer.Feed(data);
      tail := tail + data;
      if |tail| > tailLimit {
        tail := if tailLimit == 0 then tail else Last(tail, tailLimit);
      }
      TailGrows(old(observer.stream), data, tailLimit);
    }

    /** Whether the tail is not the whole output. */
    predicate Truncated() reads this { outputBytes > tailLimit }
  }

  datatype Observation = Observation(
    hard: set<string>, suspected: set<string>, toolchain: set<string>, outcomes: seq<string>, tail: string,
      truncated: bool)

  /** Observing a whole run. However the output is cut into chunks, the result speaks about the output as a whole. */
  method Observe(
    chunks: seq<string>, task: Option<string>, decode: string -> string, tailLimit: nat) returns (o: Observation)
    ensures var output := Concat(chunks);
            && o.hard == Hits(HARD_RESOURCE_PATTERNS, Lower(output))
            && o.suspected == Hits(SUSPECTED_RESOURCE_PATTERNS, Lower(output))
            && o.toolchain == Hits(TOOLCHAIN_PATTERNS, Lower(output))
            && o.tail == Tail(output, tailLimit) && (o.truncated <==> |output| > tailLimit)
            && o.outcomes == Outcomes(chunks, task, decode)
            && (exists seen :: AllSeenAs(seen, AllLines(output)) && o.outcomes == Reports(task, decode, seen))
            && ((forall i :: 0 <= i < |AllLines(output)| ==> |AllLines(output)[i]| <= LINE_LIMIT) ==>
                  o.outcomes == Reports(task, decode, AllLines(output)))
  {
    hide Hits, Lower, Tail, Reports, AllSeenAs, SeenAs, AllLines, FinalLines, Concat;
    ConcatNothing();
    var capture := new OutputCapture(task, decode, tailLimit);
    assert chunks[..0] == [];
    for i := 0 to |chunks|
      invariant capture.Valid() && capture.observer.chunks == chunks[..i]
      invariant capture.observer.stream == Concat(chunks[..i])
      invariant fresh(capture) && fresh(capture.observer)
    {
      assert chunks[..i + 1] == chunks[..i] + [chunks[i]];
      OneMoreChunk(chunks[..i], chunks[i]);
      capture.Read(chunks[i]);
    }
    assert chunks[..|chunks|] == chunks;
    var observer := capture.observer;
    HitsOfTable(HARD_RESOURCE_PATTERNS, Lower(observer.stream));
    HitsOfTable(SUSPECTED_RESOURCE_PATTERNS, Lower(observer.stream));
    HitsOfTable(TOOLCHAIN_PATTERNS, Lower(observer.stream));
    observer.Finish();
    var hard, suspected := observer.Named(HARD_RESOURCE_PATTERNS), observer.Named(SUSPECTED_RESOURCE_PATTERNS);
    o := Observation(hard, suspected, observer.Named(TOOLCHAIN_PATTERNS), observer.gradleOutcomes, capture.tail,
      capture.Truncated());
    if forall i :: 0 <= i < |AllLines(observer.stream)| ==> |AllLines(observer.stream)[i]| <= LINE_LIMIT {
      ShortLinesAreSeen(observer.seen, AllLines(observer.stream));
    }
  }

  lemma ConcatNothing()
    ensures Concat([]) == ""
  {}
}
