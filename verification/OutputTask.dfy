/** Which lines report a task, and what is taken off a line before it is read. */
module OutputTask {
  import opened Basics
  import opened PythonText
  import opened OutputText

  predicate Blank(s: string) { forall i :: 0 <= i < |s| ==> IsSpace(s[i]) }

  predicate Solid(s: string) { forall i :: 0 <= i < |s| ==> !IsSpace(s[i]) }

  predicate IsOutcome(s: string) {
    s == "UP-TO-DATE" || s == "FROM-CACHE" || s == "NO-SOURCE" || s == "SKIPPED" || s == "FAILED"
  }

  /** The pieces of a line about a task: spaces, the task, an outcome or none, and spaces. */
  predicate IsTaskLine(text: string, lead: string, task: string, outcome: Option<string>, trail: string) {
    && Blank(lead) && task != "" && Solid(task) && Blank(trail)
    && match outcome
       case None => text == lead + ("> Task " + (task + trail))
       case Some(word) => IsOutcome(word) && text == lead + ("> Task " + (task + (" " + (word + trail))))
  }

  // ---------- skipping spaces and taking words ----------

  lemma {:induction false} SkipBlank(lead: string, s: string)
    requires Blank(lead) && (s == "" || !IsSpace(s[0]))
    ensures SkipSpace(lead + s) == s
  {
    if lead == "" {
      assert lead + s == s;
    } else {
      assert (lead + s)[1..] == lead[1..] + s;
      SkipBlank(lead[1..], s);
    }
  }

  lemma {:induction false} Skipped(s: string) returns (lead: string)
    ensures Blank(lead) && s == lead + SkipSpace(s) && (SkipSpace(s) == "" || !IsSpace(SkipSpace(s)[0]))
  {
    if s != "" && IsSpace(s[0]) {
      var rest := Skipped(s[1..]);
      lead := [s[0]] + rest;
    } else {
      lead := "";
    }
  }

  lemma {:induction false} WordOf(w: string, s: string)
    requires Solid(w) && (s == "" || IsSpace(s[0]))
    ensures Word(w + s) == w
  {
    if w == "" {
      assert w + s == s;
    } else {
      assert (w + s)[1..] == w[1..] + s;
      WordOf(w[1..], s);
    }
  }

  lemma {:induction false} WordIsSolid(s: string)
    ensures Solid(Word(s)) && s == Word(s) + s[|Word(s)|..]
    ensures |Word(s)| < |s| ==> IsSpace(s[|Word(s)|])
  {
    if s != "" && !IsSpace(s[0]) { WordIsSolid(s[1..]); }
  }

  lemma OutcomesAre(word: string)
    ensures word in OUTCOMES <==> IsOutcome(word)
    ensures IsOutcome(word) ==> word != "" && Solid(word)
  {
    var list := OUTCOMES;
    assert list[0] == "UP-TO-DATE" && list[1] == "FROM-CACHE" && list[2] == "NO-SOURCE" && list[3] == "SKIPPED"
      && list[4] == "FAILED";
  }

  // ---------- a line reports exactly its task ----------

  /** What a line about a task adds to the outcomes of that task. */
  function Reported(outcome: Option<string>): string {
    match outcome
    case None => "EXECUTED"
    case Some(word) => word
  }

  /** A line about a task reports its outcome, or that it was executed. */
  lemma TaskLineReports(text: string, lead: string, task: string, outcome: Option<string>, trail: string)
    requires IsTaskLine(text, lead, task, outcome, trail)
    ensures TaskOutcome(text, task) == Some(Reported(outcome))
  {
    hide SkipSpace, Word, IsOutcome, Solid, Blank;
    match outcome
    case None =>
      SkipBlank(lead, "> Task " + (task + trail));
      AfterTask(task, trail);
      BlankStart(trail);
      WordOf(task, trail);
      AllSkipped(trail);
    case Some(word) =>
      var rest := " " + (word + trail);
      SkipBlank(lead, "> Task " + (task + rest));
      AfterTask(task, rest);
      WordOf(task, rest);
      OutcomesAre(word);
      BlankStart(trail);
      WordOf(word, trail);
      SolidSkip(word, trail);
      assert rest[1..] == word + trail && rest[1 + |word|..] == trail;
      AllSkipped(trail);
  }

  lemma AfterTask(task: string, rest: string)
    ensures var s := "> Task " + (task + rest); "> Task " <= s && s[7..] == task + rest && s[7 + |task|..] == rest
  {}

  lemma BlankStart(s: string)
    requires Blank(s)
    ensures s == "" || IsSpace(s[0])
  {}

  lemma AllSkipped(s: string)
    requires Blank(s)
    ensures SkipSpace(s) == ""
  {
    SkipBlank(s, "");
    assert s + "" == s;
  }

  lemma SolidSkip(word: string, trail: string)
    requires word != "" && Solid(word)
    ensures SkipSpace(" " + (word + trail)) == word + trail
  {
    SkipBlank(" ", word + trail);
  }

  lemma NothingLeft(s: string)
    requires SkipSpace(s) == ""
    ensures Blank(s)
  {
    var lead := Skipped(s);
    assert s == lead + "" == lead;
  }

  /** Only lines about a task report it. */
  lemma ReportIsTaskLine(text: string, task: string)
    requires TaskOutcome(text, task).Some?
    ensures exists lead, outcome, trail :: IsTaskLine(text, lead, task, outcome, trail)
  {
    hide SkipSpace, Word, IsOutcome, Solid, Blank;
    var lead := Skipped(text);
    var s := SkipSpace(text);
    assert s == "> Task " + s[7..];
    WordIsSolid(s[7..]);
    var rest := s[7 + |task|..];
    assert s[7..] == task + rest;
    if SkipSpace(rest) == "" {
      NothingLeft(rest);
      assert IsTaskLine(text, lead, task, None, rest);
    } else {
      var word, trail := OutcomePart(rest);
      assert IsTaskLine(text, lead, task, Some(word), trail);
    }
  }

  lemma OutcomePart(rest: string) returns (word: string, trail: string)
    requires SkipSpace(rest) != "" && rest[0] == ' '
    requires var outcome := Word(rest[1..]); outcome in OUTCOMES && SkipSpace(rest[1 + |outcome|..]) == ""
    ensures IsOutcome(word) && Blank(trail) && rest == " " + (word + trail)
  {
    hide Word, IsOutcome;
    word := Word(rest[1..]);
    trail := rest[1 + |word|..];
    OutcomesAre(word);
    NothingLeft(trail);
  }

  /** What a line reports for a task, for every line and task. */
  lemma ReportsExactly(text: string, task: string, r: string)
    ensures TaskOutcome(text, task) == Some(r) <==>
            exists lead, outcome, trail :: IsTaskLine(text, lead, task, outcome, trail) && Reported(outcome) == r
  {
    hide TaskOutcome, IsTaskLine, Reported;
    if TaskOutcome(text, task) == Some(r) {
      ReportIsTaskLine(text, task);
      var lead, outcome, trail :| IsTaskLine(text, lead, task, outcome, trail);
      TaskLineReports(text, lead, task, outcome, trail);
    }
    if lead, outcome, trail :| IsTaskLine(text, lead, task, outcome, trail) && Reported(outcome) == r {
      TaskLineReports(text, lead, task, outcome, trail);
    }
  }

  // ---------- letters in lower case ----------

  /** The capital letters become small ones, and every other byte stays. */
  lemma LettersLowered(c: char)
    ensures var capital, small := "ABCDEFGHIJKLMNOPQRSTUVWXYZ", "abcdefghijklmnopqrstuvwxyz";
            && (forall i :: 0 <= i < 26 && c == capital[i] ==> LowerByte(c) == small[i])
            && (c !in capital ==> LowerByte(c) == c)
  {
    var capital, small := "ABCDEFGHIJKLMNOPQRSTUVWXYZ", "abcdefghijklmnopqrstuvwxyz";
    forall i | 0 <= i < 26 ensures capital[i] == 'A' + i as char && small[i] == 'a' + i as char {
      hide *;
      LetterAt(i);
    }
    if 'A' <= c <= 'Z' {
      var i := c as int - 'A' as int;
      assert capital[i] == c;
    }
  }

  lemma LetterAt(i: nat)
    requires i < 26
    ensures "ABCDEFGHIJKLMNOPQRSTUVWXYZ"[i] == 'A' + i as char && "abcdefghijklmnopqrstuvwxyz"[i] == 'a' + i as char
  {}

  // ---------- what is taken off a line ----------

  /** Carriage returns at the end, and only there, are taken off. */
  lemma {:induction false} ReturnsOff(s: string, n: nat)
    requires s == "" || s[|s| - 1] != '\r'
    ensures StripReturns(s + Repeat('\r', n)) == s
  {
    if n == 0 {
      assert s + Repeat('\r', 0) == s;
    } else {
      var t := s + Repeat('\r', n);
      assert t[..|t| - 1] == s + Repeat('\r', n - 1);
      ReturnsOff(s, n - 1);
    }
  }

  /**
   The text starts with a terminal escape: `ESC [`, parameters up to k, intermediates, and its last
   character at n.
   */
  predicate StartsEscape(s: string, k: nat, n: nat) {
    && 2 <= k <= n < |s| && s[0] == '\U{1B}' && s[1] == '['
    && (forall i :: 2 <= i < k ==> '0' <= s[i] <= '?') && (forall i :: k <= i < n ==> ' ' <= s[i] <= '/')
    && '@' <= s[n] <= '~'
  }

  lemma {:induction false} SkipRun(run: string, rest: string, low: char, high: char)
    requires (forall i :: 0 <= i < |run| ==> low <= run[i] <= high) && (rest == "" || !(low <= rest[0] <= high))
    ensures Skip(run + rest, low, high) == rest
  {
    if run == "" {
      assert run + rest == rest;
    } else {
      assert (run + rest)[1..] == run[1..] + rest;
      SkipRun(run[1..], rest, low, high);
    }
  }

  lemma {:induction false} SkippedRun(s: string, low: char, high: char)
    ensures var n := |s| - |Skip(s, low, high)|;
            && Skip(s, low, high) == s[n..] && forall i :: 0 <= i < n ==> low <= s[i] <= high
  {
    if s != "" && low <= s[0] <= high {
      SkippedRun(s[1..], low, high);
      var n := |s[1..]| - |Skip(s[1..], low, high)|;
      forall i | 0 <= i < n + 1 ensures low <= s[i] <= high { if i > 0 { assert s[i] == s[1..][i - 1]; } }
    }
  }

  /** An escape at the start is dropped. */
  lemma EscapeIsDropped(s: string, k: nat, n: nat)
    requires StartsEscape(s, k, n)
    ensures PlainText(s) == PlainText(s[n + 1..])
  {
    hide Skip;
    SkipRun(s[2..k], s[k..], '0', '?');
    SkipRun(s[k..n], s[n..], ' ', '/');
    assert s[2..] == s[2..k] + s[k..] && s[k..] == s[k..n] + s[n..];
    assert s[n..][1..] == s[n + 1..];
  }

  /** Any other first character is kept. */
  lemma OtherIsKept(s: string)
    requires s != "" && forall k, n :: !StartsEscape(s, k, n)
    ensures PlainText(s) == [s[0]] + PlainText(s[1..])
  {
    hide Skip, StartsEscape;
    if |s| >= 2 && s[0] == '\U{1B}' && s[1] == '[' { SkippedToEscape(s); }
  }

  lemma SkippedToEscape(s: string)
    requires |s| >= 2 && s[0] == '\U{1B}' && s[1] == '['
    ensures var rest := Skip(Skip(s[2..], '0', '?'), ' ', '/');
            rest != "" && '@' <= rest[0] <= '~' ==> exists k, n :: StartsEscape(s, k, n)
  {
    hide Skip;
    var a := Skip(s[2..], '0', '?');
    var b := Skip(a, ' ', '/');
    SkippedRun(s[2..], '0', '?');
    SkippedRun(a, ' ', '/');
    var k, n := |s| - |a|, |s| - |b|;
    assert a == s[k..] && b == s[n..];
    if b != "" && '@' <= b[0] <= '~' {
      forall i | 2 <= i < k ensures '0' <= s[i] <= '?' { assert s[i] == s[2..][i - 2]; }
      forall i | k <= i < n ensures ' ' <= s[i] <= '/' { assert s[i] == a[i - k]; }
      assert StartsEscape(s, k, n);
    }
  }

  lemma NothingPlain()
    ensures PlainText("") == ""
  {}
}
