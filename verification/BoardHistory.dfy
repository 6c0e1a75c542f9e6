/**
 The engine as a state machine: executing, undoing, redoing and loading, and what every
 run of these steps keeps.
 */
module BoardHistory {
  import opened Basics
  import opened BoardDocument
  import opened BoardCommands
  import opened BoardValidity

  const HISTORY_LIMIT := 40
  const HISTORY_BYTES := 16 * 1024 * 1024

  datatype Item = Item(before: Document, after: Document, actor: string, bytes: nat)

  datatype State = State(document: Document, revisionClock: int, readOnly: bool, past: seq<Item>, future: seq<Item>)

  datatype Response = Accepted(revision: int, asBefore: bool) | Rejected(revision: int, error: Error)

  datatype Step =
    | Execute(command: Command, actor: string, now: string)
    | Undo(now: string)
    | Redo(now: string)
    | Load(input: Document, readOnly: bool)

  function Size(items: seq<Item>): nat {
    if items == [] then 0 else items[0].bytes + Size(items[1..])
  }

  /** Drops the oldest items until the limits hold; the last item is never dropped for its size. */
  function Trim(past: seq<Item>): seq<Item> {
    if |past| > HISTORY_LIMIT || (Size(past) > HISTORY_BYTES && |past| > 1) then Trim(past[1..]) else past
  }

  function Reject(s: State, e: Error): (State, Response) { (s, Rejected(s.document.revision, e)) }

  function StartDraft(d: Document): Draft { Draft(d, PointSum(d.objects), 0) }

  /** The document a command leads to, before it is stamped. */
  function Next(h: Host, d: Document, c: Command): Result<Document, Error> {
    match Run(h, c, StartDraft(d), 0)
    case Err(e) => Err(e)
    case Ok(draft) => Validate(h, draft.doc)
  }

  /** Replaces the document by a stamped next one and records the step. */
  function Commit(h: Host, s: State, next: Document, actor: string, now: string): State {
    var after := Stamped(next, s.revisionClock + 1, now);
    State(after, s.revisionClock + 1, s.readOnly,
          Trim(s.past + [Item(s.document, after, actor, h.bytes(s.document) + h.bytes(after))]), [])
  }

  function DoExecute(h: Host, s: State, c: Command, actor: string, now: string): (State, Response) {
    if s.readOnly then Reject(s, ReadOnly)
    else if |actor| > 100 then Reject(s, InvalidInput)
    else
      match Next(h, s.document, c)
      case Err(e) => Reject(s, e)
      case Ok(next) =>
        if next == s.document then (s, Accepted(s.document.revision, true))
        else if s.revisionClock >= MAX_SAFE_INTEGER then Reject(s, InvalidInput)
        else (Commit(h, s, next, actor, now), Accepted(s.revisionClock + 1, false))
  }

  function DoUndo(s: State, now: string): (State, Response) {
    if s.readOnly then Reject(s, ReadOnly)
    else if s.past == [] then (s, Accepted(s.document.revision, true))
    else if s.revisionClock >= MAX_SAFE_INTEGER then Reject(s, InvalidInput)
    else
      var item, r := s.past[|s.past| - 1], s.revisionClock + 1;
      (State(Stamped(item.before, r, now), r, s.readOnly, s.past[..|s.past| - 1], s.future + [item]),
        Accepted(r, false))
  }

  function DoRedo(s: State, now: string): (State, Response) {
    if s.readOnly then Reject(s, ReadOnly)
    else if s.future == [] then (s, Accepted(s.document.revision, true))
    else if s.revisionClock >= MAX_SAFE_INTEGER then Reject(s, InvalidInput)
    else
      var item, r := s.future[|s.future| - 1], s.revisionClock + 1;
      (State(Stamped(item.after, r, now), r, s.readOnly, Trim(s.past + [item]), s.future[..|s.future| - 1]),
        Accepted(r, false))
  }

  function DoLoad(h: Host, s: State, input: Document, readOnly: bool): (State, Response) {
    match Validate(h, input)
    case Err(e) => Reject(s, e)
    case Ok(d) =>
      (State(d, if s.revisionClock > d.revision then s.revisionClock else d.revision, readOnly, [], []),
        Accepted(d.revision, false))
  }

  function Take(h: Host, s: State, step: Step): (State, Response) {
    match step
    case Execute(c, actor, now) => DoExecute(h, s, c, actor, now)
    case Undo(now) => DoUndo(s, now)
    case Redo(now) => DoRedo(s, now)
    case Load(input, readOnly) => DoLoad(h, s, input, readOnly)
  }

  function TakeAll(h: Host, s: State, steps: seq<Step>): State {
    if steps == [] then s else Take(h, TakeAll(h, s, steps[..|steps| - 1]), steps[|steps| - 1]).0
  }

  // ---------- the invariant ----------

  predicate Linked(a: Document, b: Document) { Content(a) == Content(b) }

  /** Adjacent steps of the past chain, adjacent undone steps chain, and the document stands between them. */
  ghost predicate Chained(s: State) {
    && (forall i :: 0 <= i < |s.past| - 1 ==> Linked(s.past[i].after, s.past[i + 1].before))
    && (forall i :: 0 <= i < |s.future| - 1 ==> Linked(s.future[i + 1].after, s.future[i].before))
    && (s.past != [] ==> Linked(s.past[|s.past| - 1].after, s.document))
    && (s.future != [] ==> Linked(s.future[|s.future| - 1].before, s.document))
  }

  ghost predicate ItemOk(h: Host, i: Item, clock: int) {
    && Sound(h, i.before, true) && Sound(h, i.after, true)
    && i.before.revision <= clock && i.after.revision <= clock
    && i.bytes == h.bytes(i.before) + h.bytes(i.after)
  }

  ghost predicate Bounded(s: State) {
    && |s.past| + |s.future| <= HISTORY_LIMIT
    && (|s.past| + |s.future| > 1 ==> Size(s.past) + Size(s.future) <= HISTORY_BYTES)
  }

  ghost predicate Inv(h: Host, s: State) {
    && Sound(h, s.document, true) && s.document.revision <= s.revisionClock <= MAX_SAFE_INTEGER
    && (forall i {:trigger ItemOk(h, s.past[i], s.revisionClock)} ::
        0 <= i < |s.past| ==> ItemOk(h, s.past[i], s.revisionClock))
    && (forall i {:trigger ItemOk(h, s.future[i], s.revisionClock)} ::
        0 <= i < |s.future| ==> ItemOk(h, s.future[i], s.revisionClock))
    && Chained(s) && Bounded(s)
  }

  lemma InvSound(h: Host, s: State)
    requires Inv(h, s)
    ensures Sound(h, s.document, true)
  {
    hide Sound;
  }

  /** Clock readings of a step are timestamps. */
  predicate ClockOk(h: Host, step: Step) { step.Load? || Timestamp(h, step.now) }

  // ---------- sizes and trimming ----------

  lemma {:induction false} SizeAppend(a: seq<Item>, b: seq<Item>)
    ensures Size(a + b) == Size(a) + Size(b)
  {
    if a == [] {
      assert a + b == b;
    } else {
      SizeAppend(a[1..], b);
      assert (a + b)[1..] == a[1..] + b;
    }
  }

  /** Trimming leaves a suffix within the limits. */
  lemma {:induction false} TrimIsSuffix(past: seq<Item>) returns (k: nat)
    ensures k <= |past| && Trim(past) == past[k..] && (past != [] ==> k < |past|)
    ensures |Trim(past)| <= HISTORY_LIMIT && (|Trim(past)| > 1 ==> Size(Trim(past)) <= HISTORY_BYTES)
  {
    if |past| > HISTORY_LIMIT || (Size(past) > HISTORY_BYTES && |past| > 1) {
      var j := TrimIsSuffix(past[1..]);
      k := j + 1;
      assert past[1..][j..] == past[k..];
    } else {
      k := 0;
    }
  }

  /** Within the limits of 40 steps and, unless at most one is left, 16 MiB. */
  predicate WithinLimits(items: seq<Item>) { |items| <= 40 && (|items| > 1 ==> Size(items) <= 16777216) }

  /** Trimming keeps as many of the newest steps as the limits allow, and no more are dropped. */
  lemma {:induction false} TrimIsLongest(past: seq<Item>, k: nat)
    requires k <= |past|
    ensures WithinLimits(Trim(past))
    ensures WithinLimits(past[k..]) ==> |past[k..]| <= |Trim(past)|
  {
    if |past| > HISTORY_LIMIT || (Size(past) > HISTORY_BYTES && |past| > 1) {
      if k == 0 {
        assert past[0..] == past;
        TrimIsLongest(past[1..], 0);
      } else {
        assert past[1..][k - 1..] == past[k..];
        TrimIsLongest(past[1..], k - 1);
      }
    }
  }

  /** The trim inside redo never drops a step: an undone step takes no more room than it had. */
  lemma RedoKeepsAll(s: State)
    requires Bounded(s) && s.future != []
    ensures Trim(s.past + [s.future[|s.future| - 1]]) == s.past + [s.future[|s.future| - 1]]
    ensures Size(s.past + [s.future[|s.future| - 1]]) + Size(s.future[..|s.future| - 1])
            == Size(s.past) + Size(s.future)
  {
    var n := |s.future| - 1;
    var item := s.future[n];
    assert s.future == s.future[..n] + [item];
    SizeAppend(s.future[..n], [item]);
    SizeAppend(s.past, [item]);
    assert Size([item]) == item.bytes by { assert [item][1..] == []; }
  }

  // ---------- every step keeps the invariant ----------

  lemma StampLinks(d: Document, revision: int, now: string)
    ensures Linked(Stamped(d, revision, now), d) && Linked(d, Stamped(d, revision, now))
  {}

  lemma NextIsSound(h: Host, d: Document, c: Command)
    requires StableURLs(h) && Sound(h, d, true) && Next(h, d, c).Ok?
    ensures Sound(h, Next(h, d, c).value, true)
    ensures Next(h, d, c).value == Run(h, c, StartDraft(d), 0).value.doc
    ensures h.bytes(Next(h, d, c).value) <= MAX_BYTES
  {
    hide Run, Sound, CheckDocument;
    SoundStart(h, d);
    RunKeeps(h, c, StartDraft(d), 0);
    ValidatedDraft(h, c, StartDraft(d), 0);
    DraftIsSound(h, Run(h, c, StartDraft(d), 0).value);
  }

  lemma SoundStart(h: Host, d: Document)
    requires Sound(h, d, true)
    ensures DraftOk(h, StartDraft(d))
  {
    hide Sound;
  }

  lemma DraftIsSound(h: Host, d: Draft)
    requires DraftOk(h, d)
    ensures Sound(h, d.doc, true)
  {
    hide Sound;
  }

  lemma CommitKeeps(h: Host, s: State, next: Document, actor: string, now: string)
    requires Inv(h, s) && Sound(h, next, true) && s.revisionClock < MAX_SAFE_INTEGER && Timestamp(h, now)
    ensures Inv(h, Commit(h, s, next, actor, now))
  {
    hide Sound, Timestamp, Chained, Bounded, Trim, Size;
    var t := Commit(h, s, next, actor, now);
    SoundRevision(h, s.document);
    StampedSound(h, next, s.revisionClock + 1, now);
    var item := Item(s.document, t.document, actor, h.bytes(s.document) + h.bytes(t.document));
    var k := TrimIsSuffix(s.past + [item]);
    forall i | 0 <= i < |t.past| ensures ItemOk(h, t.past[i], t.revisionClock) {
      if k + i < |s.past| { assert ItemOk(h, s.past[k + i], s.revisionClock); }
    }
    CommitChains(s, t, item, k);
  }

  lemma CommitChains(s: State, t: State, item: Item, k: nat)
    requires Chained(s) && item.before == s.document && item.after == t.document && t.future == []
    requires k <= |s.past| && t.past == (s.past + [item])[k..]
    requires |t.past| <= HISTORY_LIMIT && (|t.past| > 1 ==> Size(t.past) <= HISTORY_BYTES)
    ensures Chained(t) && Bounded(t)
  {
    hide Content;
    assert Linked(t.document, t.document);
  }

  lemma SoundRevision(h: Host, d: Document)
    requires Sound(h, d, true)
    ensures 0 <= d.revision <= MAX_SAFE_INTEGER
  {}

  lemma UndoKeeps(h: Host, s: State, now: string)
    requires Inv(h, s) && Timestamp(h, now)
    ensures Inv(h, DoUndo(s, now).0)
  {
    hide Sound, Timestamp, Chained, Bounded;
    var t := DoUndo(s, now).0;
    if t != s {
      var n := |s.past| - 1;
      var item := s.past[n];
      assert ItemOk(h, item, s.revisionClock);
      SoundRevision(h, s.document);
      StampedSound(h, item.before, s.revisionClock + 1, now);
      forall i | 0 <= i < |t.future| ensures ItemOk(h, t.future[i], t.revisionClock) {
        if i < |s.future| { assert ItemOk(h, s.future[i], s.revisionClock); }
      }
      forall i | 0 <= i < |t.past| ensures ItemOk(h, t.past[i], t.revisionClock) {
        assert ItemOk(h, s.past[i], s.revisionClock);
      }
      StampLinks(item.before, t.revisionClock, now);
      UndoChains(s, t);
    }
  }

  lemma UndoChains(s: State, t: State)
    requires Chained(s) && Bounded(s) && s.past != []
    requires t.past == s.past[..|s.past| - 1] && t.future == s.future + [s.past[|s.past| - 1]]
    requires Linked(t.document, s.past[|s.past| - 1].before)
    ensures Chained(t) && Bounded(t)
  {
    hide Content, Size;
    var n := |s.past| - 1;
    SizeAppend(s.future, [s.past[n]]);
    SizeAppend(s.past[..n], [s.past[n]]);
    assert s.past == s.past[..n] + [s.past[n]];
    if n > 0 { assert Linked(s.past[n - 1].after, s.past[n - 1 + 1].before); }
  }

  lemma RedoKeeps(h: Host, s: State, now: string)
    requires Inv(h, s) && Timestamp(h, now)
    ensures Inv(h, DoRedo(s, now).0)
  {
    hide Sound, Timestamp, Size, Trim, Chained, Bounded;
    var t := DoRedo(s, now).0;
    if t != s {
      var n := |s.future| - 1;
      var item := s.future[n];
      assert ItemOk(h, item, s.revisionClock);
      SoundRevision(h, s.document);
      StampedSound(h, item.after, s.revisionClock + 1, now);
      RedoKeepsAll(s);
      forall i | 0 <= i < |t.past| ensures ItemOk(h, t.past[i], t.revisionClock) {
        if i < |s.past| { assert ItemOk(h, s.past[i], s.revisionClock); }
      }
      forall i | 0 <= i < |t.future| ensures ItemOk(h, t.future[i], t.revisionClock) {
        assert ItemOk(h, s.future[i], s.revisionClock);
      }
      StampLinks(item.after, t.revisionClock, now);
      RedoChains(s, t);
    }
  }

  lemma RedoChains(s: State, t: State)
    requires Chained(s) && Bounded(s) && s.future != []
    requires t.past == s.past + [s.future[|s.future| - 1]] && t.future == s.future[..|s.future| - 1]
    requires Linked(t.document, s.future[|s.future| - 1].after) && Linked(s.future[|s.future| - 1].after, t.document)
    ensures Chained(t) && Bounded(t)
  {
    hide Content, Size, Trim;
    var n := |s.future| - 1;
    RedoKeepsAll(s);
    if n > 0 { assert Linked(s.future[n - 1 + 1].after, s.future[n - 1].before); }
  }

  lemma LoadKeeps(h: Host, s: State, input: Document, readOnly: bool)
    requires StableURLs(h) && Inv(h, s)
    ensures Inv(h, DoLoad(h, s, input, readOnly).0)
  {
    hide NormalizeDocument, Sound, Linked;
    DocumentNormalized(h, input, true);
    if NormalizeDocument(h, input, true).Ok? { SoundRevision(h, NormalizeDocument(h, input, true).value); }
  }

  /** Every step keeps the invariant. */
  lemma StepKeeps(h: Host, s: State, step: Step)
    requires StableURLs(h) && Inv(h, s) && ClockOk(h, step)
    ensures Inv(h, Take(h, s, step).0)
  {
    hide Sound, Timestamp, Chained, Bounded, Run, Next, Commit, DoUndo, DoRedo, DoLoad;
    match step {
      case Execute(c, actor, now) =>
        if Next(h, s.document, c).Ok? {
          NextIsSound(h, s.document, c);
          if s.revisionClock < MAX_SAFE_INTEGER { CommitKeeps(h, s, Next(h, s.document, c).value, actor, now); }
        }
      case Undo(now) => UndoKeeps(h, s, now);
      case Redo(now) => RedoKeeps(h, s, now);
      case Load(input, readOnly) => LoadKeeps(h, s, input, readOnly);
    }
  }

  /** A fresh engine on a validated document. */
  function Start(d: Document): State { State(d, d.revision, false, [], []) }

  ghost predicate ReachedBy(h: Host, s: State, initial: Document, steps: seq<Step>) {
    && Validate(h, initial) == Ok(initial) && (forall i :: 0 <= i < |steps| ==> ClockOk(h, steps[i]))
    && s == TakeAll(h, Start(initial), steps)
  }

  /** What the engine gets to from a valid board, by steps at proper times. */
  ghost predicate Reachable(h: Host, s: State) { exists initial, steps :: ReachedBy(h, s, initial, steps) }

  /** A board just opened for writing in an engine with a given clock. */
  function Opened(d: Document, clock: int): State { State(d, clock, false, [], []) }

  /** Opening a board in an engine that has shown another one. */
  lemma OpenedIsReachable(h: Host, before: Document, d: Document)
    requires Validate(h, before) == Ok(before) && Validate(h, d) == Ok(d) && d.revision <= before.revision
    ensures DoLoad(h, Start(before), d, false).0 == Opened(d, before.revision)
    ensures Reachable(h, Opened(d, before.revision))
  {
    hide Validate;
    var steps := [Load(d, false)];
    assert steps[..0] == [] && TakeAll(h, Start(before), []) == Start(before);
    assert TakeAll(h, Start(before), steps) == Opened(d, before.revision);
    assert ReachedBy(h, Opened(d, before.revision), before, steps);
  }

  lemma ReachableKeepsInv(h: Host, s: State)
    requires StableURLs(h) && Reachable(h, s)
    ensures Inv(h, s)
  {
    hide CheckDocument, Sound, Inv, TakeAll;
    var initial, steps :| ReachedBy(h, s, initial, steps);
    DocumentNormalized(h, initial, true);
    RunKeepsInv(h, initial, steps);
  }

  /**
   In every reachable state the invariant holds: sound documents, chained bounded history, a clock
   above all revisions.
   */
  lemma {:induction false} RunKeepsInv(h: Host, initial: Document, steps: seq<Step>)
    requires StableURLs(h) && Sound(h, initial, true)
    requires forall i :: 0 <= i < |steps| ==> ClockOk(h, steps[i])
    ensures Inv(h, TakeAll(h, Start(initial), steps))
  {
    if steps == [] {
      StartInv(h, initial);
    } else {
      hide Inv, Take;
      RunKeepsInv(h, initial, steps[..|steps| - 1]);
      StepKeeps(h, TakeAll(h, Start(initial), steps[..|steps| - 1]), steps[|steps| - 1]);
    }
  }

  /** History never outgrows its limits in any run, and so redoing never costs an undo step. */
  lemma HistoryStaysBounded(h: Host, initial: Document, steps: seq<Step>)
    requires StableURLs(h) && Sound(h, initial, true)
    requires forall i :: 0 <= i < |steps| ==> ClockOk(h, steps[i])
    ensures var s := TakeAll(h, Start(initial), steps);
            && |s.past| + |s.future| <= 40
            && (|s.past| + |s.future| > 1 ==> Size(s.past) + Size(s.future) <= 16 * 1024 * 1024)
            && (s.future != [] ==> Trim(s.past + [s.future[|s.future| - 1]]) == s.past + [s.future[|s.future| - 1]])
  {
    hide Chained, Sound, Take, Trim, Size;
    RunKeepsInv(h, initial, steps);
    var s := TakeAll(h, Start(initial), steps);
    if s.future != [] { RedoKeepsAll(s); }
  }

  lemma StartInv(h: Host, initial: Document)
    requires Sound(h, initial, true)
    ensures Inv(h, Start(initial))
  {
    hide NormalEntry, NormalObject, NormalFrame, NormalReaction, Timestamp, PointSum;
  }

  /** A rejected step changes nothing; a changing step other than a load is stamped above every revision seen. */
  lemma RevisionsRise(h: Host, s: State, step: Step)
    requires Inv(h, s)
    ensures var (t, r) := Take(h, s, step);
            && (r.Rejected? || r.asBefore ==> t == s)
            && (r.Accepted? && !r.asBefore && !step.Load? ==>
                  t.document.revision == t.revisionClock == r.revision == s.revisionClock + 1
                  && t.document.revision > s.document.revision
                  && (forall i :: 0 <= i < |s.past| ==> t.document.revision > s.past[i].after.revision)
                  && (forall i :: 0 <= i < |s.future| ==> t.document.revision > s.future[i].after.revision))
  {
    hide Sound, Chained, Bounded, Next, Trim, Validate;
    forall i | 0 <= i < |s.past| ensures s.past[i].after.revision <= s.revisionClock {
      assert ItemOk(h, s.past[i], s.revisionClock);
    }
    forall i | 0 <= i < |s.future| ensures s.future[i].after.revision <= s.revisionClock {
      assert ItemOk(h, s.future[i], s.revisionClock);
    }
  }

  lemma ClockGrows(h: Host, s: State, step: Step)
    ensures Take(h, s, step).0.revisionClock >= s.revisionClock
  {
    hide Next, Validate, Trim;
  }

  lemma {:induction false} ShownBelowClock(h: Host, initial: Document, steps: seq<Step>, j: nat)
    requires StableURLs(h) && Sound(h, initial, true) && j <= |steps|
    requires forall i :: 0 <= i < |steps| ==> ClockOk(h, steps[i])
    ensures TakeAll(h, Start(initial), steps[..j]).document.revision <= TakeAll(h, Start(initial), steps).revisionClock
  {
    hide Inv, Take;
    if j == |steps| {
      assert steps[..j] == steps;
      RunKeepsInv(h, initial, steps);
      BelowClock(h, TakeAll(h, Start(initial), steps));
    } else {
      var front := steps[..|steps| - 1];
      assert front[..j] == steps[..j];
      ShownBelowClock(h, initial, front, j);
      ClockGrows(h, TakeAll(h, Start(initial), front), steps[|steps| - 1]);
    }
  }

  lemma BelowClock(h: Host, s: State)
    requires Inv(h, s)
    ensures s.document.revision <= s.revisionClock
  {
    hide Sound, Chained, Bounded, ItemOk;
  }

  /**
   In every run, across loads and trimmed steps, a changing step gets a revision above all the
   engine has ever shown.
   */
  lemma EveryChangeIsNewest(h: Host, initial: Document, steps: seq<Step>, step: Step, j: nat)
    requires StableURLs(h) && Sound(h, initial, true) && j <= |steps|
    requires forall i :: 0 <= i < |steps| ==> ClockOk(h, steps[i])
    ensures var (t, r) := Take(h, TakeAll(h, Start(initial), steps), step);
            r.Accepted? && !r.asBefore && !step.Load? ==>
              t.document.revision == r.revision && r.revision > TakeAll(h, Start(initial), steps[..j]).document.revision
  {
    hide Inv, Take;
    RunKeepsInv(h, initial, steps);
    RevisionsRise(h, TakeAll(h, Start(initial), steps), step);
    ShownBelowClock(h, initial, steps, j);
  }

  // ---------- undo and redo are inverse ----------

  function Undos(s: State, nows: seq<string>): State {
    if nows == [] then s else DoUndo(Undos(s, nows[..|nows| - 1]), nows[|nows| - 1]).0
  }

  function Redos(s: State, nows: seq<string>): State
    decreases |nows|
  {
    if nows == [] then s else Redos(DoRedo(s, nows[0]).0, nows[1..])
  }

  ghost predicate SameUpToStamp(s: State, t: State) {
    s.past == t.past && s.future == t.future && Linked(s.document, t.document) && s.readOnly == t.readOnly
  }

  lemma UndoneState(s: State, now: string)
    requires !s.readOnly && s.past != [] && s.revisionClock < MAX_SAFE_INTEGER
    ensures var t, item := DoUndo(s, now).0, s.past[|s.past| - 1];
            && t.document == Stamped(item.before, t.revisionClock, now) && t.revisionClock == s.revisionClock + 1
            && t.past == s.past[..|s.past| - 1] && t.future == s.future + [item] && t.readOnly == s.readOnly
  {}

  lemma BoundedOf(h: Host, s: State)
    requires Inv(h, s)
    ensures Bounded(s)
  {}

  lemma LinkedTrans(a: Document, b: Document, c: Document)
    requires Linked(a, b) && Linked(b, c)
    ensures Linked(a, c)
  {}

  lemma LastLinks(s: State)
    requires Chained(s) && s.past != []
    ensures Linked(s.past[|s.past| - 1].after, s.document)
  {}

  /** One undo reaches the content before the last step, and one redo then restores past, future and content. */
  lemma UndoThenRedo(h: Host, s: State, now: string, later: string)
    requires Inv(h, s) && Timestamp(h, now) && !s.readOnly && s.past != [] && s.revisionClock + 2 <= MAX_SAFE_INTEGER
    ensures Linked(DoUndo(s, now).0.document, s.past[|s.past| - 1].before)
    ensures SameUpToStamp(DoRedo(DoUndo(s, now).0, later).0, s)
  {
    hide Sound, Timestamp, Size, Trim, Chained, Bounded, Content;
    LastLinks(s);
    var n := |s.past| - 1;
    var t := DoUndo(s, now).0;
    UndoKeeps(h, s, now);
    UndoneState(s, now);
    BoundedOf(h, t);
    RedoKeepsAll(t);
    assert t.past + [s.past[n]] == s.past;
    assert t.future[|t.future| - 1] == s.past[n] && t.future[..|t.future| - 1] == s.future;
    StampLinks(s.past[n].before, t.revisionClock, now);
    StampLinks(s.past[n].after, t.revisionClock + 1, later);
    LinkedTrans(Stamped(s.past[n].after, t.revisionClock + 1, later), s.past[n].after, s.document);
  }

  /** Redo looks at content only through the items, so it treats states alike up to their stamp. */
  lemma {:induction false} RedosAlike(s: State, t: State, nows: seq<string>)
    requires SameUpToStamp(s, t) && s.revisionClock + |nows| <= MAX_SAFE_INTEGER
    requires t.revisionClock + |nows| <= MAX_SAFE_INTEGER
    ensures SameUpToStamp(Redos(s, nows), Redos(t, nows))
    decreases |nows|
  {
    hide Trim;
    if nows != [] { RedosAlike(DoRedo(s, nows[0]).0, DoRedo(t, nows[0]).0, nows[1..]); }
  }

  /** k undos followed by k redos, at any later times, restore past, future and content. */
  lemma {:induction false} UndosThenRedos(h: Host, s: State, nows: seq<string>, laters: seq<string>)
    requires Inv(h, s) && !s.readOnly && |nows| == |laters| <= |s.past|
    requires s.revisionClock + 2 * |nows| <= MAX_SAFE_INTEGER
    requires forall i :: 0 <= i < |nows| ==> Timestamp(h, nows[i])
    ensures SameUpToStamp(Redos(Undos(s, nows), laters), s)
  {
    hide Inv, DoUndo, DoRedo, Timestamp;
    if nows != [] {
      var n := |nows| - 1;
      var t := Undos(s, nows[..n]);
      UndosState(h, s, nows[..n]);
      DownAndUp(h, t, nows[n], laters[0]);
      RedosAlike(DoRedo(DoUndo(t, nows[n]).0, laters[0]).0, t, laters[1..]);
      UndosThenRedos(h, s, nows[..n], laters[1..]);
      SameTrans(Redos(DoRedo(DoUndo(t, nows[n]).0, laters[0]).0, laters[1..]), Redos(t, laters[1..]), s);
    } else {
      assert laters == [];
    }
  }

  lemma SameTrans(a: State, b: State, c: State)
    requires SameUpToStamp(a, b) && SameUpToStamp(b, c)
    ensures SameUpToStamp(a, c)
  {}

  lemma DownAndUp(h: Host, t: State, now: string, later: string)
    requires Inv(h, t) && Timestamp(h, now) && !t.readOnly && t.past != [] && t.revisionClock + 2 <= MAX_SAFE_INTEGER
    ensures SameUpToStamp(DoRedo(DoUndo(t, now).0, later).0, t)
    ensures DoRedo(DoUndo(t, now).0, later).0.revisionClock == t.revisionClock + 2
  {
    hide Inv, Timestamp, Trim;
    UndoThenRedo(h, t, now, later);
  }

  /** Where k undos lead: the last k steps are undone and the content is the one before them. */
  lemma {:induction false} UndosState(h: Host, s: State, nows: seq<string>)
    requires Inv(h, s) && !s.readOnly && |nows| <= |s.past| && s.revisionClock + |nows| <= MAX_SAFE_INTEGER
    requires forall i :: 0 <= i < |nows| ==> Timestamp(h, nows[i])
    ensures var t := Undos(s, nows);
            && Inv(h, t) && !t.readOnly && t.past == s.past[..|s.past| - |nows|]
            && t.revisionClock == s.revisionClock + |nows|
            && Linked(t.document, if nows == [] then s.document else s.past[|s.past| - |nows|].before)
  {
    hide Inv, Timestamp;
    if nows != [] {
      UndosState(h, s, nows[..|nows| - 1]);
      UndoKeeps(h, Undos(s, nows[..|nows| - 1]), nows[|nows| - 1]);
    }
  }
}
