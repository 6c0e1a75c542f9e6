/**
 When a batch is refused for its size although its commands succeed in turn. The batch is checked
 under the header of the board before it, revision and time of update, and each of the commands
 under the header the one before it wrote.
 */
module BoardBatchSize {
  import opened Basics
  import opened BoardDocument
  import opened BoardCommands
  import opened BoardValidity
  import opened BoardHistory
  import opened BoardBatch
  import opened BoardSize
  import opened BoardFull

  /** What headers depend on: the clock of the engine, the header of its board, and the time of the next step. */
  datatype Moment = Moment(clock: int, revision: int, updatedAt: string, now: string)

  function Before(m: Moment): nat { HeaderSize(m.revision, m.updatedAt) }

  function After(m: Moment): nat { HeaderSize(m.clock + 1, m.now) }

  predicate Proper(h: Host, m: Moment) {
    0 <= m.revision <= m.clock <= MAX_SAFE_INTEGER && Timestamp(h, m.updatedAt) && Timestamp(h, m.now)
  }

  /** The engine can be in this state, open for writing, with a board within the size limit. */
  ghost predicate Stands(g: Host, s: State, m: Moment) {
    && Reachable(g, s) && !s.readOnly && g.bytes(s.document) <= MAX_BYTES
    && s.revisionClock == m.clock && s.document.revision == m.revision && s.document.updatedAt == m.updatedAt
  }

  /** Whatever the state and the commands are, one batch of what succeeds in turn is accepted. */
  ghost predicate AlwaysBatches(g: Host, m: Moment) {
    forall s: State, list: seq<Timed>, actor: string ::
      Stands(g, s, m) && BatchCase(g, s, list, actor, m.now) ==>
        DoExecute(g, s, Batch(Commands(list)), actor, m.now).1.Accepted?
  }

  /**
   Commands within the limits of a batch that succeed in turn, at times that take as much room as
   the one given.
   */
  ghost predicate BatchCase(g: Host, s: State, list: seq<Timed>, actor: string, now: string) {
    && |actor| <= 100
    && (forall i :: 0 <= i < |list| ==> Timestamp(g, list[i].now) && TextSize(list[i].now) == TextSize(now))
    && 1 + WeightAll(Commands(list)) <= MAX_COMMANDS && 1 + NestingAll(Commands(list)) <= MAX_DEPTH
    && InTurn(g, s, list, actor).Some?
  }

  // ---------- a header that does not shrink ----------

  lemma WiderHeadersGrow(h: Host, number: real -> nat, s: State, list: seq<Timed>, now: string)
    requires 0 <= s.revisionClock
    requires s.revisionClock >= MAX_SAFE_INTEGER
             || HeaderSize(s.document.revision, s.document.updatedAt) <= HeaderSize(s.revisionClock + 1, now)
    requires forall i :: 0 <= i < |list| ==> TextSize(list[i].now) == TextSize(now)
    ensures HeadersGrow(JsonHost(h, number), s, list)
  {
    hide JsonSize, TextSize;
    var g, d := JsonHost(h, number), s.document;
    forall r, k | s.revisionClock < r <= MAX_SAFE_INTEGER && 0 <= k < |list|
      ensures NoLonger(g, d.revision, d.updatedAt, r, list[k].now)
    {
      DigitCountGrows(s.revisionClock + 1, r);
      forall other ensures g.bytes(Stamped(other, d.revision, d.updatedAt)) <= g.bytes(Stamped(other, r, list[k].now)) {
        StampedSize(number, other, d.revision, d.updatedAt);
        StampedSize(number, other, r, list[k].now);
      }
    }
  }

  lemma CaseAccepted(h: Host, number: real -> nat, m: Moment, s: State, list: seq<Timed>, actor: string)
    requires StableURLs(h) && Proper(h, m) && (m.clock >= MAX_SAFE_INTEGER || Before(m) <= After(m))
    requires Stands(JsonHost(h, number), s, m) && BatchCase(JsonHost(h, number), s, list, actor, m.now)
    ensures DoExecute(JsonHost(h, number), s, Batch(Commands(list)), actor, m.now).1.Accepted?
  {
    hide DoExecute, Reachable, Inv, InTurn, HeadersGrow, HeaderSize, TextSize, JsonHost, Timestamp;
    var g := JsonHost(h, number);
    JsonStable(h, number);
    ReachableKeepsInv(g, s);
    WiderHeadersGrow(h, number, s, list, m.now);
    JsonTimes(h, number, m.now);
    BatchIsSequence(g, s, list, actor, m.now);
  }

  // ---------- a header that shrinks ----------

  function Rename(title: string, now: string): Timed { Timed(Metadata(Some(title), None), now) }

  lemma RetitledSound(g: Host, d: Document, title: string)
    requires Sound(g, d, true) && |title| <= 200
    ensures Sound(g, d.(title := title), true)
  {}

  /** Renaming a valid board that stays within the size. */
  lemma Renamed(g: Host, s: State, title: string, now: string)
    requires !s.readOnly && |title| <= 200 && s.revisionClock < MAX_SAFE_INTEGER && title != s.document.title
    requires Sound(g, s.document, true) && g.bytes(s.document.(title := title)) <= MAX_BYTES
    ensures DoExecute(g, s, Metadata(Some(title), None), "", now)
            == (Commit(g, s, s.document.(title := title), "", now), Accepted(s.revisionClock + 1, false))
  {
    hide Sound, CheckDocument, Commit;
    RetitledSound(g, s.document, title);
    SoundIsChecked(g, s.document.(title := title), true);
  }

  const FIRST := "a"
  const LONGER := "bb"

  function Renamings(now: string): seq<Timed> { [Rename(FIRST, now), Rename(LONGER, now)] }

  /**
   Every board that is as large as boards may be, and whose header is longer than the next one, can
   be given a title of one letter and then one of two, but not both in one batch.
   */
  lemma BatchRefused(h: Host, number: real -> nat, s: State, now: string)
    requires Shrinks(h, number, s, now)
    ensures BatchCase(JsonHost(h, number), s, Renamings(now), "", now)
    ensures DoExecute(JsonHost(h, number), s, Batch(Commands(Renamings(now))), "", now)
            == (s, Rejected(s.document.revision, SnapshotTooLarge))
  {
    hide HeaderSize, TextSize, JsonSize, Timestamp, Sound, DoExecute, CheckDocument;
    var g := JsonHost(h, number);
    TitleSizes();
    RetitledSize(number, s.document, FIRST);
    RetitledSize(number, s.document, LONGER);
    JsonTimes(h, number, now);
    RenamedInTurn(h, number, s, now);
    TwoRenamings(now);
    RenamedAtOnce(g, s, now);
  }

  /** A full board titled x in an engine that will give it a shorter header. */
  ghost predicate Shrinks(h: Host, number: real -> nat, s: State, now: string) {
    && Full(h, number, s) && Timestamp(h, now) && 0 <= s.revisionClock && s.revisionClock + 2 <= MAX_SAFE_INTEGER
    && HeaderSize(s.document.revision, s.document.updatedAt) > HeaderSize(s.revisionClock + 1, now)
  }

  ghost predicate Full(h: Host, number: real -> nat, s: State) {
    && Sound(JsonHost(h, number), s.document, true) && JsonSize(number, s.document) == MAX_BYTES
    && s.document.title == "x" && !s.readOnly
  }

  lemma TitleSizes()
    ensures TextSize("x") == TextSize(FIRST) == 3 && TextSize(LONGER) == 4
  {
    assert LONGER[..1] == "b" && LONGER[..1][..0] == "" && FIRST[..0] == "" && "x"[..0] == "";
  }

  lemma RenamedInTurn(h: Host, number: real -> nat, s: State, now: string)
    requires Shrinks(h, number, s, now)
    ensures InTurn(JsonHost(h, number), s, Renamings(now), "").Some?
  {
    hide HeaderSize, TextSize, JsonSize, Timestamp, Sound, DoExecute, Trim;
    var g, d, clock := JsonHost(h, number), s.document, s.revisionClock;
    TitleSizes();
    RetitledSize(number, d, FIRST);
    JsonTimes(h, number, now);
    Renamed(g, s, FIRST, now);
    var t := Commit(g, s, d.(title := FIRST), "", now);
    StampedSize(number, d.(title := FIRST), clock + 1, now);
    RetitledSize(number, t.document, LONGER);
    RetitledSound(g, d, FIRST);
    StampedSound(g, d.(title := FIRST), clock + 1, now);
    Renamed(g, t, LONGER, now);
    TwoInTurn(g, s, t, now);
  }

  lemma TwoInTurn(g: Host, s: State, t: State, now: string)
    requires DoExecute(g, s, Metadata(Some(FIRST), None), "", now).0 == t
    requires DoExecute(g, s, Metadata(Some(FIRST), None), "", now).1.Accepted?
    requires DoExecute(g, t, Metadata(Some(LONGER), None), "", now).1.Accepted?
    ensures InTurn(g, s, Renamings(now), "").Some?
  {
    hide DoExecute;
    var list := Renamings(now);
    assert list[1..] == [Rename(LONGER, now)] && list[1..][1..] == [];
    assert InTurn(g, t, list[1..], "").Some?;
  }

  lemma TwoRenamings(now: string)
    ensures Commands(Renamings(now)) == [Metadata(Some(FIRST), None), Metadata(Some(LONGER), None)]
    ensures WeightAll(Commands(Renamings(now))) == 2 && NestingAll(Commands(Renamings(now))) == 0
  {
    var list := Renamings(now);
    assert list[1..] == [Rename(LONGER, now)] && list[1..][1..] == [];
    assert Commands(list[1..]) == [Metadata(Some(LONGER), None)];
    var cs := Commands(list);
    assert cs[1..] == [Metadata(Some(LONGER), None)] && cs[1..][1..] == [];
    assert WeightAll(cs[1..]) == 1 && NestingAll(cs[1..]) == 0;
  }

  lemma RunTwoRenamings(g: Host, d: Document)
    ensures var r := Run(g, Batch([Metadata(Some(FIRST), None), Metadata(Some(LONGER), None)]), StartDraft(d), 0);
            r.Ok? && r.value.doc == d.(title := LONGER)
  {
    var cs := [Metadata(Some(FIRST), None), Metadata(Some(LONGER), None)];
    var e := StartDraft(d).(commandCount := 1);
    assert cs[1..] == [Metadata(Some(LONGER), None)] && cs[1..][1..] == [];
    var a := e.(doc := d.(title := FIRST), commandCount := 2);
    assert Run(g, cs[0], e, 1) == Ok(a);
    assert Run(g, cs[1], a, 1) == Ok(a.(doc := d.(title := LONGER), commandCount := 3));
    assert RunAll(g, cs[1..], a, 1) == Ok(a.(doc := d.(title := LONGER), commandCount := 3));
    assert RunAll(g, cs, e, 1) == RunAll(g, cs[1..], a, 1);
  }

  lemma RenamedAtOnce(g: Host, s: State, now: string)
    requires Sound(g, s.document, true) && g.bytes(s.document.(title := LONGER)) > MAX_BYTES && !s.readOnly
    ensures DoExecute(g, s, Batch(Commands(Renamings(now))), "", now)
            == (s, Rejected(s.document.revision, SnapshotTooLarge))
  {
    hide Sound, CheckDocument, Run;
    var d := s.document;
    TwoRenamings(now);
    RunTwoRenamings(g, d);
    RetitledSound(g, d, LONGER);
    SoundIsChecked(g, d.(title := LONGER), true);
  }

  // ---------- exactly when ----------

  /** A full board opened in a running engine, whatever its clock. */
  lemma FullInEngine(h: Host, number: real -> nat, m: Moment) returns (s: State)
    requires StableURLs(h) && Printed(number) && Proper(h, m)
    ensures Stands(JsonHost(h, number), s, m) && Full(h, number, s)
  {
    hide Timestamp, Sound, JsonSize, Printed, CheckDocument, Reachable;
    var g := JsonHost(h, number);
    var before := FullBoard(h, number, "y", m.clock, m.updatedAt);
    var d := FullBoard(h, number, "x", m.revision, m.updatedAt);
    SoundIsChecked(g, before, true);
    SoundIsChecked(g, d, true);
    OpenedIsReachable(g, before, d);
    s := Opened(d, m.clock);
  }

  /**
   For the clock of an engine, its board's revision and time of update, and the time it writes next:
   batches of what succeeds in turn are always accepted exactly when the next header takes no less
   room, as long as the revisions last for two commands; and always when there is none left.
   */
  lemma AlwaysBatchesIff(h: Host, number: real -> nat, m: Moment)
    requires StableURLs(h) && Printed(number) && Proper(h, m)
    ensures m.clock == MAX_SAFE_INTEGER || Before(m) <= After(m) ==> AlwaysBatches(JsonHost(h, number), m)
    ensures m.clock + 2 <= MAX_SAFE_INTEGER && AlwaysBatches(JsonHost(h, number), m) ==> Before(m) <= After(m)
  {
    hide BatchCase, DoExecute, HeaderSize, JsonHost, Timestamp, Sound, JsonSize, Printed, Stands;
    var g := JsonHost(h, number);
    if m.clock == MAX_SAFE_INTEGER || Before(m) <= After(m) {
      forall s: State, list: seq<Timed>, actor: string | Stands(g, s, m) && BatchCase(g, s, list, actor, m.now)
        ensures DoExecute(g, s, Batch(Commands(list)), actor, m.now).1.Accepted?
      {
        CaseAccepted(h, number, m, s, list, actor);
      }
    } else if m.clock + 2 <= MAX_SAFE_INTEGER {
      var s := FullInEngine(h, number, m);
      StandsAt(g, s, m);
      BatchRefused(h, number, s, m.now);
      assert !DoExecute(g, s, Batch(Commands(Renamings(m.now))), "", m.now).1.Accepted?;
    }
  }

  lemma StandsAt(g: Host, s: State, m: Moment)
    requires Stands(g, s, m)
    ensures s.revisionClock == m.clock && s.document.revision == m.revision && s.document.updatedAt == m.updatedAt
  {
    hide Reachable;
  }

  /** A board whose time of update takes no more than the engine's own times is always safe. */
  lemma OwnTimesBatch(h: Host, number: real -> nat, m: Moment)
    requires StableURLs(h) && Printed(number) && Proper(h, m) && TextSize(m.updatedAt) <= TextSize(m.now)
    ensures AlwaysBatches(JsonHost(h, number), m)
  {
    hide AlwaysBatches, TextSize, Timestamp, Printed;
    DigitCountGrows(m.revision, m.clock + 1);
    AlwaysBatchesIff(h, number, m);
  }

  const WITH_OFFSET := "2026-01-01T00:00:00.000000+00:00"
  const ENGINE_TIME := "2026-01-01T00:00:00.000Z"

  /**
   A time of update written with microseconds and an offset is too long to be safe, unless the clock
   has eight digits more than the revision.
   */
  lemma OffsetTimesRefuse(h: Host, number: real -> nat, revision: nat, clock: nat)
    requires StableURLs(h) && Printed(number) && revision <= clock && clock + 2 <= MAX_SAFE_INTEGER
    requires h.dateParses(WITH_OFFSET) && h.dateParses(ENGINE_TIME)
    ensures AlwaysBatches(JsonHost(h, number), Moment(clock, revision, WITH_OFFSET, ENGINE_TIME))
            <==> DigitCount(clock + 1) >= DigitCount(revision) + 8
  {
    hide AlwaysBatches, CharsSize, Printed, Timestamp;
    TimesAreWritten(h);
    AlwaysBatchesIff(h, number, Moment(clock, revision, WITH_OFFSET, ENGINE_TIME));
  }

  lemma TimesAreWritten(h: Host)
    ensures h.dateParses(WITH_OFFSET) ==> Timestamp(h, WITH_OFFSET)
    ensures h.dateParses(ENGINE_TIME) ==> Timestamp(h, ENGINE_TIME)
    ensures CharsSize(WITH_OFFSET) == 32 && CharsSize(ENGINE_TIME) == 24
  {
    hide CharsSize;
    PlainTextSize(WITH_OFFSET);
    PlainTextSize(ENGINE_TIME);
  }
}
