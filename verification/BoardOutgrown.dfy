/**
 When the engine accepts a board that it would not load again. A command is validated under the
 header of the board before it; revision and time are stamped afterwards.
 */
module BoardOutgrown {
  import opened Basics
  import opened BoardDocument
  import opened BoardCommands
  import opened BoardValidity
  import opened BoardHistory
  import opened BoardBatch
  import opened BoardSize
  import opened BoardFull
  import opened BoardBatchSize

  /** Whatever the state and the command are, the board they lead to is within the size limit. */
  ghost predicate AlwaysFits(g: Host, m: Moment) {
    forall s: State, c: Command, actor: string ::
      Stands(g, s, m) && DoExecute(g, s, c, actor, m.now).1.Accepted? ==>
        g.bytes(DoExecute(g, s, c, actor, m.now).0.document) <= MAX_BYTES
  }

  /** What a command leads to, before it is stamped, has the header of the board and fits. */
  lemma NextFits(g: Host, d: Document, c: Command)
    requires StableURLs(g) && Sound(g, d, true) && Next(g, d, c).Ok?
    ensures SameHeader(Next(g, d, c).value, d) && g.bytes(Next(g, d, c).value) <= MAX_BYTES
  {
    hide Run, Sound, CheckDocument;
    SoundStart(g, d);
    RunKeepsHeader(g, c, StartDraft(d), 0);
    ValidatedDraft(g, c, StartDraft(d), 0);
  }

  lemma StepFits(h: Host, number: real -> nat, m: Moment, s: State, c: Command, actor: string)
    requires StableURLs(h) && Stands(JsonHost(h, number), s, m)
    requires DoExecute(JsonHost(h, number), s, c, actor, m.now).1.Accepted?
    requires m.clock >= MAX_SAFE_INTEGER || After(m) <= Before(m)
    ensures JsonSize(number, DoExecute(JsonHost(h, number), s, c, actor, m.now).0.document) <= MAX_BYTES
  {
    hide Next, CheckDocument, Sound, JsonSize, HeaderSize, Trim, Reachable, Inv;
    var g := JsonHost(h, number);
    JsonStable(h, number);
    ReachableKeepsInv(g, s);
    InvSound(g, s);
    if Next(g, s.document, c).Ok? {
      NextFits(g, s.document, c);
      StampedSize(number, Next(g, s.document, c).value, m.clock + 1, m.now);
    }
  }

  /**
   Every full board whose next header is longer outgrows the limit when a title of one letter is
   replaced by another.
   */
  lemma RenamingOutgrows(h: Host, number: real -> nat, s: State, now: string)
    requires Full(h, number, s) && 0 <= s.revisionClock < MAX_SAFE_INTEGER && Timestamp(h, now)
    requires HeaderSize(s.revisionClock + 1, now) > HeaderSize(s.document.revision, s.document.updatedAt)
    ensures var (t, r) := DoExecute(JsonHost(h, number), s, Rename(FIRST, now).command, "", now);
            r.Accepted? && Validate(JsonHost(h, number), t.document) == Err(SnapshotTooLarge)
            && JsonSize(number, t.document) > MAX_BYTES
  {
    hide HeaderSize, TextSize, JsonSize, Timestamp, Sound, DoExecute, CheckDocument, Trim;
    var g, d, clock := JsonHost(h, number), s.document, s.revisionClock;
    TitleSizes();
    RetitledSize(number, d, FIRST);
    JsonTimes(h, number, now);
    Renamed(g, s, FIRST, now);
    StampedSize(number, d.(title := FIRST), clock + 1, now);
    RetitledSound(g, d, FIRST);
    StampedSound(g, d.(title := FIRST), clock + 1, now);
    SoundIsChecked(g, Stamped(d.(title := FIRST), clock + 1, now), true);
  }

  /**
   For the clock of an engine, its board's revision and time of update, and the time it writes next:
   no command makes a board outgrow the limit exactly when the next header takes no more room, or no
   revision is left.
   */
  lemma AlwaysFitsIff(h: Host, number: real -> nat, m: Moment)
    requires StableURLs(h) && Printed(number) && Proper(h, m)
    ensures AlwaysFits(JsonHost(h, number), m) <==> m.clock == MAX_SAFE_INTEGER || After(m) <= Before(m)
  {
    hide DoExecute, HeaderSize, Timestamp, Sound, JsonSize, Printed, CheckDocument, Stands;
    var g := JsonHost(h, number);
    if m.clock == MAX_SAFE_INTEGER || After(m) <= Before(m) {
      forall s: State, c: Command, actor: string | Stands(g, s, m) && DoExecute(g, s, c, actor, m.now).1.Accepted?
        ensures g.bytes(DoExecute(g, s, c, actor, m.now).0.document) <= MAX_BYTES
      {
        StepFits(h, number, m, s, c, actor);
      }
    } else {
      var s := FullInEngine(h, number, m);
      StandsAt(g, s, m);
      RenamingOutgrows(h, number, s, m.now);
    }
  }
}
