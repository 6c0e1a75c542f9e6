/**
 When a prepared quotation is refused for its size. The engine validates the sources brought alone
 first, even those the board holds already; a held source that comes with a longer URL then counts
 with that URL, though the board keeps the one it has.
 */
module BoardQuoteSize {
  import opened Basics
  import opened BoardDocument
  import opened BoardCommands
  import opened BoardValidity
  import opened BoardHistory
  import opened BoardShare
  import opened BoardProvenance
  import opened BoardQuote
  import opened BoardSize
  import opened BoardFull

  // ---------- URLs that are no longer ----------

  /** No source that is held already comes with a longer URL. */
  predicate NoLongerURLs(base: seq<Entry>, incoming: seq<Entry>) {
    forall i, k :: 0 <= i < |base| && 0 <= k < |incoming| && base[i].sourceHash == incoming[k].sourceHash ==>
      TextSize(incoming[k].sourceURL) <= TextSize(base[i].sourceURL)
  }

  predicate HashIn(entries: seq<Entry>, hash: string) {
    exists k :: 0 <= k < |entries| && entries[k].sourceHash == hash
  }

  /** What the entries whose digest does not come in take. */
  function UntouchedSize(number: real -> nat, base: seq<Entry>, incoming: seq<Entry>): nat {
    if base == [] then 0
    else (if HashIn(incoming, base[0].sourceHash) then 0 else EntrySize(number, base[0]) + 1)
         + UntouchedSize(number, base[1..], incoming)
  }

  lemma {:induction false} UntouchedAppend(number: real -> nat, base: seq<Entry>, e: Entry, incoming: seq<Entry>)
    ensures UntouchedSize(number, base + [e], incoming)
            == UntouchedSize(number, base, incoming) + if HashIn(incoming, e.sourceHash) then 0
               else EntrySize(number, e) + 1
  {
    hide EntrySize, HashIn;
    if base == [] {
      assert [] + [e] == [e] && [e][1..] == [];
    } else {
      UntouchedAppend(number, base[1..], e, incoming);
      assert (base + [e])[1..] == base[1..] + [e];
    }
  }

  /** Fewer entries come in, more are untouched. */
  lemma {:induction false} UntouchedTail(number: real -> nat, base: seq<Entry>, incoming: seq<Entry>)
    requires incoming != []
    ensures UntouchedSize(number, base, incoming[1..]) >= UntouchedSize(number, base, incoming)
  {
    hide EntrySize;
    if base != [] {
      UntouchedTail(number, base[1..], incoming);
      TailHash(incoming, base[0].sourceHash);
    }
  }

  lemma TailHash(incoming: seq<Entry>, hash: string)
    requires incoming != []
    ensures HashIn(incoming, hash) <==> incoming[0].sourceHash == hash || HashIn(incoming[1..], hash)
  {
    if k :| 0 <= k < |incoming| && incoming[k].sourceHash == hash {
      if k > 0 { assert incoming[1..][k - 1].sourceHash == hash; }
    }
    if k :| 0 <= k < |incoming[1..]| && incoming[1..][k].sourceHash == hash {
      assert incoming[k + 1].sourceHash == hash;
    }
  }

  /** The entry held, touched by the first one coming in only. */
  lemma {:induction false} UntouchedHeld(number: real -> nat, base: seq<Entry>, incoming: seq<Entry>, i: nat)
    requires incoming != [] && i < |base| && base[i].sourceHash == incoming[0].sourceHash
    requires !HashIn(incoming[1..], incoming[0].sourceHash)
    ensures UntouchedSize(number, base, incoming[1..])
            >= UntouchedSize(number, base, incoming) + EntrySize(number, base[i]) + 1
  {
    hide EntrySize, HashIn;
    TailHash(incoming, base[0].sourceHash);
    UntouchedTail(number, base[1..], incoming);
    if i > 0 { UntouchedHeld(number, base[1..], incoming, i - 1); }
  }

  /** The entries brought take no more than the merged ones do besides those that were there untouched. */
  lemma {:induction false} BroughtInMerged(number: real -> nat, base: seq<Entry>, incoming: seq<Entry>)
    requires DistinctEntries(incoming) && NoLongerURLs(base, incoming) && MergeEntries(base, incoming).Ok?
    ensures EntriesSize(number, incoming) + UntouchedSize(number, base, incoming)
            <= EntriesSize(number, MergeEntries(base, incoming).value)
    decreases |incoming|
  {
    hide EntrySize, HashIn, TextSize, EntriesSize, UntouchedSize;
    if incoming == [] {
      AllUntouched(number, base, incoming);
    } else {
      var x, rest := incoming[0], incoming[1..];
      var i := FindEntry(base, x.sourceHash);
      NotAgain(incoming);
      OneMoreEntry(number, incoming);
      if i == |base| {
        TailURLs(base, incoming);
        BroughtInMerged(number, base + [x], rest);
        UntouchedAppend(number, base, x, rest);
        UntouchedTail(number, base, incoming);
      } else {
        TailOfURLs(base, incoming);
        BroughtInMerged(number, base, rest);
        UntouchedHeld(number, base, incoming, i);
        HeldIsNoShorter(number, base[i], x);
      }
    }
  }

  lemma NotAgain(incoming: seq<Entry>)
    requires incoming != [] && DistinctEntries(incoming)
    ensures !HashIn(incoming[1..], incoming[0].sourceHash) && DistinctEntries(incoming[1..])
  {}

  lemma OneMoreEntry(number: real -> nat, entries: seq<Entry>)
    requires entries != []
    ensures EntriesSize(number, entries) == EntrySize(number, entries[0]) + 1 + EntriesSize(number, entries[1..])
  {
    hide EntrySize;
  }

  lemma TailURLs(base: seq<Entry>, incoming: seq<Entry>)
    requires incoming != [] && DistinctEntries(incoming) && NoLongerURLs(base, incoming)
    ensures NoLongerURLs(base + [incoming[0]], incoming[1..])
  {
    hide TextSize;
  }

  lemma TailOfURLs(base: seq<Entry>, incoming: seq<Entry>)
    requires incoming != [] && NoLongerURLs(base, incoming)
    ensures NoLongerURLs(base, incoming[1..])
  {
    hide TextSize;
  }

  lemma HeldIsNoShorter(number: real -> nat, held: Entry, e: Entry)
    requires held.sourceHash == e.sourceHash && !Conflict(held, e) && TextSize(e.sourceURL) <= TextSize(held.sourceURL)
    ensures EntrySize(number, e) <= EntrySize(number, held)
  {
    hide TextSize;
  }

  lemma {:induction false} AllUntouched(number: real -> nat, base: seq<Entry>, incoming: seq<Entry>)
    requires incoming == []
    ensures UntouchedSize(number, base, incoming) == EntriesSize(number, base) && EntriesSize(number, incoming) == 0
  {
    hide EntrySize;
    if base != [] { AllUntouched(number, base[1..], incoming); }
  }

  /** The sources alone take no more than the quoted document, if none that is held has a longer URL. */
  lemma SourcesFit(number: real -> nat, target: Document, v: Document, incoming: seq<Entry>)
    requires DistinctEntries(incoming) && NoLongerURLs(target.provenance, incoming)
    requires MergeEntries(target.provenance, incoming) == Ok(v.provenance)
    requires v == target.(objects := v.objects, frames := v.frames, provenance := v.provenance)
    ensures JsonSize(number, SourcesOnly(target, incoming)) <= JsonSize(number, v)
  {
    hide EntriesSize, ObjectsSize, FramesSize, ReactionsSize, TextSize, AgentSize, HeaderSize, MergeEntries;
    BroughtInMerged(number, target.provenance, incoming);
    NothingListed(number);
  }

  lemma NothingListed(number: real -> nat)
    ensures ObjectsSize(number, []) == 0 && ReactionsSize([]) == 0 && FramesSize(number, []) == 0
  {}

  /** So a prepared quotation is accepted if no source held already comes with a longer URL. */
  lemma QuoteFits(
    h: Host, number: real -> nat, s: State, source: Document, o: QuoteOptions, all: iset<Document>, actor: string,
    now: string)
    requires StableURLs(h) && Inv(JsonHost(h, number), s) && !s.readOnly && |actor| <= 100 && Timestamp(h, now)
    requires s.revisionClock + 2 <= MAX_SAFE_INTEGER
    requires Verified(JsonHost(h, number), s.document) && Verified(JsonHost(h, number), source)
    requires CollisionFree(JsonHost(h, number), all) && Covered(all, s.document) && Covered(all, source)
    requires QuoteInto(JsonHost(h, number), s.document, source, o).Ok?
    requires NoLongerURLs(s.document.provenance, QuoteInto(JsonHost(h, number), s.document, source, o).value.provenance)
    ensures var q := QuoteInto(JsonHost(h, number), s.document, source, o).value;
            DoExecute(JsonHost(h, number), s, AsCommand(q), actor, now).1.Accepted?
  {
    hide Verified, CheckDocument, CollisionFree, Covered, Inv, Timestamp, Sound, MergeEntries, Gather, JsonSize, Run,
      Brings,
      NoLongerURLs, SourcesOnly, Quoted, DistinctEntries, DoExecute, NormalEntry;
    var g, target := JsonHost(h, number), s.document;
    JsonStable(h, number);
    JsonTimes(h, number, now);
    var q := QuoteInto(g, target, source, o).value;
    GatherBrings(g, source, o);
    BroughtHolds(g, source, q.provenance, all);
    var merged := MergeEntries(target.provenance, q.provenance).value;
    var v := CheckDocument(g, Quoted(target, q.content, merged), true).value;
    MergedParts(g, target, source, q, all);
    SourcesFit(number, target, v, q.provenance);
    QuoteIsAccepted(g, s, source, o, all, actor, now, now);
  }

  lemma MergedParts(h: Host, target: Document, source: Document, q: Quotation, all: iset<Document>)
    requires StableURLs(h) && Verified(h, target) && Verified(h, source) && Brings(h, source, q.provenance)
    requires CollisionFree(h, all) && Covered(all, target) && Covered(all, source)
    requires MergeEntries(target.provenance, q.provenance).Ok?
    requires CheckDocument(h, Quoted(target, q.content, MergeEntries(target.provenance, q.provenance).value), true).Ok?
    ensures var merged := MergeEntries(target.provenance, q.provenance).value;
            var v := CheckDocument(h, Quoted(target, q.content, merged), true).value;
            v == target.(objects := v.objects, frames := v.frames, provenance := merged)
  {
    hide Verified, CheckDocument, CollisionFree, Covered, Sound, MergeEntries, Brings, Quoted, NormalEntry, Flat,
      Digest,
      Genuine, DistinctObjects, DistinctFrames, PointSum, NormalFrame;
    VerifiedIsGenuine(h, target);
    VerifiedIsGenuine(h, source);
    SoundEntries(h, target);
    FlatFits(h, target, source, q, all);
    BroughtAreNormal(h, source, q.provenance);
    MergeKeeps(h, target.provenance, q.provenance);
    QuotedParts(h, target, q.content, MergeEntries(target.provenance, q.provenance).value);
  }

  // ---------- a longer URL ----------

  /** A board that holds nothing but one source. */
  function Holder(h: Host, source: Document, time: string): Document {
    Blank("y", 0, time).(provenance := [Direct(h, source, "")])
  }

  /** Nothing is selected, so only the source comes along. */
  function Nothing(url: string): QuoteOptions { QuoteOptions(Some([]), 0.0, 0.0, url, FreshIds(n => "", n => "")) }

  function OnlySource(h: Host, source: Document, url: string): Quotation {
    Quotation(Selection([], []), [Direct(h, source, url)])
  }

  /** A source without sources of its own, titled x and made at the time. */
  ghost predicate Simple(h: Host, source: Document, time: string) {
    && Sound(h, source, true) && h.bytes(source) <= MAX_BYTES && source.provenance == []
    && source.title == "x" && source.author == "" && source.createdAt == time
  }

  lemma FlatIsItself(source: Document)
    requires source.provenance == []
    ensures Flat(source) == source
  {
    assert BareAll([]) == [];
  }

  /** Entries take as much whatever the source, but for its size and the URL. */
  function EntryBase(time: string): nat {
    1 + Field("sourceHash", 66) + Field("title", 3) + Field("author", 2) + Field("createdAt", TextSize(time))
    + Field("sourceURL", 0) + Field("snapshot", 0)
  }

  lemma DirectSize(h: Host, number: real -> nat, source: Document, time: string, url: string)
    requires Simple(h, source, time) && Digest(h.digest(source))
    ensures EntrySize(number, Direct(h, source, url)) == EntryBase(time) + TextSize(url) + JsonSize(number, source)
  {
    hide JsonSize, CharsSize, Sound;
    FlatIsItself(source);
    PlainTextSize(h.digest(source));
    assert CharsSize("x") == 1 && CharsSize("") == 0 by { PlainTextSize("x"); PlainTextSize(""); }
  }

  lemma HolderSize(h: Host, number: real -> nat, source: Document, time: string, url: string)
    requires Simple(h, source, time) && Digest(h.digest(source))
    ensures JsonSize(number, Holder(h, source, time).(provenance := [Direct(h, source, url)]))
            == JsonSize(number, Blank("y", 0, time)) + EntryBase(time) + TextSize(url) + JsonSize(number, source)
  {
    hide EntrySize, ObjectsSize, FramesSize, ReactionsSize, TextSize, AgentSize, HeaderSize, EntryBase, Simple;
    DirectSize(h, number, source, time, url);
    OneEntry(number, Direct(h, source, url));
  }

  lemma OneEntry(number: real -> nat, e: Entry)
    ensures EntriesSize(number, [e]) == EntrySize(number, e) + 1 && EntriesSize(number, []) == 0
  {
    hide EntrySize;
  }

  lemma DirectIsNormal(h: Host, source: Document, time: string, url: string)
    requires StableURLs(h) && Simple(h, source, time) && Digest(h.digest(source)) && CompactURL(h, url) == Ok(url)
    ensures NormalEntry(h, Direct(h, source, url), true) && Genuine(h, [], Direct(h, source, url))
    ensures NormalizeDocument(h, Flat(source), false).Ok?
  {
    hide Digest, CheckDocument, Sound, CompactURL;
    FlatIsItself(source);
    SoundWithout(h, source);
    SoundIsChecked(h, source, false);
    SoundHeader(h, source);
    DirectNormal(h, source, url);
  }

  lemma SoundWithout(h: Host, d: Document)
    requires Sound(h, d, true) && d.provenance == []
    ensures Sound(h, d, false)
  {
    hide NormalObject, NormalFrame, NormalReaction, Timestamp;
  }

  lemma HolderIsSound(h: Host, source: Document, time: string, url: string)
    requires NormalEntry(h, Direct(h, source, url), true) && Timestamp(h, time)
    ensures Sound(h, Holder(h, source, time).(provenance := [Direct(h, source, url)]), true)
  {
    hide Timestamp, NormalEntry, Color, Identifier;
    PlainFields();
  }

  lemma {:induction false} ChosenNone(objects: seq<Object>)
    ensures Chosen(objects, []) == []
  {
    if objects != [] { ChosenNone(objects[1..]); }
  }

  /** What preparing gives for a source held already: nothing new, but with the URL given. */
  lemma PreparedFromHeld(h: Host, source: Document, time: string, url: string)
    requires StableURLs(h) && Simple(h, source, time) && CompactURL(h, url) == Ok(url)
    requires Validate(h, source) == Ok(source) && Validate(h, Holder(h, source, time)) == Ok(Holder(h, source, time))
    ensures QuoteInto(h, Holder(h, source, time), source, Nothing(url)) == Ok(OnlySource(h, source, url))
  {
    hide CheckDocument, Sound, SnapshotHash, WithoutPayloads, CompactURL, Simple;
    var target := Holder(h, source, time);
    ChosenNone(source.objects);
    HashOfValid(h, source);
    assert source.provenance == [] by { SimpleHasNone(h, source, time); }
    OneSource(h, source, url);
    assert PlacedObjects([], Nothing(url).ids, 0.0, 0.0) == [] && PlacedFrames([], Nothing(url).ids, 0.0, 0.0) == [];
    assert Gather(h, source, Nothing(url)) == Ok(OnlySource(h, source, url));
    MergesWithItself(Direct(h, source, ""), Direct(h, source, url));
    assert Quoted(target, Selection([], []), target.provenance) == target;
  }

  lemma OneSource(h: Host, source: Document, url: string)
    requires source.provenance == [] && CompactURL(h, url) == Ok(url)
    requires SnapshotHash(h, source) == Ok(h.digest(Flat(source))) && WithoutPayloads(h, source) == Ok(Flat(source))
    ensures SourceEntries(h, source, url) == Ok([Direct(h, source, url)])
  {
    hide SnapshotHash, WithoutPayloads, CompactURL, Flat;
    assert Except([], h.digest(Flat(source))) == [];
    assert [Direct(h, source, url)] + [] == [Direct(h, source, url)];
  }

  lemma SimpleHasNone(h: Host, source: Document, time: string)
    requires Simple(h, source, time)
    ensures source.provenance == []
  {
    hide Sound;
  }

  lemma MergesWithItself(held: Entry, e: Entry)
    requires held.sourceHash == e.sourceHash && !Conflict(held, e)
    ensures MergeEntries([held], [e]) == Ok([held])
  {
    assert [e][1..] == [];
  }

  /**
   On a board of exactly the size limit that holds one source, quoting this source again under a longer
   URL is prepared without a complaint and then refused as too large, although it would change nothing.
   */
  lemma QuoteRefused(h: Host, number: real -> nat, time: string, url: string)
    returns (source: Document, target: Document)
    requires StableURLs(h) && Printed(number) && Timestamp(h, time) && CompactURL(h, url) == Ok(url) && url != ""
    requires forall d :: Digest(h.digest(d))
    ensures var g := JsonHost(h, number);
            && Verified(g, source) && Verified(g, target) && JsonSize(number, target) == MAX_BYTES
            && QuoteInto(g, target, source, Nothing(url)) == Ok(OnlySource(g, source, url))
            && DoExecute(g, Start(target), AsCommand(OnlySource(g, source, url)), "", time)
               == (Start(target), Rejected(0, SnapshotTooLarge))
  {
    hide JsonSize, Timestamp, Sound, Printed, Digest, CheckDocument, CompactURL, TextSize, VerifySources, NormalEntry,
      Genuine;
    var g := JsonHost(h, number);
    JsonStable(h, number);
    JsonTimes(h, number, time);
    var rest := JsonSize(number, Blank("y", 0, time)) + EntryBase(time) + TextSize("");
    RestIsSmall(h, number, time);
    source := BoardOfSize(h, number, "x", 0, time, MAX_BYTES - rest);
    target := Holder(g, source, time);
    assert Simple(g, source, time);
    assert CompactURL(g, url) == Ok(url) && CompactURL(g, "") == Ok("") by { SameCompact(h, number, url); }
    DirectIsNormal(g, source, time, "");
    DirectIsNormal(g, source, time, url);
    HolderSize(g, number, source, time, "");
    HolderSize(g, number, source, time, url);
    HolderIsSound(g, source, time, "");
    HolderIsSound(g, source, time, url);
    assert target.(provenance := [Direct(g, source, "")]) == target;
    SoundIsChecked(g, source, true);
    SoundIsChecked(g, target, true);
    HolderPasses(g, source, time);
    PreparedFromHeld(g, source, time, url);
    LongerURL(url);
    var alone := SourcesOnly(target, [Direct(g, source, url)]);
    assert alone == target.(provenance := [Direct(g, source, url)]);
    SoundIsChecked(g, alone, true);
    TooLargeToQuote(g, target, OnlySource(g, source, url));
  }

  lemma LongerURL(url: string)
    requires url != ""
    ensures TextSize(url) > TextSize("")
  {
    CharsBound(url);
  }

  lemma SameCompact(h: Host, number: real -> nat, url: string)
    ensures CompactURL(JsonHost(h, number), url) == CompactURL(h, url) && CompactURL(JsonHost(h, number), "") == Ok("")
  {}

  lemma RestIsSmall(h: Host, number: real -> nat, time: string)
    requires Printed(number) && Timestamp(h, time)
    ensures JsonSize(number, Blank("y", 0, time)) + EntryBase(time) + TextSize("") <= MAX_BYTES - LEAST
  {
    hide JsonSize;
    BlankIsSmall(number, h, "y", 0, time);
    CharsBound(time);
    CharsBound("");
  }

  /** A board that holds one simple source passes verification, and so does the source. */
  lemma HolderPasses(h: Host, source: Document, time: string)
    requires StableURLs(h) && Simple(h, source, time) && Sound(h, Holder(h, source, time), true)
    requires Genuine(h, [], Direct(h, source, ""))
    ensures VerifySources(h, Holder(h, source, time)).Ok? && VerifySources(h, source).Ok?
  {
    hide Sound;
    FlatIsItself(source);
    SourcesPass(h, Holder(h, source, time));
    SourcesPass(h, source);
  }
}
