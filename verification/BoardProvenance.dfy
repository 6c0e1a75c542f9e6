/** Every generation stays recoverable, and a prepared quotation is always accepted. */
module BoardProvenance {
  import opened Basics
  import opened BoardDocument
  import opened BoardCommands
  import opened BoardValidity
  import opened BoardHistory
  import opened BoardShare

  // ---------- flat documents ----------

  lemma {:induction false} MetadataOfNormal(h: Host, entries: seq<Entry>)
    requires StableURLs(h) && forall i :: 0 <= i < |entries| ==> NormalEntry(h, entries[i], true)
    ensures MetadataOnly(h, entries) == Ok(BareAll(entries))
  {
    if entries != [] {
      assert NormalEntry(h, entries[0], true);
      MetadataOfNormal(h, entries[1..]);
      URLIsCompact(h, entries[0], true);
    }
  }

  lemma URLIsCompact(h: Host, e: Entry, allow: bool)
    requires NormalEntry(h, e, allow)
    ensures CompactURL(h, e.sourceURL) == Ok(e.sourceURL)
  {
    hide CompactURL, NormalizeDocument;
  }

  lemma BareIsNormal(h: Host, e: Entry, allow: bool)
    requires NormalEntry(h, e, allow)
    ensures NormalEntry(h, Bare(e), false) && NormalEntry(h, Bare(e), true)
  {
    hide CompactURL, NormalizeDocument;
  }

  /** A snapshot inside a normal entry is a valid flat document in its own right. */
  lemma SnapshotIsValid(h: Host, e: Entry)
    requires StableURLs(h) && NormalEntry(h, e, true) && e.snapshot.Some?
    ensures var s := e.snapshot.value; Flat(s) == s && Validate(h, s) == Ok(s) && Sound(h, s, true)
  {
    var s := e.snapshot.value;
    assert NormalizeDocument(h, s, false) == Ok(s) by { hide CheckDocument; }
    DocumentNormalized(h, s, false);
    WithoutSnapshots(h, s);
    SoundIsChecked(h, s, true);
  }

  /** Where no snapshots are allowed there are none, so the document is flat and also sound where they are allowed. */
  lemma WithoutSnapshots(h: Host, s: Document)
    requires Sound(h, s, false)
    ensures Flat(s) == s && Sound(h, s, true)
  {
    hide NormalObject, NormalFrame, NormalReaction, PointSum, Timestamp, CompactURL, NormalizeDocument;
    forall i | 0 <= i < |s.provenance|
      ensures Bare(s.provenance[i]) == s.provenance[i] && NormalEntry(h, s.provenance[i], true)
    {
      assert NormalEntry(h, s.provenance[i], false);
    }
    assert BareAll(s.provenance) == s.provenance;
  }

  lemma SoundEntries(h: Host, d: Document)
    requires Sound(h, d, true)
    ensures forall i :: 0 <= i < |d.provenance| ==> NormalEntry(h, d.provenance[i], true)
    ensures DistinctEntries(d.provenance)
  {
    hide NormalEntry, NormalObject, NormalFrame, NormalReaction, PointSum, Timestamp;
  }

  /** Digests of valid documents are digests of their flat form. */
  lemma HashOfValid(h: Host, d: Document)
    requires StableURLs(h) && Validate(h, d) == Ok(d)
    ensures Sound(h, d, true) && WithoutPayloads(h, d) == Ok(Flat(d)) && SnapshotHash(h, d) == Ok(h.digest(Flat(d)))
  {
    hide CheckDocument, Sound, MetadataOnly;
    DocumentNormalized(h, d, true);
    SoundEntries(h, d);
    MetadataOfNormal(h, d.provenance);
  }

  // ---------- collections of entries ----------

  /** Some entry carries this snapshot under this hash. */
  ghost predicate Holds(entries: seq<Entry>, hash: string, s: Document) {
    exists i :: 0 <= i < |entries| && entries[i].sourceHash == hash && entries[i].snapshot == Some(s)
  }

  lemma HoldsFinds(entries: seq<Entry>, hash: string, s: Document)
    requires Holds(entries, hash, s) && DistinctEntries(entries)
    ensures var i := FindEntry(entries, hash);
            i < |entries| && entries[i].snapshot == Some(s) && HasSnapshot(entries, hash)
  {}

  lemma HoldsPrefix(a: seq<Entry>, b: seq<Entry>, hash: string, s: Document)
    requires Holds(a, hash, s) && |a| <= |b| && b[..|a|] == a
    ensures Holds(b, hash, s)
  {
    var i :| 0 <= i < |a| && a[i].sourceHash == hash && a[i].snapshot == Some(s);
    assert b[i] == a[i];
  }

  /** Merging loses no snapshot of either side, and brings no entry of its own. */
  lemma {:induction false} MergeHolds(base: seq<Entry>, incoming: seq<Entry>)
    requires MergeEntries(base, incoming).Ok?
    ensures var m := MergeEntries(base, incoming).value;
            && |base| <= |m| && m[..|base|] == base
            && (forall k ::
                0 <= k < |incoming| && incoming[k].snapshot.Some? ==>
                Holds(m, incoming[k].sourceHash, incoming[k].snapshot.value))
            && (forall k :: 0 <= k < |m| ==> m[k] in base || m[k] in incoming)
    decreases |incoming|
  {
    if incoming == [] {
      assert base[..|base|] == base;
    } else {
      var e := incoming[0];
      var i := FindEntry(base, e.sourceHash);
      var next := if i == |base| then base + [e] else base;
      MergeHolds(next, incoming[1..]);
      var m := MergeEntries(base, incoming).value;
      assert m[..|base|] == m[..|next|][..|base|] == base;
      if e.snapshot.Some? {
        assert next[i].sourceHash == e.sourceHash && next[i].snapshot == e.snapshot;
        HoldsPrefix(next, m, e.sourceHash, e.snapshot.value);
      }
      forall k | 0 <= k < |incoming| && incoming[k].snapshot.Some?
        ensures Holds(m, incoming[k].sourceHash, incoming[k].snapshot.value)
      {
        if k > 0 { assert incoming[k] == incoming[1..][k - 1]; }
      }
    }
  }

  /** Merging fails only on a conflict with what was there. */
  lemma {:induction false} MergeSucceeds(base: seq<Entry>, incoming: seq<Entry>)
    requires DistinctEntries(incoming)
    requires forall i, k :: 0 <= i < |base| && 0 <= k < |incoming| && base[i].sourceHash == incoming[k].sourceHash ==>
               !Conflict(base[i], incoming[k])
    ensures MergeEntries(base, incoming).Ok?
    decreases |incoming|
  {
    if incoming != [] {
      var i := FindEntry(base, incoming[0].sourceHash);
      var next := if i == |base| then base + [incoming[0]] else base;
      forall j, k | 0 <= j < |next| && 0 <= k < |incoming[1..]| && next[j].sourceHash == incoming[1..][k].sourceHash
        ensures !Conflict(next[j], incoming[1..][k])
      {
        assert incoming[1..][k] == incoming[k + 1];
      }
      MergeSucceeds(next, incoming[1..]);
    }
  }

  lemma {:induction false} ExceptHolds(entries: seq<Entry>, hash: string)
    ensures var r := Except(entries, hash);
            && (forall e :: e in r <==> e in entries && e.sourceHash != hash)
            && (DistinctEntries(entries) ==> DistinctEntries(r))
  {
    if entries != [] {
      ExceptHolds(entries[1..], hash);
      if DistinctEntries(entries) {
        var rest := Except(entries[1..], hash);
        forall j | 0 <= j < |rest| ensures rest[j].sourceHash != entries[0].sourceHash {
          assert rest[j] in entries[1..];
        }
      }
    }
  }

  // ---------- collision-free documents ----------

  /** No two documents of the collection share a digest, and digests look like digests. */
  ghost predicate CollisionFree(h: Host, all: iset<Document>) {
    && (forall a, b :: a in all && b in all && h.digest(a) == h.digest(b) ==> a == b)
    && (forall a :: a in all ==> Digest(h.digest(a)))
  }

  /** The flat document and its snapshots belong to the collection. */
  ghost predicate Covered(all: iset<Document>, d: Document) {
    Flat(d) in all && forall i ::
      0 <= i < |d.provenance| && d.provenance[i].snapshot.Some? ==> d.provenance[i].snapshot.value in all
  }

  /** What a passed verification says of one entry. */
  ghost predicate Genuine(h: Host, index: seq<Entry>, e: Entry) {
    && e.snapshot.Some?
    && var s := e.snapshot.value;
    && h.digest(s) == e.sourceHash && e.title == s.title && e.author == s.author && e.createdAt == s.createdAt
    && forall j :: 0 <= j < |s.provenance| ==> HasSnapshot(index, s.provenance[j].sourceHash)
  }

  lemma VerifiedEntry(h: Host, index: seq<Entry>, e: Entry)
    requires StableURLs(h) && NormalEntry(h, e, true)
    ensures VerifyEntry(h, index, e).Ok? <==> Genuine(h, index, e)
  {
    hide NormalEntry, SnapshotHash, Flat;
    if e.snapshot.Some? {
      SnapshotIsValid(h, e);
      HashOfValid(h, e.snapshot.value);
    }
  }

  lemma {:induction false} VerifiedEntries(h: Host, index: seq<Entry>, entries: seq<Entry>)
    requires StableURLs(h) && forall i :: 0 <= i < |entries| ==> NormalEntry(h, entries[i], true)
    ensures VerifyEntries(h, index, entries).Ok? <==> forall i :: 0 <= i < |entries| ==> Genuine(h, index, entries[i])
  {
    hide NormalEntry, Genuine, VerifyEntry;
    if entries != [] {
      VerifiedEntry(h, index, entries[0]);
      VerifiedEntries(h, index, entries[1..]);
      if forall i :: 0 <= i < |entries| ==> Genuine(h, index, entries[i]) {
        forall i | 0 <= i < |entries[1..]| ensures Genuine(h, index, entries[1..][i]) {
          assert Genuine(h, index, entries[i + 1]);
        }
      }
      if forall i :: 0 <= i < |entries[1..]| ==> Genuine(h, index, entries[1..][i]) {
        forall i | 1 <= i < |entries| ensures Genuine(h, index, entries[i]) {
          assert Genuine(h, index, entries[1..][i - 1]);
        }
      }
    }
  }

  /** A valid document all of whose sources check out. */
  ghost predicate Verified(h: Host, d: Document) {
    Validate(h, d) == Ok(d) && VerifySources(h, d).Ok?
  }

  lemma VerifiedIsGenuine(h: Host, d: Document)
    requires StableURLs(h) && Verified(h, d)
    ensures Sound(h, d, true) && forall i :: 0 <= i < |d.provenance| ==> Genuine(h, d.provenance, d.provenance[i])
  {
    hide CheckDocument, Sound, Genuine;
    DocumentNormalized(h, d, true);
    SoundEntries(h, d);
    VerifiedEntries(h, d.provenance, d.provenance);
  }

  /** The entries a source brings along. */
  ghost predicate Brings(h: Host, source: Document, entries: seq<Entry>) {
    exists url :: entries == [Direct(h, source, url)] + Except(source.provenance, h.digest(Flat(source)))
                  && CompactURL(h, url) == Ok(url)
  }

  function Direct(h: Host, source: Document, url: string): Entry {
    Entry(h.digest(Flat(source)), source.title, source.author, source.createdAt, url, Some(Flat(source)))
  }

  lemma SourceEntriesBring(h: Host, source: Document, url: string)
    requires StableURLs(h) && Validate(h, source) == Ok(source) && SourceEntries(h, source, url).Ok?
    ensures Brings(h, source, SourceEntries(h, source, url).value)
  {
    hide CheckDocument, Sound, SnapshotHash, WithoutPayloads, Flat;
    HashOfValid(h, source);
    URLNormalized(h, url);
    var compact := CompactURL(h, url).value;
    assert SourceEntries(h, source, url).value
      == [Direct(h, source, compact)] + Except(source.provenance, h.digest(Flat(source)));
  }

  /** They hold the flat source and every snapshot the source held. */
  lemma BroughtHolds(h: Host, source: Document, entries: seq<Entry>, all: iset<Document>)
    requires StableURLs(h) && Verified(h, source) && Brings(h, source, entries) && CollisionFree(h, all)
    requires Covered(all, source)
    ensures Holds(entries, h.digest(Flat(source)), Flat(source)) && DistinctEntries(entries)
    ensures forall i :: 0 <= i < |source.provenance| ==>
      source.provenance[i].snapshot.Some?
        && Holds(entries, source.provenance[i].sourceHash, source.provenance[i].snapshot.value)
  {
    hide CheckDocument, Sound, VerifySources, Flat;
    VerifiedIsGenuine(h, source);
    SoundEntries(h, source);
    var hash := h.digest(Flat(source));
    ExceptHolds(source.provenance, hash);
    var rest := Except(source.provenance, hash);
    assert entries[1..] == rest;
    assert entries[0].sourceHash == hash && entries[0].snapshot == Some(Flat(source));
    forall j | 0 <= j < |rest| ensures rest[j].sourceHash != hash { assert rest[j] in rest; }
    forall i | 0 <= i < |source.provenance|
      ensures source.provenance[i].snapshot.Some?
      ensures Holds(entries, source.provenance[i].sourceHash, source.provenance[i].snapshot.value)
    {
      var e := source.provenance[i];
      assert Genuine(h, source.provenance, e);
      if e.sourceHash != hash {
        assert e in rest;
        var k :| 0 <= k < |rest| && rest[k] == e;
        assert entries[k + 1] == e;
      }
    }
  }

  // ---------- recovery ----------

  /** The entries suffice to rebuild the document: its flat form and all its snapshots are there. */
  ghost predicate Recoverable(h: Host, entries: seq<Entry>, d: Document) {
    && Holds(entries, h.digest(Flat(d)), Flat(d))
    && forall i :: 0 <= i < |d.provenance| ==>
         d.provenance[i].snapshot.Some? && Holds(entries, d.provenance[i].sourceHash, d.provenance[i].snapshot.value)
  }

  lemma {:induction false} AttachRestores(index: seq<Entry>, entries: seq<Entry>)
    requires DistinctEntries(index)
    requires forall i ::
             0 <= i < |entries| ==>
             entries[i].snapshot.Some? && Holds(index, entries[i].sourceHash, entries[i].snapshot.value)
    ensures Attach(index, BareAll(entries)) == Ok(entries)
  {
    if entries != [] {
      var bare := BareAll(entries);
      assert bare[0] == Bare(entries[0]) && bare[1..] == BareAll(entries[1..]);
      HoldsFinds(index, entries[0].sourceHash, entries[0].snapshot.value);
      forall i | 0 <= i < |entries[1..]|
        ensures entries[1..][i].snapshot.Some?
        ensures Holds(index, entries[1..][i].sourceHash, entries[1..][i].snapshot.value)
      {
        assert entries[1..][i] == entries[i + 1];
      }
      AttachRestores(index, entries[1..]);
      assert entries == [bare[0].(snapshot := entries[0].snapshot)] + entries[1..];
    }
  }

  /** A recoverable document is rebuilt exactly. */
  lemma RecoverableResolves(h: Host, g: Document, d: Document)
    requires StableURLs(h) && Validate(h, g) == Ok(g) && Validate(h, d) == Ok(d) && Recoverable(h, g.provenance, d)
    ensures SnapshotHash(h, d) == Ok(h.digest(Flat(d)))
    ensures ResolveSource(h, g, h.digest(Flat(d))) == Ok(d)
  {
    hide CheckDocument, Sound, SnapshotHash;
    DocumentNormalized(h, g, true);
    SoundEntries(h, g);
    HashOfValid(h, d);
    HoldsFinds(g.provenance, h.digest(Flat(d)), Flat(d));
    AttachRestores(g.provenance, d.provenance);
    assert Flat(d).(provenance := d.provenance) == d;
  }

  lemma RecoverableMore(h: Host, a: seq<Entry>, b: seq<Entry>, d: Document)
    requires Recoverable(h, a, d)
    requires forall i :: 0 <= i < |a| && a[i].snapshot.Some? ==> Holds(b, a[i].sourceHash, a[i].snapshot.value)
    ensures Recoverable(h, b, d)
  {
    hide Flat;
    forall hash, s | Holds(a, hash, s) ensures Holds(b, hash, s) {
      var i :| 0 <= i < |a| && a[i].sourceHash == hash && a[i].snapshot == Some(s);
      assert Holds(b, a[i].sourceHash, a[i].snapshot.value);
    }
  }

  lemma ValidatedTwice(h: Host, input: Document)
    requires StableURLs(h) && ValidAndVerified(h, input).Ok?
    ensures var d := ValidAndVerified(h, input).value; Verified(h, d) && Validate(h, input) == Ok(d)
  {
    hide CheckDocument, Sound, VerifySources;
    DocumentNormalized(h, input, true);
  }

  /** Flattening a sound document keeps it sound, with or without leave for snapshots. */
  lemma FlatIsSound(h: Host, d: Document)
    requires Sound(h, d, true)
    ensures Sound(h, Flat(d), false) && Sound(h, Flat(d), true)
  {
    hide NormalEntry, NormalObject, NormalFrame, NormalReaction, PointSum, Timestamp;
    forall i | 0 <= i < |d.provenance|
      ensures NormalEntry(h, Flat(d).provenance[i], false) && NormalEntry(h, Flat(d).provenance[i], true)
    {
      BareIsNormal(h, d.provenance[i], true);
    }
  }

  /** The direct entry passes normalization unchanged, unless its snapshot is too large. */
  lemma DirectIsFixed(h: Host, source: Document, url: string)
    requires Sound(h, source, true) && CompactURL(h, url) == Ok(url)
    ensures var e := Direct(h, source, url); NormalizeEntry(h, e, true).Ok? ==> NormalEntry(h, e, true)
  {
    hide CheckDocument, Sound, CompactURL, Timestamp, Flat;
    FlatIsSound(h, source);
    SoundIsChecked(h, Flat(source), false);
    var n := NormalizeDocument(h, Flat(source), false);
    assert n.Ok? ==> n == Ok(Flat(source));
    assert NormalizeEntry(h, Direct(h, source, url), true).Ok? ==> n.Ok?;
  }

  lemma {:induction false} FixedEntries(h: Host, entries: seq<Entry>)
    requires NormalizeEntries(h, entries, true).Ok?
    requires forall i ::
             0 <= i < |entries| && NormalizeEntry(h, entries[i], true).Ok? ==> NormalEntry(h, entries[i], true)
    ensures NormalizeEntries(h, entries, true) == Ok(entries)
    ensures forall i :: 0 <= i < |entries| ==> NormalEntry(h, entries[i], true)
  {
    hide NormalizeEntry;
    if entries != [] {
      assert NormalEntry(h, entries[0], true);
      forall i | 0 <= i < |entries[1..]| && NormalizeEntry(h, entries[1..][i], true).Ok?
        ensures NormalEntry(h, entries[1..][i], true)
      {
        assert NormalEntry(h, entries[i + 1], true);
      }
      FixedEntries(h, entries[1..]);
      assert entries == [entries[0]] + entries[1..];
      forall i | 0 <= i < |entries| ensures NormalEntry(h, entries[i], true) {
        if i > 0 { assert NormalEntry(h, entries[1..][i - 1], true); }
      }
    }
  }

  /** What a sound source brings is kept as it is by normalization. */
  lemma BroughtAreFixed(h: Host, source: Document, entries: seq<Entry>)
    requires Sound(h, source, true) && Brings(h, source, entries) && NormalizeEntries(h, entries, true).Ok?
    ensures NormalizeEntries(h, entries, true) == Ok(entries)
    ensures forall i :: 0 <= i < |entries| ==> NormalEntry(h, entries[i], true)
  {
    hide Sound, Flat, NormalEntry;
    SoundEntries(h, source);
    var hash := h.digest(Flat(source));
    var url :| entries == [Direct(h, source, url)] + Except(source.provenance, hash) && CompactURL(h, url) == Ok(url);
    DirectIsFixed(h, source, url);
    ExceptHolds(source.provenance, hash);
    forall i | 0 <= i < |entries| && NormalizeEntry(h, entries[i], true).Ok? ensures NormalEntry(h, entries[i], true) {
      if i > 0 {
        assert entries[i] == Except(source.provenance, hash)[i - 1];
        assert entries[i] in source.provenance;
      }
    }
    FixedEntries(h, entries);
  }

  lemma CheckedEntries(h: Host, d: Document)
    requires CheckDocument(h, d, true).Ok?
    ensures NormalizeEntries(h, d.provenance, true) == Ok(CheckDocument(h, d, true).value.provenance)
  {
    hide NormalizeEntries, NormalizeObjects, PointSum, Timestamp, Angle;
  }

  lemma ForkDraftEntries(h: Host, d: Document, o: ForkOptions)
    requires ForkDraft(h, d, o).Ok?
    ensures SourceEntries(h, d, o.url) == Ok(ForkDraft(h, d, o).value.provenance)
  {
    hide SourceEntries, NewDocument, Select, CopyContent;
  }

  /** A fork's entries are exactly what its source brings. */
  lemma ForkBrings(h: Host, d: Document, o: ForkOptions)
    requires StableURLs(h) && Fork(h, d, o).Ok? && Validate(h, d) == Ok(d)
    ensures Verified(h, d) && Verified(h, Fork(h, d, o).value) && Brings(h, d, Fork(h, d, o).value.provenance)
  {
    hide CheckDocument, Sound, VerifySources, SourceEntries, ForkDraft, Brings;
    ValidatedTwice(h, d);
    var draft := ForkDraft(h, d, o).value;
    ForkDraftEntries(h, d, o);
    ValidatedTwice(h, draft);
    SourceEntriesBring(h, d, o.url);
    CheckedEntries(h, draft);
    DocumentNormalized(h, d, true);
    BroughtAreFixed(h, d, draft.provenance);
  }

  lemma NormalForkRecovers(h: Host, d: Document, o: ForkOptions, all: iset<Document>)
    requires StableURLs(h) && Fork(h, d, o).Ok? && Validate(h, d) == Ok(d) && CollisionFree(h, all) && Covered(all, d)
    ensures Recoverable(h, Fork(h, d, o).value.provenance, d) && Verified(h, Fork(h, d, o).value)
    ensures ResolveSource(h, Fork(h, d, o).value, h.digest(Flat(d))) == Ok(d)
    ensures SnapshotHash(h, d) == Ok(h.digest(Flat(d)))
  {
    hide CheckDocument, Sound, Fork, Flat, VerifySources, ResolveSource, SnapshotHash, Covered, CollisionFree, Brings;
    ForkBrings(h, d, o);
    BroughtHolds(h, d, Fork(h, d, o).value.provenance, all);
    RecoverableResolves(h, Fork(h, d, o).value, d);
  }

  /** Forking validates what it is given first, so it is the fork of the validated document. */
  lemma ForkNormalizes(h: Host, d: Document, o: ForkOptions)
    requires StableURLs(h) && Validate(h, d).Ok?
    ensures var n := Validate(h, d).value;
            Validate(h, n) == Ok(n) && Fork(h, d, o) == Fork(h, n, o) && SnapshotHash(h, d) == SnapshotHash(h, n)
  {
    hide CheckDocument, Sound, VerifySources, ForkDraft, WithoutPayloads;
    DocumentNormalized(h, d, true);
  }

  /** A fork can rebuild its source, as validated when it was forked. */
  lemma ForkRecovers(h: Host, d: Document, o: ForkOptions, all: iset<Document>)
    requires StableURLs(h) && Fork(h, d, o).Ok? && CollisionFree(h, all) && Covered(all, Forked(h, d))
    ensures var n := Forked(h, d);
            && Recoverable(h, Fork(h, d, o).value.provenance, n) && Verified(h, Fork(h, d, o).value)
            && SnapshotHash(h, d) == Ok(h.digest(Flat(n)))
               && ResolveSource(h, Fork(h, d, o).value, h.digest(Flat(n))) == Ok(n)
  {
    hide Validate, Fork, Flat, ResolveSource, SnapshotHash, Covered, CollisionFree, Recoverable, Verified;
    ForkIsOfValid(h, d, o);
    ForkNormalizes(h, d, o);
    NormalForkRecovers(h, Forked(h, d), o, all);
  }

  /** What a fork is a fork of. */
  function Forked(h: Host, d: Document): Document { if Validate(h, d).Ok? then Validate(h, d).value else d }

  lemma ForkIsOfValid(h: Host, d: Document, o: ForkOptions)
    requires Fork(h, d, o).Ok?
    ensures Validate(h, d).Ok?
  {
    hide Validate, VerifySources, ForkDraft;
  }

  // ---------- sessions only add sources ----------

  predicate Extends(base: seq<Entry>, entries: seq<Entry>) { |base| <= |entries| && entries[..|base|] == base }

  lemma {:induction false} RunExtends(h: Host, c: Command, d: Draft, depth: nat)
    ensures Run(h, c, d, depth).Ok? ==> Extends(d.doc.provenance, Run(h, c, d, depth).value.doc.provenance)
    decreases c
  {
    hide IndexFor, UpdateEach, MoveEach, AddObject, AddFrame, AddObjects, AddFrames, QuoteSources, Keep, DroppedPoints,
      NormalizeFrame;
    var e := d.(commandCount := d.commandCount + 1);
    assert d.doc.provenance[..|d.doc.provenance|] == d.doc.provenance;
    if Run(h, c, d, depth).Ok? {
      match c {
        case Create(input, generated) => AddObjectsSameSources([(input, generated)], e);
        case Update(ids, changes) => UpdateEachSameSources(IndexFor(e.doc.objects, ids).value, changes, e);
        case Move(ids, dx, dy) => MoveEachSameSources(IndexFor(e.doc.objects, ids).value, dx, dy, e);
        case AgentMove(x, y, byX, byY, generated) =>
          var p := AgentTarget(e.doc.agent, x, y, byX, byY).value;
          AddObjectsSameSources([(PathInput(Point(e.doc.agent.x, e.doc.agent.y), p, e.doc.agent.color,
            e.doc.agent.width), generated)], e);
        case Batch(commands) => RunAllExtends(h, commands, e, depth + 1);
        case FrameAdd(frame, generated) => AddFramesSameSources([(frame, generated)], e);
        case Quote(provenance, objects, frames) =>
          QuoteExtends(h, provenance, e.doc);
          var quoted := e.(doc := QuoteSources(h, provenance, e.doc).value);
          AddObjectsSameSources(objects, quoted);
          AddFramesSameSources(frames, AddObjects(objects, quoted).value);
        case _ =>
      }
    }
  }

  lemma {:induction false} RunAllExtends(h: Host, commands: seq<Command>, d: Draft, depth: nat)
    ensures RunAll(h, commands, d, depth).Ok? ==>
            Extends(d.doc.provenance, RunAll(h, commands, d, depth).value.doc.provenance)
    decreases commands
  {
    hide Run;
    if commands == [] {
      assert d.doc.provenance[..|d.doc.provenance|] == d.doc.provenance;
    } else {
      RunExtends(h, commands[0], d, depth);
      if Run(h, commands[0], d, depth).Ok? {
        RunAllExtends(h, commands[1..], Run(h, commands[0], d, depth).value, depth);
      }
      if RunAll(h, commands, d, depth).Ok? {
        ExtendsTrans(d.doc.provenance, Run(h, commands[0], d, depth).value.doc.provenance,
                     RunAll(h, commands, d, depth).value.doc.provenance);
      }
    }
  }

  lemma ExtendsTrans(a: seq<Entry>, b: seq<Entry>, c: seq<Entry>)
    requires Extends(a, b) && Extends(b, c)
    ensures Extends(a, c)
  {
    assert c[..|a|] == c[..|b|][..|a|];
  }

  lemma {:induction false} AddObjectsSameSources(inputs: seq<(ObjectInput, string)>, d: Draft)
    ensures AddObjects(inputs, d).Ok? ==> AddObjects(inputs, d).value.doc.provenance == d.doc.provenance
    ensures |inputs| == 1 ==> AddObjects(inputs, d) == AddObject(inputs[0].0, inputs[0].1, d)
    decreases |inputs|
  {
    hide NormalizeObject;
    if inputs != [] && AddObject(inputs[0].0, inputs[0].1, d).Ok? {
      AddObjectsSameSources(inputs[1..], AddObject(inputs[0].0, inputs[0].1, d).value);
    }
  }

  lemma {:induction false} AddFramesSameSources(inputs: seq<(FrameInput, string)>, d: Draft)
    ensures AddFrames(inputs, d).Ok? ==> AddFrames(inputs, d).value.doc.provenance == d.doc.provenance
    ensures |inputs| == 1 ==> AddFrames(inputs, d) == AddFrame(inputs[0].0, inputs[0].1, d)
    decreases |inputs|
  {
    hide NormalizeFrame;
    if inputs != [] && AddFrame(inputs[0].0, inputs[0].1, d).Ok? {
      AddFramesSameSources(inputs[1..], AddFrame(inputs[0].0, inputs[0].1, d).value);
    }
  }

  lemma {:induction false} UpdateEachSameSources(indices: seq<nat>, changes: Changes, d: Draft)
    requires forall k :: 0 <= k < |indices| ==> indices[k] < |d.doc.objects|
    ensures UpdateEach(indices, changes, d).Ok? ==>
            UpdateEach(indices, changes, d).value.doc.provenance == d.doc.provenance
    decreases |indices|
  {
    hide NormalizeObject;
    if indices != [] && UpdateAt(indices[0], changes, d).Ok? {
      UpdateEachSameSources(indices[1..], changes, UpdateAt(indices[0], changes, d).value);
    }
  }

  lemma {:induction false} MoveEachSameSources(indices: seq<nat>, dx: real, dy: real, d: Draft)
    requires forall k :: 0 <= k < |indices| ==> indices[k] < |d.doc.objects|
    ensures MoveEach(indices, dx, dy, d).Ok? ==> MoveEach(indices, dx, dy, d).value.doc.provenance == d.doc.provenance
    decreases |indices|
  {
    if indices != [] && MoveAt(indices[0], dx, dy, d).Ok? {
      MoveEachSameSources(indices[1..], dx, dy, MoveAt(indices[0], dx, dy, d).value);
    }
  }

  lemma QuoteExtends(h: Host, provenance: seq<Entry>, doc: Document)
    ensures QuoteSources(h, provenance, doc).Ok? ==>
            Extends(doc.provenance, QuoteSources(h, provenance, doc).value.provenance)
  {
    hide CheckDocument;
    if QuoteSources(h, provenance, doc).Ok? {
      MergeHolds(doc.provenance, Validate(h, SourcesOnly(doc, provenance)).value.provenance);
    }
  }

  /** Every document of the state, present or in the history, has at least these sources. */
  ghost predicate AllExtend(base: seq<Entry>, s: State) {
    && Extends(base, s.document.provenance)
    && (forall i ::
        0 <= i < |s.past| ==> Extends(base, s.past[i].before.provenance) && Extends(base, s.past[i].after.provenance))
    && (forall i ::
        0 <= i < |s.future| ==>
        Extends(base, s.future[i].before.provenance) && Extends(base, s.future[i].after.provenance))
  }

  lemma StepExtends(h: Host, base: seq<Entry>, s: State, step: Step)
    requires StableURLs(h) && Inv(h, s) && AllExtend(base, s) && !step.Load?
    ensures AllExtend(base, Take(h, s, step).0)
  {
    hide Run, CheckDocument, Sound, Inv, Trim, Timestamp;
    match step {
      case Execute(c, actor, now) =>
        if Next(h, s.document, c).Ok? {
          InvSound(h, s);
          NextIsSound(h, s.document, c);
          RunExtends(h, c, StartDraft(s.document), 0);
          ExtendsTrans(base, s.document.provenance, Next(h, s.document, c).value.provenance);
          var after := Stamped(Next(h, s.document, c).value, s.revisionClock + 1, now);
          var k := TrimIsSuffix(s.past + [Item(s.document, after, actor, h.bytes(s.document) + h.bytes(after))]);
        }
      case Undo(now) =>
      case Redo(now) =>
        if s.future != [] { var k := TrimIsSuffix(s.past + [s.future[|s.future| - 1]]); }
    }
  }

  ghost predicate PlainSteps(h: Host, steps: seq<Step>) {
    forall i :: 0 <= i < |steps| ==> !steps[i].Load? && ClockOk(h, steps[i])
  }

  /** An editing session, with undo and redo, never loses a source it started with. */
  lemma {:induction false} SessionExtends(h: Host, a: Document, steps: seq<Step>)
    requires StableURLs(h) && Sound(h, a, true) && PlainSteps(h, steps)
    ensures AllExtend(a.provenance, TakeAll(h, Start(a), steps)) && Inv(h, TakeAll(h, Start(a), steps))
  {
    hide Inv, Sound, Take;
    RunKeepsInv(h, a, steps);
    if steps == [] {
      assert a.provenance[..|a.provenance|] == a.provenance;
    } else {
      SessionExtends(h, a, steps[..|steps| - 1]);
      StepExtends(h, a.provenance, TakeAll(h, Start(a), steps[..|steps| - 1]), steps[|steps| - 1]);
    }
  }

  // ---------- lineages ----------

  /** One passage from a document to a descendant. */
  datatype Passage =
    | Forking(forkOptions: ForkOptions)
    | Editing(steps: seq<Step>)
    | QuotingInto(target: Document, quoteOptions: QuoteOptions, actor: string, now: string)

  /** The descendant, if the passage succeeds. */
  function Pass(h: Host, a: Document, p: Passage): Option<Document> {
    match p
    case Forking(o) => if Fork(h, a, o).Ok? then Some(Fork(h, a, o).value) else None
    case Editing(steps) => Some(TakeAll(h, Start(a), steps).document)
    case QuotingInto(target, o, actor, now) =>
      if PrepareQuote(h, target, a, o).Err? then None
      else
        var (t, r) := DoExecute(h, Start(target), AsCommand(PrepareQuote(h, target, a, o).value), actor, now);
        if r.Accepted? then Some(t.document) else None
  }

  ghost predicate PassageOk(h: Host, p: Passage) {
    match p
    case Forking(_) => true
    case Editing(steps) => PlainSteps(h, steps)
    case QuotingInto(target, _, _, now) => Validate(h, target) == Ok(target) && Timestamp(h, now)
  }

  lemma EditingRecovers(h: Host, a: Document, steps: seq<Step>, d: Document)
    requires StableURLs(h) && Sound(h, a, true) && PlainSteps(h, steps) && Recoverable(h, a.provenance, d)
    ensures var b := TakeAll(h, Start(a), steps).document; Sound(h, b, true) && Recoverable(h, b.provenance, d)
  {
    hide Sound, Inv, TakeAll, Flat;
    SessionExtends(h, a, steps);
    var s := TakeAll(h, Start(a), steps);
    InvSound(h, s);
    forall i | 0 <= i < |a.provenance| && a.provenance[i].snapshot.Some?
      ensures Holds(s.document.provenance, a.provenance[i].sourceHash, a.provenance[i].snapshot.value)
    {
      assert s.document.provenance[i] == a.provenance[i];
    }
    RecoverableMore(h, a.provenance, s.document.provenance, d);
  }

  lemma ForkingRecovers(h: Host, a: Document, o: ForkOptions, d: Document, all: iset<Document>)
    requires StableURLs(h) && Sound(h, a, true) && Recoverable(h, a.provenance, d) && Fork(h, a, o).Ok?
    requires CollisionFree(h, all) && Covered(all, a)
    ensures var b := Fork(h, a, o).value; Sound(h, b, true) && Recoverable(h, b.provenance, d)
  {
    hide Sound, CheckDocument, VerifySources, ForkDraft, Flat, Covered, CollisionFree, Brings;
    SoundIsChecked(h, a, true);
    ForkBrings(h, a, o);
    var b := Fork(h, a, o).value;
    DocumentNormalized(h, b, true);
    BroughtHolds(h, a, b.provenance, all);
    RecoverableMore(h, a.provenance, b.provenance, d);
  }

  lemma PreparedBrings(h: Host, target: Document, a: Document, o: QuoteOptions)
    requires StableURLs(h) && Sound(h, a, true) && PrepareQuote(h, target, a, o).Ok?
    ensures Verified(h, a) && Brings(h, a, PrepareQuote(h, target, a, o).value.provenance)
    ensures Validate(h, target).Ok? && QuoteInto(h, Validate(h, target).value, a, o).Ok?
    ensures QuoteInto(h, Validate(h, target).value, a, o) == PrepareQuote(h, target, a, o)
  {
    hide Sound, CheckDocument, VerifySources, Select, CopyContent, SourceEntries, Brings, MergeEntries, Quoted;
    SoundIsChecked(h, a, true);
    SourceEntriesBring(h, a, o.url);
  }

  /** A document that accepted a quotation holds every snapshot the quoted source held. */
  lemma QuotingRecovers(
    h: Host, target: Document, a: Document, o: QuoteOptions, actor: string, now: string, d: Document,
    all: iset<Document>)
    requires StableURLs(h) && Sound(h, a, true) && Recoverable(h, a.provenance, d) && Validate(h, target) == Ok(target)
    requires Timestamp(h, now)
    requires PrepareQuote(h, target, a, o).Ok? && CollisionFree(h, all) && Covered(all, a)
    requires DoExecute(h, Start(target), AsCommand(PrepareQuote(h, target, a, o).value), actor, now).1.Accepted?
    ensures var b := DoExecute(h, Start(target), AsCommand(PrepareQuote(h, target, a, o).value), actor, now).0.document;
            Sound(h, b, true) && Recoverable(h, b.provenance, d)
  {
    hide Sound, CheckDocument, VerifySources, PrepareQuote, Run, Trim, Flat, Covered, CollisionFree, Brings,
      Recoverable;
    PreparedBrings(h, target, a, o);
    var q := PrepareQuote(h, target, a, o).value;
    var c := AsCommand(q);
    DocumentNormalized(h, target, true);
    StartInv(h, target);
    StepKeeps(h, Start(target), Step.Execute(c, actor, now));
    InvSound(h, DoExecute(h, Start(target), c, actor, now).0);
    NextIsSound(h, target, c);
    BroughtHolds(h, a, q.provenance, all);
    QuotedSources(h, target, q, a);
    RecoverableMore(h, a.provenance, q.provenance, d);
    RecoverableMore(h, q.provenance, Run(h, c, StartDraft(target), 0).value.doc.provenance, d);
  }

  /** The sources of the draft after a quote command are the target's merged with those brought. */
  lemma QuotedSources(h: Host, target: Document, q: Quotation, a: Document)
    requires Sound(h, a, true) && Brings(h, a, q.provenance) && Run(h, AsCommand(q), StartDraft(target), 0).Ok?
    ensures var doc := Run(h, AsCommand(q), StartDraft(target), 0).value.doc;
            && MergeEntries(target.provenance, q.provenance) == Ok(doc.provenance)
            && forall i :: 0 <= i < |q.provenance| && q.provenance[i].snapshot.Some? ==>
                 Holds(doc.provenance, q.provenance[i].sourceHash, q.provenance[i].snapshot.value)
  {
    hide Sound, CheckDocument, AddObjects, AddFrames, Brings, Holds;
    var e := StartDraft(target).(commandCount := 1);
    var quoted := QuoteSources(h, q.provenance, target).value;
    CheckedEntries(h, SourcesOnly(target, q.provenance));
    BroughtAreFixed(h, a, q.provenance);
    AddObjectsSameSources(ObjectInputs(q.content.objects), e.(doc := quoted));
    AddFramesSameSources(FrameInputs(q.content.frames),
      AddObjects(ObjectInputs(q.content.objects), e.(doc := quoted)).value);
    MergeHolds(target.provenance, q.provenance);
  }

  lemma PassageRecovers(h: Host, a: Document, p: Passage, d: Document, all: iset<Document>)
    requires StableURLs(h) && Sound(h, a, true) && Recoverable(h, a.provenance, d) && PassageOk(h, p)
    requires Pass(h, a, p).Some?
    requires CollisionFree(h, all) && Covered(all, a)
    ensures Sound(h, Pass(h, a, p).value, true) && Recoverable(h, Pass(h, a, p).value.provenance, d)
  {
    hide Sound, Fork, PrepareQuote, DoExecute, TakeAll, CollisionFree, Covered, Recoverable, CheckDocument, Timestamp;
    match p {
      case Forking(o) => ForkingRecovers(h, a, o, d, all);
      case Editing(steps) => EditingRecovers(h, a, steps, d);
      case QuotingInto(target, o, actor, now) => QuotingRecovers(h, target, a, o, actor, now, d, all);
    }
  }

  /** The end of a lineage, if every passage succeeds. */
  function Descendant(h: Host, a: Document, passages: seq<Passage>): Option<Document>
    decreases |passages|
  {
    if passages == [] then Some(a)
    else if Pass(h, a, passages[0]).None? then None
    else Descendant(h, Pass(h, a, passages[0]).value, passages[1..])
  }

  /** All documents the lineage goes through belong to the collection. */
  ghost predicate AllCovered(h: Host, all: iset<Document>, a: Document, passages: seq<Passage>)
    decreases |passages|
  {
    Covered(all, a)
      && (passages != [] && Pass(h, a, passages[0]).Some? ==>
      AllCovered(h, all, Pass(h, a, passages[0]).value, passages[1..]))
  }

  lemma {:induction false} LineageRecovers(
    h: Host, a: Document, passages: seq<Passage>, d: Document, all: iset<Document>)
    requires StableURLs(h) && Sound(h, a, true) && Recoverable(h, a.provenance, d) && Descendant(h, a, passages).Some?
    requires forall i :: 0 <= i < |passages| ==> PassageOk(h, passages[i])
    requires CollisionFree(h, all) && AllCovered(h, all, a, passages)
    ensures var g := Descendant(h, a, passages).value; Sound(h, g, true) && Recoverable(h, g.provenance, d)
    decreases |passages|
  {
    hide Sound, Pass, PassageOk, CollisionFree, Covered, Recoverable;
    if passages != [] {
      PassageRecovers(h, a, passages[0], d, all);
      LineageRecovers(h, Pass(h, a, passages[0]).value, passages[1..], d, all);
    }
  }

  lemma TooLargeToResolve(h: Host, g: Document, hash: string)
    requires CheckDocument(h, g, true) == Ok(g) && h.bytes(g) > MAX_BYTES
    ensures ResolveSource(h, g, hash) == Err(SnapshotTooLarge)
  {
    hide CheckDocument;
  }

  lemma NormalGenerationsResolve(h: Host, d: Document, o: ForkOptions, passages: seq<Passage>, all: iset<Document>)
    requires StableURLs(h) && Validate(h, d) == Ok(d) && Fork(h, d, o).Ok? && CollisionFree(h, all) && Covered(all, d)
    requires forall i :: 0 <= i < |passages| ==> PassageOk(h, passages[i])
    requires AllCovered(h, all, Fork(h, d, o).value, passages) && Descendant(h, Fork(h, d, o).value, passages).Some?
    ensures var g := Descendant(h, Fork(h, d, o).value, passages).value;
            && Sound(h, g, true) && SnapshotHash(h, d) == Ok(h.digest(Flat(d)))
            && ResolveSource(h, g, h.digest(Flat(d)))
               == if h.bytes(g) <= MAX_BYTES then Ok(d) else Err(SnapshotTooLarge)
  {
    hide Sound, CheckDocument, Fork, PassageOk, CollisionFree, Covered, AllCovered, Descendant,
      Recoverable, ResolveSource, SnapshotHash, Flat, VerifySources;
    NormalForkRecovers(h, d, o, all);
    DocumentNormalized(h, Fork(h, d, o).value, true);
    LineageRecovers(h, Fork(h, d, o).value, passages, d, all);
    var g := Descendant(h, Fork(h, d, o).value, passages).value;
    SoundIsChecked(h, g, true);
    if h.bytes(g) <= MAX_BYTES { RecoverableResolves(h, g, d); } else { TooLargeToResolve(h, g, h.digest(Flat(d))); }
  }

  /**
   Whatever successful forks, edits and quotations lie between a fork of d and a later document,
   that document rebuilds d, as validated when it was forked, exactly, unless it has outgrown the
   size limit itself, which is then the error.
   */
  lemma EveryGenerationResolves(h: Host, d: Document, o: ForkOptions, passages: seq<Passage>, all: iset<Document>)
    requires StableURLs(h) && Fork(h, d, o).Ok? && CollisionFree(h, all) && Covered(all, Forked(h, d))
    requires forall i :: 0 <= i < |passages| ==> PassageOk(h, passages[i])
    requires AllCovered(h, all, Fork(h, d, o).value, passages) && Descendant(h, Fork(h, d, o).value, passages).Some?
    ensures var g, n := Descendant(h, Fork(h, d, o).value, passages).value, Forked(h, d);
            && Sound(h, g, true) && SnapshotHash(h, d) == Ok(h.digest(Flat(n)))
            && ResolveSource(h, g, h.digest(Flat(n)))
               == if h.bytes(g) <= MAX_BYTES then Ok(n) else Err(SnapshotTooLarge)
  {
    hide Validate, Sound, Fork, PassageOk, CollisionFree, Covered, AllCovered, Descendant, ResolveSource, SnapshotHash,
      Flat;
    ForkIsOfValid(h, d, o);
    ForkNormalizes(h, d, o);
    NormalGenerationsResolve(h, Forked(h, d), o, passages, all);
  }
}
