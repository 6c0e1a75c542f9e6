/** A quotation prepared from verified documents never conflicts, and the engine takes it as one undoable step. */
module BoardQuote {
  import opened Basics
  import opened BoardDocument
  import opened BoardCommands
  import opened BoardValidity
  import opened BoardHistory
  import opened BoardShare
  import opened BoardProvenance

  // ---------- no conflict ----------

  /** Genuine entries with the same hash carry the same snapshot and metadata. */
  lemma SameHashSameEntry(h: Host, indexA: seq<Entry>, a: Entry, indexB: seq<Entry>, b: Entry, all: iset<Document>)
    requires Genuine(h, indexA, a) && Genuine(h, indexB, b) && a.sourceHash == b.sourceHash
    requires CollisionFree(h, all) && a.snapshot.value in all && b.snapshot.value in all
    ensures !Conflict(a, b)
  {
    assert h.digest(a.snapshot.value) == h.digest(b.snapshot.value);
  }

  /** The direct entry is as genuine as any, among entries that hold the source's own snapshots. */
  lemma DirectIsGenuine(h: Host, source: Document, url: string, index: seq<Entry>)
    requires DistinctEntries(index) && Verified(h, source) && StableURLs(h)
    requires forall i :: 0 <= i < |source.provenance| ==>
      source.provenance[i].snapshot.Some?
        && Holds(index, source.provenance[i].sourceHash, source.provenance[i].snapshot.value)
    ensures Genuine(h, index, Direct(h, source, url))
  {
    forall j | 0 <= j < |source.provenance| ensures HasSnapshot(index, Flat(source).provenance[j].sourceHash) {
      HoldsFinds(index, source.provenance[j].sourceHash, source.provenance[j].snapshot.value);
    }
  }

  /** An entry stays genuine in a larger index. */
  lemma GenuineInMore(h: Host, index: seq<Entry>, e: Entry, more: seq<Entry>)
    requires Genuine(h, index, e) && DistinctEntries(index) && DistinctEntries(more)
    requires forall i ::
             0 <= i < |index| && index[i].snapshot.Some? ==> Holds(more, index[i].sourceHash, index[i].snapshot.value)
    ensures Genuine(h, more, e)
  {
    var s := e.snapshot.value;
    forall j | 0 <= j < |s.provenance| ensures HasSnapshot(more, s.provenance[j].sourceHash) {
      var hash := s.provenance[j].sourceHash;
      assert HasSnapshot(index, hash);
      var i := FindEntry(index, hash);
      HoldsFinds(more, hash, index[i].snapshot.value);
    }
  }

  /** Everything a verified source brings is genuine among what it brings, and covered. */
  lemma BroughtAreGenuine(h: Host, source: Document, entries: seq<Entry>, all: iset<Document>)
    requires StableURLs(h) && Verified(h, source) && Brings(h, source, entries) && CollisionFree(h, all)
    requires Covered(all, source)
    ensures DistinctEntries(entries)
    ensures forall i :: 0 <= i < |entries| ==> Genuine(h, entries, entries[i]) && entries[i].snapshot.value in all
  {
    hide Verified, Brings, CollisionFree, Flat, Holds;
    BroughtHolds(h, source, entries, all);
    VerifiedIsGenuine(h, source);
    SoundEntries(h, source);
    forall i | 0 <= i < |entries| ensures Genuine(h, entries, entries[i]) && entries[i].snapshot.value in all {
      BroughtIsGenuine(h, source, entries, all, i);
    }
  }

  lemma BroughtIsGenuine(h: Host, source: Document, entries: seq<Entry>, all: iset<Document>, i: nat)
    requires StableURLs(h) && Verified(h, source) && Brings(h, source, entries) && Covered(all, source)
    requires DistinctEntries(entries)
    requires DistinctEntries(source.provenance) && i < |entries|
    requires forall k :: 0 <= k < |source.provenance| ==> Genuine(h, source.provenance, source.provenance[k])
    requires forall k :: 0 <= k < |source.provenance| ==>
      source.provenance[k].snapshot.Some?
        && Holds(entries, source.provenance[k].sourceHash, source.provenance[k].snapshot.value)
    ensures Genuine(h, entries, entries[i]) && entries[i].snapshot.value in all
  {
    hide Verified, Holds, Flat;
    var hash := h.digest(Flat(source));
    var url :| entries == [Direct(h, source, url)] + Except(source.provenance, hash) && CompactURL(h, url) == Ok(url);
    ExceptHolds(source.provenance, hash);
    if i == 0 {
      DirectIsGenuine(h, source, url, entries);
    } else {
      assert entries[i] == Except(source.provenance, hash)[i - 1];
      assert entries[i] in source.provenance;
      var k :| 0 <= k < |source.provenance| && source.provenance[k] == entries[i];
      assert Genuine(h, source.provenance, source.provenance[k]);
      GenuineInMore(h, source.provenance, entries[i], entries);
    }
  }

  /** For verified target and source the conflict branch is never taken. */
  lemma NeverConflicts(h: Host, target: Document, source: Document, entries: seq<Entry>, all: iset<Document>)
    requires StableURLs(h) && Verified(h, target) && Verified(h, source) && Brings(h, source, entries)
    requires CollisionFree(h, all) && Covered(all, target) && Covered(all, source)
    ensures MergeEntries(target.provenance, entries).Ok?
  {
    hide Verified, Brings, CollisionFree, Genuine, Flat, MergeEntries;
    VerifiedIsGenuine(h, target);
    BroughtAreGenuine(h, source, entries, all);
    forall i, k | 0 <= i < |target.provenance| && 0 <= k < |entries|
      && target.provenance[i].sourceHash == entries[k].sourceHash
      ensures !Conflict(target.provenance[i], entries[k])
    {
      assert Genuine(h, target.provenance, target.provenance[i]) && Genuine(h, entries, entries[k]);
      GenuineHasSnapshot(h, target.provenance, target.provenance[i]);
      SameHashSameEntry(h, target.provenance, target.provenance[i], entries, entries[k], all);
    }
    MergeSucceeds(target.provenance, entries);
  }

  lemma GenuineHasSnapshot(h: Host, index: seq<Entry>, e: Entry)
    requires Genuine(h, index, e)
    ensures e.snapshot.Some?
  {}

  /** And the merged sources are all genuine again. */
  lemma MergedAreGenuine(h: Host, target: Document, source: Document, entries: seq<Entry>, all: iset<Document>)
    requires StableURLs(h) && Verified(h, target) && Verified(h, source) && Brings(h, source, entries)
    requires CollisionFree(h, all) && Covered(all, target) && Covered(all, source)
    requires MergeEntries(target.provenance, entries).Ok?
    requires DistinctEntries(MergeEntries(target.provenance, entries).value)
    ensures var merged := MergeEntries(target.provenance, entries).value;
            forall i :: 0 <= i < |merged| ==> Genuine(h, merged, merged[i])
  {
    hide Verified, Brings, CollisionFree, Genuine, Flat, MergeEntries, Holds;
    var merged := MergeEntries(target.provenance, entries).value;
    VerifiedIsGenuine(h, target);
    SoundEntries(h, target);
    BroughtAreGenuine(h, source, entries, all);
    MergeHolds(target.provenance, entries);
    BaseHolds(target.provenance, merged);
    forall i | 0 <= i < |merged| ensures Genuine(h, merged, merged[i]) {
      if merged[i] in target.provenance {
        var k :| 0 <= k < |target.provenance| && target.provenance[k] == merged[i];
        GenuineInMore(h, target.provenance, merged[i], merged);
      } else {
        var k :| 0 <= k < |entries| && entries[k] == merged[i];
        GenuineInMore(h, entries, merged[i], merged);
      }
    }
  }

  lemma BaseHolds(base: seq<Entry>, merged: seq<Entry>)
    requires |base| <= |merged| && merged[..|base|] == base
    ensures forall i ::
            0 <= i < |base| && base[i].snapshot.Some? ==> Holds(merged, base[i].sourceHash, base[i].snapshot.value)
  {
    forall i | 0 <= i < |base| && base[i].snapshot.Some?
      ensures Holds(merged, base[i].sourceHash, base[i].snapshot.value)
    {
      assert merged[i] == base[i];
    }
  }

  lemma GenuineAncestors(h: Host, entries: seq<Entry>)
    requires forall i :: 0 <= i < |entries| ==> Genuine(h, entries, entries[i])
    ensures AncestorsPresent(entries)
  {
    forall i, j | 0 <= i < |entries| && entries[i].snapshot.Some? && 0 <= j < |entries[i].snapshot.value.provenance|
      ensures HasSnapshot(entries, entries[i].snapshot.value.provenance[j].sourceHash)
    {
      assert Genuine(h, entries, entries[i]);
    }
  }

  // ---------- counting ----------

  function Hashes(entries: seq<Entry>): set<string> { set e | e in entries :: e.sourceHash }

  lemma {:induction false} DistinctHashes(entries: seq<Entry>)
    requires DistinctEntries(entries)
    ensures |Hashes(entries)| == |entries|
  {
    if entries != [] {
      var n := |entries| - 1;
      DistinctHashes(entries[..n]);
      assert entries == entries[..n] + [entries[n]];
      assert Hashes(entries) == Hashes(entries[..n]) + {entries[n].sourceHash};
      assert entries[n].sourceHash !in Hashes(entries[..n]);
    }
  }

  /** Merged sources are at least as many as those brought. */
  lemma MergedAreMore(entries: seq<Entry>, merged: seq<Entry>)
    requires DistinctEntries(entries) && DistinctEntries(merged)
    requires forall i ::
             0 <= i < |entries| ==>
             entries[i].snapshot.Some? && Holds(merged, entries[i].sourceHash, entries[i].snapshot.value)
    ensures |entries| <= |merged|
  {
    DistinctHashes(entries);
    DistinctHashes(merged);
    forall x | x in Hashes(entries) ensures x in Hashes(merged) {
      var e :| e in entries && e.sourceHash == x;
      var i :| 0 <= i < |entries| && entries[i] == e;
      assert Holds(merged, entries[i].sourceHash, entries[i].snapshot.value);
      var k :| 0 <= k < |merged| && merged[k].sourceHash == x;
      assert merged[k] in merged;
    }
    Subset(Hashes(entries), Hashes(merged));
  }

  lemma {:induction false} Subset(a: set<string>, b: set<string>)
    requires a <= b
    ensures |a| <= |b|
  {
    if a != {} {
      var x :| x in a;
      Subset(a - {x}, b - {x});
    }
  }

  // ---------- adding the content ----------

  lemma {:induction false} NormalizedAppend(a: seq<Object>, b: seq<Object>)
    requires NormalizeObjects(a + b).Ok?
    ensures NormalizeObjects(a).Ok? && NormalizeObjects(b).Ok?
    ensures NormalizeObjects(a + b).value == NormalizeObjects(a).value + NormalizeObjects(b).value
    ensures |NormalizeObjects(a).value| == |a| && |NormalizeObjects(b).value| == |b|
    decreases |b|
  {
    hide NormalizeObject;
    if b == [] {
      assert a + b == a;
      ObjectsNormalized(a);
      var n := NormalizeObjects(a).value;
      assert n + [] == n;
    } else {
      var k := |b| - 1;
      assert (a + b)[..|a + b| - 1] == a + b[..k];
      NormalizedAppend(a, b[..k]);
      var n, m := NormalizeObjects(a).value, NormalizeObjects(b[..k]).value;
      var o := NormalizeObject(AsInput(b[k]), None).value;
      assert n + m + [o] == n + (m + [o]);
    }
  }

  lemma {:induction false} PointSumAppend(a: seq<Object>, b: seq<Object>)
    ensures PointSum(a + b) == PointSum(a) + PointSum(b)
  {
    if b == [] {
      assert a + b == a;
    } else {
      assert (a + b)[..|a + b| - 1] == a + b[..|b| - 1];
      PointSumAppend(a, b[..|b| - 1]);
    }
  }

  /** Objects that normalize, fit the limits and have ids of their own are all added. */
  lemma {:induction false} AddObjectsSucceeds(objects: seq<Object>, d: Draft)
    requires NormalizeObjects(objects).Ok? && |NormalizeObjects(objects).value| == |objects|
    requires DistinctObjects(d.doc.objects + NormalizeObjects(objects).value)
    requires |d.doc.objects| + |objects| <= MAX_OBJECTS
    requires d.totalPoints + PointSum(NormalizeObjects(objects).value) <= MAX_POINTS
    ensures var n := NormalizeObjects(objects).value;
            AddObjects(ObjectInputs(objects), d)
            == Ok(d.(doc := d.doc.(objects := d.doc.objects + n), totalPoints := d.totalPoints + PointSum(n)))
    decreases |objects|
  {
    hide NormalizeObject, NormalizeObjects, AsInput, AddObject, AddObjects, PointSum, DistinctObjects;
    var n := NormalizeObjects(objects).value;
    NothingAdded(d);
    if objects == [] {
      assert d.doc.objects + n == d.doc.objects;
    } else {
      var first, others := objects[0], objects[1..];
      assert objects == [first] + others;
      NormalizedAppend([first], others);
      NormalizedOne(first);
      var o, rest := n[0], NormalizeObjects(others).value;
      assert n == [o] + rest;
      PointSumAppend([o], rest);
      PointsOfOne(o);
      Regrouped(d.doc.objects, [o], rest);
      AddOneSucceeds(first, o, rest, d);
      var next := AddObject(AsInput(first), "", d).value;
      AddObjectsSucceeds(others, next);
      OneMoreAdded(objects, d);
    }
  }

  lemma NothingAdded(d: Draft)
    ensures AddObjects(ObjectInputs([]), d) == Ok(d) && NormalizeObjects([]) == Ok([]) && PointSum([]) == 0
  {
    assert ObjectInputs([]) == [];
  }

  lemma PointsOfOne(o: Object)
    ensures PointSum([o]) == |o.points|
  {
    assert [o][..0] == [];
  }

  lemma OneMoreAdded(objects: seq<Object>, d: Draft)
    requires objects != [] && AddObject(AsInput(objects[0]), "", d).Ok?
    ensures AddObjects(ObjectInputs(objects), d)
            == AddObjects(ObjectInputs(objects[1..]), AddObject(AsInput(objects[0]), "", d).value)
  {
    hide AddObject, AsInput;
    assert ObjectInputs(objects)[1..] == ObjectInputs(objects[1..]);
  }

  lemma AddOneSucceeds(input: Object, o: Object, rest: seq<Object>, d: Draft)
    requires NormalizeObject(AsInput(input), None) == Ok(o) && DistinctObjects(d.doc.objects + ([o] + rest))
    requires |d.doc.objects| < MAX_OBJECTS && d.totalPoints + |o.points| <= MAX_POINTS
    ensures AddObject(AsInput(input), "", d)
            == Ok(d.(doc := d.doc.(objects := d.doc.objects + [o]), totalPoints := d.totalPoints + |o.points|))
  {
    hide NormalizeObject, AsInput;
    var all := d.doc.objects + ([o] + rest);
    assert all[|d.doc.objects|] == o;
    forall k | 0 <= k < |d.doc.objects| ensures d.doc.objects[k].id != o.id { assert all[k] == d.doc.objects[k]; }
    IdGiven(input);
  }

  lemma NormalizedOne(o: Object)
    requires NormalizeObjects([o]).Ok?
    ensures NormalizeObject(AsInput(o), None).Ok?
    ensures NormalizeObjects([o]).value == [NormalizeObject(AsInput(o), None).value]
  {
    hide NormalizeObject;
    assert [o][..0] == [];
    assert NormalizeObjects([o][..0]) == Ok([]);
  }

  /** A supplied id makes the generated one irrelevant. */
  lemma IdGiven(o: Object)
    ensures NormalizeObject(AsInput(o), Some("")) == NormalizeObject(AsInput(o), None)
  {
    hide Color, Identifier, PointsOk, Extent;
  }

  lemma {:induction false} AddFramesSucceeds(frames: seq<Frame>, d: Draft)
    requires (forall i :: 0 <= i < |frames| ==> NormalFrame(frames[i])) && DistinctFrames(d.doc.frames + frames)
    requires |d.doc.frames| + |frames| <= MAX_FRAMES
    ensures AddFrames(FrameInputs(frames), d) == Ok(d.(doc := d.doc.(frames := d.doc.frames + frames)))
    decreases |frames|
  {
    var inputs := FrameInputs(frames);
    if frames == [] {
      assert d.doc.frames + frames == d.doc.frames;
    } else {
      var f, all := frames[0], d.doc.frames + frames;
      assert NormalFrame(f);
      assert all[|d.doc.frames|] == f;
      forall k | 0 <= k < |d.doc.frames| ensures d.doc.frames[k].id != f.id { assert all[k] == d.doc.frames[k]; }
      var next := d.(doc := d.doc.(frames := d.doc.frames + [f]));
      assert AddFrame(inputs[0].0, inputs[0].1, d) == Ok(next);
      assert next.doc.frames + frames[1..] == all;
      AddFramesSucceeds(frames[1..], next);
      assert inputs[1..] == FrameInputs(frames[1..]);
    }
  }

  // ---------- acceptance ----------

  lemma {:induction false} EachEntryChecked(h: Host, entries: seq<Entry>, i: nat)
    requires NormalizeEntries(h, entries, true).Ok? && i < |entries|
    ensures NormalizeEntry(h, entries[i], true).Ok?
  {
    hide NormalizeEntry;
    if i > 0 { EachEntryChecked(h, entries[1..], i - 1); }
  }

  lemma SnapshotChecked(h: Host, e: Entry)
    requires NormalizeEntry(h, e, true).Ok? && e.snapshot.Some?
    ensures NormalizeDocument(h, e.snapshot.value, false).Ok?
  {
    hide CheckDocument, CompactURL, Timestamp;
  }

  /** What a source brings is normal as soon as its flat form is not too large. */
  lemma BroughtAreNormal(h: Host, source: Document, entries: seq<Entry>)
    requires StableURLs(h) && Sound(h, source, true) && Brings(h, source, entries) && Digest(h.digest(Flat(source)))
    requires NormalizeDocument(h, Flat(source), false).Ok?
    ensures forall i :: 0 <= i < |entries| ==> NormalEntry(h, entries[i], true)
  {
    hide CheckDocument, NormalEntry, Flat, Digest;
    SoundEntries(h, source);
    SoundHeader(h, source);
    var hash := h.digest(Flat(source));
    var url :| entries == [Direct(h, source, url)] + Except(source.provenance, hash) && CompactURL(h, url) == Ok(url);
    DirectNormal(h, source, url);
    ExceptHolds(source.provenance, hash);
    forall i | 0 <= i < |entries| ensures NormalEntry(h, entries[i], true) {
      if i > 0 {
        assert entries[i] == Except(source.provenance, hash)[i - 1];
        assert entries[i] in source.provenance;
      }
    }
  }

  lemma SoundHeader(h: Host, d: Document)
    requires Sound(h, d, true)
    ensures HeaderOk(h, d)
  {
    hide HeaderOk, NormalEntry, NormalObject, NormalFrame, NormalReaction, PointSum;
  }

  lemma DirectNormal(h: Host, source: Document, url: string)
    requires StableURLs(h) && Sound(h, source, true) && CompactURL(h, url) == Ok(url) && Digest(h.digest(Flat(source)))
    requires NormalizeDocument(h, Flat(source), false).Ok?
    ensures NormalEntry(h, Direct(h, source, url), true)
  {
    hide CheckDocument, Sound, CompactURL, Timestamp, Flat, Digest, NormalEntry;
    SoundHeader(h, source);
    DirectIsFixed(h, source, url);
    assert NormalizeEntry(h, Direct(h, source, url), true).Ok?;
  }

  /** The draft holding only the quoted sources is sound. */
  lemma SourcesOnlySound(h: Host, target: Document, entries: seq<Entry>)
    requires Sound(h, target, true) && DistinctEntries(entries) && |entries| <= MAX_PROVENANCE
    requires forall i :: 0 <= i < |entries| ==> NormalEntry(h, entries[i], true)
    ensures Sound(h, SourcesOnly(target, entries), true)
  {
    hide Timestamp, Identifier, NormalEntry, NormalObject, NormalFrame, NormalReaction;
  }

  /** What validating the target with the quotation in it says. */
  lemma QuotedParts(h: Host, target: Document, content: Selection, merged: seq<Entry>)
    requires Sound(h, target, true) && CheckDocument(h, Quoted(target, content, merged), true).Ok?
    requires forall i :: 0 <= i < |merged| ==> NormalEntry(h, merged[i], true)
    ensures NormalizeObjects(content.objects).Ok? && |NormalizeObjects(content.objects).value| == |content.objects|
    ensures var n, v :=
            NormalizeObjects(content.objects).value, CheckDocument(h, Quoted(target, content, merged), true).value;
            && v == target.(objects := target.objects + n, frames := target.frames + content.frames,
               provenance := merged)
            && DistinctObjects(target.objects + n) && |target.objects| + |content.objects| <= MAX_OBJECTS
            && PointSum(target.objects) + PointSum(n) <= MAX_POINTS
            && DistinctFrames(target.frames + content.frames) && |target.frames| + |content.frames| <= MAX_FRAMES
            && (forall i :: 0 <= i < |content.frames| ==> NormalFrame(content.frames[i]))
            && |merged| <= MAX_PROVENANCE
  {
    hide NormalEntry, NormalObject, NormalFrame, NormalReaction, Timestamp, NormalizeObjects, NormalizeEntries,
      PointSum, Angle;
    var d := Quoted(target, content, merged);
    NormalizedAppend(target.objects, content.objects);
    NormalObjectsKept(target.objects);
    NormalEntriesKept(h, merged, true);
    PointSumAppend(target.objects, NormalizeObjects(content.objects).value);
    AngleInRange(target.agent.heading);
    forall i | 0 <= i < |content.frames| ensures NormalFrame(content.frames[i]) {
      assert d.frames[|target.frames| + i] == content.frames[i];
    }
  }

  /** The engine's checks on the sources of a prepared quotation all pass. */
  lemma QuoteSourcesSucceeds(h: Host, target: Document, source: Document, q: Quotation, all: iset<Document>)
    requires StableURLs(h) && Verified(h, target) && Verified(h, source) && Brings(h, source, q.provenance)
    requires CollisionFree(h, all) && Covered(all, target) && Covered(all, source)
    requires MergeEntries(target.provenance, q.provenance).Ok?
    requires CheckDocument(h, Quoted(target, q.content, MergeEntries(target.provenance, q.provenance).value), true).Ok?
    requires h.bytes(SourcesOnly(target, q.provenance)) <= MAX_BYTES
    ensures var merged := MergeEntries(target.provenance, q.provenance).value;
            && QuoteSources(h, q.provenance, target) == Ok(target.(provenance := merged))
            && (forall i :: 0 <= i < |merged| ==> NormalEntry(h, merged[i], true) && Genuine(h, merged, merged[i]))
  {
    hide CheckDocument, Verified, Brings, CollisionFree, Genuine, Sound, NormalEntry, Flat, MergeEntries,
      Holds, SourcesOnly, Quoted, AncestorsPresent;
    var merged := MergeEntries(target.provenance, q.provenance).value;
    VerifiedIsGenuine(h, target);
    VerifiedIsGenuine(h, source);
    SoundEntries(h, target);
    BroughtHolds(h, source, q.provenance, all);
    BroughtAreGenuine(h, source, q.provenance, all);
    MergeHolds(target.provenance, q.provenance);
    FlatFits(h, target, source, q, all);
    BroughtAreNormal(h, source, q.provenance);
    MergeKeeps(h, target.provenance, q.provenance);
    MergedAreGenuine(h, target, source, q.provenance, all);
    GenuineAncestors(h, merged);
    QuotedParts(h, target, q.content, merged);
    forall i | 0 <= i < |q.provenance| ensures q.provenance[i].snapshot.Some? {
      GenuineHasSnapshot(h, q.provenance, q.provenance[i]);
    }
    MergedAreMore(q.provenance, merged);
    SourcesOnlySound(h, target, q.provenance);
    SoundIsChecked(h, SourcesOnly(target, q.provenance), true);
    SourcesOnlyProvenance(target, q.provenance);
    BringsSomething(h, source, q.provenance);
  }

  lemma SourcesOnlyProvenance(target: Document, entries: seq<Entry>)
    ensures SourcesOnly(target, entries).provenance == entries
  {}

  lemma BringsSomething(h: Host, source: Document, entries: seq<Entry>)
    requires Brings(h, source, entries)
    ensures entries != []
  {}

  /** The validated target with the quotation contains the flat source, which is therefore not too large. */
  lemma FlatFits(h: Host, target: Document, source: Document, q: Quotation, all: iset<Document>)
    requires StableURLs(h) && Verified(h, source) && Brings(h, source, q.provenance) && CollisionFree(h, all)
    requires Covered(all, source)
    requires MergeEntries(target.provenance, q.provenance).Ok?
    requires CheckDocument(h, Quoted(target, q.content, MergeEntries(target.provenance, q.provenance).value), true).Ok?
    ensures NormalizeDocument(h, Flat(source), false).Ok? && Digest(h.digest(Flat(source)))
  {
    hide CheckDocument, Verified, Brings, MergeEntries, Flat, Digest;
    var merged := MergeEntries(target.provenance, q.provenance).value;
    BroughtHolds(h, source, q.provenance, all);
    MergeHolds(target.provenance, q.provenance);
    var hash := h.digest(Flat(source));
    assert Holds(merged, hash, Flat(source)) by {
      var i :| 0 <= i < |q.provenance| && q.provenance[i].sourceHash == hash
        && q.provenance[i].snapshot == Some(Flat(source));
      assert Holds(merged, q.provenance[i].sourceHash, q.provenance[i].snapshot.value);
    }
    var k :| 0 <= k < |merged| && merged[k].sourceHash == hash && merged[k].snapshot == Some(Flat(source));
    CheckedEntries(h, Quoted(target, q.content, merged));
    EachEntryChecked(h, merged, k);
    SnapshotChecked(h, merged[k]);
  }

  /** Running the prepared command gives exactly the document that preparing validated. */
  lemma QuoteRuns(h: Host, target: Document, source: Document, q: Quotation, all: iset<Document>)
    requires StableURLs(h) && Verified(h, target) && Verified(h, source) && Brings(h, source, q.provenance)
    requires CollisionFree(h, all) && Covered(all, target) && Covered(all, source)
    requires MergeEntries(target.provenance, q.provenance).Ok?
    requires CheckDocument(h, Quoted(target, q.content, MergeEntries(target.provenance, q.provenance).value), true).Ok?
    requires h.bytes(SourcesOnly(target, q.provenance)) <= MAX_BYTES
    ensures var merged := MergeEntries(target.provenance, q.provenance).value;
            var r := Run(h, AsCommand(q), StartDraft(target), 0);
            && r.Ok? && r.value.doc == CheckDocument(h, Quoted(target, q.content, merged), true).value
            && r.value.doc.provenance == merged && forall i :: 0 <= i < |merged| ==> Genuine(h, merged, merged[i])
  {
    hide CheckDocument, Verified, Brings, CollisionFree, Genuine, Sound, NormalEntry, Flat, MergeEntries, SourcesOnly,
      Quoted, Covered,
         QuoteSources, AddObjects, AddFrames, NormalFrame, PointSum, NormalizeObjects;
    var merged := MergeEntries(target.provenance, q.provenance).value;
    VerifiedIsGenuine(h, target);
    QuoteSourcesSucceeds(h, target, source, q, all);
    QuotedParts(h, target, q.content, merged);
    var e := StartDraft(target).(commandCount := 1);
    var quoted := e.(doc := target.(provenance := merged));
    AddObjectsSucceeds(q.content.objects, quoted);
    var filled := AddObjects(ObjectInputs(q.content.objects), quoted).value;
    AddFramesSucceeds(q.content.frames, filled);
  }

  /** The sources of a prepared quotation alone pass every check but the one for their size. */
  lemma SourcesOnlyChecked(h: Host, target: Document, source: Document, q: Quotation, all: iset<Document>)
    requires StableURLs(h) && Verified(h, target) && Verified(h, source) && Brings(h, source, q.provenance)
    requires CollisionFree(h, all) && Covered(all, target) && Covered(all, source)
    requires MergeEntries(target.provenance, q.provenance).Ok?
    requires CheckDocument(h, Quoted(target, q.content, MergeEntries(target.provenance, q.provenance).value), true).Ok?
    ensures CheckDocument(h, SourcesOnly(target, q.provenance), true) == Ok(SourcesOnly(target, q.provenance))
  {
    hide CheckDocument, Verified, Brings, CollisionFree, Genuine, Sound, NormalEntry, Flat, MergeEntries,
      Holds, SourcesOnly, Quoted, AncestorsPresent;
    var merged := MergeEntries(target.provenance, q.provenance).value;
    VerifiedIsGenuine(h, target);
    VerifiedIsGenuine(h, source);
    SoundEntries(h, target);
    BroughtHolds(h, source, q.provenance, all);
    BroughtAreGenuine(h, source, q.provenance, all);
    MergeHolds(target.provenance, q.provenance);
    FlatFits(h, target, source, q, all);
    BroughtAreNormal(h, source, q.provenance);
    MergeKeeps(h, target.provenance, q.provenance);
    QuotedParts(h, target, q.content, merged);
    forall i | 0 <= i < |q.provenance| ensures q.provenance[i].snapshot.Some? {
      GenuineHasSnapshot(h, q.provenance, q.provenance[i]);
    }
    MergedAreMore(q.provenance, merged);
    SourcesOnlySound(h, target, q.provenance);
    SoundIsChecked(h, SourcesOnly(target, q.provenance), true);
  }

  lemma TooLargeToQuote(h: Host, target: Document, q: Quotation)
    requires CheckDocument(h, SourcesOnly(target, q.provenance), true) == Ok(SourcesOnly(target, q.provenance))
    requires h.bytes(SourcesOnly(target, q.provenance)) > MAX_BYTES
    ensures Run(h, AsCommand(q), StartDraft(target), 0) == Err(SnapshotTooLarge)
  {
    hide CheckDocument, SourcesOnly, AddObjects, AddFrames;
  }

  /**
   A quotation prepared from a verified source for the engine's verified document is accepted exactly
   when the sources alone are within the size limit, and otherwise refused for that; the document then
   passes verification again, and one undo brings back the content there was.
   */
  lemma QuoteIsAccepted(
    h: Host, s: State, source: Document, o: QuoteOptions, all: iset<Document>, actor: string, now: string,
    later: string)
    requires StableURLs(h) && Inv(h, s) && !s.readOnly && |actor| <= 100 && Timestamp(h, now) && Timestamp(h, later)
    requires s.revisionClock + 2 <= MAX_SAFE_INTEGER
    requires Verified(h, s.document) && Verified(h, source) && CollisionFree(h, all) && Covered(all, s.document)
    requires Covered(all, source)
    requires QuoteInto(h, s.document, source, o).Ok?
    ensures var q := QuoteInto(h, s.document, source, o).value;
            var (t, r) := DoExecute(h, s, AsCommand(q), actor, now);
            if h.bytes(SourcesOnly(s.document, q.provenance)) <= MAX_BYTES then
              && r.Accepted? && VerifySources(h, t.document).Ok?
              && MergeEntries(s.document.provenance, q.provenance) == Ok(t.document.provenance)
              && (r.asBefore || Linked(DoUndo(t, later).0.document, s.document))
            else (t, r) == (s, Rejected(s.document.revision, SnapshotTooLarge))
  {
    hide CheckDocument, Verified, Brings, CollisionFree, Genuine, Sound, Inv, Flat, MergeEntries, SourcesOnly, Quoted,
      Covered, Run, Gather, Trim, VerifySources, Timestamp;
    var q := QuoteInto(h, s.document, source, o).value;
    GatherBrings(h, source, o);
    if h.bytes(SourcesOnly(s.document, q.provenance)) > MAX_BYTES {
      SourcesOnlyChecked(h, s.document, source, q, all);
      TooLargeToQuote(h, s.document, q);
    } else {
      QuoteRuns(h, s.document, source, q, all);
      InvSound(h, s);
      SoundStart(h, s.document);
      ValidatedDraft(h, AsCommand(q), StartDraft(s.document), 0);
      StepKeeps(h, s, Step.Execute(AsCommand(q), actor, now));
      var t := DoExecute(h, s, AsCommand(q), actor, now).0;
      InvSound(h, t);
      SourcesPass(h, t.document);
      if t != s { CommittedUndo(h, s, Next(h, s.document, AsCommand(q)).value, actor, now, later); }
    }
  }

  lemma GatherBrings(h: Host, source: Document, o: QuoteOptions)
    requires StableURLs(h) && Verified(h, source) && Gather(h, source, o).Ok?
    ensures Brings(h, source, Gather(h, source, o).value.provenance)
  {
    hide CheckDocument, Sound, VerifySources, Select, CopyContent, SourceEntries, Brings;
    SourceEntriesBring(h, source, o.url);
  }

  lemma SourcesPass(h: Host, d: Document)
    requires StableURLs(h) && Sound(h, d, true) && forall i ::
             0 <= i < |d.provenance| ==> Genuine(h, d.provenance, d.provenance[i])
    ensures VerifySources(h, d).Ok?
  {
    hide Sound, Genuine;
    SoundEntries(h, d);
    VerifiedEntries(h, d.provenance, d.provenance);
  }

  /** Undoing a committed step brings back the content before it. */
  lemma CommittedUndo(h: Host, s: State, next: Document, actor: string, now: string, later: string)
    requires !s.readOnly && s.revisionClock + 2 <= MAX_SAFE_INTEGER
    ensures Linked(DoUndo(Commit(h, s, next, actor, now), later).0.document, s.document)
  {
    hide Trim;
    var after := Stamped(next, s.revisionClock + 1, now);
    var items := s.past + [Item(s.document, after, actor, h.bytes(s.document) + h.bytes(after))];
    var k := TrimIsSuffix(items);
    assert items[k..][|items[k..]| - 1] == items[|items| - 1];
  }
}
