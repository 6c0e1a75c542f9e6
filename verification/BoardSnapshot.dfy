/**
 Links that carry a whole board: JSON, compressed where that is shorter, spelled in base64url.
 What the browser does with JSON and compressed streams is a parameter, and assumed to be
 lossless for the board at hand only.
 */
module BoardSnapshot {
  import opened Basics
  import opened BoardDocument
  import opened BoardLinks
  import BoardShare
  import BoardProvenance

  // ---------- streams ----------

  /** What a stream delivers, in chunks, and whether it ends well or breaks off. */
  datatype Stream = Stream(chunks: seq<seq<Byte>>, complete: bool)

  function Joined(chunks: seq<seq<Byte>>): seq<Byte> {
    if chunks == [] then [] else Joined(chunks[..|chunks| - 1]) + chunks[|chunks| - 1]
  }

  /** The bytes of a stream, or why they are refused. */
  function Bounded(stream: Stream, limit: nat): Result<seq<Byte>, Error> {
    if |Joined(stream.chunks)| > limit then Err(SnapshotTooLarge)
    else if !stream.complete then Err(InvalidSnapshot)
    else Ok(Joined(stream.chunks))
  }

  lemma {:induction false} JoinedGrows(chunks: seq<seq<Byte>>, n: nat)
    requires n <= |chunks|
    ensures Joined(chunks[..n]) <= Joined(chunks)
    decreases |chunks| - n
  {
    if n < |chunks| {
      JoinedGrows(chunks, n + 1);
      assert chunks[..n + 1][..n] == chunks[..n];
    } else {
      assert chunks[..n] == chunks;
    }
  }

  /** `readBounded`: stops at the chunk that goes beyond the limit, and otherwise copies the chunks into one buffer. */
  method ReadBounded(stream: Stream, limit: nat) returns (r: Result<seq<Byte>, Error>)
    ensures r == Bounded(stream, limit)
  {
    var chunks, length, n := [], 0, 0;
    while n < |stream.chunks|
      invariant n <= |stream.chunks| && chunks == stream.chunks[..n]
      invariant length == |Joined(chunks)| <= limit
    {
      var value := stream.chunks[n];
      length := length + |value|;
      assert stream.chunks[..n + 1][..n] == stream.chunks[..n];
      if length > limit {
        JoinedGrows(stream.chunks, n + 1);
        return Err(SnapshotTooLarge);
      }
      chunks, n := chunks + [value], n + 1;
    }
    assert stream.chunks[..n] == stream.chunks;
    if !stream.complete { return Err(InvalidSnapshot); }
    var result := Buffered(chunks, length);
    return Ok(result);
  }

  /** One buffer for all chunks, filled chunk by chunk. */
  method Buffered(chunks: seq<seq<Byte>>, length: nat) returns (r: seq<Byte>)
    requires length == |Joined(chunks)|
    ensures r == Joined(chunks)
  {
    var result := new Byte[length];
    var offset, k := 0, 0;
    while k < |chunks|
      invariant k <= |chunks| && offset == |Joined(chunks[..k])| <= length
      invariant result[..offset] == Joined(chunks[..k])
    {
      assert chunks[..k + 1][..k] == chunks[..k];
      JoinedGrows(chunks, k + 1);
      SetChunk(result, chunks[k], offset);
      offset, k := offset + |chunks[k]|, k + 1;
    }
    assert chunks[..k] == chunks;
    assert result[..] == result[..offset];
    return result[..];
  }

  method SetChunk(result: array<Byte>, chunk: seq<Byte>, offset: nat)
    requires offset + |chunk| <= result.Length
    modifies result
    ensures result[..offset + |chunk|] == old(result[..offset]) + chunk
  {
    forall i | 0 <= i < |chunk| { result[offset + i] := chunk[i]; }
    assert result[..offset] == old(result[..offset]);
    assert result[offset..offset + |chunk|] == chunk;
  }

  // ---------- links ----------

  /** What a browser does with JSON as UTF-8, and with compression where it has it. */
  datatype Browser = Browser(
    stringify: Document -> seq<Byte>,
    parse: seq<Byte> -> Option<Document>,
    gzip: Option<seq<Byte> -> Stream>,
    gunzip: Option<seq<Byte> -> Stream>)

  const COMPRESSED := "g1."
  const PLAIN := "j1."

  function Squeezed(b: Browser, bytes: seq<Byte>): Result<seq<Byte>, Error> {
    if b.gzip.Some? && b.gunzip.Some? then Bounded(b.gzip.value(bytes), MAX_BYTES) else Err(CompressionUnavailable)
  }

  /** `encodeSnapshot`. */
  function EncodeSnapshot(h: Host, b: Browser, input: Document): Result<string, Error> {
    match BoardShare.ValidAndVerified(h, input)
    case Err(e) => Err(e)
    case Ok(d) =>
      var bytes := b.stringify(d);
      if |bytes| > MAX_BYTES then Err(SnapshotTooLarge)
      else
        var squeezed := Squeezed(b, bytes);
        if squeezed == Err(SnapshotTooLarge) then Err(SnapshotTooLarge)
        else if squeezed.Ok? && |squeezed.value| < |bytes| then Ok(COMPRESSED + ToBase64URL(squeezed.value))
        else Ok(PLAIN + ToBase64URL(bytes))
  }

  /** The text of the board a link carries. */
  function Payload(b: Browser, token: string): Result<seq<Byte>, Error> {
    if |token| > MAX_TOKEN + 4 then Err(SnapshotTooLarge)
    else if !(COMPRESSED <= token || PLAIN <= token) then Err(InvalidSnapshot)
    else
      match FromBase64URL(token[3..])
      case Err(e) => Err(e)
      case Ok(bytes) =>
        if PLAIN <= token then Ok(bytes)
        else if b.gunzip.None? then Err(CompressionUnavailable)
        else Bounded(b.gunzip.value(bytes), MAX_BYTES)
  }

  /** `decodeSnapshot`. */
  function DecodeSnapshot(h: Host, b: Browser, token: string): Result<Document, Error> {
    match Payload(b, token)
    case Err(e) => Err(e)
    case Ok(bytes) =>
      match b.parse(bytes)
      case None => Err(InvalidSnapshot)
      case Some(input) => BoardShare.ValidAndVerified(h, input)
  }

  // ---------- a link opens as the board it was made of ----------

  /** The reading browser parses what the writing one printed, and expands what it compressed. */
  ghost predicate Carried(w: Browser, r: Browser, d: Document) {
    var bytes := w.stringify(d);
    && bytes != [] && r.parse(bytes) == Some(d)
    && (Squeezed(w, bytes).Ok? ==>
          && Squeezed(w, bytes).value != []
          && (r.gunzip.Some? ==> Bounded(r.gunzip.value(Squeezed(w, bytes).value), |bytes|) == Ok(bytes)))
  }

  lemma TokenBody(prefix: string, bytes: seq<Byte>)
    requires |prefix| == 3 && 1 <= |bytes| <= MAX_BYTES
    ensures var token := prefix + ToBase64URL(bytes);
            |token| <= MAX_TOKEN + 4 && FromBase64URL(token[3..]) == Ok(bytes)
  {
    LinkRoundTrip(bytes);
    assert (prefix + ToBase64URL(bytes))[3..] == ToBase64URL(bytes);
  }

  /**
   Who opens a link gets the board as it was validated when the link was made, unless the link is
   compressed and the browser cannot expand it.
   */
  lemma LinkOpens(h: Host, w: Browser, r: Browser, input: Document)
    requires StableURLs(h) && EncodeSnapshot(h, w, input).Ok?
    requires Carried(w, r, Validated(h, input))
    ensures var token := EncodeSnapshot(h, w, input).value;
            DecodeSnapshot(h, r, token) ==
            if COMPRESSED <= token && r.gunzip.None? then Err(CompressionUnavailable) else Validate(h, input)
    ensures COMPRESSED <= EncodeSnapshot(h, w, input).value ==> w.gunzip.Some?
  {
    hide Validate, BoardShare.VerifySources, ToBase64URL, FromBase64URL, Joined;
    BoardProvenance.ValidatedTwice(h, input);
    var d := Validated(h, input);
    var bytes, squeezed, token := w.stringify(d), Squeezed(w, w.stringify(d)), EncodeSnapshot(h, w, input).value;
    if squeezed.Ok? && |squeezed.value| < |bytes| {
      TokenBody(COMPRESSED, squeezed.value);
      assert token[0] == 'g';
    } else {
      TokenBody(PLAIN, bytes);
      assert token[0] == 'j';
    }
  }

  function Validated(h: Host, input: Document): Document {
    if Validate(h, input).Ok? then Validate(h, input).value else input
  }

  /** A link is made exactly of boards that are valid and verified, unless compressing makes them too large. */
  lemma LinkIsMade(h: Host, w: Browser, input: Document)
    requires h.bytes(Validated(h, input)) == |w.stringify(Validated(h, input))|
    requires StableURLs(h)
    ensures EncodeSnapshot(h, w, input).Ok? <==>
              && BoardShare.ValidAndVerified(h, input).Ok?
              && Squeezed(w, w.stringify(Validated(h, input))) != Err(SnapshotTooLarge)
  {
    hide CheckDocument, Sound, BoardShare.VerifySources, ToBase64URL, Squeezed;
    DocumentNormalized(h, input, true);
    if BoardShare.ValidAndVerified(h, input).Ok? { assert h.bytes(Validated(h, input)) <= MAX_BYTES; }
  }

  /** Two boards have the same link exactly when they are the same once validated. */
  lemma SameLinkSameBoard(h: Host, w: Browser, a: Document, b: Document)
    requires StableURLs(h) && EncodeSnapshot(h, w, a).Ok? && EncodeSnapshot(h, w, b).Ok?
    requires Carried(w, w, Validated(h, a)) && Carried(w, w, Validated(h, b))
    ensures EncodeSnapshot(h, w, a) == EncodeSnapshot(h, w, b) <==> Validate(h, a) == Validate(h, b)
  {
    hide Validate, BoardShare.VerifySources, ToBase64URL, FromBase64URL, DecodeSnapshot;
    LinkOpens(h, w, w, a);
    LinkOpens(h, w, w, b);
  }

  /** Whatever a link carries, the board it opens as is valid and its sources check out, and it can be shared again. */
  lemma OpenedIsGenuine(h: Host, r: Browser, token: string)
    requires StableURLs(h) && DecodeSnapshot(h, r, token).Ok?
    ensures var d := DecodeSnapshot(h, r, token).value;
            && BoardProvenance.Verified(h, d) && BoardShare.ValidAndVerified(h, d) == Ok(d)
            && forall i :: 0 <= i < |d.provenance| ==> BoardProvenance.Genuine(h, d.provenance, d.provenance[i])
  {
    hide Validate, BoardShare.VerifySources, BoardProvenance.Genuine, FromBase64URL;
    BoardProvenance.ValidatedTwice(h, r.parse(Payload(r, token).value).value);
    var d := DecodeSnapshot(h, r, token).value;
    assert BoardProvenance.Verified(h, d);
    assert BoardShare.ValidAndVerified(h, d) == Ok(d);
    BoardProvenance.VerifiedIsGenuine(h, d);
  }
}
