/**
 The text of snapshot links: the URL-safe alphabet without padding (section 5 of RFC 4648).
 What the platform's decoder does with unused trailing bits is to drop them.
 */
module BoardLinks {
  import opened Basics
  import opened BoardDocument

  type Byte = b: int | 0 <= b < 256

  type Sextet = s: int | 0 <= s < 64

  // Four sextets of three bytes, and back.

  function Sextet0(a: Byte): Sextet { a / 4 }

  function Sextet1(a: Byte, b: Byte): Sextet { var low: int := a % 4; low * 16 + b / 16 }

  function Sextet2(b: Byte, c: Byte): Sextet { var low: int := b % 16; low * 4 + c / 64 }

  function Sextet3(c: Byte): Sextet { c % 64 }

  function Byte0(p: Sextet, q: Sextet): Byte { var high: int := p; high * 4 + q / 16 }

  function Byte1(q: Sextet, r: Sextet): Byte { var high: int := q % 16; high * 16 + r / 4 }

  function Byte2(r: Sextet, t: Sextet): Byte { var high: int := r % 4; high * 64 + t }

  function Sextets(bytes: seq<Byte>): (r: seq<Sextet>)
    ensures |r| == (|bytes| * 4 + 2) / 3 && |r| % 4 != 1
  {
    if bytes == [] then []
    else if |bytes| == 1 then [Sextet0(bytes[0]), Sextet1(bytes[0], 0)]
    else if |bytes| == 2 then [Sextet0(bytes[0]), Sextet1(bytes[0], bytes[1]), Sextet2(bytes[1], 0)]
    else [Sextet0(bytes[0]), Sextet1(bytes[0], bytes[1]), Sextet2(bytes[1], bytes[2]), Sextet3(bytes[2])]
         + Sextets(bytes[3..])
  }

  function Bytes(sextets: seq<Sextet>): seq<Byte> {
    if |sextets| < 2 then []
    else if |sextets| == 2 then [Byte0(sextets[0], sextets[1])]
    else if |sextets| == 3 then [Byte0(sextets[0], sextets[1]), Byte1(sextets[1], sextets[2])]
    else [Byte0(sextets[0], sextets[1]), Byte1(sextets[1], sextets[2]), Byte2(sextets[2], sextets[3])]
         + Bytes(sextets[4..])
  }

  function Symbol(s: Sextet): char {
    if s < 26 then 'A' + s as char
    else if s < 52 then 'a' + (s - 26) as char
    else if s < 62 then '0' + (s - 52) as char
    else if s == 62 then '-' else '_'
  }

  function SextetOf(c: char): Option<Sextet> {
    if 'A' <= c <= 'Z' then Some(c as int - 'A' as int)
    else if 'a' <= c <= 'z' then Some(c as int - 'a' as int + 26)
    else if '0' <= c <= '9' then Some(c as int - '0' as int + 52)
    else if c == '-' then Some(62) else if c == '_' then Some(63) else None
  }

  function Symbols(sextets: seq<Sextet>): (r: string)
    ensures |r| == |sextets| && forall i :: 0 <= i < |r| ==> r[i] == Symbol(sextets[i])
  {
    seq(|sextets|, i requires 0 <= i < |sextets| => Symbol(sextets[i]))
  }

  predicate Spelled(token: string) { forall i :: 0 <= i < |token| ==> SextetOf(token[i]).Some? }

  function Read(token: string): (r: seq<Sextet>)
    requires Spelled(token)
    ensures |r| == |token| && forall i :: 0 <= i < |r| ==> r[i] == SextetOf(token[i]).value
  {
    seq(|token|, i requires 0 <= i < |token| => SextetOf(token[i]).value)
  }

  function ToBase64URL(bytes: seq<Byte>): string { Symbols(Sextets(bytes)) }

  const MAX_TOKEN := MAX_BYTES * 4 / 3 + 8

  function FromBase64URL(token: string): Result<seq<Byte>, Error> {
    if token == "" || |token| > MAX_TOKEN || !Spelled(token) || |token| % 4 == 1 then Err(InvalidSnapshot)
    else if |Bytes(Read(token))| > MAX_BYTES then Err(SnapshotTooLarge)
    else Ok(Bytes(Read(token)))
  }

  /** The alphabet, written out. */
  lemma SymbolTable(s: Sextet)
    ensures s < 26 ==> Symbol(s) == "ABCDEFGHIJKLMNOPQRSTUVWXYZ"[s]
    ensures 26 <= s < 52 ==> Symbol(s) == "abcdefghijklmnopqrstuvwxyz"[s - 26]
    ensures 52 <= s < 62 ==> Symbol(s) == "0123456789"[s - 52]
    ensures Symbol(62) == '-' && Symbol(63) == '_'
    ensures SextetOf(Symbol(s)) == Some(s)
  {
    SymbolRead(s);
  }

  /** Three bytes and their four sextets are the same number of 24 bits. */
  lemma GroupIsNumber(a: Byte, b: Byte, c: Byte)
    ensures var p: int, q: int, r: int, t: int := Sextet0(a), Sextet1(a, b), Sextet2(b, c), Sextet3(c);
            ((p * 64 + q) * 64 + r) * 64 + t == (a * 256 + b) * 256 + c
  {
    var x: int, y: int, z: int := a, b, c;
    assert x == 4 * (x / 4) + x % 4 && y == 16 * (y / 16) + y % 16 && z == 64 * (z / 64) + z % 64;
  }

  /** A token longer than 4194312 characters is refused, and so is more than 3 MiB of bytes. */
  lemma TokenLimits(token: string)
    requires FromBase64URL(token).Ok?
    ensures |token| <= 4194312 && |FromBase64URL(token).value| <= 3145728
  {}

  // ---------- there and back ----------

  lemma BytesOfGroup(a: Byte, b: Byte, c: Byte)
    ensures Byte0(Sextet0(a), Sextet1(a, b)) == a
    ensures Byte1(Sextet1(a, b), Sextet2(b, c)) == b
    ensures Byte2(Sextet2(b, c), Sextet3(c)) == c
  {}

  lemma SextetsOfGroup(p: Sextet, q: Sextet, r: Sextet, t: Sextet)
    ensures Sextet0(Byte0(p, q)) == p && Sextet1(Byte0(p, q), Byte1(q, r)) == q
    ensures Sextet2(Byte1(q, r), Byte2(r, t)) == r && Sextet3(Byte2(r, t)) == t
    ensures Sextet1(Byte0(p, q), 0) == q <==> q % 16 == 0
    ensures Sextet2(Byte1(q, r), 0) == r <==> r % 4 == 0
  {}

  lemma {:induction false} BytesOfSextets(bytes: seq<Byte>)
    ensures Bytes(Sextets(bytes)) == bytes
  {
    hide Byte0, Byte1, Byte2, Sextet0, Sextet1, Sextet2, Sextet3;
    if |bytes| == 1 {
      BytesOfGroup(bytes[0], 0, 0);
    } else if |bytes| == 2 {
      BytesOfGroup(bytes[0], bytes[1], 0);
    } else if |bytes| > 2 {
      BytesOfGroup(bytes[0], bytes[1], bytes[2]);
      BytesOfSextets(bytes[3..]);
      assert Sextets(bytes)[4..] == Sextets(bytes[3..]);
      assert bytes == [bytes[0], bytes[1], bytes[2]] + bytes[3..];
    }
  }

  /** The bits a last group leaves over are zero. */
  predicate NoSpareBits(sextets: seq<Sextet>) {
    var n := |sextets|;
    (n % 4 == 2 ==> sextets[n - 1] % 16 == 0) && (n % 4 == 3 ==> sextets[n - 1] % 4 == 0)
  }

  lemma {:induction false} SextetsOfBytes(sextets: seq<Sextet>)
    requires |sextets| % 4 != 1
    ensures Sextets(Bytes(sextets)) == sextets <==> NoSpareBits(sextets)
  {
    hide Byte0, Byte1, Byte2, Sextet0, Sextet1, Sextet2, Sextet3;
    var n := |sextets|;
    if n == 2 {
      SextetsOfGroup(sextets[0], sextets[1], 0, 0);
    } else if n == 3 {
      SextetsOfGroup(sextets[0], sextets[1], sextets[2], 0);
    } else if n > 3 {
      SextetsOfGroup(sextets[0], sextets[1], sextets[2], sextets[3]);
      SextetsOfBytes(sextets[4..]);
      MoreGroups(sextets);
    }
  }

  lemma MoreGroups(sextets: seq<Sextet>)
    requires |sextets| > 3
    requires Sextet0(Byte0(sextets[0], sextets[1])) == sextets[0]
    requires Sextet1(Byte0(sextets[0], sextets[1]), Byte1(sextets[1], sextets[2])) == sextets[1]
    requires Sextet2(Byte1(sextets[1], sextets[2]), Byte2(sextets[2], sextets[3])) == sextets[2]
    requires Sextet3(Byte2(sextets[2], sextets[3])) == sextets[3]
    ensures var rest := sextets[4..];
            && (Sextets(Bytes(sextets)) == sextets <==> Sextets(Bytes(rest)) == rest)
            && (NoSpareBits(sextets) <==> NoSpareBits(rest))
  {
    hide Byte0, Byte1, Byte2, Sextet0, Sextet1, Sextet2, Sextet3, Sextets, NoSpareBits;
    var rest, head := sextets[4..], sextets[..4];
    assert sextets == head + rest;
    var three := [Byte0(sextets[0], sextets[1]), Byte1(sextets[1], sextets[2]), Byte2(sextets[2], sextets[3])];
    assert Bytes(sextets) == three + Bytes(rest);
    MoreBytes(three, Bytes(rest));
    assert head == [sextets[0], sextets[1], sextets[2], sextets[3]];
    SameAfter(head, Sextets(Bytes(rest)), rest);
    MoreSpareBits(sextets);
  }

  lemma MoreBytes(three: seq<Byte>, rest: seq<Byte>)
    requires |three| == 3
    ensures Sextets(three + rest)
            == [Sextet0(three[0]), Sextet1(three[0], three[1]), Sextet2(three[1], three[2]), Sextet3(three[2])]
               + Sextets(rest)
  {
    hide Sextet0, Sextet1, Sextet2, Sextet3;
    assert (three + rest)[3..] == rest;
  }

  lemma SameAfter(head: seq<Sextet>, a: seq<Sextet>, b: seq<Sextet>)
    ensures head + a == head + b <==> a == b
  {
    assert (head + a)[|head|..] == a && (head + b)[|head|..] == b;
  }

  lemma MoreSpareBits(sextets: seq<Sextet>)
    requires |sextets| > 3
    ensures NoSpareBits(sextets) <==> NoSpareBits(sextets[4..])
  {
    var n := |sextets|;
    assert n % 4 == (n - 4) % 4;
    if n > 4 { assert sextets[4..][n - 5] == sextets[n - 1]; }
  }

  lemma SymbolRead(s: Sextet)
    ensures SextetOf(Symbol(s)) == Some(s)
  {}

  lemma ReadSymbol(c: char)
    requires SextetOf(c).Some?
    ensures Symbol(SextetOf(c).value) == c
  {}

  /** Decoding gives back what was encoded exactly when there was something, and not too much of it. */
  lemma LinkRoundTrip(bytes: seq<Byte>)
    ensures FromBase64URL(ToBase64URL(bytes)) == Ok(bytes) <==> 1 <= |bytes| <= MAX_BYTES
  {
    hide Bytes, Sextets, Symbol, SextetOf;
    var sextets, token := Sextets(bytes), ToBase64URL(bytes);
    BytesOfSextets(bytes);
    forall i | 0 <= i < |token| ensures SextetOf(token[i]) == Some(sextets[i]) { SymbolRead(sextets[i]); }
    assert Read(token) == sextets;
  }

  /** A token that decodes is the encoding of its bytes exactly when its spare bits are zero. */
  lemma CanonicalTokens(token: string)
    requires FromBase64URL(token).Ok?
    ensures ToBase64URL(FromBase64URL(token).value) == token <==> NoSpareBits(Read(token))
  {
    hide Bytes, Sextets, Symbol, SextetOf;
    var sextets := Read(token);
    SextetsOfBytes(sextets);
    forall i | 0 <= i < |token| ensures Symbol(sextets[i]) == token[i] { ReadSymbol(token[i]); }
    assert Symbols(sextets) == token;
    if Symbols(Sextets(Bytes(sextets))) == token {
      SameSextets(Sextets(Bytes(sextets)), sextets);
    }
  }

  lemma ReadIs(token: string, sextets: seq<Sextet>)
    requires |token| == |sextets| && forall i :: 0 <= i < |token| ==> SextetOf(token[i]) == Some(sextets[i])
    ensures Spelled(token) && Read(token) == sextets
  {
    hide SextetOf;
  }

  lemma TwoSextets(p: Sextet, q: Sextet)
    ensures Bytes([p, q]) == [Byte0(p, q)] && (NoSpareBits([p, q]) <==> q % 16 == 0)
  {
    hide Byte0;
  }

  /** A token of two symbols decodes to one byte, and encodes it exactly when it has no spare bits. */
  lemma ShortToken(p: Sextet, q: Sextet)
    ensures var token := [Symbol(p), Symbol(q)];
            FromBase64URL(token) == Ok([Byte0(p, q)]) && (ToBase64URL([Byte0(p, q)]) == token <==> q % 16 == 0)
  {
    hide Symbol, SextetOf, Bytes, Byte0, Spelled, Read, NoSpareBits, ToBase64URL;
    var token := [Symbol(p), Symbol(q)];
    SymbolRead(p);
    SymbolRead(q);
    ReadIs(token, [p, q]);
    TwoSextets(p, q);
    CanonicalTokens(token);
  }

  /** A token with spare bits: it decodes to the byte that another token encodes. */
  lemma SpareBitsAreDropped()
    ensures FromBase64URL("AB") == FromBase64URL("AA") == Ok([0]) && ToBase64URL([0]) == "AA"
  {
    hide FromBase64URL, ToBase64URL;
    ShortToken(0, 0);
    ShortToken(0, 1);
    assert [Symbol(0), Symbol(0)] == "AA" && [Symbol(0), Symbol(1)] == "AB";
  }

  lemma SameSextets(a: seq<Sextet>, b: seq<Sextet>)
    requires Symbols(a) == Symbols(b)
    ensures a == b
  {
    hide Symbol;
    assert |a| == |b|;
    forall i | 0 <= i < |a| ensures a[i] == b[i] {
      assert Symbols(a)[i] == Symbols(b)[i];
      SymbolRead(a[i]);
      SymbolRead(b[i]);
    }
  }
}
