/** What the checks of colours, ids and quoted sources let through. */
module BoardChecks {
  import opened Basics
  import opened BoardDocument
  import opened BoardCommands

  // ---------- characters ----------

  const CAPITALS := "ABCDEFGHIJKLMNOPQRSTUVWXYZ"
  const SMALL := "abcdefghijklmnopqrstuvwxyz"
  const DIGITS := "0123456789"

  /** The classes of characters, written out. */
  lemma CharacterClasses(c: char)
    ensures IsDigit(c) <==> c in DIGITS
    ensures IsLetter(c) <==> c in CAPITALS || c in SMALL
    ensures IsHex(c) <==> c in DIGITS || c in "abcdef" || c in "ABCDEF"
    ensures forall i :: 0 <= i < 26 && c == CAPITALS[i] ==> LowerLetter(c) == SMALL[i]
    ensures c !in CAPITALS ==> LowerLetter(c) == c
  {
    hide CAPITALS, SMALL, DIGITS;
    AlphabetIs();
    DigitsAre(c);
    HexLettersAre(c);
    if 'A' <= c <= 'Z' { assert CAPITALS[c as int - 'A' as int] == c; }
    if 'a' <= c <= 'z' { assert SMALL[c as int - 'a' as int] == c; }
  }

  lemma DigitsAre(c: char)
    ensures IsDigit(c) <==> c in DIGITS
  {
    if IsDigit(c) { assert DIGITS[c as int - '0' as int] == c; }
  }

  lemma HexLettersAre(c: char)
    ensures 'a' <= c <= 'f' <==> c in "abcdef"
    ensures 'A' <= c <= 'F' <==> c in "ABCDEF"
  {
    if 'a' <= c <= 'f' { assert "abcdef"[c as int - 'a' as int] == c; }
    if 'A' <= c <= 'F' { assert "ABCDEF"[c as int - 'A' as int] == c; }
  }

  lemma AlphabetIs()
    ensures |CAPITALS| == |SMALL| == 26
    ensures forall i :: 0 <= i < 26 ==> CAPITALS[i] == 'A' + i as char && SMALL[i] == 'a' + i as char
  {}

  /** An id is made of letters, digits, hyphens and underscores, from one to a hundred of them. */
  lemma IdentifierIff(s: string)
    ensures Identifier(s) <==>
            1 <= |s| <= 100 && forall c :: c in s ==> c in CAPITALS || c in SMALL || c in DIGITS || c == '-' || c == '_'
  {
    hide CAPITALS, SMALL, DIGITS, IsLetter, IsDigit;
    forall c: char ensures
        (IsDigit(c) <==> c in DIGITS) && (IsLetter(c) <==> c in CAPITALS || c in SMALL)
    {
      CharacterClasses(c);
    }
    if 1 <= |s| <= 100 && forall c :: c in s ==> c in CAPITALS || c in SMALL || c in DIGITS || c == '-' || c == '_' {
      forall i | 0 <= i < |s| ensures IsLetter(s[i]) || IsDigit(s[i]) || s[i] == '_' || s[i] == '-' {
        assert s[i] in s;
      }
    }
  }

  // ---------- colours ----------

  predicate AllHex(s: string) { forall i :: 0 <= i < |s| ==> IsHex(s[i]) }

  predicate AllLetters(s: string) { forall i :: 0 <= i < |s| ==> IsLetter(s[i]) }

  predicate IsArgument(c: char) {
    IsDigit(c) || IsSpace(c) || c == '.' || c == ',' || c == '%' || c == '/' || c == '+' || c == '-'
  }

  predicate AllArguments(s: string) { forall i :: 0 <= i < |s| ==> IsArgument(s[i]) }

  /** Three, four, six or eight hexadecimal digits behind a hash. */
  predicate IsHexColor(s: string, digits: string) {
    s == "#" + digits && AllHex(digits) && (|digits| == 3 || |digits| == 4 || |digits| == 6 || |digits| == 8)
  }

  /** A function of this name, in any case, applied to numbers. */
  predicate Applies(s: string, word: string, name: string, arguments: string) {
    s == name + "(" + arguments + ")" && Lower(name) == word && arguments != "" && AllArguments(arguments)
  }

  ghost predicate IsApplied(s: string, word: string) {
    exists name, arguments :: Applies(s, word, name, arguments)
  }

  lemma HashDigits(s: string)
    ensures var t := Lower(s);
            (|t| in {4, 5, 7, 9} && t[0] == '#' && forall i :: 1 <= i < |t| ==> IsHex(t[i]))
            <==> exists digits :: IsHexColor(s, digits)
  {
    var t := Lower(s);
    if |t| in {4, 5, 7, 9} && t[0] == '#' && forall i :: 1 <= i < |t| ==> IsHex(t[i]) {
      var digits := s[1..];
      forall i | 0 <= i < |digits| ensures IsHex(digits[i]) { assert IsHex(t[i + 1]); }
      assert IsHexColor(s, digits);
    }
    if digits :| IsHexColor(s, digits) {
      forall i | 1 <= i < |t| ensures IsHex(t[i]) { assert IsHex(digits[i - 1]) && s[i] == digits[i - 1]; }
    }
  }

  lemma PartsOfFunction(s: string, word: string)
    requires |word| > 0 && ColorFunction(Lower(s), word)
    ensures IsApplied(s, word)
  {
    hide IsArgument, IsSpace, IsDigit;
    var t, n := Lower(s), |word|;
    var name, arguments := s[..n], s[n + 1..|s| - 1];
    assert Lower(name) == t[..n] == word;
    assert s[n] == '(' && s[|s| - 1] == ')' by { NotLetters(s[n]); NotLetters(s[|s| - 1]); }
    assert s == name + "(" + arguments + ")";
    forall i | 0 <= i < |arguments| ensures IsArgument(arguments[i]) {
      ArgumentIff(t[n + 1 + i]);
      SmallIsNoArgument(arguments[i]);
    }
    assert Applies(s, word, name, arguments);
  }

  lemma NotLetters(c: char)
    ensures LowerLetter(c) == '(' ==> c == '('
    ensures LowerLetter(c) == ')' ==> c == ')'
  {}

  lemma ArgumentIff(c: char)
    ensures IsArgument(c) <==> IsDigit(c) || IsSpace(c) || c in ".,%/+-"
  {
    hide IsDigit, IsSpace;
  }

  lemma FunctionOfParts(s: string, word: string, name: string, arguments: string)
    requires Applies(s, word, name, arguments)
    ensures ColorFunction(Lower(s), word)
  {
    hide IsArgument, IsSpace, IsDigit;
    var t, n := Lower(s), |word|;
    assert t[..n] == Lower(name);
    assert t[n] == '(' && t[|t| - 1] == ')';
    forall i | n < i < |t| - 1 ensures IsDigit(t[i]) || IsSpace(t[i]) || t[i] in ".,%/+-" {
      assert s[i] == arguments[i - n - 1];
      SmallIsNoArgument(s[i]);
      ArgumentIff(t[i]);
    }
  }

  lemma FunctionParts(s: string, word: string)
    requires |word| > 0
    ensures ColorFunction(Lower(s), word) <==> IsApplied(s, word)
  {
    hide ColorFunction, Applies;
    if ColorFunction(Lower(s), word) { PartsOfFunction(s, word); }
    if name, arguments :| Applies(s, word, name, arguments) { FunctionOfParts(s, word, name, arguments); }
  }

  lemma SmallIsNoArgument(c: char)
    ensures IsArgument(LowerLetter(c)) <==> IsArgument(c)
    ensures IsArgument(c) ==> LowerLetter(c) == c
  {}

  /** A colour is hexadecimal, a word of letters, or one of the four functions, in no more than 100 characters. */
  lemma ColorIff(s: string)
    ensures Color(s) <==>
            && |s| <= 100
            && ((exists digits :: IsHexColor(s, digits)) || (1 <= |s| <= 25 && AllLetters(s))
                || IsApplied(s, "rgb") || IsApplied(s, "rgba") || IsApplied(s, "hsl") || IsApplied(s, "hsla"))
  {
    hide IsHexColor, ColorFunction, IsApplied, IsHex;
    HashDigits(s);
    FunctionParts(s, "rgb");
    FunctionParts(s, "rgba");
    FunctionParts(s, "hsl");
    FunctionParts(s, "hsla");
    assert (forall i :: 0 <= i < |Lower(s)| ==> 'a' <= Lower(s)[i] <= 'z') <==> AllLetters(s) by { SmallLetters(s); }
  }

  lemma SmallLetters(s: string)
    ensures (forall i :: 0 <= i < |Lower(s)| ==> 'a' <= Lower(s)[i] <= 'z') <==> AllLetters(s)
  {
    if forall i :: 0 <= i < |Lower(s)| ==> 'a' <= Lower(s)[i] <= 'z' {
      forall i | 0 <= i < |s| ensures IsLetter(s[i]) { assert 'a' <= Lower(s)[i] <= 'z'; }
    }
  }

  predicate IsColorCharacter(c: char) {
    IsLetter(c) || IsArgument(c) || c == '#' || c == '(' || c == ')'
  }

  /** A colour is never markup or a URL: it holds no character that either of them needs. */
  lemma ColorIsHarmless(s: string)
    requires Color(s)
    ensures forall i :: 0 <= i < |s| ==>
              s[i] != '<' && s[i] != '>' && s[i] != '"' && s[i] != '\'' && s[i] != '&' && s[i] != ':' && s[i] != ';'
  {
    hide Color, AllHex, IsHexColor, Applies, IsArgument, IsHex;
    ColorIff(s);
    if digits :| IsHexColor(s, digits) {
      HexIsHarmless(s, digits);
    } else if !(1 <= |s| <= 25 && AllLetters(s)) {
      var word := if IsApplied(s, "rgb") then "rgb" else if IsApplied(s, "rgba") then "rgba"
                  else if IsApplied(s, "hsl") then "hsl" else "hsla";
      var name, arguments :| Applies(s, word, name, arguments);
      FunctionIsHarmless(s, word, name, arguments);
    }
    forall i | 0 <= i < |s| && IsColorCharacter(s[i])
      ensures s[i] != '<' && s[i] != '>' && s[i] != '"' && s[i] != '\'' && s[i] != '&' && s[i] != ':' && s[i] != ';'
    {
      HarmlessCharacter(s[i]);
    }
  }

  lemma HarmlessCharacter(c: char)
    requires IsColorCharacter(c)
    ensures c != '<' && c != '>' && c != '"' && c != '\'' && c != '&' && c != ':' && c != ';'
  {}

  lemma HexIsHarmless(s: string, digits: string)
    requires IsHexColor(s, digits)
    ensures forall i :: 0 <= i < |s| ==> IsColorCharacter(s[i])
  {
    forall i | 0 <= i < |s| ensures IsColorCharacter(s[i]) { if i > 0 { assert s[i] == digits[i - 1]; } }
  }

  lemma FunctionIsHarmless(s: string, word: string, name: string, arguments: string)
    requires Applies(s, word, name, arguments) && word in {"rgb", "rgba", "hsl", "hsla"}
    ensures forall i :: 0 <= i < |s| ==> IsColorCharacter(s[i])
  {
    hide IsArgument;
    var n := |name|;
    forall i | 0 <= i < |s| ensures IsColorCharacter(s[i]) {
      if i < n {
        LettersOfWord(word, i);
        assert s[i] == name[i] && LowerLetter(name[i]) == word[i];
      } else if n < i < |s| - 1 {
        assert s[i] == arguments[i - n - 1];
      }
    }
  }

  lemma LettersOfWord(word: string, i: nat)
    requires word in {"rgb", "rgba", "hsl", "hsla"} && i < |word|
    ensures 'a' <= word[i] <= 'z'
  {}

  // ---------- the sources of a quotation ----------

  /** The entries whose source is not there yet, in order. */
  function NewEntries(base: seq<Entry>, incoming: seq<Entry>): seq<Entry> {
    if incoming == [] then []
    else (if HasHash(base, incoming[0].sourceHash) then [] else [incoming[0]]) + NewEntries(base, incoming[1..])
  }

  predicate HasHash(entries: seq<Entry>, hash: string) {
    exists i :: 0 <= i < |entries| && entries[i].sourceHash == hash
  }

  /** Two entries of one source that do not say the same of it; where it was found does not matter. */
  predicate Disagree(a: Entry, b: Entry) {
    a.sourceHash == b.sourceHash
      && (a.title, a.author, a.createdAt, a.snapshot) != (b.title, b.author, b.createdAt, b.snapshot)
  }

  predicate AnyDisagree(base: seq<Entry>, incoming: seq<Entry>) {
    exists i, j :: 0 <= i < |base| && 0 <= j < |incoming| && Disagree(base[i], incoming[j])
  }

  lemma FoundEntry(entries: seq<Entry>, hash: string)
    requires DistinctEntries(entries)
    ensures FindEntry(entries, hash) < |entries| <==> HasHash(entries, hash)
    ensures forall i :: 0 <= i < |entries| && entries[i].sourceHash == hash ==> FindEntry(entries, hash) == i
  {
    var k := FindEntry(entries, hash);
    if k < |entries| { assert entries[k].sourceHash == hash; }
  }

  /** Merging is refused exactly if two entries of one source disagree, and else adds the new ones in order. */
  lemma {:induction false} MergeIs(base: seq<Entry>, incoming: seq<Entry>)
    requires DistinctEntries(base) && DistinctEntries(incoming)
    ensures MergeEntries(base, incoming)
            == if AnyDisagree(base, incoming) then Err(SourceHashMismatch) else Ok(base + NewEntries(base, incoming))
    decreases |incoming|
  {
    hide DistinctEntries, FindEntry, Disagree, HasHash, AnyDisagree, Conflict;
    if incoming == [] {
      NothingMerged(base);
    } else {
      var e, rest := incoming[0], incoming[1..];
      assert incoming == [e] + rest;
      FoundEntry(base, e.sourceHash);
      DistinctTail(incoming);
      if HasHash(base, e.sourceHash) {
        MergeKnown(base, e, rest);
        MergeIs(base, rest);
        assert [] + NewEntries(base, rest) == NewEntries(base, rest);
      } else {
        DistinctMore(base, e);
        MergeIs(base + [e], rest);
        MergeNew(base, e, rest);
        Regrouped(base, [e], NewEntries(base, rest));
      }
    }
  }

  lemma NothingMerged(base: seq<Entry>)
    ensures !AnyDisagree(base, []) && base + NewEntries(base, []) == base
  {}

  lemma DistinctTail(entries: seq<Entry>)
    requires DistinctEntries(entries) && entries != []
    ensures DistinctEntries(entries[1..]) && !HasHash(entries[1..], entries[0].sourceHash)
  {
    forall i | 0 <= i < |entries[1..]| ensures entries[1..][i].sourceHash != entries[0].sourceHash {
      assert entries[1..][i] == entries[i + 1];
    }
    forall i, j | 0 <= i < j < |entries[1..]| ensures entries[1..][i].sourceHash != entries[1..][j].sourceHash {
      assert entries[i + 1].sourceHash != entries[j + 1].sourceHash;
    }
  }

  lemma DistinctMore(base: seq<Entry>, e: Entry)
    requires DistinctEntries(base) && !HasHash(base, e.sourceHash)
    ensures DistinctEntries(base + [e])
  {}

  lemma MergeKnown(base: seq<Entry>, e: Entry, rest: seq<Entry>)
    requires DistinctEntries(base) && HasHash(base, e.sourceHash)
    ensures FindEntry(base, e.sourceHash) < |base|
    ensures AnyDisagree(base, [e] + rest) <==>
            Conflict(base[FindEntry(base, e.sourceHash)], e) || AnyDisagree(base, rest)
  {
    hide DistinctEntries;
    FoundEntry(base, e.sourceHash);
    var k, all := FindEntry(base, e.sourceHash), [e] + rest;
    assert all[0] == e && all[1..] == rest;
    if Conflict(base[k], e) { assert Disagree(base[k], all[0]); }
    if AnyDisagree(base, rest) {
      var i, j :| 0 <= i < |base| && 0 <= j < |rest| && Disagree(base[i], rest[j]);
      assert Disagree(base[i], all[j + 1]);
    }
    if AnyDisagree(base, all) {
      var i, j :| 0 <= i < |base| && 0 <= j < |all| && Disagree(base[i], all[j]);
      if j > 0 { assert Disagree(base[i], rest[j - 1]); }
    }
  }

  lemma MergeNew(base: seq<Entry>, e: Entry, rest: seq<Entry>)
    requires !HasHash(base, e.sourceHash) && !HasHash(rest, e.sourceHash)
    ensures AnyDisagree(base, [e] + rest) <==> AnyDisagree(base + [e], rest)
    ensures NewEntries(base + [e], rest) == NewEntries(base, rest)
  {
    hide NewEntries;
    var all, more := [e] + rest, base + [e];
    if AnyDisagree(base, all) {
      var i, j :| 0 <= i < |base| && 0 <= j < |all| && Disagree(base[i], all[j]);
      assert j > 0 && Disagree(more[i], rest[j - 1]);
    }
    if AnyDisagree(more, rest) {
      var i, j :| 0 <= i < |more| && 0 <= j < |rest| && Disagree(more[i], rest[j]);
      assert i < |base| && Disagree(base[i], all[j + 1]);
    }
    NewElsewhere(base, e, rest);
  }

  lemma {:induction false} NewElsewhere(base: seq<Entry>, e: Entry, rest: seq<Entry>)
    requires !HasHash(rest, e.sourceHash)
    ensures NewEntries(base + [e], rest) == NewEntries(base, rest)
  {
    if rest != [] {
      assert rest[0].sourceHash != e.sourceHash;
      forall i | 0 <= i < |rest[1..]| ensures rest[1..][i].sourceHash != e.sourceHash {
        assert rest[1..][i] == rest[i + 1];
      }
      NewElsewhere(base, e, rest[1..]);
      assert HasHash(base + [e], rest[0].sourceHash) <==> HasHash(base, rest[0].sourceHash) by {
        if i :| 0 <= i < |base| && base[i].sourceHash == rest[0].sourceHash {
          assert (base + [e])[i].sourceHash == rest[0].sourceHash;
        }
      }
    }
  }

  /** Whether a source is there with its content. */
  predicate Bundled(entries: seq<Entry>, hash: string) {
    exists i :: 0 <= i < |entries| && entries[i].sourceHash == hash && entries[i].snapshot.Some?
  }

  /** Every source of a bundled source is bundled too. */
  predicate Closed(entries: seq<Entry>) {
    forall i :: 0 <= i < |entries| && entries[i].snapshot.Some? ==>
      forall j :: 0 <= j < |entries[i].snapshot.value.provenance| ==>
        Bundled(entries, entries[i].snapshot.value.provenance[j].sourceHash)
  }

  lemma ClosedIff(entries: seq<Entry>)
    requires DistinctEntries(entries)
    ensures AncestorsPresent(entries) <==> Closed(entries)
  {
    forall hash: string ensures HasSnapshot(entries, hash) <==> Bundled(entries, hash) { BundledIff(entries, hash); }
  }

  lemma BundledIff(entries: seq<Entry>, hash: string)
    requires DistinctEntries(entries)
    ensures HasSnapshot(entries, hash) <==> Bundled(entries, hash)
  {
    FoundEntry(entries, hash);
  }

  lemma {:induction false} NewAreDistinct(base: seq<Entry>, incoming: seq<Entry>)
    requires DistinctEntries(base) && DistinctEntries(incoming)
    ensures DistinctEntries(base + NewEntries(base, incoming))
    ensures forall e :: e in NewEntries(base, incoming) ==> e in incoming && !HasHash(base, e.sourceHash)
  {
    if incoming == [] {
      assert base + NewEntries(base, incoming) == base;
    } else {
      DistinctTail(incoming);
      NewAreDistinct(base, incoming[1..]);
      var rest := NewEntries(base, incoming[1..]);
      forall e | e in rest ensures e.sourceHash != incoming[0].sourceHash {
        var i :| 0 <= i < |incoming[1..]| && incoming[1..][i] == e;
      }
      PutIn(base, incoming[0], rest);
    }
  }

  predicate Disjoint(a: seq<Entry>, b: seq<Entry>) {
    forall i, j :: 0 <= i < |a| && 0 <= j < |b| ==> a[i].sourceHash != b[j].sourceHash
  }

  lemma DistinctParts(a: seq<Entry>, b: seq<Entry>)
    ensures DistinctEntries(a + b) ==> DistinctEntries(a) && DistinctEntries(b) && Disjoint(a, b)
    ensures DistinctEntries(a) && DistinctEntries(b) && Disjoint(a, b) ==> DistinctEntries(a + b)
  {
    var all, n := a + b, |a|;
    assert forall k :: 0 <= k < n ==> all[k] == a[k];
    if DistinctEntries(all) {
      forall i, j | 0 <= i < n && 0 <= j < |b| ensures a[i].sourceHash != b[j].sourceHash {
        assert all[i].sourceHash != all[n + j].sourceHash;
      }
      forall i, j | 0 <= i < j < |b| ensures b[i].sourceHash != b[j].sourceHash {
        assert all[n + i].sourceHash != all[n + j].sourceHash;
      }
    }
  }

  lemma PutIn(base: seq<Entry>, e: Entry, rest: seq<Entry>)
    requires DistinctEntries(base + rest) && !HasHash(rest, e.sourceHash)
    ensures !HasHash(base, e.sourceHash) ==> DistinctEntries(base + ([e] + rest))
    ensures [] + rest == rest
  {
    hide DistinctEntries;
    DistinctParts(base, rest);
    DistinctParts([e], rest);
    OneIsDistinct(e);
    DistinctParts(base, [e] + rest);
  }

  lemma OneIsDistinct(e: Entry)
    ensures DistinctEntries([e])
  {}

  /**
   What a quotation does to the sources: they are validated as if alone on the board, must all be
   there with their content, must not disagree with what the board holds, must not be too many,
   and every source of theirs must be there. The new ones are then added at the end.
   */
  lemma SourcesMerged(h: Host, provenance: seq<Entry>, doc: Document)
    requires DistinctEntries(doc.provenance)
    ensures var alone := Validate(h, SourcesOnly(doc, provenance));
            QuoteSources(h, provenance, doc)
            == if alone.Err? then Err(alone.error)
               else
                 var incoming := alone.value.provenance;
                 var merged := doc.provenance + NewEntries(doc.provenance, incoming);
                 if incoming == [] || !AllBundled(incoming) then Err(InvalidInput)
                 else if AnyDisagree(doc.provenance, incoming) then Err(SourceHashMismatch)
                 else if |merged| > 64 then Err(InvalidInput)
                 else if !Closed(merged) then Err(SourceNotFound)
                 else Ok(doc.(provenance := merged))
  {
    hide Validate, SourcesOnly, DistinctEntries, MergeEntries, NewEntries, AnyDisagree, AncestorsPresent, Closed;
    var alone := Validate(h, SourcesOnly(doc, provenance));
    if alone.Ok? {
      ValidIsDistinct(h, SourcesOnly(doc, provenance));
      MergeIs(doc.provenance, alone.value.provenance);
      NewAreDistinct(doc.provenance, alone.value.provenance);
      ClosedIff(doc.provenance + NewEntries(doc.provenance, alone.value.provenance));
    }
  }

  predicate AllBundled(entries: seq<Entry>) { forall i :: 0 <= i < |entries| ==> entries[i].snapshot.Some? }

  lemma ValidIsDistinct(h: Host, d: Document)
    requires Validate(h, d).Ok?
    ensures DistinctEntries(Validate(h, d).value.provenance)
  {
    CheckedIsDistinct(h, d);
  }

  lemma CheckedIsDistinct(h: Host, d: Document)
    requires CheckDocument(h, d, true).Ok?
    ensures DistinctEntries(CheckDocument(h, d, true).value.provenance)
  {
    hide NormalizeObjects, NormalizeEntries, PartsOk, DistinctReactions, DistinctEntries;
    var entries := NormalizeEntries(h, d.provenance, true);
    assert entries.Ok? && CheckDocument(h, d, true).value.provenance == entries.value;
  }
}
