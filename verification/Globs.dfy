/**
 Path patterns. A pattern is compiled to a regular expression, whose meaning is compared with
 a direct reading of the pattern.
 */
module Globs {
  /** The pieces of the emitted regular expression: `c`, `[^/]`, `[^/]*`, `.*` and `(?:.*\/)?`. */
  datatype Piece = Literal(c: char) | NotSlash | NotSlashes | Anything | Directories

  predicate Without(s: string, c: char) { forall i :: 0 <= i < |s| ==> s[i] != c }

  /** A full match of the pieces; the dot matches anything but a newline. */
  predicate Accepts(pieces: seq<Piece>, s: string)
    decreases |pieces|, 0
  {
    if pieces == [] then s == ""
    else
      var rest := pieces[1..];
      match pieces[0]
      case Literal(c) => s != "" && s[0] == c && Accepts(rest, s[1..])
      case NotSlash => s != "" && s[0] != '/' && Accepts(rest, s[1..])
      case NotSlashes => AcceptsAfterRun(rest, s, '/')
      case Anything => AcceptsAfterRun(rest, s, '\n')
      case Directories => Accepts(rest, s) || AcceptsAfterSlash(rest, s)
  }

  /** Any run of characters other than `stop`, then the rest. */
  predicate AcceptsAfterRun(rest: seq<Piece>, s: string, stop: char)
    decreases |rest|, 1
  {
    exists k :: 0 <= k <= |s| && Without(s[..k], stop) && Accepts(rest, s[k..])
  }

  /** Anything on one line up to some slash, then the rest. */
  predicate AcceptsAfterSlash(rest: seq<Piece>, s: string)
    decreases |rest|, 1
  {
    exists k :: 0 <= k < |s| && s[k] == '/' && Without(s[..k], '\n') && Accepts(rest, s[k + 1..])
  }

  /** The pieces emitted for a pattern. */
  function Compile(pattern: string): seq<Piece> {
    if pattern == "" then []
    else if "**/" <= pattern then [Directories] + Compile(pattern[3..])
    else if "**" <= pattern then [Anything] + Compile(pattern[2..])
    else if pattern[0] == '*' then [NotSlashes] + Compile(pattern[1..])
    else if pattern[0] == '?' then [NotSlash] + Compile(pattern[1..])
    else [Literal(pattern[0])] + Compile(pattern[1..])
  }

  function Slash(s: string): (i: nat)
    ensures i <= |s| && (i < |s| ==> s[i] == '/') && Without(s[..i], '/')
  {
    if s == "" || s[0] == '/' then 0 else 1 + Slash(s[1..])
  }

  /**
   The pattern read directly, one character or one directory of the path at a time. `?` is one
   character of a name, `*` any number of them, `**` anything, and a leading `**` with its slash
   any number of whole directories. Whether the last two may cross a newline is a parameter.
   */
  predicate Glob(pattern: string, path: string, acrossLines: bool)
    decreases |pattern| + |path|
  {
    if pattern == "" then path == ""
    else if "**/" <= pattern then
      || Glob(pattern[3..], path, acrossLines)
      || (Slash(path) < |path| && (acrossLines || Without(path[..Slash(path)], '\n'))
          && Glob(pattern, path[Slash(path) + 1..], acrossLines))
    else if "**" <= pattern then
      || Glob(pattern[2..], path, acrossLines)
      || (path != "" && (acrossLines || path[0] != '\n') && Glob(pattern, path[1..], acrossLines))
    else if pattern[0] == '*' then
      || Glob(pattern[1..], path, acrossLines)
      || (path != "" && path[0] != '/' && Glob(pattern, path[1..], acrossLines))
    else
      && path != "" && (if pattern[0] == '?' then path[0] != '/' else path[0] == pattern[0])
      && Glob(pattern[1..], path[1..], acrossLines)
  }

  // ---------- compiling ----------

  /** The piece the compiler emits at an index, and where it goes on. */
  function Emit(pattern: string, index: nat): (r: (Piece, nat))
    requires index < |pattern|
    ensures index < r.1 <= |pattern|
  {
    if pattern[index] == '*' then
      if index + 1 < |pattern| && pattern[index + 1] == '*' then
        if index + 2 < |pattern| && pattern[index + 2] == '/' then (Directories, index + 3) else (Anything, index + 2)
      else (NotSlashes, index + 1)
    else (if pattern[index] == '?' then NotSlash else Literal(pattern[index]), index + 1)
  }

  lemma CompileEmits(pattern: string, index: nat)
    requires index < |pattern|
    ensures var (piece, next) := Emit(pattern, index); Compile(pattern[index..]) == [piece] + Compile(pattern[next..])
  {
    var rest := pattern[index..];
    assert forall k :: 0 <= k <= |rest| ==> rest[k..] == pattern[index + k..];
    assert forall k :: 0 <= k < |rest| ==> rest[k] == pattern[index + k];
    assert "**" <= rest <==> |rest| >= 2 && rest[0] == '*' && rest[1] == '*';
    assert "**/" <= rest <==> |rest| >= 3 && rest[0] == '*' && rest[1] == '*' && rest[2] == '/';
  }

  /** The compiler's loop over an index into the pattern. */
  method GlobRegex(pattern: string) returns (out: seq<Piece>)
    ensures forall path :: Accepts(out, path) <==> Glob(pattern, path, false)
    ensures forall path :: Without(path, '\n') ==> (Accepts(out, path) <==> Glob(pattern, path, true))
  {
    hide Compile, Accepts, Glob;
    out := [];
    var index := 0;
    assert pattern[0..] == pattern;
    while index < |pattern|
      invariant 0 <= index <= |pattern| && out + Compile(pattern[index..]) == Compile(pattern)
    {
      CompileEmits(pattern, index);
      ghost var (piece, next) := Emit(pattern, index);
      assert out + ([piece] + Compile(pattern[next..])) == out + [piece] + Compile(pattern[next..]);
      if pattern[index] == '*' {
        if index + 1 < |pattern| && pattern[index + 1] == '*' {
          index := index + 2;
          if index < |pattern| && pattern[index] == '/' {
            out := out + [Directories];
            index := index + 1;
          } else {
            out := out + [Anything];
          }
          continue;
        }
        out := out + [NotSlashes];
      } else if pattern[index] == '?' {
        out := out + [NotSlash];
      } else {
        out := out + [Literal(pattern[index])];
      }
      index := index + 1;
    }
    CompileNothing();
    assert pattern[|pattern|..] == "";
    assert out == Compile(pattern);
    forall path ensures Accepts(out, path) <==> Glob(pattern, path, false) { CompiledIsGlob(pattern, path); }
    forall path | Without(path, '\n') ensures Glob(pattern, path, true) <==> Glob(pattern, path, false) {
      LinesDoNotMatter(pattern, path);
    }
  }

  lemma CompileNothing()
    ensures Compile("") == []
  {}

  // ---------- the pieces that repeat, one step at a time ----------

  lemma WithoutTail(s: string, k: nat, c: char)
    requires s != "" && k < |s|
    ensures Without(s[..k + 1], c) <==> s[0] != c && Without(s[1..][..k], c)
  {
    var t := s[1..][..k];
    assert s[..k + 1] == [s[0]] + t;
    assert forall i :: 0 <= i < k ==> t[i] == s[..k + 1][i + 1];
  }

  lemma WithoutConcat(a: string, b: string, c: char)
    ensures Without(a + b, c) <==> Without(a, c) && Without(b, c)
  {
    assert forall i :: 0 <= i < |a| ==> (a + b)[i] == a[i];
    assert forall i :: 0 <= i < |b| ==> (a + b)[|a| + i] == b[i];
  }

  lemma RunUnfolds(rest: seq<Piece>, s: string, stop: char)
    ensures AcceptsAfterRun(rest, s, stop) <==>
              Accepts(rest, s) || (s != "" && s[0] != stop && AcceptsAfterRun(rest, s[1..], stop))
  {
    hide Accepts, Without;
    assert s[0..] == s && s[..0] == "";
    NothingWithout(stop);
    if AcceptsAfterRun(rest, s, stop) {
      var k :| 0 <= k <= |s| && Without(s[..k], stop) && Accepts(rest, s[k..]);
      if k > 0 {
        WithoutTail(s, k - 1, stop);
        assert s[1..][k - 1..] == s[k..];
      }
    }
    if s != "" && s[0] != stop && AcceptsAfterRun(rest, s[1..], stop) {
      var k :| 0 <= k <= |s[1..]| && Without(s[1..][..k], stop) && Accepts(rest, s[1..][k..]);
      WithoutTail(s, k, stop);
      assert s[1..][k..] == s[k + 1..];
    }
  }

  lemma NothingWithout(c: char)
    ensures Without("", c)
  {}

  /** What is accepted after some slash is accepted after the first one, or after a later one. */
  lemma SlashUnfolds(rest: seq<Piece>, s: string)
    ensures var j := Slash(s);
            AcceptsAfterSlash(rest, s) <==>
              j < |s| && Without(s[..j], '\n') && (Accepts(rest, s[j + 1..]) || AcceptsAfterSlash(rest, s[j + 1..]))
  {
    hide Accepts, Without, Slash, AcceptsAfterSlash;
    var j := Slash(s);
    if AcceptsAfterSlash(rest, s) { FirstOrLater(rest, s); }
    if j < |s| && Without(s[..j], '\n') {
      if Accepts(rest, s[j + 1..]) { AfterFirst(rest, s, j); }
      if AcceptsAfterSlash(rest, s[j + 1..]) { AfterLater(rest, s, j); }
    }
  }

  lemma FirstOrLater(rest: seq<Piece>, s: string)
    requires AcceptsAfterSlash(rest, s)
    ensures var j := Slash(s);
            j < |s| && Without(s[..j], '\n') && (Accepts(rest, s[j + 1..]) || AcceptsAfterSlash(rest, s[j + 1..]))
  {
    hide Accepts, Without, Slash;
    var k :| 0 <= k < |s| && s[k] == '/' && Without(s[..k], '\n') && Accepts(rest, s[k + 1..]);
    FirstSlash(s, k);
    if Slash(s) < k { LaterSlash(s, Slash(s), k); }
  }

  lemma AfterFirst(rest: seq<Piece>, s: string, j: nat)
    requires j == Slash(s) < |s| && Without(s[..j], '\n') && Accepts(rest, s[j + 1..])
    ensures AcceptsAfterSlash(rest, s)
  {
    hide Accepts, Without;
    assert s[j] == '/';
  }

  lemma AfterLater(rest: seq<Piece>, s: string, j: nat)
    requires j == Slash(s) < |s| && Without(s[..j], '\n') && AcceptsAfterSlash(rest, s[j + 1..])
    ensures AcceptsAfterSlash(rest, s)
  {
    hide Accepts, Without, Slash;
    var t := s[j + 1..];
    var k :| 0 <= k < |t| && t[k] == '/' && Without(t[..k], '\n') && Accepts(rest, t[k + 1..]);
    LaterSlash(s, j, j + 1 + k);
  }

  lemma FirstSlash(s: string, k: nat)
    requires k < |s| && s[k] == '/'
    ensures Slash(s) <= k
  {
    assert Slash(s) > k ==> s[..Slash(s)][k] == s[k];
  }

  lemma LaterSlash(s: string, j: nat, k: nat)
    requires j < k < |s| && s[j] == '/'
    ensures var t := s[j + 1..];
            && t[k - j - 1] == s[k] && t[k - j..] == s[k + 1..]
            && (Without(s[..k], '\n') <==> Without(s[..j], '\n') && Without(t[..k - j - 1], '\n'))
  {
    hide Without;
    var middle := s[j + 1..][..k - j - 1];
    assert s[..k] == (s[..j] + ['/']) + middle;
    WithoutConcat(s[..j] + ['/'], middle, '\n');
    WithoutConcat(s[..j], ['/'], '\n');
    assert Without(['/'], '\n') by { OneWithout(); }
  }

  lemma OneWithout()
    ensures Without(['/'], '\n')
  {}

  /** The compiled pattern means what the pattern says, on every path. */
  lemma {:induction false} CompiledIsGlob(pattern: string, path: string)
    ensures Accepts(Compile(pattern), path) <==> Glob(pattern, path, false)
    decreases |pattern| + |path|
  {
    if pattern == "" {
    } else if "**/" <= pattern {
      SlashUnfolds(Compile(pattern[3..]), path);
      CompiledIsGlob(pattern[3..], path);
      if Slash(path) < |path| { CompiledIsGlob(pattern, path[Slash(path) + 1..]); }
    } else if "**" <= pattern {
      RunUnfolds(Compile(pattern[2..]), path, '\n');
      CompiledIsGlob(pattern[2..], path);
      if path != "" { CompiledIsGlob(pattern, path[1..]); }
    } else if pattern[0] == '*' {
      RunUnfolds(Compile(pattern[1..]), path, '/');
      CompiledIsGlob(pattern[1..], path);
      if path != "" { CompiledIsGlob(pattern, path[1..]); }
    } else if path != "" {
      CompiledIsGlob(pattern[1..], path[1..]);
    }
  }

  lemma {:induction false} LinesDoNotMatter(pattern: string, path: string)
    requires Without(path, '\n')
    ensures Glob(pattern, path, true) <==> Glob(pattern, path, false)
    decreases |pattern| + |path|
  {
    if pattern == "" {
    } else if "**/" <= pattern {
      LinesDoNotMatter(pattern[3..], path);
      if Slash(path) < |path| { LinesDoNotMatter(pattern, path[Slash(path) + 1..]); }
    } else if "**" <= pattern {
      LinesDoNotMatter(pattern[2..], path);
      if path != "" { LinesDoNotMatter(pattern, path[1..]); }
    } else if pattern[0] == '*' {
      LinesDoNotMatter(pattern[1..], path);
      if path != "" { LinesDoNotMatter(pattern, path[1..]); }
    } else if path != "" {
      LinesDoNotMatter(pattern[1..], path[1..]);
    }
  }

  lemma {:induction false} StricterOnLines(pattern: string, path: string)
    ensures Glob(pattern, path, false) ==> Glob(pattern, path, true)
    decreases |pattern| + |path|
  {
    if pattern == "" {
    } else if "**/" <= pattern {
      StricterOnLines(pattern[3..], path);
      if Slash(path) < |path| { StricterOnLines(pattern, path[Slash(path) + 1..]); }
    } else if "**" <= pattern {
      StricterOnLines(pattern[2..], path);
      if path != "" { StricterOnLines(pattern, path[1..]); }
    } else if pattern[0] == '*' {
      StricterOnLines(pattern[1..], path);
      if path != "" { StricterOnLines(pattern, path[1..]); }
    } else if path != "" {
      StricterOnLines(pattern[1..], path[1..]);
    }
  }

  /** `**` alone matches everything when it may cross lines, and otherwise only paths without a newline. */
  lemma {:induction false} TwoStars(path: string)
    ensures Glob("**", path, true) && (Glob("**", path, false) <==> Without(path, '\n'))
  {
    if path == "" {
    } else {
      TwoStars(path[1..]);
      WithoutConcat([path[0]], path[1..], '\n');
      assert [path[0]] + path[1..] == path;
    }
  }

  /** The regular expressions agree with the patterns on a path exactly when the path has no newline. */
  lemma AgreesWithoutNewlines(path: string)
    ensures (forall pattern :: Accepts(Compile(pattern), path) <==> Glob(pattern, path, true)) <==> Without(path, '\n')
  {
    hide Accepts, Glob, Compile;
    if Without(path, '\n') {
      forall pattern ensures Accepts(Compile(pattern), path) <==> Glob(pattern, path, true) {
        CompiledIsGlob(pattern, path);
        LinesDoNotMatter(pattern, path);
      }
    } else {
      TwoStars(path);
      CompiledIsGlob("**", path);
      assert !(Accepts(Compile("**"), path) <==> Glob("**", path, true));
    }
  }

  function Slashes(s: string): nat { if s == "" then 0 else (if s[0] == '/' then 1 else 0) + Slashes(s[1..]) }

  predicate HasTwoStars(pattern: string) { exists i :: 0 <= i < |pattern| - 1 && pattern[i] == pattern[i + 1] == '*' }

  lemma StarsInside(pattern: string)
    ensures "**" <= pattern ==> HasTwoStars(pattern)
    ensures pattern != "" && HasTwoStars(pattern[1..]) ==> HasTwoStars(pattern)
  {
    if "**" <= pattern { assert pattern[0] == pattern[0 + 1] == '*'; }
    if pattern != "" && HasTwoStars(pattern[1..]) {
      var i :| 0 <= i < |pattern[1..]| - 1 && pattern[1..][i] == pattern[1..][i + 1] == '*';
      assert pattern[i + 1] == pattern[i + 1 + 1] == '*';
    }
  }

  /** Without `**`, a match keeps the number of directories. */
  lemma {:induction false} SameDepth(pattern: string, path: string)
    requires !HasTwoStars(pattern) && Glob(pattern, path, true)
    ensures Slashes(path) == Slashes(pattern)
    decreases |pattern| + |path|
  {
    if pattern != "" {
      StarsInside(pattern);
      if pattern[0] == '*' {
        if Glob(pattern[1..], path, true) { SameDepth(pattern[1..], path); } else { SameDepth(pattern, path[1..]); }
      } else {
        SameDepth(pattern[1..], path[1..]);
      }
    }
  }
}
