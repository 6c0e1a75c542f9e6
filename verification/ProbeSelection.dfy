/** The choice of a probe: by name, by changed paths, or as a fallback. */
module ProbeSelection {
  import opened Basics
  import opened Globs
  import opened PythonText

  datatype Probe = Probe(name: string, changes: seq<string>, fallback: bool, cost: int, order: int)

  datatype Source = Explicit | ChangedPath | Fallback

  datatype Selection = Selection(probe: Option<Probe>, source: Source, changedPaths: seq<string>,
    candidateNames: seq<string>)

  datatype ConfigProblem = UnknownProbe(name: string)

  predicate PathMatches(path: string, pattern: string) { Accepts(Compile(pattern), path) }

  predicate Changed(probe: Probe, paths: seq<string>) {
    exists i, j :: 0 <= i < |paths| && 0 <= j < |probe.changes| && PathMatches(paths[i], probe.changes[j])
  }

  /** Whether a probe is a candidate: by its patterns, or as a fallback when nothing is known to have changed. */
  predicate Candidate(probe: Probe, paths: seq<string>) {
    if paths != [] then Changed(probe, paths) else probe.fallback
  }

  function Candidates(probes: seq<Probe>, paths: seq<string>): seq<Probe> {
    if probes == [] then []
    else (if Candidate(probes[0], paths) then [probes[0]] else []) + Candidates(probes[1..], paths)
  }

  // ---------- order ----------

  /** The order of the keys (cost, order, name). */
  predicate Le(a: Probe, b: Probe) {
    a.cost < b.cost || (a.cost == b.cost && (a.order < b.order || (a.order == b.order && StrLeq(a.name, b.name))))
  }

  /** Cheaper, or as cheap and listed earlier, or both alike and not behind by name. */
  ghost predicate NotAfter(a: Probe, b: Probe) {
    && a.cost <= b.cost && (a.cost == b.cost ==> a.order <= b.order)
    && (a.cost == b.cost && a.order == b.order ==> a.name == b.name || Before(a.name, b.name))
  }

  lemma LeIsNotAfter(a: Probe, b: Probe)
    ensures Le(a, b) <==> NotAfter(a, b)
  {
    hide StrLeq, Before;
    StrLeqIsBefore(a.name, b.name);
  }

  function Insert(p: Probe, sorted: seq<Probe>): seq<Probe> {
    if sorted == [] || !Le(sorted[0], p) then [p] + sorted else [sorted[0]] + Insert(p, sorted[1..])
  }

  /** Stable sorting by key. */
  function Sorted(probes: seq<Probe>): seq<Probe> {
    if probes == [] then [] else Insert(probes[|probes| - 1], Sorted(probes[..|probes| - 1]))
  }

  predicate Ascending(probes: seq<Probe>) { forall i, j :: 0 <= i < j < |probes| ==> Le(probes[i], probes[j]) }

  function Names(probes: seq<Probe>): (r: seq<string>)
    ensures |r| == |probes| && forall i :: 0 <= i < |r| ==> r[i] == probes[i].name
  {
    seq(|probes|, i requires 0 <= i < |probes| => probes[i].name)
  }

  function Named(probes: seq<Probe>, name: string): seq<Probe> {
    if probes == [] then [] else (if probes[0].name == name then [probes[0]] else []) + Named(probes[1..], name)
  }

  function SelectProbe(
    probes: seq<Probe>, changed: seq<string>, explicit: Option<string>): Result<Selection, ConfigProblem>
  {
    var paths := Unique(changed);
    if explicit.Some? then
      var matches := Named(probes, explicit.value);
      if matches == [] then Err(UnknownProbe(explicit.value))
      else Ok(Selection(Some(matches[0]), Explicit, paths, [matches[0].name]))
    else
      var ordered := Sorted(Candidates(probes, paths));
      Ok(Selection(if ordered == [] then None else Some(ordered[0]), if paths != [] then ChangedPath else Fallback,
        paths, Names(ordered)))
  }

  // ---------- what is selected ----------

  lemma LeTotal(a: Probe, b: Probe)
    ensures Le(a, b) || Le(b, a)
  {
    StrLeqOrder(a.name, b.name, a.name);
  }

  lemma LeTransitive(a: Probe, b: Probe, c: Probe)
    requires Le(a, b) && Le(b, c)
    ensures Le(a, c)
  {
    hide StrLeq;
    if a.cost == b.cost == c.cost && a.order == b.order == c.order { StrLeqOrder(a.name, b.name, c.name); }
  }

  lemma {:induction false} InsertKeeps(p: Probe, sorted: seq<Probe>)
    requires Ascending(sorted)
    ensures Ascending(Insert(p, sorted)) && multiset(Insert(p, sorted)) == multiset(sorted) + multiset{p}
  {
    hide Le;
    if sorted == [] {
    } else if !Le(sorted[0], p) {
      LeTotal(sorted[0], p);
      forall i | 0 <= i < |sorted| ensures Le(p, sorted[i]) {
        if i > 0 { LeTransitive(p, sorted[0], sorted[i]); }
      }
    } else {
      var rest := Insert(p, sorted[1..]);
      InsertKeeps(p, sorted[1..]);
      assert sorted == [sorted[0]] + sorted[1..];
      forall i | 0 <= i < |rest| ensures Le(sorted[0], rest[i]) {
        assert rest[i] in multiset(rest);
        if rest[i] != p {
          assert rest[i] in multiset(sorted[1..]);
          var k :| 0 <= k < |sorted[1..]| && sorted[1..][k] == rest[i];
          assert Le(sorted[0], sorted[k + 1]);
        }
      }
    }
  }

  /** Sorting gives an ascending rearrangement. */
  lemma {:induction false} SortedKeeps(probes: seq<Probe>)
    ensures Ascending(Sorted(probes)) && multiset(Sorted(probes)) == multiset(probes)
  {
    if probes != [] {
      var n := |probes| - 1;
      SortedKeeps(probes[..n]);
      InsertKeeps(probes[n], Sorted(probes[..n]));
      assert probes == probes[..n] + [probes[n]];
    }
  }

  lemma {:induction false} CandidatesAre(probes: seq<Probe>, paths: seq<string>, p: Probe)
    ensures p in Candidates(probes, paths) <==> p in probes && Candidate(p, paths)
  {
    hide Candidate;
    if probes != [] { CandidatesAre(probes[1..], paths, p); }
  }

  /** Without an explicit name, the selected probe is the least candidate, there is one iff any probe is a candidate,
      and the names listed are those of all candidates in key order. */
  lemma SelectsLeast(probes: seq<Probe>, changed: seq<string>)
    ensures SelectProbe(probes, changed, None).Ok?
    ensures var s := SelectProbe(probes, changed, None).value;
            && (s.probe.None? <==> forall p :: p in probes ==> !Candidate(p, s.changedPaths))
            && (s.probe.Some? ==>
                  && s.probe.value in probes && Candidate(s.probe.value, s.changedPaths)
                  && forall p :: p in probes && Candidate(p, s.changedPaths) ==> NotAfter(s.probe.value, p))
            && s.source == (if changed != [] then ChangedPath else Fallback)
            && exists ordered ::
                 && (forall i, j :: 0 <= i < j < |ordered| ==> NotAfter(ordered[i], ordered[j]))
                 && multiset(ordered) == multiset(Candidates(probes, s.changedPaths))
                 && s.candidateNames == Names(ordered)
  {
    hide Candidate, Le, Names, NotAfter;
    UniqueHolds(changed);
    var paths := Unique(changed);
    var ordered := Sorted(Candidates(probes, paths));
    SortedKeeps(Candidates(probes, paths));
    forall p ensures p in ordered <==> p in probes && Candidate(p, paths) {
      CandidatesAre(probes, paths, p);
      assert p in ordered <==> p in multiset(ordered);
    }
    forall i, j | 0 <= i < j < |ordered| ensures NotAfter(ordered[i], ordered[j]) {
      LeIsNotAfter(ordered[i], ordered[j]);
    }
    if ordered != [] {
      assert ordered[0] in ordered;
      forall p | p in probes && Candidate(p, paths) ensures NotAfter(ordered[0], p) {
        var i :| 0 <= i < |ordered| && ordered[i] == p;
        if i == 0 { LeTotal(p, p); LeIsNotAfter(p, p); }
      }
    }
  }

  /**
   For paths without newlines, the candidates by path are those with a pattern that matches one of
   them as written.
   */
  lemma CandidatesByGlob(probe: Probe, paths: seq<string>)
    requires paths != [] && forall i :: 0 <= i < |paths| ==> Without(paths[i], '\n')
    ensures Candidate(probe, paths) <==>
              exists i, j :: 0 <= i < |paths| && 0 <= j < |probe.changes| && Glob(probe.changes[j], paths[i], true)
  {
    hide Accepts, Glob, Compile;
    forall i, j | 0 <= i < |paths| && 0 <= j < |probe.changes|
      ensures PathMatches(paths[i], probe.changes[j]) <==> Glob(probe.changes[j], paths[i], true)
    {
      CompiledIsGlob(probe.changes[j], paths[i]);
      LinesDoNotMatter(probe.changes[j], paths[i]);
    }
  }

  /** An explicit name selects the first probe of that name whatever has changed, and fails iff there is none. */
  lemma {:induction false} SelectsExplicit(probes: seq<Probe>, changed: seq<string>, name: string)
    ensures var r := SelectProbe(probes, changed, Some(name));
            && (r.Err? <==> forall p :: p in probes ==> p.name != name)
            && (r.Err? ==> r.error == UnknownProbe(name))
            && (r.Ok? ==> r.value.source == Explicit && r.value.candidateNames == [name]
                          && exists i :: 0 <= i < |probes| && r.value.probe == Some(probes[i]) && probes[i].name == name
                                         && forall k :: 0 <= k < i ==> probes[k].name != name)
  {
    NamedAre(probes, name);
    NamedFirst(probes, name);
    var matches := Named(probes, name);
    if matches != [] { assert matches[0] in matches; }
  }

  lemma {:induction false} NamedFirst(probes: seq<Probe>, name: string)
    ensures Named(probes, name) != [] ==>
              exists i :: 0 <= i < |probes| && Named(probes, name)[0] == probes[i] && probes[i].name == name
                          && forall k :: 0 <= k < i ==> probes[k].name != name
  {
    if probes != [] && probes[0].name != name && Named(probes, name) != [] {
      NamedFirst(probes[1..], name);
      var i :| 0 <= i < |probes[1..]| && Named(probes[1..], name)[0] == probes[1..][i] && probes[1..][i].name == name
        && forall k :: 0 <= k < i ==> probes[1..][k].name != name;
      assert probes[i + 1] == probes[1..][i];
      forall k | 0 <= k < i + 1 ensures probes[k].name != name { if k > 0 { assert probes[k] == probes[1..][k - 1]; } }
    }
  }

  lemma {:induction false} NamedAre(probes: seq<Probe>, name: string)
    ensures forall p :: p in Named(probes, name) <==> p in probes && p.name == name
  {
    if probes != [] { NamedAre(probes[1..], name); }
  }
}
