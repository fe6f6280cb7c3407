/** Which registered project the command line works on: the nearest one at or above the working directory. */
module ProjectResolution {
  import opened Prelude
  import opened Text

  /** A project as the daemon lists it; a missing path reads as the empty text. */
  datatype Project = Project(id: Option<string>, path: string)

  predicate HasId(p: Project) { p.id.Some? && p.id.value != "" }

  /** `rstrip("/")`. */
  function Trim(path: string): (r: string)
    ensures r <= path && (r != "" ==> r[|r| - 1] != '/')
    ensures forall i | |r| <= i < |path| :: path[i] == '/'
  {
    if path != "" && path[|path| - 1] == '/' then Trim(path[..|path| - 1]) else path
  }

  /** The test on the texts. */
  predicate Contains(path: string, cwd: string) { cwd == path || path + "/" <= cwd }

  /** The test of the loop. */
  predicate IsCandidate(p: Project, cwd: string) {
    Trim(p.path) != "" && Contains(Trim(p.path), cwd)
  }

  // ---------------------------------------------------------------------------------------
  // Paths as lists of names
  // ---------------------------------------------------------------------------------------

  /** The names of a path, split at every slash. */
  function Names(path: string): (names: seq<string>)
    ensures names != []
  {
    Split(path, '/')
  }

  /** The text test holds exactly when the names of one path begin the names of the other: a project whose name
      merely begins another name is no ancestor. */
  lemma {:induction false} AncestorByNames(path: string, cwd: string)
    ensures Contains(path, cwd) <==> Names(path) <= Names(cwd)
  {
    if path == "" {
      NamesOfEmpty(path, cwd);
    } else if cwd == "" {
      NamesOfEmpty(cwd, path);
    } else {
      var x, y := Names(path[1..]), Names(cwd[1..]);
      AncestorByNames(path[1..], cwd[1..]);
      FirstOfBoth(path, cwd);
      if path[0] == '/' && cwd[0] == '/' {
        Cons("", x, "", y);
      } else if path[0] == '/' || cwd[0] == '/' {
        assert Names(path)[0] != Names(cwd)[0];
      } else {
        HeadJoined(path[0], x, cwd[0], y);
      }
    }
  }

  lemma NamesOfEmpty(path: string, cwd: string)
    requires path == ""
    ensures Contains(path, cwd) <==> Names(path) <= Names(cwd)
    ensures Contains(cwd, path) <==> Names(cwd) <= Names(path)
  {
    assert Names(path) == [""];
    if cwd != "" {
      assert Names(cwd)[0] == "" <==> cwd[0] == '/';
      assert |Names(cwd)| > 1 || Names(cwd)[0] != "";
    }
  }

  lemma Cons<T>(a: T, x: seq<T>, b: T, y: seq<T>)
    ensures [a] + x <= [b] + y <==> a == b && x <= y
  {
    var u, v := [a] + x, [b] + y;
    assert u[1..] == x && v[1..] == y;
    if u <= v {
      assert u[0] == v[0];
      assert x == v[1..][..|x|];
    }
  }

  lemma FirstOfBoth(path: string, cwd: string)
    requires path != "" && cwd != ""
    ensures Contains(path, cwd) <==> path[0] == cwd[0] && Contains(path[1..], cwd[1..])
  {
    assert path == [path[0]] + path[1..] && cwd == [cwd[0]] + cwd[1..];
    assert path + "/" == [path[0]] + (path[1..] + "/");
    Cons(path[0], path[1..] + "/", cwd[0], cwd[1..]);
  }

  lemma HeadJoined(a: char, x: seq<string>, b: char, y: seq<string>)
    requires x != [] && y != []
    ensures [[a] + x[0]] + x[1..] <= [[b] + y[0]] + y[1..] <==> a == b && x <= y
  {
    Cons([a] + x[0], x[1..], [b] + y[0], y[1..]);
    Cons(x[0], x[1..], y[0], y[1..]);
    assert x == [x[0]] + x[1..] && y == [y[0]] + y[1..];
    if [a] + x[0] == [b] + y[0] {
      assert ([a] + x[0])[0] == ([b] + y[0])[0];
      assert ([a] + x[0])[1..] == ([b] + y[0])[1..];
    }
  }

  /** Of two ancestors of the same directory the shorter one is an ancestor of the longer one. */
  lemma ShorterContains(a: string, b: string, cwd: string)
    requires Contains(a, cwd) && Contains(b, cwd) && |a| <= |b|
    ensures Contains(a, b) && (|a| == |b| ==> a == b)
  {
    assert a == cwd[..|a|] && b == cwd[..|b|];
    if |a| < |b| {
      assert a + "/" == cwd[..|a| + 1] == b[..|a| + 1];
    }
  }

  lemma ContainedIsDeeper(a: string, b: string)
    requires Contains(a, b) && a != b
    ensures |Names(a)| < |Names(b)|
  {
    AncestorByNames(a, b);
    AncestorByNames(b, a);
    assert |a| < |b|;
    assert !Contains(b, a);
  }

  /** A longer ancestor of the same directory is a deeper one. */
  lemma LongerIsDeeper(a: string, b: string, cwd: string)
    requires Contains(a, cwd) && Contains(b, cwd) && |a| <= |b|
    ensures |Names(a)| <= |Names(b)| && (|Names(a)| == |Names(b)| <==> a == b)
  {
    ShorterContains(a, b, cwd);
    if a != b {
      ContainedIsDeeper(a, b);
    }
  }

  // ---------------------------------------------------------------------------------------
  // The search
  // ---------------------------------------------------------------------------------------

  /** The first among the candidates with the longest path, of the first `n` projects. */
  ghost predicate IsBestOf(projects: seq<Project>, n: nat, cwd: string, i: nat)
    requires n <= |projects|
  {
    && i < n && IsCandidate(projects[i], cwd)
    && (forall j | 0 <= j < n && IsCandidate(projects[j], cwd) :: |Trim(projects[j].path)| <= |Trim(projects[i].path)|)
    && (forall j | 0 <= j < i && IsCandidate(projects[j], cwd) :: |Trim(projects[j].path)| < |Trim(projects[i].path)|)
  }

  ghost predicate IsBest(projects: seq<Project>, cwd: string, i: nat) { IsBestOf(projects, |projects|, cwd, i) }

  /** The candidate loop. */
  method FindBest(projects: seq<Project>, cwd: string) returns (best: Option<nat>)
    ensures best.None? <==> forall j | 0 <= j < |projects| :: !IsCandidate(projects[j], cwd)
    ensures best.Some? ==> IsBest(projects, cwd, best.value)
  {
    best := None;
    var bestLen := -1;
    for k := 0 to |projects|
      invariant best.None? ==> bestLen == -1 && forall j | 0 <= j < k :: !IsCandidate(projects[j], cwd)
      invariant best.Some? ==> IsBestOf(projects, k, cwd, best.value) && bestLen == |Trim(projects[best.value].path)|
    {
      var path := Trim(projects[k].path);
      if path != "" && Contains(path, cwd) && |path| > bestLen {
        best, bestLen := Some(k), |path|;
      }
    }
  }

  /** The end of `_resolve_project` over a listed set of projects: None is the exit with an error. */
  method ResolveProject(projects: seq<Project>, cwd: string, auto: bool) returns (id: Option<string>)
    ensures Resolves(projects, cwd, auto, id)
    ensures id.Some? ==> id.value != "" && exists p :: p in projects && p.id == id
  {
    if projects == [] {
      return None;
    }
    if auto {
      var best := FindBest(projects, cwd);
      if best.Some? && HasId(projects[best.value]) {
        return projects[best.value].id;
      }
    }
    if |projects| == 1 && HasId(projects[0]) {
      return projects[0].id;
    }
    return None;
  }

  /** The id of the best candidate, else the id of the only project, else nothing. */
  ghost predicate Resolves(projects: seq<Project>, cwd: string, auto: bool, id: Option<string>) {
    if auto && exists i: nat :: IsBest(projects, cwd, i) && HasId(projects[i]) then
      exists i: nat :: IsBest(projects, cwd, i) && HasId(projects[i]) && id == projects[i].id
    else if |projects| == 1 && HasId(projects[0]) then id == projects[0].id
    else id == None
  }

  // ---------------------------------------------------------------------------------------
  // The nearest project
  // ---------------------------------------------------------------------------------------

  /** A project at or above the working directory, by names, and not registered at the root. */
  ghost predicate AtOrAbove(p: Project, cwd: string) {
    Trim(p.path) != "" && Names(Trim(p.path)) <= Names(cwd)
  }

  lemma CandidatesAreAncestors(p: Project, cwd: string)
    ensures IsCandidate(p, cwd) <==> AtOrAbove(p, cwd)
  {
    AncestorByNames(Trim(p.path), cwd);
  }

  lemma OneBest(projects: seq<Project>, cwd: string, i: nat, j: nat)
    requires IsBest(projects, cwd, i) && IsBest(projects, cwd, j)
    ensures i == j
  {
  }

  /** No project is deeper than the best candidate, and all as deep have its path. */
  lemma BestIsNearest(projects: seq<Project>, cwd: string, i: nat)
    requires IsBest(projects, cwd, i)
    ensures AtOrAbove(projects[i], cwd)
    ensures forall p | p in projects && AtOrAbove(p, cwd) ::
              && |Names(Trim(p.path))| <= |Names(Trim(projects[i].path))|
              && (|Names(Trim(p.path))| == |Names(Trim(projects[i].path))| ==> Trim(p.path) == Trim(projects[i].path))
  {
    CandidatesAreAncestors(projects[i], cwd);
    forall p | p in projects && AtOrAbove(p, cwd)
      ensures |Names(Trim(p.path))| <= |Names(Trim(projects[i].path))|
      ensures |Names(Trim(p.path))| == |Names(Trim(projects[i].path))| ==> Trim(p.path) == Trim(projects[i].path)
    {
      CandidatesAreAncestors(p, cwd);
      LongerIsDeeper(Trim(p.path), Trim(projects[i].path), cwd);
    }
  }

  predicate IsLonger(p: Project, q: Project, cwd: string) {
    IsCandidate(p, cwd) && |Trim(p.path)| > |Trim(q.path)|
  }

  lemma BestAfterOneMore(projects: seq<Project>, n: nat, cwd: string, i: nat)
    requires 0 < n <= |projects| && IsBestOf(projects, n - 1, cwd, i)
    ensures IsBestOf(projects, n, cwd, if IsLonger(projects[n - 1], projects[i], cwd) then n - 1 else i)
  {
  }

  lemma {:induction false} SomeBest(projects: seq<Project>, n: nat, cwd: string, k: nat) returns (i: nat)
    requires k < n <= |projects| && IsCandidate(projects[k], cwd)
    ensures IsBestOf(projects, n, cwd, i)
  {
    if j: nat :| j < n - 1 && IsCandidate(projects[j], cwd) {
      i := SomeBest(projects, n - 1, cwd, j);
      BestAfterOneMore(projects, n, cwd, i);
      if IsLonger(projects[n - 1], projects[i], cwd) {
        i := n - 1;
      }
    } else {
      i := n - 1;
      OnlyCandidate(projects, n, cwd, k);
    }
  }

  lemma OnlyCandidate(projects: seq<Project>, n: nat, cwd: string, k: nat)
    requires k < n <= |projects| && IsCandidate(projects[k], cwd)
    requires forall j: nat | j < n - 1 :: !IsCandidate(projects[j], cwd)
    ensures IsBestOf(projects, n, cwd, n - 1)
  {
  }

  /** Where some project with an id lies at or above the working directory, the search names a project exactly
      when the first of the nearest ones has an id, and then it names that one. */
  lemma NamesTheNearestIff(projects: seq<Project>, cwd: string, id: Option<string>)
    requires Resolves(projects, cwd, true, id)
    requires exists p :: p in projects && HasId(p) && AtOrAbove(p, cwd)
    ensures exists i: nat ::
            && IsBest(projects, cwd, i) && (id.Some? ==> id == projects[i].id)
            && (id.None? <==> projects[i].id == None || projects[i].id == Some(""))
  {
    var p :| p in projects && HasId(p) && AtOrAbove(p, cwd);
    CandidatesAreAncestors(p, cwd);
    var k: nat :| k < |projects| && projects[k] == p;
    var i := SomeBest(projects, |projects|, cwd, k);
    forall j: nat | IsBest(projects, cwd, j) ensures j == i {
      OneBest(projects, cwd, i, j);
    }
    NamedByBest(projects, cwd, id, i, p);
  }

  lemma NamedByBest(projects: seq<Project>, cwd: string, id: Option<string>, i: nat, p: Project)
    requires Resolves(projects, cwd, true, id) && IsBest(projects, cwd, i)
    requires forall j: nat | IsBest(projects, cwd, j) :: j == i
    requires p in projects && HasId(p)
    ensures id.Some? ==> id == projects[i].id
    ensures id.None? <==> projects[i].id == None || projects[i].id == Some("")
  {
  }

  /** A project registered at the root is above everything but is never a candidate. */
  lemma RootIsNeverChosen(p: Project, cwd: string)
    requires p.path == "/"
    ensures !IsCandidate(p, cwd)
  {
    assert p.path[..0] == "";
  }
}
