/** The public mirror builder: a directory walk that prunes early, the classification of the files it
    meets, and the gate in front of the copy. */
module MirrorWalk {
  import opened Orders

  /** The fixed tables, and the glob and content matchers as functions of the path. */
  datatype Rules = Rules(
    allow: seq<string>,
    pruneNames: set<string>,
    prunePaths: set<string>,
    denied: string -> seq<string>,
    hits: string -> seq<string>,
    exempt: set<string>,
    self: string)

  /** No allow entry is written with a backslash. */
  ghost predicate Posix(rules: Rules) {
    forall a | a in rules.allow :: '\\' !in a
  }

  // ---------------------------------------------------------------------------------------
  // Path tests
  // ---------------------------------------------------------------------------------------

  /** `rel.replace("\\", "/")`. */
  function Norm(s: string): (r: string)
    ensures |r| == |s|
    ensures forall i | 0 <= i < |s| :: r[i] == (if s[i] == '\\' then '/' else s[i])
  {
    if s == "" then "" else [if s[0] == '\\' then '/' else s[0]] + Norm(s[1..])
  }

  predicate Covers(a: string, path: string) { path == a || a + "/" <= path }

  /** `path_allowed`. */
  predicate Allowed(rules: Rules, rel: string) {
    exists a | a in rules.allow :: Covers(a, Norm(rel))
  }

  /** `_is_ancestor_of_allowed`: the path is compared as it is written. */
  predicate IsAncestor(rules: Rules, rel: string) {
    exists a | a in rules.allow :: Covers(rel, a)
  }

  function BaseName(s: string): string {
    if '/' in s then BaseName(s[1..]) else s
  }

  /** `_under_allowed`. */
  predicate UnderAllowed(rules: Rules, rel: string) {
    exists a | a in rules.allow :: '.' !in BaseName(a) && a + "/" <= Norm(rel)
  }

  /** The last pruning test. */
  predicate Keeps(rules: Rules, rel: string) {
    Allowed(rules, rel) || IsAncestor(rules, rel) || UnderAllowed(rules, rel)
  }

  function Child(relDir: string, name: string): string {
    if relDir != "." then relDir + "/" + name else name
  }

  /** The two hard pruning tests. */
  predicate HardKeeps(rules: Rules, relDir: string, name: string) {
    name !in rules.pruneNames && relDir + "/" + name !in rules.prunePaths && relDir !in rules.prunePaths
  }

  /** A directory that only reads as an ancestor of an allowed path once its backslashes are replaced. */
  predicate Misread(rules: Rules, dir: string) {
    IsAncestor(rules, Norm(dir)) && !IsAncestor(rules, dir) && !Allowed(rules, dir)
  }

  lemma NormConcat(a: string, b: string)
    ensures Norm(a + b) == Norm(a) + Norm(b)
  {
    var x, y := Norm(a + b), Norm(a) + Norm(b);
    assert |x| == |y| && forall i | 0 <= i < |x| :: x[i] == y[i];
  }

  lemma NormChild(dir: string, rest: string)
    ensures Norm(dir + "/" + rest) == Norm(dir) + "/" + Norm(rest)
  {
    NormConcat(dir + "/", rest);
    NormConcat(dir, "/");
  }

  lemma NormPlain(s: string)
    requires '\\' !in s
    ensures Norm(s) == s
  {
    assert forall i | 0 <= i < |s| :: s[i] in s && Norm(s)[i] == s[i];
  }

  /** An allow entry that covers a path below a directory covers the directory or lies below it. */
  lemma CoversBelow(a: string, dir: string, rest: string)
    requires Covers(a, dir + "/" + rest)
    ensures Covers(a, dir) || Covers(dir, a)
  {
    var path := dir + "/" + rest;
    if |a| < |dir| {
      assert a + "/" == path[..|a| + 1] == dir[..|a| + 1];
    } else if |a| == |dir| {
      assert a == path[..|a|] == dir;
    } else {
      assert a == path[..|a|];
      assert dir + "/" == path[..|dir| + 1] == a[..|dir| + 1];
    }
  }

  lemma KeepIsComplete(rules: Rules, dir: string, rest: string)
    requires Allowed(rules, dir + "/" + rest) && !Misread(rules, dir)
    ensures Keeps(rules, dir)
  {
    NormChild(dir, rest);
    var a :| a in rules.allow && Covers(a, Norm(dir + "/" + rest));
    CoversBelow(a, Norm(dir), Norm(rest));
  }

  lemma StrictlyBelow(dir: string, a: string)
    requires Covers(dir, a) && a != dir
    ensures |dir| < |a| && a == dir + "/" + a[|dir| + 1..]
  {
  }

  lemma PlainSuffix(a: string, n: nat)
    requires n <= |a| && '\\' !in a
    ensures Norm(a[n..]) == a[n..]
  {
    NormPlain(a[n..]);
  }

  lemma MisreadLosesAPath(rules: Rules, dir: string) returns (rest: string)
    requires Posix(rules) && Misread(rules, dir)
    ensures Allowed(rules, dir + "/" + rest) && !Keeps(rules, dir)
  {
    var a :| a in rules.allow && Covers(Norm(dir), a);
    assert !Covers(a, Norm(dir));
    StrictlyBelow(Norm(dir), a);
    rest := a[|dir| + 1..];
    PlainSuffix(a, |dir| + 1);
    NormChild(dir, rest);
    assert Covers(a, Norm(dir + "/" + rest));
  }

  /** The keep test passes every directory with an allowed path below it, exactly unless it misreads the
      directory's backslashes. */
  lemma KeepTestIsCompleteIff(rules: Rules, dir: string)
    requires Posix(rules)
    ensures (forall rest :: Allowed(rules, dir + "/" + rest) ==> Keeps(rules, dir)) <==> !Misread(rules, dir)
  {
    if Misread(rules, dir) {
      var rest := MisreadLosesAPath(rules, dir);
    } else {
      forall rest | Allowed(rules, dir + "/" + rest) ensures Keeps(rules, dir) {
        KeepIsComplete(rules, dir, rest);
      }
    }
  }

  // ---------------------------------------------------------------------------------------
  // Classification
  // ---------------------------------------------------------------------------------------

  datatype Class = Ignored | Excluded | Flagged | Included

  /** The tests on one file, in order. */
  function ClassOf(rules: Rules, rel: string): Class {
    if !Allowed(rules, rel) then Ignored
    else if rules.denied(rel) != [] then Excluded
    else if rel == rules.self || rel in rules.exempt then Included
    else if rules.hits(rel) != [] then Flagged
    else Included
  }

  function OfClass(rules: Rules, paths: seq<string>, c: Class): seq<string> {
    if paths == [] then []
    else
      var before, last := OfClass(rules, paths[..|paths| - 1], c), paths[|paths| - 1];
      if ClassOf(rules, last) == c then before + [last] else before
  }

  lemma {:induction false} OfClassAppend(rules: Rules, a: seq<string>, b: seq<string>, c: Class)
    ensures OfClass(rules, a + b, c) == OfClass(rules, a, c) + OfClass(rules, b, c)
  {
    if b == [] {
      assert a + b == a;
    } else {
      assert (a + b)[..|a + b| - 1] == a + b[..|b| - 1];
      OfClassAppend(rules, a, b[..|b| - 1], c);
    }
  }

  lemma {:induction false} OfClassMembers(rules: Rules, paths: seq<string>, c: Class)
    ensures forall p :: p in OfClass(rules, paths, c) <==> p in paths && ClassOf(rules, p) == c
  {
    if paths != [] {
      OfClassMembers(rules, paths[..|paths| - 1], c);
      assert paths == paths[..|paths| - 1] + [paths[|paths| - 1]];
    }
  }

  /** No path is in two classes, and the classes together hold every path exactly as often as it was met. */
  lemma {:induction false} ClassesPartition(rules: Rules, paths: seq<string>)
    ensures multiset(paths) == multiset(OfClass(rules, paths, Ignored)) + multiset(OfClass(rules, paths, Excluded))
                             + multiset(OfClass(rules, paths, Flagged)) + multiset(OfClass(rules, paths, Included))
    ensures forall c, d, p :: c != d && p in OfClass(rules, paths, c) ==> p !in OfClass(rules, paths, d)
  {
    if paths != [] {
      ClassesPartition(rules, paths[..|paths| - 1]);
      assert paths == paths[..|paths| - 1] + [paths[|paths| - 1]];
    }
    forall c: Class ensures forall p :: p in OfClass(rules, paths, c) <==> p in paths && ClassOf(rules, p) == c {
      OfClassMembers(rules, paths, c);
    }
  }

  // ---------------------------------------------------------------------------------------
  // The tree and its paths
  // ---------------------------------------------------------------------------------------

  datatype Folder = Folder(files: seq<string>, dirs: Listing)
  datatype Listing = Done | Entry(name: string, folder: Folder, rest: Listing)

  function FilePaths(relDir: string, files: seq<string>): seq<string> {
    if files == [] then []
    else FilePaths(relDir, files[..|files| - 1]) + [Child(relDir, files[|files| - 1])]
  }

  /** Whether the walk enters a directory: with the hard pruning only, or with the keep test as well. */
  predicate Enters(rules: Rules, relDir: string, name: string, fast: bool) {
    HardKeeps(rules, relDir, name) && (fast ==> Keeps(rules, Child(relDir, name)))
  }

  function Paths(rules: Rules, relDir: string, folder: Folder, fast: bool): seq<string>
    decreases folder
  {
    FilePaths(relDir, folder.files) + PathsIn(rules, relDir, folder.dirs, fast)
  }

  function PathsIn(rules: Rules, relDir: string, dirs: Listing, fast: bool): seq<string>
    decreases dirs
  {
    match dirs
    case Done => []
    case Entry(name, folder, rest) =>
      if Enters(rules, relDir, name, fast)
          then Paths(rules, Child(relDir, name), folder, fast) + PathsIn(rules, relDir, rest, fast)
      else PathsIn(rules, relDir, rest, fast)
  }

  /** No directory entry is called `.`. */
  predicate NoDots(dirs: Listing) {
    dirs.Entry? ==> dirs.name != "." && NoDots(dirs.folder.dirs) && NoDots(dirs.rest)
  }

  predicate NoneAllowed(rules: Rules, paths: seq<string>) {
    forall p | p in paths :: !Allowed(rules, p)
  }

  /** No allowed file lies, outside the hard-pruned directories, below a directory that the keep test misreads. */
  predicate Harmless(rules: Rules, relDir: string, dirs: Listing)
    decreases dirs
  {
    dirs.Entry? ==>
      && Harmless(rules, relDir, dirs.rest)
      && var child := Child(relDir, dirs.name);
         (HardKeeps(rules, relDir, dirs.name) ==>
            if Misread(rules, child) then NoneAllowed(rules, Paths(rules, child, dirs.folder, false))
            else Keeps(rules, child) ==> Harmless(rules, child, dirs.folder.dirs))
  }

  predicate Below(dir: string, path: string) { dir + "/" <= path }

  lemma {:induction false} FilesAreBelow(relDir: string, files: seq<string>)
    requires relDir != "."
    ensures forall p | p in FilePaths(relDir, files) :: Below(relDir, p)
  {
    if files != [] {
      FilesAreBelow(relDir, files[..|files| - 1]);
    }
  }

  /** Every path of a subtree starts with the name of its root. */
  lemma {:induction false} PathsAreBelow(rules: Rules, relDir: string, dirs: Listing, fast: bool)
    requires relDir != "." && NoDots(dirs)
    ensures forall p | p in PathsIn(rules, relDir, dirs, fast) :: Below(relDir, p)
    decreases dirs
  {
    if dirs.Entry? {
      PathsAreBelow(rules, relDir, dirs.rest, fast);
      var child := Child(relDir, dirs.name);
      assert child[|relDir|] == '/';
      PathsAreBelow(rules, child, dirs.folder.dirs, fast);
      FilesAreBelow(child, dirs.folder.files);
      forall p | p in Paths(rules, child, dirs.folder, fast) ensures Below(relDir, p) {
        assert Below(child, p);
        assert p[..|relDir| + 1] == child[..|relDir| + 1] == relDir + "/";
      }
    }
  }

  lemma {:induction false} OfClassNothing(rules: Rules, paths: seq<string>, c: Class)
    requires c != Ignored && NoneAllowed(rules, paths)
    ensures OfClass(rules, paths, c) == []
  {
    if paths != [] {
      OfClassNothing(rules, paths[..|paths| - 1], c);
    }
  }

  /** A directory that the keep test prunes without misreading it has no allowed file below it. */
  lemma PrunedHoldsNothing(rules: Rules, dir: string, folder: Folder)
    requires dir != "." && NoDots(folder.dirs) && !Misread(rules, dir) && !Keeps(rules, dir)
    ensures NoneAllowed(rules, Paths(rules, dir, folder, false))
  {
    PathsAreBelow(rules, dir, folder.dirs, false);
    FilesAreBelow(dir, folder.files);
    forall p | p in Paths(rules, dir, folder, false) ensures !Allowed(rules, p) {
      if Allowed(rules, p) {
        assert Below(dir, p);
        assert p == dir + "/" + p[|dir| + 1..];
        KeepIsComplete(rules, dir, p[|dir| + 1..]);
      }
    }
  }

  lemma UnderIsAllowed(rules: Rules, dir: string)
    ensures UnderAllowed(rules, dir) ==> Allowed(rules, dir)
  {
    if UnderAllowed(rules, dir) {
      var a :| a in rules.allow && '.' !in BaseName(a) && a + "/" <= Norm(dir);
      assert Covers(a, Norm(dir));
    }
  }

  lemma MisreadIsPruned(rules: Rules, dir: string)
    requires Misread(rules, dir)
    ensures !Keeps(rules, dir)
  {
    UnderIsAllowed(rules, dir);
  }

  lemma {:induction false} PrunedListing(rules: Rules, relDir: string, dirs: Listing, c: Class)
    requires c != Ignored && NoDots(dirs) && Harmless(rules, relDir, dirs)
    ensures OfClass(rules, PathsIn(rules, relDir, dirs, true), c)
            == OfClass(rules, PathsIn(rules, relDir, dirs, false), c)
    decreases dirs
  {
    if dirs.Entry? {
      PrunedListing(rules, relDir, dirs.rest, c);
      if HardKeeps(rules, relDir, dirs.name) {
        PrunedEntry(rules, relDir, dirs.name, dirs.folder, c);
        var child := Child(relDir, dirs.name);
        OfClassAppend(rules, Paths(rules, child, dirs.folder, true), PathsIn(rules, relDir, dirs.rest, true), c);
        OfClassAppend(rules, Paths(rules, child, dirs.folder, false), PathsIn(rules, relDir, dirs.rest, false), c);
      }
    }
  }

  lemma {:induction false} PrunedEntry(rules: Rules, relDir: string, name: string, folder: Folder, c: Class)
    requires c != Ignored && name != "." && NoDots(folder.dirs)
    requires var child := Child(relDir, name);
             if Misread(rules, child) then NoneAllowed(rules, Paths(rules, child, folder, false))
             else Keeps(rules, child) ==> Harmless(rules, child, folder.dirs)
    ensures OfClass(rules, Paths(rules, Child(relDir, name), folder, false), c)
         == (if Keeps(rules, Child(relDir, name))
             then OfClass(rules, Paths(rules, Child(relDir, name), folder, true), c) else [])
    decreases folder, 0
  {
    var child := Child(relDir, name);
    if Keeps(rules, child) {
      if Misread(rules, child) {
        MisreadIsPruned(rules, child);
      } else {
        PrunedListing(rules, child, folder.dirs, c);
        OfClassAppend(rules, FilePaths(child, folder.files), PathsIn(rules, child, folder.dirs, true), c);
        OfClassAppend(rules, FilePaths(child, folder.files), PathsIn(rules, child, folder.dirs, false), c);
      }
    } else {
      if !Misread(rules, child) {
        PrunedHoldsNothing(rules, child, folder);
      }
      OfClassNothing(rules, Paths(rules, child, folder, false), c);
    }
  }

  // ---------------------------------------------------------------------------------------
  // The converse: counting the allowed files
  // ---------------------------------------------------------------------------------------

  function CountAllowed(rules: Rules, paths: seq<string>): nat {
    if paths == [] then 0
    else CountAllowed(rules, paths[..|paths| - 1]) + (if Allowed(rules, paths[|paths| - 1]) then 1 else 0)
  }

  lemma {:induction false} CountAppend(rules: Rules, a: seq<string>, b: seq<string>)
    ensures CountAllowed(rules, a + b) == CountAllowed(rules, a) + CountAllowed(rules, b)
  {
    if b == [] {
      assert a + b == a;
    } else {
      assert (a + b)[..|a + b| - 1] == a + b[..|b| - 1];
      CountAppend(rules, a, b[..|b| - 1]);
    }
  }

  lemma {:induction false} CountNothing(rules: Rules, paths: seq<string>)
    ensures CountAllowed(rules, paths) == 0 <==> NoneAllowed(rules, paths)
  {
    if paths != [] {
      CountNothing(rules, paths[..|paths| - 1]);
      assert paths == paths[..|paths| - 1] + [paths[|paths| - 1]];
    }
  }

  lemma {:induction false} CountByClass(rules: Rules, paths: seq<string>)
    ensures CountAllowed(rules, paths)
         == |OfClass(rules, paths, Excluded)| + |OfClass(rules, paths, Flagged)| + |OfClass(rules, paths, Included)|
  {
    if paths != [] {
      CountByClass(rules, paths[..|paths| - 1]);
    }
  }

  /** The pruned walk never meets more allowed files than the plain filter, and as many only on a harmless tree. */
  lemma {:induction false} CountListing(rules: Rules, relDir: string, dirs: Listing)
    requires NoDots(dirs)
    ensures CountAllowed(rules, PathsIn(rules, relDir, dirs, true))
            <= CountAllowed(rules, PathsIn(rules, relDir, dirs, false))
    ensures CountAllowed(rules, PathsIn(rules, relDir, dirs, true))
            == CountAllowed(rules, PathsIn(rules, relDir, dirs, false))
        ==> Harmless(rules, relDir, dirs)
    decreases dirs
  {
    if dirs.Entry? {
      CountListing(rules, relDir, dirs.rest);
      if HardKeeps(rules, relDir, dirs.name) {
        var child := Child(relDir, dirs.name);
        CountEntry(rules, relDir, dirs.name, dirs.folder);
        CountAppend(rules, Paths(rules, child, dirs.folder, true), PathsIn(rules, relDir, dirs.rest, true));
        CountAppend(rules, Paths(rules, child, dirs.folder, false), PathsIn(rules, relDir, dirs.rest, false));
      }
    }
  }

  lemma {:induction false} CountEntry(rules: Rules, relDir: string, name: string, folder: Folder)
    requires name != "." && NoDots(folder.dirs)
    ensures var child := Child(relDir, name);
            var met := if Keeps(rules, child) then CountAllowed(rules, Paths(rules, child, folder, true)) else 0;
            && met <= CountAllowed(rules, Paths(rules, child, folder, false))
            && (met == CountAllowed(rules, Paths(rules, child, folder, false)) ==>
                  if Misread(rules, child) then NoneAllowed(rules, Paths(rules, child, folder, false))
                  else Keeps(rules, child) ==> Harmless(rules, child, folder.dirs))
    decreases folder, 0
  {
    var child := Child(relDir, name);
    if Misread(rules, child) {
      MisreadIsPruned(rules, child);
      CountNothing(rules, Paths(rules, child, folder, false));
    } else if Keeps(rules, child) {
      CountListing(rules, child, folder.dirs);
      CountAppend(rules, FilePaths(child, folder.files), PathsIn(rules, child, folder.dirs, true));
      CountAppend(rules, FilePaths(child, folder.files), PathsIn(rules, child, folder.dirs, false));
    }
  }

  /** On any other tree some class differs. */
  lemma MissedFile(rules: Rules, relDir: string, folder: Folder)
    requires NoDots(folder.dirs) && !Harmless(rules, relDir, folder.dirs)
    ensures exists c: Class ::
              c != Ignored
                  && OfClass(rules, Paths(rules, relDir, folder, true), c)
                      != OfClass(rules, Paths(rules, relDir, folder, false), c)
  {
    var files := FilePaths(relDir, folder.files);
    var fast, plain := Paths(rules, relDir, folder, true), Paths(rules, relDir, folder, false);
    CountListing(rules, relDir, folder.dirs);
    CountAppend(rules, files, PathsIn(rules, relDir, folder.dirs, true));
    CountAppend(rules, files, PathsIn(rules, relDir, folder.dirs, false));
    assert CountAllowed(rules, fast) < CountAllowed(rules, plain);
    CountByClass(rules, fast);
    CountByClass(rules, plain);
    assert || OfClass(rules, fast, Excluded) != OfClass(rules, plain, Excluded)
           || OfClass(rules, fast, Flagged) != OfClass(rules, plain, Flagged)
           || OfClass(rules, fast, Included) != OfClass(rules, plain, Included);
  }

  /** The pruned walk classifies exactly the files the plain filter classifies if and only if no allowed file lies
      below a misread directory. */
  lemma PrunedWalkIsPlainFilterIff(rules: Rules, relDir: string, folder: Folder)
    requires NoDots(folder.dirs)
    ensures (forall c: Class | c != Ignored ::
               OfClass(rules, Paths(rules, relDir, folder, true), c)
                   == OfClass(rules, Paths(rules, relDir, folder, false), c))
            <==> Harmless(rules, relDir, folder.dirs)
  {
    var files := FilePaths(relDir, folder.files);
    var fast, plain := PathsIn(rules, relDir, folder.dirs, true), PathsIn(rules, relDir, folder.dirs, false);
    if Harmless(rules, relDir, folder.dirs) {
      forall c: Class | c != Ignored
        ensures OfClass(rules, Paths(rules, relDir, folder, true), c)
                == OfClass(rules, Paths(rules, relDir, folder, false), c)
      {
        PrunedListing(rules, relDir, folder.dirs, c);
        OfClassAppend(rules, files, fast, c);
        OfClassAppend(rules, files, plain, c);
      }
    } else {
      MissedFile(rules, relDir, folder);
    }
  }

  // ---------------------------------------------------------------------------------------
  // Which directories are misread
  // ---------------------------------------------------------------------------------------

  /** A path with a backslash is no ancestor of an entry without one. */
  lemma BackslashIsNoAncestor(rules: Rules, dir: string)
    requires Posix(rules) && '\\' in dir
    ensures !IsAncestor(rules, dir)
  {
    var i :| 0 <= i < |dir| && dir[i] == '\\';
    forall a | a in rules.allow ensures !Covers(dir, a) {
      assert |dir| <= |a| ==> a[i] in a;
    }
  }

  lemma NormTwice(s: string)
    ensures Norm(Norm(s)) == Norm(s)
  {
    NormPlain(Norm(s));
  }

  /** A directory is misread exactly when its name holds a backslash and, with slashes instead, it lies above an
      allow entry without being allowed itself. */
  lemma MisreadIff(rules: Rules, dir: string)
    requires Posix(rules)
    ensures Misread(rules, dir) <==> '\\' in dir && IsAncestor(rules, Norm(dir)) && !Allowed(rules, Norm(dir))
  {
    NormTwice(dir);
    if '\\' in dir {
      BackslashIsNoAncestor(rules, dir);
    } else {
      NormPlain(dir);
    }
  }

  predicate NoBackslashes(dirs: Listing) {
    dirs.Entry? ==> '\\' !in dirs.name && NoBackslashes(dirs.folder.dirs) && NoBackslashes(dirs.rest)
  }

  /** A tree whose directory names hold no backslash is harmless. */
  lemma {:induction false} PlainNamesAreHarmless(rules: Rules, relDir: string, dirs: Listing)
    requires Posix(rules) && NoBackslashes(dirs) && '\\' !in relDir
    ensures Harmless(rules, relDir, dirs)
    decreases dirs
  {
    if dirs.Entry? {
      var child := Child(relDir, dirs.name);
      PlainNamesAreHarmless(rules, relDir, dirs.rest);
      PlainNamesAreHarmless(rules, child, dirs.folder.dirs);
      MisreadIff(rules, child);
    }
  }

  lemma NormBackslash(a: string, b: string)
    requires '\\' !in a && '\\' !in b
    ensures Norm(a + "\\" + b) == a + "/" + b
  {
    NormPlain(a);
    NormPlain(b);
    NormConcat(a + "\\", b);
    NormConcat(a, "\\");
  }

  /** An allow entry of three levels whose first two are not allowed themselves makes those two, joined by a
      backslash, a misread directory, whatever else is in the table. */
  lemma BackslashIsMisread(rules: Rules, a: string, b: string, c: string)
    requires Posix(rules) && a + "/" + b + "/" + c in rules.allow && !Allowed(rules, a + "/" + b)
    ensures Misread(rules, a + "\\" + b) && Allowed(rules, a + "\\" + b + "/" + c)
  {
    var dir, entry := a + "\\" + b, a + "/" + b + "/" + c;
    assert forall i | 0 <= i < |entry| :: entry[i] in entry;
    assert '\\' !in a by { assert forall i | 0 <= i < |a| :: a[i] == entry[i]; }
    assert '\\' !in b by { assert forall i | 0 <= i < |b| :: b[i] == entry[|a| + 1 + i]; }
    assert '\\' !in c by { assert forall i | 0 <= i < |c| :: c[i] == entry[|a| + |b| + 2 + i]; }
    NormBackslash(a, b);
    assert Norm(dir) + "/" == entry[..|dir| + 1];
    assert Covers(Norm(dir), entry);
    assert dir[|a|] == '\\';
    MisreadIff(rules, dir);
    NormChild(dir, c);
    NormPlain(c);
    assert Covers(entry, Norm(dir + "/" + c));
  }

  /** A tree of one such directory, met at the top, with one file: the plain filter allows the file, the walk never
      reaches it. */
  lemma BackslashTreeLosesAFile(rules: Rules, a: string, b: string, c: string)
    requires Posix(rules) && a + "/" + b + "/" + c in rules.allow && !Allowed(rules, a + "/" + b)
    requires HardKeeps(rules, ".", a + "\\" + b)
    ensures var dir := a + "\\" + b;
            var root := Folder([], Entry(dir, Folder([c], Done), Done));
            && Paths(rules, ".", root, false) == [dir + "/" + c] && Allowed(rules, dir + "/" + c)
            && Paths(rules, ".", root, true) == []
  {
    var dir, leaf := a + "\\" + b, Folder([c], Done);
    assert dir[|a|] == '\\' && dir != ".";
    BackslashIsMisread(rules, a, b, c);
    MisreadIsPruned(rules, dir);
    assert [c][..0] == [];
    assert FilePaths(dir, [c]) == [dir + "/" + c];
    assert Paths(rules, dir, leaf, false) == [dir + "/" + c];
    var dirs := Entry(dir, leaf, Done);
    assert PathsIn(rules, ".", dirs, false) == Paths(rules, dir, leaf, false) + PathsIn(rules, ".", Done, false);
    assert PathsIn(rules, ".", dirs, true) == PathsIn(rules, ".", Done, true);
  }

  // ---------------------------------------------------------------------------------------
  // The walk
  // ---------------------------------------------------------------------------------------

  /** A path with the globs or the content hits it was reported with. */
  type Tagged = (string, seq<string>)

  predicate ByPath(a: Tagged, b: Tagged) { TextLeq(a.0, b.0) }

  function Keys(s: seq<Tagged>): (r: seq<string>)
    ensures |r| == |s| && forall i | 0 <= i < |s| :: r[i] == s[i].0
  {
    if s == [] then [] else Keys(s[..|s| - 1]) + [s[|s| - 1].0]
  }

  lemma {:induction false} InsertByPath(s: seq<Tagged>, x: Tagged)
    ensures Keys(Insert(s, x, ByPath)) == Insert(Keys(s), x.0, TextLeq)
  {
    if s != [] && !ByPath(s[|s| - 1], x) {
      InsertByPath(s[..|s| - 1], x);
      assert Keys(s)[..|s| - 1] == Keys(s[..|s| - 1]);
    }
  }

  /** Sorting the reports by path sorts their paths. */
  lemma {:induction false} SortByPath(s: seq<Tagged>)
    ensures Keys(Sort(s, ByPath)) == Sort(Keys(s), TextLeq)
  {
    if s != [] {
      SortByPath(s[..|s| - 1]);
      InsertByPath(Sort(s[..|s| - 1], ByPath), s[|s| - 1]);
      assert Keys(s)[..|s| - 1] == Keys(s[..|s| - 1]);
    }
  }

  /** The three lists of the walk while they are filled. */
  datatype Lists = Lists(included: seq<string>, excluded: seq<Tagged>, flagged: seq<Tagged>)

  function PathsOfClass(l: Lists, c: Class): seq<string> {
    match c
    case Included => l.included
    case Excluded => Keys(l.excluded)
    case Flagged => Keys(l.flagged)
    case Ignored => []
  }

  /** Every report carries what the matcher says of its path. */
  ghost predicate Truthful(rules: Rules, l: Lists) {
    && (forall e | e in l.excluded :: e.1 == rules.denied(e.0) != [])
    && (forall e | e in l.flagged :: e.1 == rules.hits(e.0) != [])
  }

  /** The lists hold the classified paths of `paths`, in some order. */
  ghost predicate Holds(rules: Rules, l: Lists, paths: seq<string>) {
    Truthful(rules, l) && forall c: Class | c != Ignored ::
        multiset(PathsOfClass(l, c)) == multiset(OfClass(rules, paths, c))
  }

  /** The lists are the sorted classes of the given paths. */
  ghost predicate Reports(rules: Rules, l: Lists, paths: seq<string>) {
    forall c: Class | c != Ignored :: PathsOfClass(l, c) == Sort(OfClass(rules, paths, c), TextLeq)
  }

  /** How often a path stands in a list: as often as the walk met it, if its tests call for the list. */
  ghost predicate ListedIf(list: seq<string>, paths: seq<string>, p: string, called: bool) {
    multiset(list)[p] == if called then multiset(paths)[p] else 0
  }

  predicate Unchecked(rules: Rules, p: string) { p == rules.self || p in rules.exempt }

  /** The rules decide the list of every path: an allowed path with a denied pattern is excluded; of the other allowed
      paths, those with content hits are flagged unless they are exempt from the scan, and the rest is included. */
  ghost predicate Judged(rules: Rules, l: Lists, paths: seq<string>) {
    forall p ::
      && ListedIf(Keys(l.excluded), paths, p, Allowed(rules, p) && rules.denied(p) != [])
      && ListedIf(Keys(l.flagged), paths, p,
                  Allowed(rules, p) && rules.denied(p) == [] && !Unchecked(rules, p) && rules.hits(p) != [])
      && ListedIf(l.included, paths, p,
                  Allowed(rules, p) && rules.denied(p) == [] && (Unchecked(rules, p) || rules.hits(p) == []))
  }

  /** One more path, put at the end of the list of its class. */
  lemma OneMore(rules: Rules, l: Lists, r: Lists, seen: seq<string>, rel: string)
    requires Holds(rules, l, seen) && Truthful(rules, r)
    requires forall c: Class | c != Ignored ::
               PathsOfClass(r, c) == if ClassOf(rules, rel) == c then PathsOfClass(l, c) + [rel] else PathsOfClass(l, c)
    ensures Holds(rules, r, seen + [rel])
  {
    assert (seen + [rel])[..|seen + [rel]| - 1] == seen;
    forall c: Class | c != Ignored ensures multiset(PathsOfClass(r, c)) == multiset(OfClass(rules, seen + [rel], c)) {
      assert multiset(PathsOfClass(l, c)) == multiset(OfClass(rules, seen, c));
    }
  }

  /** The body of the file loop. */
  method ClassifyFile(rules: Rules, l: Lists, rel: string, ghost seen: seq<string>) returns (r: Lists)
    requires Holds(rules, l, seen)
    ensures Holds(rules, r, seen + [rel])
  {
    r := PutInClass(rules, l, rel);
    OneMore(rules, l, r, seen, rel);
  }

  method PutInClass(rules: Rules, l: Lists, rel: string) returns (r: Lists)
    requires Truthful(rules, l)
    ensures Truthful(rules, r)
    ensures forall c: Class | c != Ignored ::
              PathsOfClass(r, c) == if ClassOf(rules, rel) == c then PathsOfClass(l, c) + [rel] else PathsOfClass(l, c)
  {
    if !Allowed(rules, rel) {
      return l;
    }
    var denied := rules.denied(rel);
    if denied != [] {
      KeysSnoc(l.excluded, (rel, denied));
      return l.(excluded := l.excluded + [(rel, denied)]);
    }
    if rel == rules.self || rel in rules.exempt {
      return l.(included := l.included + [rel]);
    }
    var hits := rules.hits(rel);
    if hits != [] {
      KeysSnoc(l.flagged, (rel, hits));
      return l.(flagged := l.flagged + [(rel, hits)]);
    }
    return l.(included := l.included + [rel]);
  }

  lemma KeysSnoc(s: seq<Tagged>, x: Tagged)
    ensures Keys(s + [x]) == Keys(s) + [x.0]
  {
    assert (s + [x])[..|s + [x]| - 1] == s;
  }

  method ClassifyFiles(rules: Rules, l: Lists, relDir: string, files: seq<string>, ghost seen: seq<string>)
    returns (r: Lists)
    requires Holds(rules, l, seen)
    ensures Holds(rules, r, seen + FilePaths(relDir, files))
  {
    r := l;
    assert seen + [] == seen;
    for i := 0 to |files|
      invariant Holds(rules, r, seen + FilePaths(relDir, files[..i]))
    {
      r := ClassifyFile(rules, r, Child(relDir, files[i]), seen + FilePaths(relDir, files[..i]));
      assert files[..i + 1][..i] == files[..i];
      assert seen + FilePaths(relDir, files[..i]) + [Child(relDir, files[i])]
             == seen + FilePaths(relDir, files[..i + 1]);
    }
    assert files[..|files|] == files;
  }

  /** Directories that are still to be visited, the next one last. */
  type Pending = seq<(string, Folder)>

  ghost function PendingPaths(rules: Rules, pending: Pending): seq<string> {
    if pending == [] then []
    else
      PendingPaths(rules, pending[..|pending| - 1])
      + Paths(rules, pending[|pending| - 1].0, pending[|pending| - 1].1, true)
  }

  ghost function Size(folder: Folder): nat
    decreases folder
  {
    1 + SizeOf(folder.dirs)
  }

  ghost function SizeOf(dirs: Listing): nat
    decreases dirs
  {
    match dirs case Done => 0 case Entry(_, folder, rest) => Size(folder) + SizeOf(rest)
  }

  ghost function PendingSize(pending: Pending): nat {
    if pending == [] then 0 else PendingSize(pending[..|pending| - 1]) + Size(pending[|pending| - 1].1)
  }

  /** The directories that are pending after the first entry of a listing has been looked at. */
  function Next(rules: Rules, relDir: string, dirs: Listing, pending: Pending): Pending
    requires dirs.Entry?
  {
    if Enters(rules, relDir, dirs.name, true) then pending + [(Child(relDir, dirs.name), dirs.folder)] else pending
  }

  lemma NextKeepsPaths(rules: Rules, relDir: string, dirs: Listing, pending: Pending)
    requires dirs.Entry?
    ensures multiset(PendingPaths(rules, Next(rules, relDir, dirs, pending)))
            + multiset(PathsIn(rules, relDir, dirs.rest, true))
         == multiset(PendingPaths(rules, pending)) + multiset(PathsIn(rules, relDir, dirs, true))
    ensures PendingSize(Next(rules, relDir, dirs, pending)) + SizeOf(dirs.rest) <= PendingSize(pending) + SizeOf(dirs)
  {
    if Enters(rules, relDir, dirs.name, true) {
      var entry := (Child(relDir, dirs.name), dirs.folder);
      assert (pending + [entry])[..|pending + [entry]| - 1] == pending;
    }
  }

  /** The pruning of one directory's entries; the entries that stay are pending. */
  method Descend(rules: Rules, relDir: string, dirs: Listing, pending: Pending) returns (r: Pending)
    ensures multiset(PendingPaths(rules, r))
            == multiset(PendingPaths(rules, pending)) + multiset(PathsIn(rules, relDir, dirs, true))
    ensures PendingSize(r) <= PendingSize(pending) + SizeOf(dirs)
  {
    r := pending;
    var left := dirs;
    while left.Entry?
      invariant multiset(PendingPaths(rules, r)) + multiset(PathsIn(rules, relDir, left, true))
             == multiset(PendingPaths(rules, pending)) + multiset(PathsIn(rules, relDir, dirs, true))
      invariant PendingSize(r) + SizeOf(left) <= PendingSize(pending) + SizeOf(dirs)
      decreases left
    {
      NextKeepsPaths(rules, relDir, left, r);
      if HardKeeps(rules, relDir, left.name) {
        var rel := Child(relDir, left.name);
        if Keeps(rules, rel) {
          r := r + [(rel, left.folder)];
        }
      }
      left := left.rest;
    }
  }

  /** `collect`: the three sorted lists of the pruned walk. */
  method Collect(rules: Rules, root: Folder) returns (l: Lists)
    ensures Truthful(rules, l)
    ensures Reports(rules, l, Paths(rules, ".", root, true))
    ensures Judged(rules, l, Paths(rules, ".", root, true))
  {
    l := Lists([], [], []);
    var pending: Pending := [(".", root)];
    ghost var all, seen := Paths(rules, ".", root, true), [];
    assert pending[..0] == [] && PendingPaths(rules, []) + all == all;
    while pending != []
      invariant Holds(rules, l, seen)
      invariant multiset(seen) + multiset(PendingPaths(rules, pending)) == multiset(all)
      decreases PendingSize(pending)
    {
      var (relDir, folder) := pending[|pending| - 1];
      pending := pending[..|pending| - 1];
      pending := Descend(rules, relDir, folder.dirs, pending);
      l := ClassifyFiles(rules, l, relDir, folder.files, seen);
      seen := seen + FilePaths(relDir, folder.files);
    }
    assert multiset(seen) == multiset(all);
    l := SortLists(rules, l, seen, all);
    ReportsAreJudged(rules, l, all);
  }

  lemma {:induction false} OfClassOfSame(rules: Rules, a: seq<string>, b: seq<string>, c: Class)
    requires multiset(a) == multiset(b)
    ensures multiset(OfClass(rules, a, c)) == multiset(OfClass(rules, b, c))
  {
    forall p ensures multiset(OfClass(rules, a, c))[p] == multiset(OfClass(rules, b, c))[p] {
      OfClassCounts(rules, a, c, p);
      OfClassCounts(rules, b, c, p);
    }
  }

  lemma {:induction false} OfClassCounts(rules: Rules, paths: seq<string>, c: Class, p: string)
    ensures multiset(OfClass(rules, paths, c))[p] == if ClassOf(rules, p) == c then multiset(paths)[p] else 0
  {
    if paths != [] {
      OfClassCounts(rules, paths[..|paths| - 1], c, p);
      assert paths == paths[..|paths| - 1] + [paths[|paths| - 1]];
    }
  }

  /** Sorted texts are determined by what they hold. */
  lemma SortOfSame(a: seq<string>, b: seq<string>)
    requires multiset(a) == multiset(b)
    ensures Sort(a, TextLeq) == Sort(b, TextLeq)
  {
    TextLeqIsOrder();
    SortSorts(a, TextLeq);
    SortSorts(b, TextLeq);
    forall x, y | TextLeq(x, y) && TextLeq(y, x) ensures x == y {
      TextLeqAntisymmetric(x, y);
    }
    SortedIsUnique(Sort(a, TextLeq), Sort(b, TextLeq), TextLeq);
  }

  lemma SortedReportsAreReports(s: seq<Tagged>)
    ensures forall e | e in Sort(s, ByPath) :: e in s
  {
    ByPathIsOrder();
    SortSorts(s, ByPath);
    forall e | e in Sort(s, ByPath) ensures e in s {
      assert e in multiset(Sort(s, ByPath));
    }
  }

  lemma ByPathIsOrder()
    ensures IsOrder(ByPath)
  {
    TextLeqIsOrder();
  }

  lemma SortedClass(rules: Rules, l: Lists, seen: seq<string>, all: seq<string>, c: Class)
    requires Holds(rules, l, seen) && multiset(seen) == multiset(all) && c != Ignored
    ensures Sort(PathsOfClass(l, c), TextLeq) == Sort(OfClass(rules, all, c), TextLeq)
  {
    OfClassOfSame(rules, seen, all, c);
    SortOfSame(PathsOfClass(l, c), OfClass(rules, all, c));
  }

  function SortedLists(l: Lists): Lists {
    Lists(Sort(l.included, TextLeq), Sort(l.excluded, ByPath), Sort(l.flagged, ByPath))
  }

  lemma SortedListsPaths(l: Lists, c: Class)
    requires c != Ignored
    ensures PathsOfClass(SortedLists(l), c) == Sort(PathsOfClass(l, c), TextLeq)
  {
    SortByPath(l.excluded);
    SortByPath(l.flagged);
  }

  lemma SortedListsTruthful(rules: Rules, l: Lists)
    requires Truthful(rules, l)
    ensures Truthful(rules, SortedLists(l))
  {
    SortedReportsAreReports(l.excluded);
    SortedReportsAreReports(l.flagged);
  }

  method SortLists(rules: Rules, l: Lists, ghost seen: seq<string>, ghost all: seq<string>) returns (r: Lists)
    requires Holds(rules, l, seen) && multiset(seen) == multiset(all)
    ensures Truthful(rules, r)
    ensures Reports(rules, r, all)
  {
    r := SortedLists(l);
    SortedListsTruthful(rules, l);
    forall c: Class | c != Ignored ensures PathsOfClass(r, c) == Sort(OfClass(rules, all, c), TextLeq) {
      SortedClass(rules, l, seen, all, c);
      SortedListsPaths(l, c);
    }
  }

  /** On a harmless tree the three lists of the walk are the sorted classes of all files that no hard-pruned
      directory hides. */
  lemma CollectIsPlainFilter(rules: Rules, root: Folder, l: Lists)
    requires NoDots(root.dirs) && Harmless(rules, ".", root.dirs)
    requires Reports(rules, l, Paths(rules, ".", root, true))
    ensures Reports(rules, l, Paths(rules, ".", root, false)) && Judged(rules, l, Paths(rules, ".", root, false))
  {
    PrunedWalkIsPlainFilterIff(rules, ".", root);
    forall c: Class | c != Ignored
        ensures PathsOfClass(l, c) == Sort(OfClass(rules, Paths(rules, ".", root, false), c), TextLeq) {
      assert OfClass(rules, Paths(rules, ".", root, true), c) == OfClass(rules, Paths(rules, ".", root, false), c);
    }
    ReportsAreJudged(rules, l, Paths(rules, ".", root, false));
  }

  lemma SortHolds(s: seq<string>)
    ensures SortedBy(Sort(s, TextLeq), TextLeq) && multiset(Sort(s, TextLeq)) == multiset(s)
    ensures forall p :: p in Sort(s, TextLeq) <==> p in s
  {
    TextLeqIsOrder();
    SortSorts(s, TextLeq);
    forall p ensures p in Sort(s, TextLeq) <==> p in s {
      assert p in Sort(s, TextLeq) <==> p in multiset(Sort(s, TextLeq));
      assert p in s <==> p in multiset(s);
    }
  }

  lemma ListHoldsItsClass(rules: Rules, l: Lists, paths: seq<string>, c: Class)
    requires Reports(rules, l, paths) && c != Ignored
    ensures SortedBy(PathsOfClass(l, c), TextLeq)
    ensures multiset(PathsOfClass(l, c)) == multiset(OfClass(rules, paths, c))
    ensures forall p :: p in PathsOfClass(l, c) <==> p in paths && ClassOf(rules, p) == c
  {
    SortHolds(OfClass(rules, paths, c));
    OfClassMembers(rules, paths, c);
  }

  lemma ListedByClass(rules: Rules, l: Lists, paths: seq<string>, c: Class, p: string)
    requires Reports(rules, l, paths) && c != Ignored
    ensures ListedIf(PathsOfClass(l, c), paths, p, ClassOf(rules, p) == c)
  {
    ListHoldsItsClass(rules, l, paths, c);
    OfClassCounts(rules, paths, c, p);
  }

  lemma ReportsAreJudged(rules: Rules, l: Lists, paths: seq<string>)
    requires Reports(rules, l, paths)
    ensures Judged(rules, l, paths)
  {
    forall p
        ensures
          && ListedIf(Keys(l.excluded), paths, p, Allowed(rules, p) && rules.denied(p) != [])
          && ListedIf(Keys(l.flagged), paths, p,
                      Allowed(rules, p) && rules.denied(p) == [] && !Unchecked(rules, p) && rules.hits(p) != [])
          && ListedIf(l.included, paths, p,
                      Allowed(rules, p) && rules.denied(p) == [] && (Unchecked(rules, p) || rules.hits(p) == [])) {
      ListedByClass(rules, l, paths, Included, p);
      ListedByClass(rules, l, paths, Excluded, p);
      ListedByClass(rules, l, paths, Flagged, p);
    }
  }

  /** The three lists are sorted, share no path, and together hold every allowed path as often as it was met. */
  lemma ListsPartition(rules: Rules, l: Lists, paths: seq<string>)
    requires Reports(rules, l, paths)
    ensures SortedBy(l.included, TextLeq) && SortedBy(Keys(l.excluded), TextLeq) && SortedBy(Keys(l.flagged), TextLeq)
    ensures forall p :: !(p in l.included && p in Keys(l.excluded)) && !(p in l.included && p in Keys(l.flagged))
                     && !(p in Keys(l.excluded) && p in Keys(l.flagged))
    ensures multiset(paths)
            == multiset(OfClass(rules, paths, Ignored)) + multiset(Keys(l.excluded)) + multiset(Keys(l.flagged))
                + multiset(l.included)
  {
    ClassesPartition(rules, paths);
    ListHoldsItsClass(rules, l, paths, Included);
    ListHoldsItsClass(rules, l, paths, Excluded);
    ListHoldsItsClass(rules, l, paths, Flagged);
  }

  // ---------------------------------------------------------------------------------------
  // The emit gate
  // ---------------------------------------------------------------------------------------

  /** The directory named on the command line. */
  class Target {
    var present: bool
    var files: map<string, string>
  }

  /** The end of `main`, with the directory to emit to, if any. Nothing is written while a file is flagged;
      otherwise the target holds exactly the included files. */
  method Emit(l: Lists, source: map<string, string>, target: Target, emit: bool, force: bool) returns (code: nat)
    requires forall p | p in l.included :: p in source
    modifies target
    ensures code == (if l.flagged != [] then 1 else if emit && old(target.present) && !force then 2 else 0)
    ensures code == 0 && emit ==> target.present && target.files == map p | p in l.included :: source[p]
    ensures code != 0 || !emit ==> target.present == old(target.present) && target.files == old(target.files)
  {
    if l.flagged != [] {
      return 1;
    }
    if emit {
      if target.present && !force {
        return 2;
      }
      target.present, target.files := true, map[];
      for i := 0 to |l.included|
        invariant target.present
        invariant target.files == map p | p in l.included[..i] :: source[p]
      {
        assert l.included[..i + 1] == l.included[..i] + [l.included[i]];
        target.files := target.files[l.included[i] := source[l.included[i]]];
      }
      assert l.included[..|l.included|] == l.included;
    }
    return 0;
  }
}
