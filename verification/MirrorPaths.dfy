/** Which files the mirror walk meets, told by the names of the directories on the way to them. */
module MirrorPaths {
  import opened MirrorWalk

  // ---------------------------------------------------------------------------------------
  // Files of a tree
  // ---------------------------------------------------------------------------------------

  /** The tree has the file below the named directories, outermost first. */
  ghost predicate Reaches(folder: Folder, names: seq<string>, file: string)
    decreases folder
  {
    if names == [] then file in folder.files else ReachesIn(folder.dirs, names, file)
  }

  ghost predicate ReachesIn(dirs: Listing, names: seq<string>, file: string)
    requires names != []
    decreases dirs
  {
    match dirs
    case Done => false
    case Entry(name, folder, rest) =>
      ReachesIn(rest, names, file) || (name == names[0] && Reaches(folder, names[1..], file))
  }

  /** The relative path of the directory below the named ones; the root is a dot. */
  function DirOf(names: seq<string>): string {
    if names == [] then "." else Child(DirOf(names[..|names| - 1]), names[|names| - 1])
  }

  /** The walk goes from the first `i` directories on the way into the next one: neither that directory nor the one it
      is entered from is on the list of pruned paths, nor is its own name a pruned one; the pruned walk also asks
      whether the directory can hold an allowed file. */
  ghost predicate OpenAt(rules: Rules, names: seq<string>, i: nat, fast: bool)
    requires i < |names|
  {
    && names[i] !in rules.pruneNames
    && DirOf(names[..i]) !in rules.prunePaths && DirOf(names[..i]) + "/" + names[i] !in rules.prunePaths
    && (fast ==> Keeps(rules, DirOf(names[..i + 1])))
  }

  ghost predicate OpenFrom(rules: Rules, names: seq<string>, n: nat, fast: bool) {
    forall i: nat | n <= i < |names| :: OpenAt(rules, names, i, fast)
  }

  /** The file is met on the way through the named directories. */
  ghost predicate Met(rules: Rules, root: Folder, fast: bool, names: seq<string>, file: string) {
    Reaches(root, names, file) && OpenFrom(rules, names, 0, fast)
  }

  // ---------------------------------------------------------------------------------------
  // From the walk to the names and back
  // ---------------------------------------------------------------------------------------

  lemma DirOfMore(pre: seq<string>, name: string)
    ensures DirOf(pre + [name]) == Child(DirOf(pre), name)
  {
    assert (pre + [name])[..|pre|] == pre;
  }

  lemma Parts<T>(pre: seq<T>, x: T, rest: seq<T>)
    ensures pre + ([x] + rest) == pre + [x] + rest && (pre + [x] + rest)[|pre|] == x
    ensures (pre + [x] + rest)[..|pre|] == pre && (pre + [x] + rest)[..|pre| + 1] == pre + [x]
  {
  }

  lemma OneMoreName(pre: seq<string>, name: string, rest: seq<string>)
    ensures DirOf(pre + [name]) == Child(DirOf(pre), name)
    ensures pre + ([name] + rest) == pre + [name] + rest
  {
    DirOfMore(pre, name);
    Parts(pre, name, rest);
  }

  /** The test on the next directory is the one the walk makes. */
  lemma OpenMeansEnters(rules: Rules, pre: seq<string>, name: string, rest: seq<string>, fast: bool)
    ensures OpenAt(rules, pre + [name] + rest, |pre|, fast) <==> Enters(rules, DirOf(pre), name, fast)
    ensures OpenFrom(rules, pre + [name] + rest, |pre|, fast)
            <==> Enters(rules, DirOf(pre), name, fast) && OpenFrom(rules, pre + [name] + rest, |pre| + 1, fast)
  {
    Parts(pre, name, rest);
    DirOfMore(pre, name);
    OpenFirst(rules, pre + [name] + rest, |pre|, fast);
  }

  lemma OpenFirst(rules: Rules, names: seq<string>, n: nat, fast: bool)
    requires n < |names|
    ensures OpenFrom(rules, names, n, fast) <==> OpenAt(rules, names, n, fast) && OpenFrom(rules, names, n + 1, fast)
  {
  }

  lemma {:induction false} FileMet(relDir: string, files: seq<string>, p: string)
    ensures p in FilePaths(relDir, files) <==> exists f :: f in files && p == Child(relDir, f)
  {
    if files != [] {
      FileMet(relDir, files[..|files| - 1], p);
      assert files == files[..|files| - 1] + [files[|files| - 1]];
    }
  }

  lemma {:induction false} MetBelow(rules: Rules, pre: seq<string>, folder: Folder, fast: bool, p: string)
    returns (names: seq<string>, f: string)
    requires p in Paths(rules, DirOf(pre), folder, fast)
    ensures Reaches(folder, names, f) && p == Child(DirOf(pre + names), f)
    ensures OpenFrom(rules, pre + names, |pre|, fast)
    decreases folder
  {
    if p in FilePaths(DirOf(pre), folder.files) {
      FileMet(DirOf(pre), folder.files, p);
      names := [];
      f :| f in folder.files && p == Child(DirOf(pre), f);
      assert pre + [] == pre;
    } else {
      names, f := MetInListing(rules, pre, folder.dirs, fast, p);
    }
  }

  lemma {:induction false} MetInListing(rules: Rules, pre: seq<string>, dirs: Listing, fast: bool, p: string)
    returns (names: seq<string>, f: string)
    requires p in PathsIn(rules, DirOf(pre), dirs, fast)
    ensures names != [] && ReachesIn(dirs, names, f) && p == Child(DirOf(pre + names), f)
    ensures OpenFrom(rules, pre + names, |pre|, fast)
    decreases dirs
  {
    var relDir, name := DirOf(pre), dirs.name;
    if Enters(rules, relDir, name, fast) && p in Paths(rules, Child(relDir, name), dirs.folder, fast) {
      OneMoreName(pre, name, []);
      var rest;
      rest, f := MetBelow(rules, pre + [name], dirs.folder, fast, p);
      names := [name] + rest;
      OneMoreName(pre, name, rest);
      OpenMeansEnters(rules, pre, name, rest, fast);
    } else {
      names, f := MetInListing(rules, pre, dirs.rest, fast, p);
    }
  }

  lemma {:induction false} ReachedIsMet(rules: Rules, pre: seq<string>, folder: Folder, fast: bool, names: seq<string>,
                                        f: string)
    requires Reaches(folder, names, f) && OpenFrom(rules, pre + names, |pre|, fast)
    ensures Child(DirOf(pre + names), f) in Paths(rules, DirOf(pre), folder, fast)
    decreases folder
  {
    if names == [] {
      assert pre + names == pre;
      FileMet(DirOf(pre), folder.files, Child(DirOf(pre), f));
    } else {
      ReachedIsMetIn(rules, pre, folder.dirs, fast, names, f);
    }
  }

  lemma {:induction false} ReachedIsMetIn(rules: Rules, pre: seq<string>, dirs: Listing, fast: bool, names: seq<string>,
                                          f: string)
    requires names != [] && ReachesIn(dirs, names, f) && OpenFrom(rules, pre + names, |pre|, fast)
    ensures Child(DirOf(pre + names), f) in PathsIn(rules, DirOf(pre), dirs, fast)
    decreases dirs
  {
    if dirs.name == names[0] && Reaches(dirs.folder, names[1..], f) {
      var name, rest := names[0], names[1..];
      assert names == [name] + rest;
      OneMoreName(pre, name, rest);
      OpenMeansEnters(rules, pre, name, rest, fast);
      ReachedIsMet(rules, pre + [name], dirs.folder, fast, rest, f);
    } else {
      ReachedIsMetIn(rules, pre, dirs.rest, fast, names, f);
    }
  }

  /** The walk meets a path exactly if it is that of a file of the tree and every directory on the way is open. */
  lemma WalkMeetsExactly(rules: Rules, root: Folder, fast: bool, p: string)
    ensures p in Paths(rules, ".", root, fast)
            <==> exists names, f :: Met(rules, root, fast, names, f) && p == Child(DirOf(names), f)
  {
    assert DirOf([]) == ".";
    if p in Paths(rules, ".", root, fast) {
      var names, f := MetBelow(rules, [], root, fast, p);
      assert [] + names == names;
      assert Met(rules, root, fast, names, f);
    }
    forall names, f | Met(rules, root, fast, names, f) && p == Child(DirOf(names), f)
        ensures p in Paths(rules, ".", root, fast) {
      assert [] + names == names;
      ReachedIsMet(rules, [], root, fast, names, f);
    }
  }
}
