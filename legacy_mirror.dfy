/** The first, stand-alone mirror of main.cpp: every working entry of the current
    directory (minus Visual Studio project files and build output directories) is
    copied onto the sibling directory named `git` when it is missing or its content
    differs, and every entry of that `git` directory the walk did not visit is then
    removed, sparing the repository's `.git` metadata. */
module LegacyMirror {
  import opened Files
  import opened Environment
  import opened Access

  /** The filesystem and the local `checked` set of destinations visited. */
  datatype Mirroring = Mirroring(fs: FileSystem, checked: set<Path>)

  /** `with_branch(git_branch, "git")`. */
  function Destination(source: Path, branch: nat): Path
  {
    WithBranch(source, branch, "git")
  }

  /** The effect of `check_overwrite` on the filesystem: a directory is created when
      its destination is missing; a file is copied when its destination is missing
      or holds different bytes. */
  function Overwrite(fs: FileSystem, source: Path, destination: Path): (r: FileSystem)
    requires source in fs
    ensures fs.Keys <= r.Keys && destination in r
    ensures forall q :: q in r && q != destination ==> q in fs && r[q] == fs[q]
    ensures destination in fs && (IsDirectory(fs, source) || Content(fs[destination]) == Content(fs[source])) ==> r == fs
    ensures IsDirectory(fs, source) && destination !in fs ==> IsDirectory(r, destination)
    ensures IsFile(fs, source) ==> Content(r[destination]) == Content(fs[source])
    ensures IsFile(fs, source) && !(destination in fs && Content(fs[destination]) == Content(fs[source])) ==>
      r[destination] == fs[source]
    ensures destination == source ==> r == fs
  {
    if IsDirectory(fs, source) then
      if destination in fs then fs else fs[destination := Directory]
    else if destination in fs && Content(fs[destination]) == Content(fs[source]) then fs
    else fs[destination := fs[source]]
  }

  /** `check_overwrite`: the destination is recorded as visited whatever happens. */
  function Check(m: Mirroring, source: Path, branch: nat): (r: Mirroring)
    requires source in m.fs
    ensures r.checked == m.checked + {Destination(source, branch)}
    ensures m.fs.Keys <= r.fs.Keys
    ensures OnlyGitSideChanged(m.fs, r.fs, branch)
  {
    var destination := Destination(source, branch);
    var r := Mirroring(Overwrite(m.fs, source, destination), m.checked + {destination});
    assert destination != source ==> GitSide(destination, branch);
    r
  }

  /** `q` lies on the `git` side: its segment `branch` is `git`. */
  predicate GitSide(q: Path, branch: nat)
  {
    branch < |q| && q[branch] == "git"
  }

  /** `a` and `b` differ only in entries on the `git` side. */
  ghost predicate OnlyGitSideChanged(a: FileSystem, b: FileSystem, branch: nat)
  {
    forall q :: !GitSide(q, branch) ==> (q in a <==> q in b) && (q in a ==> a[q] == b[q])
  }

  lemma OnlyGitSideChangedTrans(a: FileSystem, b: FileSystem, c: FileSystem, branch: nat)
    requires OnlyGitSideChanged(a, b, branch) && OnlyGitSideChanged(b, c, branch)
    ensures OnlyGitSideChanged(a, c, branch)
  {
  }

  /** The entries of a subtree listing other than its root: `list_current_directory_tree`. */
  function Below(listing: seq<Path>, p: Path): (r: seq<Path>)
    ensures forall q :: q in r <==> q in listing && q != p
  {
    if listing == [] then []
    else (if listing[0] == p then [] else [listing[0]]) + Below(listing[1..], p)
  }

  /** `check_overwrite` on every entry of a listing, in order. */
  function CheckAll(m: Mirroring, sources: seq<Path>, branch: nat): (r: Mirroring)
    requires forall q :: q in sources ==> q in m.fs
    ensures m.fs.Keys <= r.fs.Keys
    ensures r.checked == m.checked + set q | q in sources :: Destination(q, branch)
    ensures OnlyGitSideChanged(m.fs, r.fs, branch)
    decreases |sources|
  {
    if sources == [] then m
    else
      var init := sources[..|sources| - 1];
      var last := sources[|sources| - 1];
      assert forall q :: q in init ==> q in sources;
      var mid := CheckAll(m, init, branch);
      assert sources == init + [last];
      OnlyGitSideChangedTrans(m.fs, mid.fs, Check(mid, last, branch).fs, branch);
      Check(mid, last, branch)
  }

  lemma CheckAllSnoc(m: Mirroring, sources: seq<Path>, i: nat, branch: nat)
    requires forall q :: q in sources ==> q in m.fs
    requires i < |sources|
    ensures forall q :: q in sources[..i] ==> q in m.fs
    ensures sources[i] in CheckAll(m, sources[..i], branch).fs
    ensures CheckAll(m, sources[..i + 1], branch) == Check(CheckAll(m, sources[..i], branch), sources[i], branch)
  {
    assert sources[..i + 1][..i] == sources[..i];
    assert forall q :: q in sources[..i] ==> q in sources;
  }

  /** The top-level entries the walk mirrors: files that are not project files and
      directories that are not build output. */
  predicate Mirrored(fs: FileSystem, e: Path)
  {
    || (IsFile(fs, e) && CanTouchWorkingFileName(Name(e)))
    || (IsDirectory(fs, e) && !IsBuildDirectoryName(Name(e)))
  }

  /** The filter of this first mirror is the working-side access rule of the later
      engine. */
  lemma MirroredIsCanTouchWorking(fs: FileSystem, e: Path)
    requires e in fs
    ensures Mirrored(fs, e) <==> CanTouchWorking(fs, e)
  {
  }

  /** One top-level entry of `move_files`: a valid file is checked; a valid
      directory is checked, then every entry below it. */
  function WalkEntry(m: Mirroring, host: Host, e: Path, branch: nat): (r: Mirroring)
    requires ValidHost(host) && e in m.fs
    ensures m.fs.Keys <= r.fs.Keys && m.checked <= r.checked
    ensures OnlyGitSideChanged(m.fs, r.fs, branch)
    ensures Mirrored(m.fs, e) ==> Destination(e, branch) in r.checked && Destination(e, branch) in r.fs
    ensures !Mirrored(m.fs, e) ==> r == m
  {
    var m1 := if IsFile(m.fs, e) && CanTouchWorkingFileName(Name(e)) then Check(m, e, branch) else m;
    if IsDirectory(m1.fs, e) && !IsBuildDirectoryName(Name(e)) then
      var listing := Below(host.tree(m1.fs, e), e);
      assert forall q :: q in listing ==> q in Tree(m1.fs, e);
      var m2 := Check(m1, e, branch);
      var r := CheckAll(m2, listing, branch);
      OnlyGitSideChangedTrans(m1.fs, m2.fs, r.fs, branch);
      OnlyGitSideChangedTrans(m.fs, m1.fs, r.fs, branch);
      r
    else m1
  }

  /** The walk over the listing of the current directory. */
  function WalkAll(m: Mirroring, host: Host, entries: seq<Path>, branch: nat): (r: Mirroring)
    requires ValidHost(host) && forall e :: e in entries ==> e in m.fs
    ensures m.fs.Keys <= r.fs.Keys && m.checked <= r.checked
    ensures OnlyGitSideChanged(m.fs, r.fs, branch)
    decreases |entries|
  {
    if entries == [] then m
    else
      var init := entries[..|entries| - 1];
      assert forall e :: e in init ==> e in entries;
      var mid := WalkAll(m, host, init, branch);
      var r := WalkEntry(mid, host, entries[|entries| - 1], branch);
      OnlyGitSideChangedTrans(m.fs, mid.fs, r.fs, branch);
      r
  }

  /** The walk records the destination of every top-level entry it mirrors that
      does not itself lie on the `git` side. */
  lemma {:induction false} WalkAllVisits(m: Mirroring, host: Host, entries: seq<Path>, branch: nat, e: Path)
    requires ValidHost(host) && forall x :: x in entries ==> x in m.fs
    requires e in entries && !GitSide(e, branch) && Mirrored(m.fs, e)
    ensures var r := WalkAll(m, host, entries, branch);
      Destination(e, branch) in r.checked && Destination(e, branch) in r.fs
    decreases |entries|
  {
    var init := entries[..|entries| - 1];
    var last := entries[|entries| - 1];
    assert forall x :: x in init ==> x in entries;
    assert entries == init + [last];
    var mid := WalkAll(m, host, init, branch);
    if e in init {
      WalkAllVisits(m, host, init, branch, e);
    } else {
      assert e == last && e in mid.fs && mid.fs[e] == m.fs[e];
      assert Mirrored(mid.fs, e);
    }
  }

  lemma WalkAllSnoc(m: Mirroring, host: Host, entries: seq<Path>, i: nat, branch: nat)
    requires ValidHost(host) && forall e :: e in entries ==> e in m.fs
    requires i < |entries|
    ensures forall e :: e in entries[..i] ==> e in m.fs
    ensures entries[i] in WalkAll(m, host, entries[..i], branch).fs
    ensures WalkAll(m, host, entries[..i + 1], branch) == WalkEntry(WalkAll(m, host, entries[..i], branch), host, entries[i], branch)
  {
    assert entries[..i + 1][..i] == entries[..i];
    assert forall e :: e in entries[..i] ==> e in entries;
  }

  /** The removal test as written: an unvisited entry is spared only when it is
      itself a directory named `.git`. */
  predicate SparedAsWritten(fs: FileSystem, checked: set<Path>, q: Path)
  {
    q in checked || !CanTouchGitDirectory(fs, q)
  }

  /** The removal test as intended: also everything inside the repository's own
      `.git` directory. */
  predicate Spared(fs: FileSystem, checked: set<Path>, gitRoot: Path, q: Path)
  {
    SparedAsWritten(fs, checked, q) || gitRoot + [".git"] <= q
  }

  /** The removal pass over a listing of the `git` directory, with the test as
      written (`keepMetadata` false) or as intended. */
  function RemoveStale(fs: FileSystem, checked: set<Path>, gitRoot: Path, listing: seq<Path>, keepMetadata: bool): (r: FileSystem)
    ensures r.Keys <= fs.Keys && forall q :: q in r ==> r[q] == fs[q]
    decreases |listing|
  {
    if listing == [] then fs
    else
      var mid := RemoveStale(fs, checked, gitRoot, listing[..|listing| - 1], keepMetadata);
      var q := listing[|listing| - 1];
      var spared := if keepMetadata then Spared(mid, checked, gitRoot, q) else SparedAsWritten(mid, checked, q);
      if spared then mid else RemoveTree(mid, q)
  }

  lemma RemoveStaleSnoc(fs: FileSystem, checked: set<Path>, gitRoot: Path, listing: seq<Path>, i: nat, keepMetadata: bool)
    requires i < |listing|
    ensures var mid := RemoveStale(fs, checked, gitRoot, listing[..i], keepMetadata);
      var q := listing[i];
      var spared := if keepMetadata then Spared(mid, checked, gitRoot, q) else SparedAsWritten(mid, checked, q);
      RemoveStale(fs, checked, gitRoot, listing[..i + 1], keepMetadata) == if spared then mid else RemoveTree(mid, q)
  {
    assert listing[..i + 1][..i] == listing[..i];
  }

  /** As written, the removal pass spares the `.git` directory but deletes what it
      holds: with `git/.git/HEAD` present and nothing visited, the file is gone,
      while the intended test keeps it. */
  lemma RemovesMetadataAsWritten()
    ensures var head := ["git", ".git", "HEAD"];
      var fs := map[["git"] := Directory, ["git", ".git"] := Directory, head := File([], 0)];
      var listing := [["git", ".git"], head];
      && head in fs
      && head !in RemoveStale(fs, {}, ["git"], listing, false)
      && head in RemoveStale(fs, {}, ["git"], listing, true)
  {
    var git := ["git", ".git"];
    var head := ["git", ".git", "HEAD"];
    var fs := map[["git"] := Directory, git := Directory, head := File([], 0)];
    var listing := [git, head];
    var first := listing[..1];
    assert first == [git] && first[..0] == [] && listing[..|listing| - 1] == first;
    assert IsDirectory(fs, git) && Name(git) == ".git";
    forall keep: bool ensures RemoveStale(fs, {}, ["git"], first, keep) == fs {
      assert RemoveStale(fs, {}, ["git"], first[..0], keep) == fs;
      assert SparedAsWritten(fs, {}, git);
    }
    assert Name(head) == "HEAD" && head != git;
    assert !SparedAsWritten(fs, {}, head);
    assert head !in RemoveTree(fs, head);
    assert ["git"] + [".git"] == git == head[..2];
    assert Spared(fs, {}, ["git"], head);
  }

  /** The intended pass keeps every entry inside the repository's `.git` directory. */
  lemma {:induction false} RemoveStaleKeepsMetadata(fs: FileSystem, checked: set<Path>, gitRoot: Path, listing: seq<Path>, q: Path)
    requires forall r :: r in listing ==> gitRoot <= r && r != gitRoot
    requires q in fs && gitRoot + [".git"] <= q
    ensures q in RemoveStale(fs, checked, gitRoot, listing, true)
    decreases |listing|
  {
    if listing != [] {
      var init := listing[..|listing| - 1];
      var r := listing[|listing| - 1];
      assert forall x :: x in init ==> x in listing;
      RemoveStaleKeepsMetadata(fs, checked, gitRoot, init, q);
      var mid := RemoveStale(fs, checked, gitRoot, init, true);
      if r <= q {
        assert r in listing;
        assert r[..|gitRoot|] == gitRoot;
        assert |r| > |gitRoot|;
        assert r[..|gitRoot| + 1] == q[..|gitRoot| + 1] == gitRoot + [".git"];
        assert Spared(mid, checked, gitRoot, r);
      }
    }
  }

  /** Either pass keeps a visited entry that no other listed entry contains. */
  lemma {:induction false} RemoveStaleKeepsVisited(fs: FileSystem, checked: set<Path>, gitRoot: Path, listing: seq<Path>, keepMetadata: bool, q: Path)
    requires q in fs && q in checked
    requires forall r :: r in listing && r <= q ==> r == q
    ensures q in RemoveStale(fs, checked, gitRoot, listing, keepMetadata)
    decreases |listing|
  {
    if listing != [] {
      var init := listing[..|listing| - 1];
      var r := listing[|listing| - 1];
      assert forall x :: x in init ==> x in listing;
      assert r in listing;
      RemoveStaleKeepsVisited(fs, checked, gitRoot, init, keepMetadata, q);
      var mid := RemoveStale(fs, checked, gitRoot, init, keepMetadata);
      assert mid[q] == fs[q];
      if r <= q {
        assert r == q && SparedAsWritten(mid, checked, q);
      }
    }
  }

  /** The test the removal pass applies, as written or as intended. */
  predicate SparedBy(fs: FileSystem, checked: set<Path>, gitRoot: Path, q: Path, keepMetadata: bool)
  {
    if keepMetadata then Spared(fs, checked, gitRoot, q) else SparedAsWritten(fs, checked, q)
  }

  /** Either pass removes every listed entry that its test does not spare. */
  lemma {:induction false} RemoveStaleRemoves(fs: FileSystem, checked: set<Path>, gitRoot: Path, listing: seq<Path>, keepMetadata: bool, q: Path)
    requires q in listing && !SparedBy(fs, checked, gitRoot, q, keepMetadata)
    ensures q !in RemoveStale(fs, checked, gitRoot, listing, keepMetadata)
    decreases |listing|
  {
    var init := listing[..|listing| - 1];
    var last := listing[|listing| - 1];
    assert listing == init + [last];
    if q in init {
      RemoveStaleRemoves(fs, checked, gitRoot, init, keepMetadata, q);
    } else {
      var mid := RemoveStale(fs, checked, gitRoot, init, keepMetadata);
      if q in mid {
        assert mid[q] == fs[q];
        assert !SparedBy(mid, checked, gitRoot, q, keepMetadata);
      }
    }
  }

  /** The walk of `move_files` from the current directory `root`. */
  function Walked(fs: FileSystem, host: Host, root: Path): (r: Mirroring)
    requires ValidHost(host)
    ensures fs.Keys <= r.fs.Keys
  {
    var entries := host.list(fs, root);
    assert forall e :: e in entries ==> e in Children(fs, root);
    WalkAll(Mirroring(fs, {}), host, entries, LastBranch(root))
  }

  /** The `git` sibling of `root`. */
  function GitRoot(root: Path): Path
  {
    WithBranch(root, LastBranch(root), "git")
  }

  /** `move_files`: the walk, then the removal pass over the `git` directory with
      the test as written. */
  function MoveFilesSpec(fs: FileSystem, host: Host, root: Path): (r: FileSystem)
    requires ValidHost(host)
  {
    var walked := Walked(fs, host, root);
    var gitRoot := GitRoot(root);
    RemoveStale(walked.fs, walked.checked, gitRoot, Below(host.tree(walked.fs, gitRoot), gitRoot), false)
  }

  /** `move_files` with the intended removal test, which keeps the repository's
      `.git` directory and everything in it. */
  function MoveFilesCorrected(fs: FileSystem, host: Host, root: Path): (r: FileSystem)
    requires ValidHost(host)
  {
    var walked := Walked(fs, host, root);
    var gitRoot := GitRoot(root);
    RemoveStale(walked.fs, walked.checked, gitRoot, Below(host.tree(walked.fs, gitRoot), gitRoot), true)
  }

  /** As written, a run deletes every file inside the repository's `.git` directory
      that the walk did not write. */
  lemma MoveFilesRemovesMetadata(fs: FileSystem, host: Host, root: Path, q: Path)
    requires ValidHost(host)
    requires var walked := Walked(fs, host, root);
      IsFile(walked.fs, q) && q !in walked.checked && GitRoot(root) + [".git"] <= q
    ensures q !in MoveFilesSpec(fs, host, root)
  {
    var walked := Walked(fs, host, root);
    var gitRoot := GitRoot(root);
    assert gitRoot <= q && q != gitRoot by {
      assert q[..|gitRoot|] == (gitRoot + [".git"])[..|gitRoot|] == gitRoot;
    }
    MoveFilesRemovesStale(fs, host, root, q);
  }

  /** With the intended test, every entry inside the repository's `.git` directory
      survives a run. */
  lemma MoveFilesKeepsMetadata(fs: FileSystem, host: Host, root: Path, q: Path)
    requires ValidHost(host) && q in fs && GitRoot(root) + [".git"] <= q
    ensures q in MoveFilesCorrected(fs, host, root)
  {
    var walked := Walked(fs, host, root);
    var gitRoot := GitRoot(root);
    var listing := Below(host.tree(walked.fs, gitRoot), gitRoot);
    assert forall r :: r in listing ==> r in Tree(walked.fs, gitRoot);
    RemoveStaleKeepsMetadata(walked.fs, walked.checked, gitRoot, listing, q);
  }

  /** The destination of an entry directly inside `root` lies directly inside the
      `git` sibling. */
  lemma TopLevelDestination(root: Path, e: Path)
    requires root <= e && |e| == |root| + 1
    ensures GitRoot(root) <= Destination(e, LastBranch(root)) && |Destination(e, LastBranch(root))| == |GitRoot(root)| + 1
  {
    if root != [] {
      var b := LastBranch(root);
      forall j | 0 <= j < |root| ensures GitRoot(root)[j] == Destination(e, b)[j] {
        if j != b {
          assert e[j] == root[j];
        }
      }
    }
  }

  /** Every top-level entry the walk mirrors has its counterpart in the `git`
      directory after a run, as written and as intended, unless the current
      directory is itself named `git`. */
  lemma MoveFilesMirrorsEntries(fs: FileSystem, host: Host, root: Path, e: Path)
    requires ValidHost(host) && Name(root) != "git"
    requires e in host.list(fs, root) && Mirrored(fs, e)
    ensures Destination(e, LastBranch(root)) in MoveFilesSpec(fs, host, root)
    ensures Destination(e, LastBranch(root)) in MoveFilesCorrected(fs, host, root)
  {
    var branch := LastBranch(root);
    var walked := Walked(fs, host, root);
    var gitRoot := GitRoot(root);
    var d := Destination(e, branch);
    assert e in Children(fs, root);
    assert !GitSide(e, branch) by {
      if |root| > 0 {
        assert e[branch] == root[branch];
      }
    }
    WalkAllVisits(Mirroring(fs, {}), host, host.list(fs, root), branch, e);
    TopLevelDestination(root, e);
    var listing := Below(host.tree(walked.fs, gitRoot), gitRoot);
    forall r | r in listing && r <= d ensures r == d {
      assert r in Tree(walked.fs, gitRoot);
    }
    RemoveStaleKeepsVisited(walked.fs, walked.checked, gitRoot, listing, false, d);
    RemoveStaleKeepsVisited(walked.fs, walked.checked, gitRoot, listing, true, d);
  }

  /** After a run, no unvisited entry of the `git` directory remains unless it is a
      directory named `.git`. */
  lemma MoveFilesRemovesStale(fs: FileSystem, host: Host, root: Path, q: Path)
    requires ValidHost(host)
    requires var walked := Walked(fs, host, root);
      q in walked.fs && GitRoot(root) <= q && q != GitRoot(root) && !SparedAsWritten(walked.fs, walked.checked, q)
    ensures q !in MoveFilesSpec(fs, host, root)
  {
    var walked := Walked(fs, host, root);
    var gitRoot := GitRoot(root);
    var listing := Below(host.tree(walked.fs, gitRoot), gitRoot);
    assert q in Tree(walked.fs, gitRoot);
    RemoveStaleRemoves(walked.fs, walked.checked, gitRoot, listing, false, q);
  }

  /** With the intended test, no unvisited entry of the `git` directory remains
      outside its metadata and the nested `.git` directories. */
  lemma MoveFilesCorrectedRemovesStale(fs: FileSystem, host: Host, root: Path, q: Path)
    requires ValidHost(host)
    requires var walked := Walked(fs, host, root);
      q in walked.fs && GitRoot(root) <= q && q != GitRoot(root) && !Spared(walked.fs, walked.checked, GitRoot(root), q)
    ensures q !in MoveFilesCorrected(fs, host, root)
  {
    var walked := Walked(fs, host, root);
    var gitRoot := GitRoot(root);
    var listing := Below(host.tree(walked.fs, gitRoot), gitRoot);
    assert q in Tree(walked.fs, gitRoot);
    RemoveStaleRemoves(walked.fs, walked.checked, gitRoot, listing, true, q);
  }

  /** `check_overwrite`, comparing sizes before contents. */
  method CheckOverwrite(w: World, source: Path, branch: nat, checked: set<Path>) returns (visited: set<Path>)
    requires source in w.fs
    modifies w`fs
    ensures Mirroring(w.fs, visited) == Check(Mirroring(old(w.fs), checked), source, branch)
  {
    var destination := Destination(source, branch);
    if IsDirectory(w.fs, source) {
      if destination !in w.fs {
        w.fs := w.fs[destination := Directory];
      }
      return checked + {destination};
    }
    visited := checked + {destination};
    if destination in w.fs {
      if Size(w.fs[source]) != Size(w.fs[destination]) {
        w.fs := w.fs[destination := w.fs[source]];
      } else if Content(w.fs[source]) != Content(w.fs[destination]) {
        w.fs := w.fs[destination := w.fs[source]];
      }
    } else {
      w.fs := w.fs[destination := w.fs[source]];
    }
  }

  /** One top-level entry of the walk in `move_files`. */
  method MoveEntry(w: World, e: Path, branch: nat, checked: set<Path>) returns (visited: set<Path>)
    requires ValidHost(w.host) && e in w.fs
    modifies w`fs
    ensures Mirroring(w.fs, visited) == WalkEntry(Mirroring(old(w.fs), checked), w.host, e, branch)
  {
    visited := checked;
    if IsFile(w.fs, e) && CanTouchWorkingFileName(Name(e)) {
      visited := CheckOverwrite(w, e, branch, visited);
    }
    if IsDirectory(w.fs, e) && !IsBuildDirectoryName(Name(e)) {
      var listing := Below(w.host.tree(w.fs, e), e);
      assert forall q :: q in listing ==> q in Tree(w.fs, e);
      visited := CheckOverwrite(w, e, branch, visited);
      ghost var m2 := Mirroring(w.fs, visited);
      assert forall q :: q in listing ==> q in m2.fs;
      for i := 0 to |listing|
        invariant forall q :: q in listing[..i] ==> q in m2.fs
        invariant Mirroring(w.fs, visited) == CheckAll(m2, listing[..i], branch)
      {
        CheckAllSnoc(m2, listing, i, branch);
        visited := CheckOverwrite(w, listing[i], branch, visited);
      }
      assert listing[..|listing|] == listing;
    }
  }

  /** `move_files`. */
  method MoveFiles(w: World, root: Path)
    requires ValidHost(w.host)
    modifies w`fs
    ensures w.fs == MoveFilesSpec(old(w.fs), w.host, root)
  {
    var branch := LastBranch(root);
    var checked: set<Path> := {};
    var paths := w.host.list(w.fs, root);
    assert forall e :: e in paths ==> e in Children(w.fs, root);
    ghost var m0 := Mirroring(w.fs, {});
    for i := 0 to |paths|
      invariant forall e :: e in paths[..i] ==> e in m0.fs
      invariant Mirroring(w.fs, checked) == WalkAll(m0, w.host, paths[..i], branch)
    {
      WalkAllSnoc(m0, w.host, paths, i, branch);
      checked := MoveEntry(w, paths[i], branch, checked);
    }
    assert paths[..|paths|] == paths;
    var gitPath := WithBranch(root, branch, "git");
    paths := Below(w.host.tree(w.fs, gitPath), gitPath);
    ghost var walked := w.fs;
    for i := 0 to |paths|
      invariant w.fs == RemoveStale(walked, checked, gitPath, paths[..i], false)
    {
      RemoveStaleSnoc(walked, checked, gitPath, paths, i, false);
      var q := paths[i];
      if q !in checked {
        var valid := false;
        if IsDirectory(w.fs, q) && Name(q) == ".git" {
          valid := true;
        }
        if !valid {
          w.fs := RemoveTree(w.fs, q);
        }
      }
    }
    assert paths[..|paths|] == paths;
  }
}
