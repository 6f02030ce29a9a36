/** The access policy: which entries the mirror may touch on the working side
    (not the Visual Studio project files, not the build output directories) and on
    the git side (not the `.git` metadata directory), and the check that a
    directory is a working directory with a project file named after it. */
module Access {
  import opened Files
  import opened Strings
  import opened Environment

  /** `name` is `<stem><suffix>` for a stem without any dot. */
  predicate HasDotFreeStem(name: string, suffix: string)
  {
    |name| >= |suffix| && name[|name| - |suffix|..] == suffix && '.' !in name[..|name| - |suffix|]
  }

  /** `x.vcxproj`, `x.vcxproj.filters` or `x.vcxproj.user` for a dot-free `x`. */
  predicate IsProjectFileName(name: string)
  {
    HasDotFreeStem(name, ".vcxproj") || HasDotFreeStem(name, ".vcxproj.filters") || HasDotFreeStem(name, ".vcxproj.user")
  }

  /** The build output directories of the working side. */
  predicate IsBuildDirectoryName(name: string)
  {
    name == "Debug" || name == "Release" || name == "x64"
  }

  /** Splitting on '.' yields exactly `[stem] + rest` iff the name is the stem, a dot
      and the rest joined, for a dot-free stem. */
  lemma {:induction false} SplitIsStemAndSuffix(name: string, rest: seq<string>)
    requires |rest| >= 1
    requires forall i :: 0 <= i < |rest| ==> '.' !in rest[i]
    ensures (|Split(name, '.')| == |rest| + 1 && Split(name, '.')[1..] == rest)
        <==> HasDotFreeStem(name, "." + Join(rest, '.'))
  {
    var suffix := "." + Join(rest, '.');
    var split := Split(name, '.');
    if |split| == |rest| + 1 && split[1..] == rest {
      assert split == [split[0]] + rest;
      assert Join(split, '.') == split[0] + suffix;
      assert name[..|name| - |suffix|] == split[0];
    }
    if HasDotFreeStem(name, suffix) {
      var stem := name[..|name| - |suffix|];
      var parts := [stem] + rest;
      assert parts[1..] == rest;
      assert name == stem + suffix;
      assert Join(parts, '.') == name;
      assert forall i :: 0 <= i < |parts| ==> '.' !in parts[i] by {
        forall i | 0 <= i < |parts| ensures '.' !in parts[i] {
          if i > 0 { assert parts[i] == rest[i - 1]; }
        }
      }
      SplitJoin(parts, '.');
    }
  }

  /** The two-part shape `[x, "vcxproj"]` is `x.vcxproj`. */
  lemma TwoPartRule(name: string)
    ensures var split := Split(name, '.');
      (|split| == 2 && split[1] == "vcxproj") <==> HasDotFreeStem(name, ".vcxproj")
  {
    assert "." + "vcxproj" == ".vcxproj";
    OneSuffixRule(name, "vcxproj");
  }

  /** The two-part shape `[x, ext]` is `x.ext`, for a dot-free `ext`. */
  lemma OneSuffixRule(name: string, ext: string)
    requires '.' !in ext
    ensures var split := Split(name, '.');
      (|split| == 2 && split[1] == ext) <==> HasDotFreeStem(name, "." + ext)
  {
    var split := Split(name, '.');
    assert Join([ext], '.') == ext;
    SplitIsStemAndSuffix(name, [ext]);
    assert |split| == 2 ==> split[1..] == [split[1]];
  }

  /** The three-part shape `[x, "vcxproj", ext]` is `x.vcxproj.ext`. */
  lemma ThreePartRule(name: string, ext: string)
    requires '.' !in ext
    ensures var split := Split(name, '.');
      (|split| == 3 && split[1] == "vcxproj" && split[2] == ext) <==> HasDotFreeStem(name, ".vcxproj." + ext)
  {
    var split := Split(name, '.');
    var rest := ["vcxproj", ext];
    assert rest[1..] == [ext];
    assert Join(rest, '.') == "vcxproj" + "." + ext;
    assert "." + Join(rest, '.') == ".vcxproj." + ext;
    assert forall i :: 0 <= i < |rest| ==> '.' !in rest[i];
    SplitIsStemAndSuffix(name, rest);
    assert |split| == 3 ==> split[1..] == [split[1], split[2]];
  }

  /** The shapes of a "."-split name that `can_touch_working_file` rejects. */
  predicate RejectedSplit(split: seq<string>)
  {
    || (|split| == 2 && split[1] == "vcxproj")
    || (|split| == 3 && split[1] == "vcxproj" && split[2] == "filters")
    || (|split| == 3 && split[1] == "vcxproj" && split[2] == "user")
  }

  /** `x.vcxproj.filters`. */
  lemma FiltersRule(name: string)
    ensures var split := Split(name, '.');
      (|split| == 3 && split[1] == "vcxproj" && split[2] == "filters") <==> HasDotFreeStem(name, ".vcxproj.filters")
  {
    ThreePartRule(name, "filters");
    assert ".vcxproj." + "filters" == ".vcxproj.filters";
  }

  /** `x.vcxproj.user`. */
  lemma UserRule(name: string)
    ensures var split := Split(name, '.');
      (|split| == 3 && split[1] == "vcxproj" && split[2] == "user") <==> HasDotFreeStem(name, ".vcxproj.user")
  {
    ThreePartRule(name, "user");
    assert ".vcxproj." + "user" == ".vcxproj.user";
  }

  /** The rejected shapes are exactly the project file names. */
  lemma RejectedSplitIsProjectFileName(name: string)
    ensures RejectedSplit(Split(name, '.')) <==> IsProjectFileName(name)
  {
    TwoPartRule(name);
    FiltersRule(name);
    UserRule(name);
  }

  /** The rule of `can_touch_working_file` on a file name: the "."-split name must not
      be `[x, "vcxproj"]`, `[x, "vcxproj", "filters"]` or `[x, "vcxproj", "user"]`. */
  function CanTouchWorkingFileName(name: string): (r: bool)
    ensures r <==> !IsProjectFileName(name)
  {
    RejectedSplitIsProjectFileName(name);
    var split := Split(name, '.');
    if |split| == 2 && split[1] == "vcxproj" then false
    else if |split| == 3 && split[1] == "vcxproj" && split[2] == "filters" then false
    else if |split| == 3 && split[1] == "vcxproj" && split[2] == "user" then false
    else true
  }

  /** `can_touch_working_file`: every non-file is accepted; a file is rejected iff it
      is a project file. */
  function CanTouchWorkingFile(fs: FileSystem, p: Path): (r: bool)
    ensures r <==> !(IsFile(fs, p) && IsProjectFileName(Name(p)))
  {
    if !IsFile(fs, p) then true else CanTouchWorkingFileName(Name(p))
  }

  /** `can_touch_working_directory`: every non-directory is accepted; a directory is
      rejected iff its name is exactly Debug, Release or x64. */
  function CanTouchWorkingDirectory(fs: FileSystem, p: Path): (r: bool)
    ensures r <==> !(IsDirectory(fs, p) && IsBuildDirectoryName(Name(p)))
  {
    if !IsDirectory(fs, p) then true
    else
      var dirName := Name(p);
      if dirName == "Debug" then false
      else if dirName == "Release" then false
      else if dirName == "x64" then false
      else true
  }

  /** `can_touch_working`: both working-side rules. */
  function CanTouchWorking(fs: FileSystem, p: Path): (r: bool)
    ensures r <==> !(IsFile(fs, p) && IsProjectFileName(Name(p))) && !(IsDirectory(fs, p) && IsBuildDirectoryName(Name(p)))
  {
    CanTouchWorkingDirectory(fs, p) && CanTouchWorkingFile(fs, p)
  }

  /** `can_touch_git_directory`: only a directory named `.git` is rejected. */
  function CanTouchGitDirectory(fs: FileSystem, p: Path): (r: bool)
    ensures !r <==> IsDirectory(fs, p) && Name(p) == ".git"
  {
    !(IsDirectory(fs, p) && Name(p) == ".git")
  }

  /** The git-side rule looks at the entry alone: it refuses a `.git` directory
      but admits everything inside one that is not itself a `.git` directory, so
      every file of the repository metadata passes it. */
  lemma GitRuleAdmitsMetadata(fs: FileSystem, g: Path, q: Path)
    requires IsDirectory(fs, g) && Name(g) == ".git" && g < q
    ensures !CanTouchGitDirectory(fs, g)
    ensures IsFile(fs, q) ==> CanTouchGitDirectory(fs, q)
    ensures CanTouchGitDirectory(fs, q) <==> !(IsDirectory(fs, q) && Name(q) == ".git")
  {
  }

  /** `can_touch(path, push)`: the git-side rule when `push` holds, else the working-side rule. */
  function CanTouch(fs: FileSystem, p: Path, push: bool): (r: bool)
    ensures push ==> (r <==> CanTouchGitDirectory(fs, p))
    ensures !push ==> (r <==> CanTouchWorking(fs, p))
  {
    if push then CanTouchGitDirectory(fs, p) else CanTouchWorking(fs, p)
  }

  /** Position of the last `c` in `s`. */
  function LastIndexOf(s: string, c: char): (i: nat)
    requires c in s
    ensures i < |s| && s[i] == c && c !in s[i + 1..]
  {
    if s[|s| - 1] == c then |s| - 1
    else
      assert c in s[..|s| - 1] by {
        var k :| 0 <= k < |s| && s[k] == c;
        assert s[..|s| - 1][k] == c;
      }
      var i := LastIndexOf(s[..|s| - 1], c);
      assert s[i + 1..] == s[..|s| - 1][i + 1..] + [s[|s| - 1]];
      i
  }

  /** `get_file_name`: the name without its last extension. */
  function FileStem(name: string): string
  {
    if '.' !in name then name else name[..LastIndexOf(name, '.')]
  }

  /** `get_file_extension`: what follows the last dot, or nothing. */
  function FileExtension(name: string): string
  {
    if '.' !in name then "" else name[LastIndexOf(name, '.') + 1..]
  }

  /** A file directly inside a project directory that marks it as a working directory. */
  predicate IsProjectMarker(fs: FileSystem, q: Path, projectName: string)
  {
    IsFile(fs, q) && FileStem(Name(q)) == projectName && FileExtension(Name(q)) == "vcxproj"
  }

  /** A name whose stem and extension are `projectName` and "vcxproj" is
      `<projectName>.vcxproj`. */
  lemma MarkerNameSplits(name: string, projectName: string)
    requires '.' in name && FileStem(name) == projectName && FileExtension(name) == "vcxproj"
    ensures name == projectName + ".vcxproj"
  {
    var i := LastIndexOf(name, '.');
    assert name == name[..i] + "." + name[i + 1..];
  }

  /** The last dot of `a.b`, for a dot-free `b`, is the one after `a`. */
  lemma LastDotSplits(a: string, b: string)
    requires '.' !in b
    ensures var name := a + "." + b;
      '.' in name && FileStem(name) == a && FileExtension(name) == b
  {
    var name := a + "." + b;
    assert name[|a|] == '.';
    assert name[..|a|] == a && name[|a| + 1..] == b;
  }

  /** `<projectName>.vcxproj` has that stem and extension. */
  lemma MarkerNameJoins(projectName: string)
    ensures var name := projectName + ".vcxproj";
      '.' in name && FileStem(name) == projectName && FileExtension(name) == "vcxproj"
  {
    assert projectName + ".vcxproj" == projectName + "." + "vcxproj";
    LastDotSplits(projectName, "vcxproj");
  }

  /** The marker test reads as: the file is named `<projectName>.vcxproj`. */
  lemma MarkerIsProjectFile(fs: FileSystem, q: Path, projectName: string)
    ensures IsProjectMarker(fs, q, projectName) <==> IsFile(fs, q) && Name(q) == projectName + ".vcxproj"
  {
    var name := Name(q);
    MarkerNameJoins(projectName);
    if '.' in name && FileStem(name) == projectName && FileExtension(name) == "vcxproj" {
      MarkerNameSplits(name, projectName);
    }
  }

  /** Some entry of the listing is the project marker. */
  predicate HasProjectFile(fs: FileSystem, listing: seq<Path>, projectName: string)
  {
    exists i :: 0 <= i < |listing| && IsProjectMarker(fs, listing[i], projectName)
  }

  /** What `is_valid_working_directory` decides. */
  predicate ValidWorkingDirectory(host: Host, fs: FileSystem, p: Path)
  {
    HasProjectFile(fs, host.list(fs, p), Name(p))
  }

  /** A project file directly inside `p`. */
  predicate HasProjectChild(fs: FileSystem, p: Path)
  {
    exists q :: q in Children(fs, p) && IsFile(fs, q) && Name(q) == Name(p) + ".vcxproj"
  }

  /** A marker found in the listing is a project file inside `p`. */
  lemma MarkerInListing(host: Host, fs: FileSystem, p: Path, i: nat)
    requires forall q :: q in host.list(fs, p) <==> q in Children(fs, p)
    requires i < |host.list(fs, p)| && IsProjectMarker(fs, host.list(fs, p)[i], Name(p))
    ensures HasProjectChild(fs, p)
  {
    var q := host.list(fs, p)[i];
    MarkerIsProjectFile(fs, q, Name(p));
    assert q in host.list(fs, p);
  }

  /** A project file inside `p` is a marker in the listing. */
  lemma ChildInListing(host: Host, fs: FileSystem, p: Path, q: Path)
    requires forall q :: q in host.list(fs, p) <==> q in Children(fs, p)
    requires q in Children(fs, p) && IsFile(fs, q) && Name(q) == Name(p) + ".vcxproj"
    ensures ValidWorkingDirectory(host, fs, p)
  {
    var listing := host.list(fs, p);
    MarkerIsProjectFile(fs, q, Name(p));
    assert q in listing;
    var i :| 0 <= i < |listing| && listing[i] == q;
    assert IsProjectMarker(fs, listing[i], Name(p));
  }

  /** With an honest listing: valid iff `p` directly contains `<name of p>.vcxproj`. */
  lemma ValidWorkingDirectoryMeans(host: Host, fs: FileSystem, p: Path)
    requires forall q :: q in host.list(fs, p) <==> q in Children(fs, p)
    ensures ValidWorkingDirectory(host, fs, p) <==> HasProjectChild(fs, p)
  {
    if ValidWorkingDirectory(host, fs, p) {
      var i :| 0 <= i < |host.list(fs, p)| && IsProjectMarker(fs, host.list(fs, p)[i], Name(p));
      MarkerInListing(host, fs, p, i);
    }
    if HasProjectChild(fs, p) {
      var q :| q in Children(fs, p) && IsFile(fs, q) && Name(q) == Name(p) + ".vcxproj";
      ChildInListing(host, fs, p, q);
    }
  }

  /** `is_valid_working_directory`: scans the listing and stops at the first marker. */
  method IsValidWorkingDirectory(host: Host, fs: FileSystem, p: Path) returns (valid: bool)
    ensures valid == ValidWorkingDirectory(host, fs, p)
  {
    var list := host.list(fs, p);
    var projectName := Name(p);
    for i := 0 to |list|
      invariant forall j :: 0 <= j < i ==> !IsProjectMarker(fs, list[j], projectName)
    {
      if IsFile(fs, list[i]) {
        if FileStem(Name(list[i])) == projectName && FileExtension(Name(list[i])) == "vcxproj" {
          return true;
        }
      }
    }
    return false;
  }
}
