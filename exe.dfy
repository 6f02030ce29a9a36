/** Executable promotion of exe.hpp: on push, the newest of the four build outputs of
    a project is copied next to the project as `<parent name>.exe`. */
module Executable {
  import opened Files
  import opened State
  import opened Environment
  import opened Wrappers

  /** The build outputs searched, in order: x64/Release, x64/Debug, then the project's
      own Release and Debug directories, each holding `<project>.exe`. */
  function Candidates(path: Path): (c: seq<Path>)
    ensures |c| == 4
    ensures forall i :: 0 <= i < 4 ==> |c[i]| == |Parent(path)| + 3 && c[i][..|Parent(path)|] == Parent(path)
  {
    var parent, project := Parent(path), Name(path);
    [parent + ["x64", "Release", project + ".exe"],
     parent + ["x64", "Debug", project + ".exe"],
     parent + [project, "Release", project + ".exe"],
     parent + [project, "Debug", project + ".exe"]]
  }

  /** The last-write time as it is stored: the tick count converted to an unsigned
      64-bit size. */
  function Stamp(n: Node): nat
  {
    Time(n) % 0x1_0000_0000_0000_0000
  }

  /** The newest existing candidate; among equally new ones the later in search order. */
  function MostRecent(fs: FileSystem, cands: seq<Path>): (r: Option<Path>)
    ensures r.None? <==> forall i :: 0 <= i < |cands| ==> cands[i] !in fs
    ensures r.Some? ==> r.value in cands && r.value in fs
    ensures r.Some? ==> forall i :: 0 <= i < |cands| && cands[i] in fs ==> Stamp(fs[cands[i]]) <= Stamp(fs[r.value])
    decreases |cands|
  {
    if cands == [] then None
    else
      var best := MostRecent(fs, cands[..|cands| - 1]);
      var c := cands[|cands| - 1];
      assert forall i :: 0 <= i < |cands| - 1 ==> cands[i] == cands[..|cands| - 1][i];
      if c !in fs then best
      else if best.None? then Some(c)
      else if Stamp(fs[c]) >= Stamp(fs[best.value]) then Some(c)
      else best
  }

  /** `get_most_recent_exe`. */
  function MostRecentExe(fs: FileSystem, path: Path): Option<Path>
  {
    MostRecent(fs, Candidates(path))
  }

  /** Where the executable is promoted to: `<parent>/<project>/<parent name>.exe`. */
  function ExeDestination(path: Path): (d: Path)
    ensures |d| == |Parent(path)| + 2
  {
    Parent(path) + [Name(path), Name(Parent(path)) + ".exe"]
  }

  /** The state `exe` leaves: the filesystem and the history. */
  datatype Promotion = Promotion(fs: FileSystem, history: History)

  /** `exe(path, state, history)`. */
  function Promote(fs: FileSystem, history: History, path: Path, st: RunState): (r: Promotion)
    ensures st.action != Action.Push || MostRecentExe(fs, path).None? ==> r == Promotion(fs, history)
    ensures st.checkMode ==> r.fs == fs
    ensures r.history == history || r.history == history.(moveChanges := true)
    ensures forall q :: q != ExeDestination(path) ==> (q in r.fs <==> q in fs) && (q in r.fs ==> r.fs[q] == fs[q])
    ensures st.action == Action.Push && MostRecentExe(fs, path).Some? ==>
      var target, dest := MostRecentExe(fs, path).value, ExeDestination(path);
      (dest in fs && Content(fs[target]) == Content(fs[dest]) ==> r == Promotion(fs, history))
      && (!(dest in fs && Content(fs[target]) == Content(fs[dest])) ==> r.history.moveChanges)
      && (!st.checkMode ==> dest in r.fs && Content(r.fs[dest]) == Content(fs[target]))
  {
    if st.action != Action.Push then Promotion(fs, history)
    else
      match MostRecentExe(fs, path)
      case None => Promotion(fs, history)
      case Some(target) =>
        var destination := ExeDestination(path);
        if destination in fs && Content(fs[target]) == Content(fs[destination]) then Promotion(fs, history)
        else
          Promotion(if st.checkMode then fs else fs[destination := fs[target]], history.(moveChanges := true))
  }

  /** `exe`: promotes the newest build output unless the destination already holds
      the same bytes. */
  method Exe(w: World, history: History, path: Path, st: RunState) returns (updated: History)
    modifies w`fs
    ensures Promotion(w.fs, updated) == Promote(old(w.fs), history, path, st)
  {
    updated := history;
    if st.action != Action.Push {
      return;
    }
    var optionalLatest := MostRecentExe(w.fs, path);
    if optionalLatest.None? {
      return;
    }
    var targetExe := optionalLatest.value;
    var destination := ExeDestination(path);
    if destination in w.fs && Content(w.fs[targetExe]) == Content(w.fs[destination]) {
      return;
    }
    updated := updated.(moveChanges := true);
    if !st.checkMode {
      w.fs := w.fs[destination := w.fs[targetExe]];
    }
  }

  /** The search does not look at entries outside the candidate list. */
  lemma {:induction false} MostRecentFrame(fs: FileSystem, cands: seq<Path>, q: Path, n: Node)
    requires q !in cands
    ensures MostRecent(fs[q := n], cands) == MostRecent(fs, cands)
    decreases |cands|
  {
    if cands != [] {
      var init := cands[..|cands| - 1];
      assert forall x :: x in init ==> x in cands;
      MostRecentFrame(fs, init, q, n);
    }
  }

  /** Promotion is idempotent: once applied, a second run finds the destination equal
      to the newest build and changes nothing. */
  lemma PromoteIdempotent(fs: FileSystem, history: History, path: Path, st: RunState)
    requires !st.checkMode
    ensures var once := Promote(fs, history, path, st);
      Promote(once.fs, once.history, path, st) == once
  {
    var once := Promote(fs, history, path, st);
    if st.action == Action.Push && MostRecentExe(fs, path).Some? {
      var target, dest := MostRecentExe(fs, path).value, ExeDestination(path);
      assert dest !in Candidates(path);
      if once.fs != fs {
        assert once.fs == fs[dest := fs[target]];
        MostRecentFrame(fs, Candidates(path), dest, fs[target]);
      }
    }
  }
}
