/** The mirror engine of move.hpp: it walks the source tree into the destination
    tree entry by entry (create, overwrite, leave alone), records each visited
    destination in the global `checked` set, classifies overwrites of newer files,
    and then removes the destination entries that were not visited.

    Each step is specified by a function over `Pass` (the filesystem, the `checked`
    set, the change tally and the history); the methods do the work step by step and
    are proved to produce exactly that function's result. */
module Mirror {
  import opened Files
  import opened State
  import opened Environment
  import opened Access

  /** What a mirror pass reads and writes. */
  datatype Pass = Pass(fs: FileSystem, checked: set<Path>, total: nat, history: History)

  function Snapshot(w: World, history: History): Pass
    reads w
  {
    Pass(w.fs, w.checked, w.totalChangeSum, history)
  }

  /** Why an existing destination file is overwritten (the three reports of move.hpp). */
  datatype Reason = SizeChanged | TimeChanged | ContentChanged

  /** What one `perform_move` step reports for its destination. */
  datatype Outcome = Ignored | Unchanged | Created | Overwritten(reason: Reason)
  {
    predicate Changes() { Created? || Overwritten? }
  }

  /** The comparison `perform_move` uses: the no-read one in quick mode. */
  function Same(host: Host, st: RunState, s: Node, d: Node): bool
  {
    if st.quickMode then host.equalsNoRead(s, d) else host.equals(s, d)
  }

  /** `file_content_equals`: byte-wise equality of two existing entries. */
  predicate SameContent(fs: FileSystem, a: Path, b: Path)
    requires a in fs && b in fs
  {
    Content(fs[a]) == Content(fs[b])
  }

  /** The outcome of mirroring `source` onto `destination`. */
  function Classify(host: Host, fs: FileSystem, source: Path, destination: Path, st: RunState): (o: Outcome)
    requires source in fs
    ensures o == Ignored <==> host.ignored(source)
    ensures o == Created <==> !host.ignored(source) && destination !in fs
    ensures o.Overwritten? <==> (!host.ignored(source) && IsFile(fs, source) && destination in fs
                                 && !Same(host, st, fs[source], fs[destination]))
    ensures o == Overwritten(SizeChanged) ==> Size(fs[source]) != Size(fs[destination])
    ensures o == Overwritten(TimeChanged) ==> Size(fs[source]) == Size(fs[destination]) && Time(fs[source]) != Time(fs[destination])
    ensures o == Overwritten(ContentChanged) ==> Size(fs[source]) == Size(fs[destination]) && Time(fs[source]) == Time(fs[destination])
  {
    if host.ignored(source) then Ignored
    else if IsDirectory(fs, source) then (if destination in fs then Unchanged else Created)
    else if destination !in fs then Created
    else if Same(host, st, fs[source], fs[destination]) then Unchanged
    else if Size(fs[source]) != Size(fs[destination]) then Overwritten(SizeChanged)
    else if Time(fs[source]) != Time(fs[destination]) then Overwritten(TimeChanged)
    else Overwritten(ContentChanged)
  }

  /** A collision is recorded only when collisions are searched for, the files are
      unequal and the destination is strictly newer than the source. */
  predicate IsCollision(host: Host, fs: FileSystem, source: Path, destination: Path, st: RunState)
    requires source in fs
  {
    st.findCollisions && Classify(host, fs, source, destination, st).Overwritten?
    && Time(fs[destination]) > Time(fs[source])
  }

  /** What a copy leaves at the destination: a new directory, or the source file. */
  function Copied(fs: FileSystem, source: Path): Node
    requires source in fs
  {
    if IsDirectory(fs, source) then Directory else fs[source]
  }

  /** Number of entries in the three collision lists. */
  function Recorded(h: History): nat
  {
    |h.timeOverwrites| + |h.dataOverwrites| + |h.removes|
  }

  /** `r` continues `p`: the collision lists only grew, the tally grew by exactly the
      number of new records, and git_changes was not touched. */
  predicate Extends(p: Pass, r: Pass)
  {
    && p.history.timeOverwrites <= r.history.timeOverwrites
    && p.history.dataOverwrites <= r.history.dataOverwrites
    && p.history.removes <= r.history.removes
    && r.history.gitChanges == p.history.gitChanges
    && r.total as int - p.total == Recorded(r.history) - Recorded(p.history)
  }

  lemma ExtendsTrans(p: Pass, q: Pass, r: Pass)
    requires Extends(p, q) && Extends(q, r)
    ensures Extends(p, r)
  {
  }

  /** The destinations of a listing grow by the destination of its last entry. */
  lemma DestinationsSnoc(sources: seq<Path>, branch: nat, name: string)
    requires sources != []
    ensures (set q | q in sources :: WithBranch(q, branch, name))
         == (set q | q in sources[..|sources| - 1] :: WithBranch(q, branch, name))
            + {WithBranch(sources[|sources| - 1], branch, name)}
  {
    assert sources == sources[..|sources| - 1] + [sources[|sources| - 1]];
  }

  /** One `perform_move(source, destination)`. */
  function Touch(p: Pass, host: Host, source: Path, destination: Path, st: RunState): (r: Pass)
    requires source in p.fs
    ensures r.checked == p.checked + {destination}
    ensures p.fs.Keys <= r.fs.Keys
    ensures st.checkMode ==> r.fs == p.fs
    ensures forall q :: q in r.fs && q != destination ==> q in p.fs && r.fs[q] == p.fs[q]
    ensures !Classify(host, p.fs, source, destination, st).Changes() ==>
              r.fs == p.fs && r.history == p.history && r.total == p.total
    ensures Classify(host, p.fs, source, destination, st).Changes() ==> r.history.moveChanges
    ensures Classify(host, p.fs, source, destination, st).Changes() && !st.checkMode ==>
              r.fs == p.fs[destination := Copied(p.fs, source)]
    ensures r.history.removes == p.history.removes && Extends(p, r)
    ensures r.total == p.total + (if IsCollision(host, p.fs, source, destination, st) then 1 else 0)
    ensures r.history.timeOverwrites == p.history.timeOverwrites
              + (if IsCollision(host, p.fs, source, destination, st) && SameContent(p.fs, source, destination)
                 then [destination] else [])
    ensures r.history.dataOverwrites == p.history.dataOverwrites
              + (if IsCollision(host, p.fs, source, destination, st) && !SameContent(p.fs, source, destination)
                 then [destination] else [])
  {
    var o := Classify(host, p.fs, source, destination, st);
    var h := p.history;
    var collision := IsCollision(host, p.fs, source, destination, st);
    var h1 :=
      if !collision then h
      else if SameContent(p.fs, source, destination) then h.(timeOverwrites := h.timeOverwrites + [destination])
      else h.(dataOverwrites := h.dataOverwrites + [destination]);
    var h2 := if o.Changes() then h1.(moveChanges := true) else h1;
    var fs := if o.Changes() && !st.checkMode then p.fs[destination := Copied(p.fs, source)] else p.fs;
    Pass(fs, p.checked + {destination}, p.total + (if collision then 1 else 0), h2)
  }

  /** `perform_move`: mirrors one source entry onto its destination. */
  method PerformMove(w: World, history: History, source: Path, destination: Path, st: RunState)
    returns (updated: History, outcome: Outcome)
    requires source in w.fs
    modifies w`fs, w`checked, w`totalChangeSum
    ensures Snapshot(w, updated) == Touch(old(Snapshot(w, history)), w.host, source, destination, st)
    ensures outcome == Classify(w.host, old(w.fs), source, destination, st)
  {
    updated := history;
    if w.host.ignored(source) {
      w.checked := w.checked + {destination};
      return updated, Ignored;
    }
    if IsDirectory(w.fs, source) {
      outcome := Unchanged;
      if destination !in w.fs {
        updated := updated.(moveChanges := true);
        outcome := Created;
        if !st.checkMode {
          w.fs := w.fs[destination := Directory];
        }
      }
      w.checked := w.checked + {destination};
      return;
    }
    updated, outcome := MoveFile(w, history, source, destination, st);
  }

  /** The file branch of `perform_move`. */
  method MoveFile(w: World, history: History, source: Path, destination: Path, st: RunState)
    returns (updated: History, outcome: Outcome)
    requires source in w.fs && !w.host.ignored(source) && IsFile(w.fs, source)
    modifies w`fs, w`checked, w`totalChangeSum
    ensures Snapshot(w, updated) == Touch(old(Snapshot(w, history)), w.host, source, destination, st)
    ensures outcome == Classify(w.host, old(w.fs), source, destination, st)
  {
    w.checked := w.checked + {destination};
    var src := w.fs[source];
    if destination in w.fs {
      var dst := w.fs[destination];
      var equals;
      if st.quickMode {
        equals := w.host.equalsNoRead(src, dst);
      } else {
        equals := w.host.equals(src, dst);
      }
      if equals {
        return history, Unchanged;
      }
      updated, outcome := OverwriteFile(w, history, source, destination, st);
    } else {
      updated := history.(moveChanges := true);
      outcome := Created;
      if !st.checkMode {
        w.fs := w.fs[destination := src];
      }
    }
  }

  /** An existing, unequal destination file: the collision is recorded, then the
      source is copied over it for the first difference found. */
  method OverwriteFile(w: World, history: History, source: Path, destination: Path, st: RunState)
    returns (updated: History, outcome: Outcome)
    requires source in w.fs && destination in w.fs && !w.host.ignored(source) && IsFile(w.fs, source)
    requires !Same(w.host, st, w.fs[source], w.fs[destination])
    requires destination in w.checked
    modifies w`fs, w`totalChangeSum
    ensures Snapshot(w, updated) == Touch(old(Snapshot(w, history)), w.host, source, destination, st)
    ensures outcome == Classify(w.host, old(w.fs), source, destination, st)
  {
    var src, dst := w.fs[source], w.fs[destination];
    var fs1, fs2 := Size(src), Size(dst);
    var time1, time2 := Time(src), Time(dst);
    updated := RecordCollision(w, history, src, dst, destination, st);
    updated := updated.(moveChanges := true);
    if fs1 != fs2 {
      outcome := Overwritten(SizeChanged);
    } else if time1 != time2 {
      outcome := Overwritten(TimeChanged);
    } else {
      outcome := Overwritten(ContentChanged);
    }
    if !st.checkMode {
      w.fs := w.fs[destination := src];
    }
  }

  /** The collision test of `perform_move` for unequal files: a strictly newer
      destination is a benign time-overwrite when the bytes agree, a data overwrite
      otherwise. */
  method RecordCollision(w: World, history: History, src: Node, dst: Node, destination: Path, st: RunState)
    returns (updated: History)
    modifies w`totalChangeSum
    ensures var collision := st.findCollisions && Time(dst) > Time(src);
      && w.totalChangeSum == old(w.totalChangeSum) + (if collision then 1 else 0)
      && updated == (if !collision then history
                     else if Content(src) == Content(dst) then history.(timeOverwrites := history.timeOverwrites + [destination])
                     else history.(dataOverwrites := history.dataOverwrites + [destination]))
  {
    updated := history;
    if st.findCollisions {
      var overwritesNewer := Time(dst) > Time(src);
      var differentTimeButSameData := overwritesNewer && Content(src) == Content(dst);
      if overwritesNewer {
        if differentTimeButSameData {
          updated := updated.(timeOverwrites := updated.timeOverwrites + [destination]);
          w.totalChangeSum := w.totalChangeSum + 1;
        } else {
          updated := updated.(dataOverwrites := updated.dataOverwrites + [destination]);
          w.totalChangeSum := w.totalChangeSum + 1;
        }
      }
    }
  }

  /** A destination entry `clear_path` removes: not ignored, present, not visited. */
  predicate Removable(p: Pass, host: Host, q: Path)
  {
    !host.ignored(q) && q in p.fs && q !in p.checked
  }

  /** One `clear_path(q)`. */
  function ClearOne(p: Pass, host: Host, q: Path, st: RunState): (r: Pass)
    ensures r.checked == p.checked
    ensures r.fs.Keys <= p.fs.Keys && forall x :: x in r.fs ==> r.fs[x] == p.fs[x]
    ensures st.checkMode ==> r.fs == p.fs
    ensures !Removable(p, host, q) ==> r == p
    ensures Removable(p, host, q) ==> r.history.moveChanges && r.total == p.total + 1
                                      && r.history.removes == p.history.removes + [q]
    ensures Removable(p, host, q) && !st.checkMode ==> r.fs == RemoveTree(p.fs, q)
    ensures r.history.timeOverwrites == p.history.timeOverwrites
    ensures r.history.dataOverwrites == p.history.dataOverwrites
    ensures Extends(p, r)
  {
    if host.ignored(q) then p
    else if q !in p.fs then p
    else if q in p.checked then p
    else
      Pass(if st.checkMode then p.fs else RemoveTree(p.fs, q), p.checked, p.total + 1,
           p.history.(moveChanges := true, removes := p.history.removes + [q]))
  }

  /** `clear_path`. */
  method ClearPath(w: World, history: History, q: Path, st: RunState) returns (updated: History)
    modifies w`fs, w`totalChangeSum
    ensures Snapshot(w, updated) == ClearOne(old(Snapshot(w, history)), w.host, q, st)
  {
    updated := history;
    if w.host.ignored(q) {
      return;
    }
    if q !in w.fs {
      return;
    }
    if q !in w.checked {
      updated := updated.(moveChanges := true, removes := updated.removes + [q]);
      w.totalChangeSum := w.totalChangeSum + 1;
      if !st.checkMode {
        w.fs := RemoveTree(w.fs, q);
      }
    }
  }

  /** Applies `clear_path` to each listed path in order. */
  function ClearAll(p: Pass, host: Host, qs: seq<Path>, st: RunState): (r: Pass)
    ensures r.checked == p.checked
    ensures r.fs.Keys <= p.fs.Keys && forall x :: x in r.fs ==> r.fs[x] == p.fs[x]
    ensures st.checkMode ==> r.fs == p.fs
    ensures Extends(p, r)
    ensures r.history.timeOverwrites == p.history.timeOverwrites
    ensures r.history.dataOverwrites == p.history.dataOverwrites
    ensures forall i :: |p.history.removes| <= i < |r.history.removes| ==>
              r.history.removes[i] in qs && r.history.removes[i] !in r.checked
    ensures forall x :: x in p.fs && x !in r.fs ==> exists i :: 0 <= i < |qs| && qs[i] <= x
    decreases |qs|
  {
    if qs == [] then p
    else
      var mid := ClearAll(p, host, qs[..|qs| - 1], st);
      var r := ClearOne(mid, host, qs[|qs| - 1], st);
      assert forall x :: x in p.fs && x !in r.fs ==> exists i :: 0 <= i < |qs| && qs[i] <= x by {
        forall x | x in p.fs && x !in r.fs ensures exists i :: 0 <= i < |qs| && qs[i] <= x {
          if x in mid.fs {
            assert qs[|qs| - 1] <= x;
          } else {
            var i :| 0 <= i < |qs| - 1 && qs[..|qs| - 1][i] <= x;
            assert qs[i] <= x;
          }
        }
      }
      r
  }

  /** `clear_paths`: a directory is cleared together with everything below it, in the
      order its tree listing gives; anything else is cleared alone. */
  function ClearPathsSpec(p: Pass, host: Host, e: Path, st: RunState): (r: Pass)
  {
    if IsDirectory(p.fs, e) then ClearAll(p, host, host.tree(p.fs, e), st) else ClearOne(p, host, e, st)
  }

  method ClearPaths(w: World, history: History, e: Path, st: RunState) returns (updated: History)
    modifies w`fs, w`totalChangeSum
    ensures Snapshot(w, updated) == ClearPathsSpec(old(Snapshot(w, history)), w.host, e, st)
  {
    if IsDirectory(w.fs, e) {
      var paths := w.host.tree(w.fs, e);
      ghost var p0 := Snapshot(w, history);
      updated := history;
      for i := 0 to |paths|
        invariant Snapshot(w, updated) == ClearAll(p0, w.host, paths[..i], st)
      {
        assert paths[..i + 1][..i] == paths[..i];
        updated := ClearPath(w, updated, paths[i], st);
      }
      assert paths[..|paths|] == paths;
    } else {
      updated := ClearPath(w, history, e, st);
    }
  }

  /** One entry of `find_removables`: a visited file is skipped, an entry the
      destination side may not touch is left alone, anything else is cleared. */
  function RemovablesStep(p: Pass, host: Host, e: Path, push: bool, st: RunState): (r: Pass)
    ensures Extends(p, r)
    ensures r.checked == p.checked
    ensures r.fs.Keys <= p.fs.Keys && forall x :: x in r.fs ==> r.fs[x] == p.fs[x]
  {
    if IsFile(p.fs, e) && e in p.checked then p
    else if CanTouch(p.fs, e, push) then ClearPathsSpec(p, host, e, st)
    else p
  }

  /** `find_removables` over the listing of the destination root. */
  function Removables(p: Pass, host: Host, entries: seq<Path>, push: bool, st: RunState): (r: Pass)
    ensures r.checked == p.checked
    ensures r.fs.Keys <= p.fs.Keys && forall x :: x in r.fs ==> r.fs[x] == p.fs[x]
    ensures st.checkMode ==> r.fs == p.fs
    ensures Extends(p, r)
    ensures r.history.timeOverwrites == p.history.timeOverwrites
    ensures r.history.dataOverwrites == p.history.dataOverwrites
    ensures forall i :: |p.history.removes| <= i < |r.history.removes| ==> r.history.removes[i] !in r.checked
    decreases |entries|
  {
    if entries == [] then p
    else RemovablesStep(Removables(p, host, entries[..|entries| - 1], push, st), host, entries[|entries| - 1], push, st)
  }

  /** `find_removables`. */
  method FindRemovables(w: World, history: History, root: Path, st: RunState) returns (updated: History)
    modifies w`fs, w`totalChangeSum
    ensures Snapshot(w, updated) == Removables(old(Snapshot(w, history)), w.host, old(w.host.list(w.fs, root)), st.action == Action.Push, st)
  {
    var paths := w.host.list(w.fs, root);
    ghost var p0 := Snapshot(w, history);
    updated := history;
    for i := 0 to |paths|
      invariant Snapshot(w, updated) == Removables(p0, w.host, paths[..i], st.action == Action.Push, st)
    {
      assert paths[..i + 1][..i] == paths[..i];
      var e := paths[i];
      if IsFile(w.fs, e) && e in w.checked {
        continue;
      }
      if CanTouch(w.fs, e, st.action == Action.Push) {
        updated := ClearPaths(w, updated, e, st);
      }
    }
    assert paths[..|paths|] == paths;
  }

  /** Mirrors every entry of a source subtree listing onto its counterpart. */
  function WalkTree(p: Pass, host: Host, sources: seq<Path>, branch: nat, name: string, st: RunState): (r: Pass)
    requires forall q :: q in sources ==> q in p.fs
    ensures p.fs.Keys <= r.fs.Keys
    ensures st.checkMode ==> r.fs == p.fs
    ensures r.checked == p.checked + set q | q in sources :: WithBranch(q, branch, name)
    ensures r.history.removes == p.history.removes && Extends(p, r)
    decreases |sources|
  {
    if sources == [] then p
    else
      var init := sources[..|sources| - 1];
      var last := sources[|sources| - 1];
      assert forall q :: q in init ==> q in sources;
      var mid := WalkTree(p, host, init, branch, name, st);
      var r := Touch(mid, host, last, WithBranch(last, branch, name), st);
      DestinationsSnoc(sources, branch, name);
      ExtendsTrans(p, mid, r);
      r
  }

  /** One top-level entry of the walk in `move`: an entry the source side may not
      touch is skipped, a directory is mirrored with its whole subtree, anything else
      alone. */
  function WalkEntry(p: Pass, host: Host, e: Path, branch: nat, name: string, targetIsWork: bool, st: RunState): (r: Pass)
    requires ValidHost(host) && e in p.fs
    ensures p.fs.Keys <= r.fs.Keys
    ensures st.checkMode ==> r.fs == p.fs
    ensures p.checked <= r.checked
    ensures CanTouch(p.fs, e, targetIsWork) ==> WithBranch(e, branch, name) in r.checked
    ensures r.history.removes == p.history.removes && Extends(p, r)
  {
    if !CanTouch(p.fs, e, targetIsWork) then p
    else if IsDirectory(p.fs, e) then
      assert e in Tree(p.fs, e);
      WalkTree(p, host, host.tree(p.fs, e), branch, name, st)
    else Touch(p, host, e, WithBranch(e, branch, name), st)
  }

  /** The walk of `move` over the listing of the source root. */
  function WalkAll(p: Pass, host: Host, entries: seq<Path>, branch: nat, name: string, targetIsWork: bool, st: RunState): (r: Pass)
    requires ValidHost(host) && forall e :: e in entries ==> e in p.fs
    ensures p.fs.Keys <= r.fs.Keys
    ensures st.checkMode ==> r.fs == p.fs
    ensures p.checked <= r.checked
    ensures r.history.removes == p.history.removes && Extends(p, r)
    decreases |entries|
  {
    if entries == [] then p
    else
      var init := entries[..|entries| - 1];
      assert forall e :: e in init ==> e in entries;
      WalkEntry(WalkAll(p, host, init, branch, name, targetIsWork, st), host, entries[|entries| - 1], branch, name, targetIsWork, st)
  }

  /** Why `move` stopped before walking, or that it mirrored. */
  datatype MoveResult = Missing | NotWorkingDirectory | NoGitDirectory | Mirrored

  function MoveResultOf(host: Host, fs: FileSystem, path: Path): MoveResult
  {
    if path !in fs then Missing
    else if !ValidWorkingDirectory(host, fs, path) then NotWorkingDirectory
    else if !host.hasGitDirectory(fs, Parent(path)) then NoGitDirectory
    else Mirrored
  }

  /** The root the walk reads: the working directory on push, its `git` sibling on pull. */
  function SourceRoot(path: Path, action: Action): Path
  {
    if action == Action.Pull then WithBranch(path, LastBranch(path), "git") else path
  }

  /** The name the last root segment is replaced with to reach the destination. */
  function TargetName(path: Path, action: Action): string
  {
    if action == Action.Pull then Name(path) else "git"
  }

  /** The pass state once `move` has cleared `checked` and `move_changes`. */
  function Start(p: Pass): Pass
  {
    Pass(p.fs, {}, p.total, p.history.(moveChanges := false))
  }

  /** The walk of `move` once its guards have passed. */
  function Walked(p: Pass, host: Host, path: Path, st: RunState): (r: Pass)
    requires ValidHost(host)
  {
    var start := Start(p);
    WalkAll(start, host, host.list(start.fs, SourceRoot(path, st.action)), LastBranch(path),
            TargetName(path, st.action), st.action == Action.Pull, st)
  }

  /** The root the removal pass lists: the counterpart of the working directory. */
  function DestinationRoot(path: Path, action: Action): Path
  {
    WithBranch(path, LastBranch(path), TargetName(path, action))
  }

  /** `move(path, state)`: the whole mirror of one working directory. */
  function MoveSpec(p: Pass, host: Host, path: Path, st: RunState): (r: Pass)
    requires ValidHost(host)
    ensures MoveResultOf(host, p.fs, path) != Mirrored ==> r == p
    ensures st.checkMode ==> r.fs == p.fs
    ensures Extends(p, r)
    ensures forall i :: |p.history.removes| <= i < |r.history.removes| ==> r.history.removes[i] !in r.checked
  {
    if MoveResultOf(host, p.fs, path) != Mirrored then p
    else
      var walked := Walked(p, host, path, st);
      Removables(walked, host, host.list(walked.fs, DestinationRoot(path, st.action)), st.action == Action.Push, st)
  }

  /** The inner loop of `move` over one source subtree listing. */
  method WalkDirectory(w: World, history: History, sources: seq<Path>, branch: nat, name: string, st: RunState)
    returns (updated: History)
    requires forall q :: q in sources ==> q in w.fs
    modifies w`fs, w`checked, w`totalChangeSum
    ensures Snapshot(w, updated) == WalkTree(old(Snapshot(w, history)), w.host, sources, branch, name, st)
  {
    ghost var before := Snapshot(w, history);
    updated := history;
    for j := 0 to |sources|
      invariant Snapshot(w, updated) == WalkTree(before, w.host, sources[..j], branch, name, st)
    {
      assert sources[..j + 1][..j] == sources[..j];
      var destination := WithBranch(sources[j], branch, name);
      var outcome;
      updated, outcome := PerformMove(w, updated, sources[j], destination, st);
    }
    assert sources[..|sources|] == sources;
  }

  /** One top-level entry of the walk in `move`. */
  method MoveEntry(w: World, history: History, e: Path, branch: nat, name: string, targetIsWork: bool, st: RunState)
    returns (updated: History)
    requires ValidHost(w.host) && e in w.fs
    modifies w`fs, w`checked, w`totalChangeSum
    ensures Snapshot(w, updated) == WalkEntry(old(Snapshot(w, history)), w.host, e, branch, name, targetIsWork, st)
  {
    updated := history;
    if CanTouch(w.fs, e, targetIsWork) {
      if IsDirectory(w.fs, e) {
        var dirPaths := w.host.tree(w.fs, e);
        updated := WalkDirectory(w, updated, dirPaths, branch, name, st);
      } else {
        var destination := WithBranch(e, branch, name);
        var outcome;
        updated, outcome := PerformMove(w, updated, e, destination, st);
      }
    }
  }

  /** One more entry of the listing is one more `WalkEntry`. */
  lemma WalkAllSnoc(p: Pass, host: Host, entries: seq<Path>, i: nat, branch: nat, name: string, targetIsWork: bool, st: RunState)
    requires ValidHost(host) && forall e :: e in entries ==> e in p.fs
    requires i < |entries|
    ensures entries[i] in p.fs
    ensures forall e :: e in entries[..i + 1] ==> e in p.fs
    ensures WalkAll(p, host, entries[..i + 1], branch, name, targetIsWork, st)
         == WalkEntry(WalkAll(p, host, entries[..i], branch, name, targetIsWork, st), host, entries[i], branch, name, targetIsWork, st)
  {
    assert entries[i] in entries;
    assert entries[..i + 1][..i] == entries[..i];
  }

  /** Every listed entry exists. */
  lemma ListingExists(host: Host, fs: FileSystem, root: Path)
    requires ValidHost(host)
    ensures forall e :: e in host.list(fs, root) ==> e in fs
  {
  }

  /** The outer loop of `move` over the listing of the source root. */
  method WalkListing(w: World, history: History, root: Path, branch: nat, name: string, targetIsWork: bool, st: RunState)
    returns (updated: History)
    requires ValidHost(w.host)
    modifies w`fs, w`checked, w`totalChangeSum
    ensures Snapshot(w, updated) == WalkAll(old(Snapshot(w, history)), w.host, old(w.host.list(w.fs, root)), branch, name, targetIsWork, st)
  {
    var paths := w.host.list(w.fs, root);
    ghost var start := Snapshot(w, history);
    ListingExists(w.host, start.fs, root);
    updated := history;
    for i := 0 to |paths|
      invariant start.fs.Keys <= w.fs.Keys
      invariant Snapshot(w, updated) == WalkAll(start, w.host, paths[..i], branch, name, targetIsWork, st)
    {
      WalkAllSnoc(start, w.host, paths, i, branch, name, targetIsWork, st);
      updated := MoveEntry(w, updated, paths[i], branch, name, targetIsWork, st);
    }
    assert paths[..|paths|] == paths;
  }

  /** `move`: checks the directory, walks the source side into the destination side
      and removes what the walk did not visit. */
  method Move(w: World, history: History, path: Path, st: RunState) returns (updated: History, result: MoveResult)
    requires ValidHost(w.host)
    modifies w`fs, w`checked, w`totalChangeSum
    ensures result == MoveResultOf(w.host, old(w.fs), path)
    ensures Snapshot(w, updated) == MoveSpec(old(Snapshot(w, history)), w.host, path, st)
  {
    if path !in w.fs {
      return history, Missing;
    }
    var valid := IsValidWorkingDirectory(w.host, w.fs, path);
    if !valid {
      return history, NotWorkingDirectory;
    }
    if !w.host.hasGitDirectory(w.fs, Parent(path)) {
      return history, NoGitDirectory;
    }
    result := Mirrored;
    ghost var p0 := Snapshot(w, history);

    var targetIsWork := st.action == Action.Pull;
    var branch := LastBranch(path);
    var targetBranchName: string;
    var targetPath: Path;
    if st.action == Action.Pull {
      targetBranchName := Name(path);
      targetPath := WithBranch(path, branch, "git");
    } else {
      targetBranchName := "git";
      targetPath := path;
    }
    w.checked := {};
    updated := history.(moveChanges := false);
    ghost var start := Snapshot(w, updated);
    assert start == Start(p0);

    updated := WalkListing(w, updated, targetPath, branch, targetBranchName, targetIsWork, st);
    var gitPath := WithBranch(path, branch, targetBranchName);
    updated := FindRemovables(w, updated, gitPath, st);
  }

  /** Distinct entries of one directory have disjoint subtrees. */
  lemma SiblingsDisjoint(e: Path, g: Path, x: Path)
    requires |e| == |g| && e != g && e <= x
    ensures !(g <= x)
  {
  }

  /** Clearing the subtree of a sibling `e` spares `g` and everything below it. */
  lemma ClearTreeSpares(mid: Pass, host: Host, e: Path, st: RunState, g: Path)
    requires forall q :: q in host.tree(mid.fs, e) ==> e <= q
    requires |e| == |g| && e != g
    ensures var r := ClearAll(mid, host, host.tree(mid.fs, e), st);
      && (forall q :: g <= q && q in mid.fs ==> q in r.fs && r.fs[q] == mid.fs[q])
      && (forall i :: |mid.history.removes| <= i < |r.history.removes| ==> !(g <= r.history.removes[i]))
  {
    var qs := host.tree(mid.fs, e);
    var r := ClearAll(mid, host, qs, st);
    forall x | x in mid.fs && x !in r.fs ensures !(g <= x) {
      var i :| 0 <= i < |qs| && qs[i] <= x;
      assert qs[i] in qs;
      PrefixTrans(e, qs[i], x);
      SiblingsDisjoint(e, g, x);
    }
    forall i | |mid.history.removes| <= i < |r.history.removes| ensures !(g <= r.history.removes[i]) {
      SiblingsDisjoint(e, g, r.history.removes[i]);
    }
  }

  lemma PrefixTrans(a: Path, b: Path, c: Path)
    requires a <= b && b <= c
    ensures a <= c
  {
    assert c[..|a|] == b[..|a|];
  }

  /** One step of the removal pass on a root entry `e` removes and records only
      paths below `e`, so it spares a sibling `g`, and also `g` itself when the
      destination side may not touch it. */
  lemma StepSparesRejected(mid: Pass, host: Host, root: Path, e: Path, push: bool, st: RunState, g: Path)
    requires ValidHost(host)
    requires |e| == |root| + 1
    requires g in Children(mid.fs, root) && (e != g || !CanTouch(mid.fs, g, push))
    ensures var r := RemovablesStep(mid, host, e, push, st);
      && (forall q :: g <= q && q in mid.fs ==> q in r.fs && r.fs[q] == mid.fs[q])
      && (forall i :: |mid.history.removes| <= i < |r.history.removes| ==> !(g <= r.history.removes[i]))
  {
    var r := RemovablesStep(mid, host, e, push, st);
    if !(IsFile(mid.fs, e) && e in mid.checked) && CanTouch(mid.fs, e, push) {
      assert e != g;
      if IsDirectory(mid.fs, e) {
        assert r == ClearAll(mid, host, host.tree(mid.fs, e), st);
        assert forall q :: q in host.tree(mid.fs, e) ==> q in Tree(mid.fs, e);
        ClearTreeSpares(mid, host, e, st, g);
      } else {
        assert r == ClearOne(mid, host, e, st);
        forall x | x in mid.fs && x !in r.fs ensures !(g <= x) {
          SiblingsDisjoint(e, g, x);
        }
      }
    }
  }

  /** The removal pass leaves alone, with everything below it, every entry of the
      listed root that the destination side may not touch or that the listing does
      not hold: only the subtrees of the other root entries are ever removed or
      recorded. */
  lemma {:induction false} RemovablesSpareRejected(p: Pass, host: Host, root: Path, entries: seq<Path>, push: bool, st: RunState, g: Path)
    requires ValidHost(host)
    requires forall e :: e in entries ==> |e| == |root| + 1
    requires g in Children(p.fs, root) && (g !in entries || !CanTouch(p.fs, g, push))
    ensures var r := Removables(p, host, entries, push, st);
      && (forall q :: g <= q && q in p.fs ==> q in r.fs && r.fs[q] == p.fs[q])
      && (forall i :: |p.history.removes| <= i < |r.history.removes| ==> !(g <= r.history.removes[i]))
    decreases |entries|
  {
    if entries != [] {
      var init := entries[..|entries| - 1];
      var e := entries[|entries| - 1];
      assert forall x :: x in init ==> x in entries;
      assert e in entries;
      RemovablesSpareRejected(p, host, root, init, push, st, g);
      var mid := Removables(p, host, init, push, st);
      var r := Removables(p, host, entries, push, st);
      assert r == RemovablesStep(mid, host, e, push, st);
      assert g in mid.fs && mid.fs[g] == p.fs[g];
      StepSparesRejected(mid, host, root, e, push, st, g);
      forall i | |p.history.removes| <= i < |r.history.removes| ensures !(g <= r.history.removes[i]) {
        if i < |mid.history.removes| {
          assert r.history.removes[i] == mid.history.removes[i];
        }
      }
    }
  }

  /** On push, the removal pass never removes or records anything inside the git
      side's `.git` directory. */
  lemma PushSparesGitMetadata(p: Pass, host: Host, path: Path, st: RunState, g: Path)
    requires ValidHost(host) && st.action == Action.Push
    requires MoveResultOf(host, p.fs, path) == Mirrored
    requires g in Children(Walked(p, host, path, st).fs, DestinationRoot(path, st.action))
    requires IsDirectory(Walked(p, host, path, st).fs, g) && Name(g) == ".git"
    ensures var walked := Walked(p, host, path, st);
      var r := MoveSpec(p, host, path, st);
      && (forall q :: g <= q && q in walked.fs ==> q in r.fs && r.fs[q] == walked.fs[q])
      && (forall i :: |p.history.removes| <= i < |r.history.removes| ==> !(g <= r.history.removes[i]))
  {
    var walked := Walked(p, host, path, st);
    var root := DestinationRoot(path, st.action);
    var entries := host.list(walked.fs, root);
    assert forall e :: e in entries ==> |e| == |root| + 1;
    RemovablesSpareRejected(walked, host, root, entries, true, st, g);
  }

  /** On pull, the removal pass never removes or records the working directory's
      project files or anything inside its build output directories. */
  lemma PullSparesProjectFiles(p: Pass, host: Host, path: Path, st: RunState, g: Path)
    requires ValidHost(host) && st.action == Action.Pull
    requires MoveResultOf(host, p.fs, path) == Mirrored
    requires g in Children(Walked(p, host, path, st).fs, DestinationRoot(path, st.action))
    requires var fs := Walked(p, host, path, st).fs;
      (IsFile(fs, g) && IsProjectFileName(Name(g))) || (IsDirectory(fs, g) && IsBuildDirectoryName(Name(g)))
    ensures var walked := Walked(p, host, path, st);
      var r := MoveSpec(p, host, path, st);
      && (forall q :: g <= q && q in walked.fs ==> q in r.fs && r.fs[q] == walked.fs[q])
      && (forall i :: |p.history.removes| <= i < |r.history.removes| ==> !(g <= r.history.removes[i]))
  {
    var walked := Walked(p, host, path, st);
    var root := DestinationRoot(path, st.action);
    var entries := host.list(walked.fs, root);
    assert forall e :: e in entries ==> |e| == |root| + 1;
    RemovablesSpareRejected(walked, host, root, entries, false, st, g);
  }

  /** `d` mirrors a source entry holding `node`: it exists and, for a file, holds
      the source's node or one the comparison in use takes for it. */
  predicate MirrorsNode(fs: FileSystem, d: Path, node: Node, host: Host, st: RunState)
  {
    d in fs && (node.File? ==> fs[d] == node || Same(host, st, node, fs[d]))
  }

  /** Two sources that agree on the replaced segment have distinct destinations. */
  lemma DestinationsDistinct(s: Path, q: Path, b: nat, name: string)
    requires b < |s| && b < |q| && s[b] == q[b] && s != q
    ensures WithBranch(s, b, name) != WithBranch(q, b, name)
  {
    if |s| == |q| && WithBranch(s, b, name) == WithBranch(q, b, name) {
      forall j | 0 <= j < |s| ensures s[j] == q[j] {
        if j != b {
          assert WithBranch(s, b, name)[j] == WithBranch(q, b, name)[j];
        }
      }
    }
  }

  /** One `perform_move` of a source `s` keeps every other source `q` that agrees
      with it on the replaced segment, keeps `q`'s destination mirrored, and
      mirrors `q` when `s` is `q`. */
  lemma TouchMirrors(m: Pass, host: Host, s: Path, b: nat, name: string, st: RunState, q: Path, node: Node)
    requires s in m.fs && b < |s| && b < |q| && s[b] == q[b] && q[b] != name
    requires q in m.fs && m.fs[q] == node
    ensures var r := Touch(m, host, s, WithBranch(s, b, name), st);
      && q in r.fs && r.fs[q] == node
      && (MirrorsNode(m.fs, WithBranch(q, b, name), node, host, st) ==> MirrorsNode(r.fs, WithBranch(q, b, name), node, host, st))
      && (s == q && !host.ignored(q) && !st.checkMode ==> MirrorsNode(r.fs, WithBranch(q, b, name), node, host, st))
  {
    var destination := WithBranch(s, b, name);
    assert destination != q by {
      assert destination[b] == name;
    }
    if s != q {
      DestinationsDistinct(s, q, b, name);
    }
  }

  /** An element of a sequence other than its last is in the rest. */
  lemma InInit(s: seq<Path>, x: Path)
    requires x in s && x != s[|s| - 1]
    ensures x in s[..|s| - 1]
  {
    var i :| 0 <= i < |s| && s[i] == x;
    assert s[..|s| - 1][i] == x;
  }

  lemma WalkTreeLast(m: Pass, host: Host, sources: seq<Path>, b: nat, name: string, st: RunState)
    requires sources != [] && forall x :: x in sources ==> x in m.fs
    ensures forall x :: x in sources[..|sources| - 1] ==> x in m.fs
    ensures sources[|sources| - 1] in WalkTree(m, host, sources[..|sources| - 1], b, name, st).fs
    ensures WalkTree(m, host, sources, b, name, st)
         == Touch(WalkTree(m, host, sources[..|sources| - 1], b, name, st), host, sources[|sources| - 1],
                  WithBranch(sources[|sources| - 1], b, name), st)
  {
    assert forall x :: x in sources[..|sources| - 1] ==> x in sources;
    assert sources[|sources| - 1] in sources;
  }

  /** The walk of one subtree listing keeps every source `q` that agrees with the
      listed ones on the replaced segment. */
  lemma {:induction false} WalkTreeKeeps(m: Pass, host: Host, sources: seq<Path>, b: nat, name: string, st: RunState, q: Path)
    requires b < |q| && q[b] != name && q in m.fs
    requires forall x :: x in sources ==> x in m.fs && b < |x| && x[b] == q[b]
    ensures var r := WalkTree(m, host, sources, b, name, st); q in r.fs && r.fs[q] == m.fs[q]
    decreases |sources|
  {
    if sources != [] {
      var init := sources[..|sources| - 1];
      var last := sources[|sources| - 1];
      assert forall x :: x in init ==> x in sources;
      assert last in sources;
      WalkTreeKeeps(m, host, init, b, name, st, q);
      WalkTreeLast(m, host, sources, b, name, st);
      assert WithBranch(last, b, name)[b] == name;
    }
  }

  /** The walk of one subtree listing keeps the mirror of a source `q`, and
      mirrors `q` when the listing holds it. */
  lemma {:induction false} WalkTreeMirrors(m: Pass, host: Host, sources: seq<Path>, b: nat, name: string, st: RunState, q: Path)
    requires b < |q| && q[b] != name && q in m.fs
    requires forall x :: x in sources ==> x in m.fs && b < |x| && x[b] == q[b]
    ensures var r := WalkTree(m, host, sources, b, name, st);
      && (MirrorsNode(m.fs, WithBranch(q, b, name), m.fs[q], host, st) ==> MirrorsNode(r.fs, WithBranch(q, b, name), m.fs[q], host, st))
      && (q in sources && !host.ignored(q) && !st.checkMode ==> MirrorsNode(r.fs, WithBranch(q, b, name), m.fs[q], host, st))
    decreases |sources|
  {
    if sources != [] {
      var init := sources[..|sources| - 1];
      var last := sources[|sources| - 1];
      assert forall x :: x in init ==> x in sources;
      assert last in sources;
      WalkTreeMirrors(m, host, init, b, name, st, q);
      WalkTreeKeeps(m, host, init, b, name, st, q);
      var mid := WalkTree(m, host, init, b, name, st);
      var d, node := WithBranch(q, b, name), m.fs[q];
      WalkTreeLast(m, host, sources, b, name, st);
      var r := Touch(mid, host, last, WithBranch(last, b, name), st);
      assert r == WalkTree(m, host, sources, b, name, st);
      TouchMirrors(mid, host, last, b, name, st, q, node);
      if MirrorsNode(m.fs, d, node, host, st) {
        assert MirrorsNode(mid.fs, d, node, host, st);
        assert MirrorsNode(r.fs, d, node, host, st);
      }
      if q in sources && !host.ignored(q) && !st.checkMode && q != last {
        InInit(sources, q);
        assert MirrorsNode(mid.fs, d, node, host, st);
        assert MirrorsNode(r.fs, d, node, host, st);
      }
    }
  }

  /** The walk of one top-level entry `e` keeps every source `q` that agrees with
      it on the replaced segment. */
  lemma WalkEntryKeeps(m: Pass, host: Host, e: Path, b: nat, name: string, targetIsWork: bool, st: RunState, q: Path)
    requires b < |q| && q[b] != name && q in m.fs
    requires ValidHost(host) && e in m.fs && b < |e| && e[b] == q[b]
    ensures var r := WalkEntry(m, host, e, b, name, targetIsWork, st); q in r.fs && r.fs[q] == m.fs[q]
  {
    if CanTouch(m.fs, e, targetIsWork) {
      if IsDirectory(m.fs, e) {
        var sources := host.tree(m.fs, e);
        forall x | x in sources ensures x in m.fs && b < |x| && x[b] == q[b] {
          assert x in Tree(m.fs, e);
          assert x[b] == x[..|e|][b];
        }
        WalkTreeKeeps(m, host, sources, b, name, st, q);
      } else {
        assert WithBranch(e, b, name)[b] == name;
      }
    }
  }

  /** The walk of one top-level entry `e` keeps the mirror of a source `q`; when
      `e` may be touched it marks `q`'s destination and mirrors `q`, for `q` being
      `e` or below the directory `e`. */
  lemma WalkEntryMirrors(m: Pass, host: Host, e: Path, b: nat, name: string, targetIsWork: bool, st: RunState, q: Path)
    requires b < |q| && q[b] != name && q in m.fs
    requires ValidHost(host) && e in m.fs && b < |e| && e[b] == q[b]
    ensures var r := WalkEntry(m, host, e, b, name, targetIsWork, st);
      && (MirrorsNode(m.fs, WithBranch(q, b, name), m.fs[q], host, st) ==> MirrorsNode(r.fs, WithBranch(q, b, name), m.fs[q], host, st))
      && (CanTouch(m.fs, e, targetIsWork) && (q == e || (IsDirectory(m.fs, e) && e <= q)) ==>
            && WithBranch(q, b, name) in r.checked
            && (!host.ignored(q) && !st.checkMode ==> MirrorsNode(r.fs, WithBranch(q, b, name), m.fs[q], host, st)))
  {
    if CanTouch(m.fs, e, targetIsWork) {
      if IsDirectory(m.fs, e) {
        var sources := host.tree(m.fs, e);
        forall x | x in sources ensures x in m.fs && b < |x| && x[b] == q[b] {
          assert x in Tree(m.fs, e);
          assert x[b] == x[..|e|][b];
        }
        assert e <= q ==> q in Tree(m.fs, e);
        WalkTreeMirrors(m, host, sources, b, name, st, q);
      } else {
        TouchMirrors(m, host, e, b, name, st, q, m.fs[q]);
      }
    }
  }

  /** The walk of a listing keeps every source `q` that agrees with the listed
      entries on the replaced segment. */
  lemma {:induction false} WalkAllKeeps(m: Pass, host: Host, entries: seq<Path>, b: nat, name: string, targetIsWork: bool, st: RunState, q: Path)
    requires b < |q| && q[b] != name && q in m.fs
    requires ValidHost(host) && forall x :: x in entries ==> x in m.fs && b < |x| && x[b] == q[b]
    ensures var r := WalkAll(m, host, entries, b, name, targetIsWork, st); q in r.fs && r.fs[q] == m.fs[q]
    decreases |entries|
  {
    if entries != [] {
      var init := entries[..|entries| - 1];
      var last := entries[|entries| - 1];
      assert forall x :: x in init ==> x in entries;
      assert last in entries;
      WalkAllKeeps(m, host, init, b, name, targetIsWork, st, q);
      var mid := WalkAll(m, host, init, b, name, targetIsWork, st);
      WalkAllSnoc(m, host, entries, |entries| - 1, b, name, targetIsWork, st);
      assert entries[..|entries|] == entries;
      WalkEntryKeeps(mid, host, last, b, name, targetIsWork, st, q);
    }
  }

  /** The walk of a listing keeps the mirror of a source `q`; when the listing
      holds an entry `e` that may be touched, `q`'s destination is marked and `q`
      mirrored, for `q` being `e` or below the directory `e`. */
  lemma {:induction false} WalkAllMirrors(m: Pass, host: Host, entries: seq<Path>, b: nat, name: string, targetIsWork: bool, st: RunState, e: Path, q: Path)
    requires b < |q| && q[b] != name && q in m.fs
    requires ValidHost(host) && forall x :: x in entries ==> x in m.fs && b < |x| && x[b] == q[b]
    ensures var r := WalkAll(m, host, entries, b, name, targetIsWork, st);
      && (MirrorsNode(m.fs, WithBranch(q, b, name), m.fs[q], host, st) ==> MirrorsNode(r.fs, WithBranch(q, b, name), m.fs[q], host, st))
      && (e in entries && CanTouch(m.fs, e, targetIsWork) && (q == e || (IsDirectory(m.fs, e) && e <= q)) ==>
            && WithBranch(q, b, name) in r.checked
            && (!host.ignored(q) && !st.checkMode ==> MirrorsNode(r.fs, WithBranch(q, b, name), m.fs[q], host, st)))
    decreases |entries|
  {
    if entries != [] {
      var init := entries[..|entries| - 1];
      var last := entries[|entries| - 1];
      assert forall x :: x in init ==> x in entries;
      assert last in entries;
      WalkAllMirrors(m, host, init, b, name, targetIsWork, st, e, q);
      WalkAllKeeps(m, host, init, b, name, targetIsWork, st, q);
      var mid := WalkAll(m, host, init, b, name, targetIsWork, st);
      var d, node := WithBranch(q, b, name), m.fs[q];
      WalkAllSnoc(m, host, entries, |entries| - 1, b, name, targetIsWork, st);
      assert entries[..|entries|] == entries;
      var r := WalkEntry(mid, host, last, b, name, targetIsWork, st);
      assert r == WalkAll(m, host, entries, b, name, targetIsWork, st);
      WalkEntryMirrors(mid, host, last, b, name, targetIsWork, st, q);
      if MirrorsNode(m.fs, d, node, host, st) {
        assert MirrorsNode(mid.fs, d, node, host, st);
      }
      if e in entries && CanTouch(m.fs, e, targetIsWork) && (q == e || (IsDirectory(m.fs, e) && e <= q)) {
        if e == last {
          WalkAllKeeps(m, host, init, b, name, targetIsWork, st, e);
          assert CanTouch(mid.fs, e, targetIsWork) && (q == e || (IsDirectory(mid.fs, e) && e <= q));
        } else {
          InInit(entries, e);
          assert d in mid.checked && mid.checked <= r.checked;
        }
      }
    }
  }

  /** Clearing a listing spares `d` when every listed path above or at `d` was
      visited. */
  lemma {:induction false} ClearAllSpares(p: Pass, host: Host, qs: seq<Path>, st: RunState, d: Path)
    requires d in p.fs
    requires forall x :: x in qs && x <= d ==> x in p.checked
    ensures var r := ClearAll(p, host, qs, st); d in r.fs && r.fs[d] == p.fs[d]
    decreases |qs|
  {
    if qs != [] {
      var init := qs[..|qs| - 1];
      assert forall x :: x in init ==> x in qs;
      assert qs[|qs| - 1] in qs;
      ClearAllSpares(p, host, init, st, d);
    }
  }

  /** A removal step on a root entry spares a path `d` below the root whose every
      ancestor below the root, and `d` itself, were visited. */
  lemma StepSparesVisited(mid: Pass, host: Host, root: Path, e: Path, push: bool, st: RunState, d: Path)
    requires ValidHost(host) && |e| == |root| + 1
    requires d in mid.fs && forall k :: |root| < k <= |d| ==> d[..k] in mid.checked
    ensures var r := RemovablesStep(mid, host, e, push, st); d in r.fs && r.fs[d] == mid.fs[d]
  {
    if !(IsFile(mid.fs, e) && e in mid.checked) && CanTouch(mid.fs, e, push) {
      if IsDirectory(mid.fs, e) {
        var qs := host.tree(mid.fs, e);
        forall x | x in qs && x <= d ensures x in mid.checked {
          assert x in Tree(mid.fs, e);
          assert x == d[..|x|];
        }
        ClearAllSpares(mid, host, qs, st, d);
      } else if e <= d {
        assert e == d[..|e|];
      }
    }
  }

  /** The removal pass spares a path `d` below the root whose every ancestor below
      the root, and `d` itself, were visited. */
  lemma {:induction false} RemovablesSpareVisited(p: Pass, host: Host, root: Path, entries: seq<Path>, push: bool, st: RunState, d: Path)
    requires ValidHost(host) && forall e :: e in entries ==> |e| == |root| + 1
    requires d in p.fs && forall k :: |root| < k <= |d| ==> d[..k] in p.checked
    ensures var r := Removables(p, host, entries, push, st); d in r.fs && r.fs[d] == p.fs[d]
    decreases |entries|
  {
    if entries != [] {
      var init := entries[..|entries| - 1];
      var e := entries[|entries| - 1];
      assert forall x :: x in init ==> x in entries;
      assert e in entries;
      RemovablesSpareVisited(p, host, root, init, push, st, d);
      var mid := Removables(p, host, init, push, st);
      StepSparesVisited(mid, host, root, e, push, st, d);
    }
  }

  /** The ancestors of `q` from `e` down are all present: a filesystem in which
      every entry's parent directories exist. */
  predicate AncestorsPresent(fs: FileSystem, e: Path, q: Path)
  {
    e <= q && forall k :: |e| <= k <= |q| ==> q[..k] in fs
  }

  /** The destination of a prefix of a source is the prefix of its destination. */
  lemma DestinationPrefix(q: Path, b: nat, name: string, k: nat)
    requires b < k <= |q|
    ensures WithBranch(q, b, name)[..k] == WithBranch(q[..k], b, name)
  {
  }

  /** Outside check mode, the walk of `move` over a working directory not itself
      named `git` mirrors every entry `q` it reaches that is not ignored, and marks
      the destinations of `q` and of all its ancestors down from the top-level
      entry `e`. */
  lemma WalkedMirrors(p: Pass, host: Host, path: Path, st: RunState, e: Path, q: Path)
    requires ValidHost(host) && !st.checkMode
    requires |path| > 0 && Name(path) != "git"
    requires e in Children(p.fs, SourceRoot(path, st.action)) && CanTouch(p.fs, e, st.action == Action.Pull)
    requires AncestorsPresent(p.fs, e, q) && (q == e || IsDirectory(p.fs, e)) && !host.ignored(q)
    ensures q in p.fs
    ensures var walked := Walked(p, host, path, st);
      var d := WithBranch(q, LastBranch(path), TargetName(path, st.action));
      && MirrorsNode(walked.fs, d, p.fs[q], host, st)
      && forall k :: |path| < k <= |d| ==> d[..k] in walked.checked
  {
    var b := LastBranch(path);
    var name := TargetName(path, st.action);
    var source := SourceRoot(path, st.action);
    var start := Start(p);
    var entries := host.list(start.fs, source);
    var pull := st.action == Action.Pull;
    assert q == q[..|q|];
    assert e[b] == source[b] != name;
    assert q[b] == e[b] by {
      assert q[..|e|] == e;
    }
    forall x | x in entries ensures x in start.fs && b < |x| && x[b] == q[b] {
      assert x in Children(start.fs, source);
      assert x[..|source|] == source;
    }
    assert e in entries;
    var walked := Walked(p, host, path, st);
    var d := WithBranch(q, b, name);
    forall k | |path| < k <= |d| ensures d[..k] in walked.checked {
      var a := q[..k];
      assert a[b] == q[b] && e <= a;
      WalkAllMirrors(start, host, entries, b, name, pull, st, e, a);
      DestinationPrefix(q, b, name, k);
    }
    WalkAllMirrors(start, host, entries, b, name, pull, st, e, q);
  }

  /** Outside check mode, after `move` mirrors a working directory not itself named
      `git`, every entry `q` the walk reaches that is not ignored has its
      destination: a touchable top-level source entry `e`, or anything below it
      when `e` is a directory. For a file the destination holds the source's node,
      or one the comparison in use takes for it; the removal pass never takes it
      away. */
  lemma MoveMirrorsSources(p: Pass, host: Host, path: Path, st: RunState, e: Path, q: Path)
    requires ValidHost(host) && MoveResultOf(host, p.fs, path) == Mirrored && !st.checkMode
    requires |path| > 0 && Name(path) != "git"
    requires e in Children(p.fs, SourceRoot(path, st.action)) && CanTouch(p.fs, e, st.action == Action.Pull)
    requires AncestorsPresent(p.fs, e, q) && (q == e || IsDirectory(p.fs, e)) && !host.ignored(q)
    ensures q in p.fs
    ensures MirrorsNode(MoveSpec(p, host, path, st).fs, WithBranch(q, LastBranch(path), TargetName(path, st.action)), p.fs[q], host, st)
  {
    WalkedMirrors(p, host, path, st, e, q);
    var walked := Walked(p, host, path, st);
    var d := WithBranch(q, LastBranch(path), TargetName(path, st.action));
    var root := DestinationRoot(path, st.action);
    var listing := host.list(walked.fs, root);
    assert forall x :: x in listing ==> x in Children(walked.fs, root);
    RemovablesSpareVisited(walked, host, root, listing, st.action == Action.Push, st, d);
  }

  /** Two records lists that grow in turn: a path recorded by either step was
      recorded by both together. */
  lemma RecordedAcross(a: seq<Path>, b: seq<Path>, c: seq<Path>, g: Path)
    requires a <= b <= c && (g in b[|a|..] || g in c[|b|..])
    ensures g in c[|a|..]
  {
    if g in b[|a|..] {
      var j :| 0 <= j < |b| - |a| && b[|a|..][j] == g;
      assert c[|a|..][j] == g;
    } else {
      var j :| 0 <= j < |c| - |b| && c[|b|..][j] == g;
      assert c[|a|..][j + |b| - |a|] == g;
    }
  }

  /** Clearing a listing of paths below `g` that holds `g` itself records `g` and,
      outside check mode, removes `g` with everything below it. */
  lemma {:induction false} ClearAllClears(p: Pass, host: Host, qs: seq<Path>, st: RunState, g: Path)
    requires g in qs && Removable(p, host, g) && forall x :: x in qs ==> g <= x
    ensures var r := ClearAll(p, host, qs, st);
      && g in r.history.removes[|p.history.removes|..]
      && (!st.checkMode ==> forall x :: g <= x ==> x !in r.fs)
    decreases |qs|
  {
    var init := qs[..|qs| - 1];
    var last := qs[|qs| - 1];
    assert forall x :: x in init ==> x in qs;
    var mid := ClearAll(p, host, init, st);
    var r := ClearAll(p, host, qs, st);
    assert r == ClearOne(mid, host, last, st);
    if g in init {
      ClearAllClears(p, host, init, st, g);
      RecordedAcross(p.history.removes, mid.history.removes, r.history.removes, g);
    } else {
      assert last == g by {
        if last != g {
          InInit(qs, g);
        }
      }
      forall i | 0 <= i < |init| ensures !(init[i] <= g) {
        assert init[i] in qs;
        assert init[i] != g by {
          assert init[i] in init;
        }
        assert g <= init[i];
      }
      assert Removable(mid, host, g);
      RecordedAcross(p.history.removes, mid.history.removes, r.history.removes, g);
    }
  }

  /** A removal step on an unvisited, touchable, unignored root entry `g` records
      it and, outside check mode, removes it with everything below it. */
  lemma StepClears(mid: Pass, host: Host, g: Path, push: bool, st: RunState)
    requires ValidHost(host)
    requires Removable(mid, host, g) && CanTouch(mid.fs, g, push)
    ensures var r := RemovablesStep(mid, host, g, push, st);
      && g in r.history.removes[|mid.history.removes|..]
      && (!st.checkMode ==> forall x :: g <= x ==> x !in r.fs)
  {
    var r := RemovablesStep(mid, host, g, push, st);
    if IsDirectory(mid.fs, g) {
      var qs := host.tree(mid.fs, g);
      assert g in Tree(mid.fs, g);
      forall x | x in qs ensures g <= x {
        assert x in Tree(mid.fs, g);
      }
      ClearAllClears(mid, host, qs, st, g);
    } else {
      assert r.history.removes[|mid.history.removes|..] == [g];
    }
  }

  /** A removal step removes nothing back: what was gone stays gone. */
  lemma StepKeepsCleared(mid: Pass, host: Host, e: Path, push: bool, st: RunState, g: Path)
    requires forall x :: g <= x ==> x !in mid.fs
    ensures forall x :: g <= x ==> x !in RemovablesStep(mid, host, e, push, st).fs
  {
  }

  /** The removal step on a root entry `g` that no earlier entry of the listing
      holds finds `g` as it was, records it and clears it. */
  lemma StepClearsAfter(p: Pass, host: Host, root: Path, init: seq<Path>, push: bool, st: RunState, g: Path)
    requires ValidHost(host) && forall e :: e in init ==> |e| == |root| + 1
    requires g !in init && g in Children(p.fs, root) && Removable(p, host, g) && CanTouch(p.fs, g, push)
    ensures var mid := Removables(p, host, init, push, st);
      var r := RemovablesStep(mid, host, g, push, st);
      && g in r.history.removes[|mid.history.removes|..]
      && (!st.checkMode ==> forall x :: g <= x ==> x !in r.fs)
  {
    RemovablesSpareRejected(p, host, root, init, push, st, g);
    var mid := Removables(p, host, init, push, st);
    assert Removable(mid, host, g) && CanTouch(mid.fs, g, push);
    StepClears(mid, host, g, push, st);
  }

  /** The removal pass records every listed root entry that was not visited, is not
      ignored and may be touched, and outside check mode removes it with everything
      below it. */
  lemma {:induction false} RemovablesClear(p: Pass, host: Host, root: Path, entries: seq<Path>, push: bool, st: RunState, g: Path)
    requires ValidHost(host) && forall e :: e in entries ==> |e| == |root| + 1
    requires g in entries && g in Children(p.fs, root) && Removable(p, host, g) && CanTouch(p.fs, g, push)
    ensures var r := Removables(p, host, entries, push, st);
      && g in r.history.removes[|p.history.removes|..]
      && (!st.checkMode ==> forall x :: g <= x ==> x !in r.fs)
    decreases |entries|
  {
    var init := entries[..|entries| - 1];
    var e := entries[|entries| - 1];
    assert forall x :: x in init ==> x in entries;
    var mid := Removables(p, host, init, push, st);
    var r := Removables(p, host, entries, push, st);
    assert r == RemovablesStep(mid, host, e, push, st);
    if g in init {
      RemovablesClear(p, host, root, init, push, st, g);
      if !st.checkMode {
        StepKeepsCleared(mid, host, e, push, st, g);
      }
      RecordedAcross(p.history.removes, mid.history.removes, r.history.removes, g);
    } else {
      assert g == e by {
        if g != e {
          InInit(entries, g);
        }
      }
      StepClearsAfter(p, host, root, init, push, st, g);
      RecordedAcross(p.history.removes, mid.history.removes, r.history.removes, g);
    }
  }

  /** After `move` mirrors a working directory, every entry directly inside the
      destination root that the walk did not visit, that is not ignored and that
      the destination side may touch is listed for removal and, outside check mode,
      is gone with everything below it. */
  lemma MoveRemovesUnvisited(p: Pass, host: Host, path: Path, st: RunState, g: Path)
    requires ValidHost(host) && MoveResultOf(host, p.fs, path) == Mirrored
    requires var walked := Walked(p, host, path, st);
      && g in Children(walked.fs, DestinationRoot(path, st.action))
      && Removable(walked, host, g) && CanTouch(walked.fs, g, st.action == Action.Push)
    ensures var r := MoveSpec(p, host, path, st);
      && g in r.history.removes[|p.history.removes|..]
      && (!st.checkMode ==> forall x :: g <= x ==> x !in r.fs)
  {
    var walked := Walked(p, host, path, st);
    var root := DestinationRoot(path, st.action);
    var listing := host.list(walked.fs, root);
    assert forall x :: x in listing ==> x in Children(walked.fs, root);
    RemovablesClear(walked, host, root, listing, st.action == Action.Push, st, g);
  }
}
