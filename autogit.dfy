/** The driver of autogit.hpp: the search for managed directories below the
    configured locations, and a run of the whole program over them — a collision
    pass and confirmation before a directed run, or the status passes followed by
    an offer to perform every safe move. */
module Autogit {
  import opened Files
  import opened State
  import opened Environment
  import opened Wrappers
  import opened Verdict
  import opened Strings
  import opened AutogitDirectories
  import Collisions

  /** A location written with a leading `//` is commented out. */
  predicate CommentedOut(p: Path)
  {
    "//" <= Join(p, '/')
  }

  /** `set_path` found a git directory or a solution directory at `p`. */
  predicate Managed(host: Host, fs: FileSystem, p: Path)
  {
    Classify(host, fs, p).1 != []
  }

  /** The search descends into an existing directory that is neither managed nor a
      solution directory without a git sibling. */
  predicate Searchable(host: Host, fs: FileSystem, p: Path)
  {
    IsDirectory(fs, p) && Classify(host, fs, p) == ([], [])
  }

  /** `find_directory`: the managed directories found from `p`, in discovery order. */
  function Found(host: Host, fs: FileSystem, p: Path): seq<Path>
    requires ValidHost(host)
    decreases |Tree(fs, p)|, 1, 0
  {
    if CommentedOut(p) then []
    else if Managed(host, fs, p) then [p]
    else if Searchable(host, fs, p) then FoundAll(host, fs, p, host.list(fs, p))
    else []
  }

  /** The search over the listed entries of `parent`, in listing order. */
  function FoundAll(host: Host, fs: FileSystem, parent: Path, entries: seq<Path>): seq<Path>
    requires ValidHost(host) && parent in fs
    requires forall e :: e in entries ==> e in Children(fs, parent)
    decreases |Tree(fs, parent)|, 0, |entries|
  {
    if entries == [] then []
    else
      var last := entries[|entries| - 1];
      ChildTreeSmaller(fs, parent, last);
      FoundAll(host, fs, parent, entries[..|entries| - 1]) + Found(host, fs, last)
  }

  /** The path a configured location names: its `/`-separated segments. */
  function LocationPath(location: string): (p: Path)
    ensures Join(p, '/') == location
  {
    Split(location, '/')
  }

  /** `find_directories`: the search from every location in turn. */
  function FoundLocations(host: Host, fs: FileSystem, locations: seq<string>): seq<Path>
    requires ValidHost(host)
  {
    if locations == [] then []
    else FoundLocations(host, fs, locations[..|locations| - 1]) + Found(host, fs, LocationPath(locations[|locations| - 1]))
  }

  /** Every directory the search finds is managed, lies at or below where the search
      started, is not commented out, and is reached only through directories the
      search may descend into. */
  lemma {:induction false} FoundAreManaged(host: Host, fs: FileSystem, p: Path, q: Path)
    requires ValidHost(host) && q in Found(host, fs, p)
    ensures Managed(host, fs, q) && !CommentedOut(q) && p <= q
    ensures q == p || Searchable(host, fs, p)
    decreases |Tree(fs, p)|, 1, 0
  {
    if !Managed(host, fs, p) {
      FoundAllAreManaged(host, fs, p, host.list(fs, p), q);
    }
  }

  lemma {:induction false} FoundAllAreManaged(host: Host, fs: FileSystem, parent: Path, entries: seq<Path>, q: Path)
    requires ValidHost(host) && parent in fs
    requires forall e :: e in entries ==> e in Children(fs, parent)
    requires q in FoundAll(host, fs, parent, entries)
    ensures Managed(host, fs, q) && !CommentedOut(q) && |q| > |parent| && parent <= q
    ensures exists c :: c in entries && q in Found(host, fs, c)
    decreases |Tree(fs, parent)|, 0, |entries|
  {
    var last := entries[|entries| - 1];
    var init := entries[..|entries| - 1];
    ChildTreeSmaller(fs, parent, last);
    if q in FoundAll(host, fs, parent, init) {
      FoundAllAreManaged(host, fs, parent, init, q);
      var c :| c in init && q in Found(host, fs, c);
      assert c in entries;
    } else {
      FoundAreManaged(host, fs, last, q);
      PrefixExtends(parent, last, q);
    }
  }

  lemma PrefixExtends(a: Path, b: Path, c: Path)
    requires a <= b && |b| == |a| + 1 && b <= c
    ensures a <= c && |c| > |a|
  {
  }

  /** The search never descends into a managed directory: no directory it finds lies
      strictly below another one it finds. */
  lemma {:induction false} FoundNotNested(host: Host, fs: FileSystem, p: Path, q1: Path, q2: Path)
    requires ValidHost(host) && q1 in Found(host, fs, p) && q2 in Found(host, fs, p)
    ensures !(q1 < q2)
    decreases |Tree(fs, p)|
  {
    if !CommentedOut(p) && !Managed(host, fs, p) && q1 < q2 {
      var entries := host.list(fs, p);
      FoundAllAreManaged(host, fs, p, entries, q1);
      FoundAllAreManaged(host, fs, p, entries, q2);
      var c1 :| c1 in entries && q1 in Found(host, fs, c1);
      var c2 :| c2 in entries && q2 in Found(host, fs, c2);
      FoundAreManaged(host, fs, c1, q1);
      FoundAreManaged(host, fs, c2, q2);
      assert c1 == q2[..|c1|] && c2 == q2[..|c2|];
      ChildTreeSmaller(fs, p, c1);
      FoundNotNested(host, fs, c1, q1, q2);
    }
  }

  lemma ListedChildren(host: Host, fs: FileSystem, p: Path)
    requires ValidHost(host)
    ensures forall e :: e in host.list(fs, p) ==> e in Children(fs, p)
  {
  }

  lemma FoundAllSnoc(host: Host, fs: FileSystem, parent: Path, entries: seq<Path>, i: nat)
    requires ValidHost(host) && parent in fs && i < |entries|
    requires forall e :: e in entries ==> e in Children(fs, parent)
    ensures FoundAll(host, fs, parent, entries[..i + 1]) == FoundAll(host, fs, parent, entries[..i]) + Found(host, fs, entries[i])
  {
    assert entries[..i + 1][..i] == entries[..i];
  }

  /** Which directories a run visits, and how; `Confirm` records the tally a
      collision pass found and the confirmation it got. */
  datatype Visit = Run(path: Path, st: RunState) | SafeMove(path: Path, st: RunState) | Confirm(found: nat, yes: bool)

  /** `execute_no_collisions` runs a directory when no targets are given or its path
      is one of them. */
  predicate Selects(st: RunState, p: Path)
  {
    st.targetInputDirectories == [] || p in st.targetInputDirectories
  }

  /** The runs of one pass over `paths`, in order. */
  function Selected(paths: seq<Path>, st: RunState): seq<Visit>
  {
    if paths == [] then []
    else Selected(paths[..|paths| - 1], st) + (if Selects(st, paths[|paths| - 1]) then [Run(paths[|paths| - 1], st)] else [])
  }

  /** A pass runs exactly the selected directories, each with the pass's state, and
      every directory when no targets are given. */
  lemma {:induction false} SelectedMeans(paths: seq<Path>, st: RunState, v: Visit)
    ensures v in Selected(paths, st) <==> v.Run? && v.st == st && v.path in paths && Selects(st, v.path)
    ensures st.targetInputDirectories == [] ==> |Selected(paths, st)| == |paths|
  {
    if paths != [] {
      var init := paths[..|paths| - 1];
      SelectedMeans(init, st, v);
      assert paths == init + [paths[|paths| - 1]];
    }
  }

  lemma SelectedSnoc(paths: seq<Path>, st: RunState, i: nat)
    requires i < |paths|
    ensures Selected(paths[..i + 1], st) == Selected(paths[..i], st) + (if Selects(st, paths[i]) then [Run(paths[i], st)] else [])
  {
    assert paths[..i + 1][..i] == paths[..i];
  }

  /** Which directories can do a safe move, in order. */
  function MoveFlags(ds: seq<AutogitDirectory>): (r: seq<bool>)
    reads ds
    ensures |r| == |ds|
    ensures forall i :: 0 <= i < |ds| ==> r[i] == ds[i].CanDoSafeMove()
  {
    if ds == [] then [] else MoveFlags(ds[..|ds| - 1]) + [ds[|ds| - 1].CanDoSafeMove()]
  }

  /** Flags that agree with every directory are its move flags. */
  lemma MoveFlagsAre(ds: seq<AutogitDirectory>, flags: seq<bool>)
    requires |flags| == |ds| && forall k :: 0 <= k < |ds| ==> flags[k] == ds[k].CanDoSafeMove()
    ensures MoveFlags(ds) == flags
  {
    assert forall k :: 0 <= k < |ds| ==> MoveFlags(ds)[k] == flags[k];
  }

  /** The safe moves of an update, in directory order: one for every directory that
      can do one. */
  function Movers(flags: seq<bool>, paths: seq<Path>, st: RunState): (r: seq<Visit>)
    requires |flags| == |paths|
    ensures forall v :: v in r ==> v.SafeMove? && v.st == st && v.path in paths
  {
    if flags == [] then []
    else
      var n := |flags| - 1;
      Movers(flags[..n], paths[..n], st) + (if flags[n] then [SafeMove(paths[n], st)] else [])
  }

  lemma MoversSnoc(flags: seq<bool>, paths: seq<Path>, st: RunState, i: nat)
    requires |flags| == |paths| && i < |flags|
    ensures Movers(flags[..i + 1], paths[..i + 1], st)
      == Movers(flags[..i], paths[..i], st) + (if flags[i] then [SafeMove(paths[i], st)] else [])
  {
    assert flags[..i + 1][..i] == flags[..i] && paths[..i + 1][..i] == paths[..i];
  }

  /** The number of directories that can do a safe move. */
  function CountMovers(flags: seq<bool>): nat
  {
    if flags == [] then 0
    else CountMovers(flags[..|flags| - 1]) + (if flags[|flags| - 1] then 1 else 0)
  }

  /** The count offered to the operator is the number of safe moves an update
      performs. */
  lemma {:induction false} CountMatchesMovers(flags: seq<bool>, paths: seq<Path>, st: RunState)
    requires |flags| == |paths|
    ensures CountMovers(flags) == |Movers(flags, paths, st)|
  {
    if flags != [] {
      var n := |flags| - 1;
      CountMatchesMovers(flags[..n], paths[..n], st);
    }
  }

  /** The word listed for a directory as written: "pull" whenever a safe pull is
      allowed, "push" otherwise. */
  function ListedWordAsWritten(canSafelyPush: bool, canSafelyPull: bool): string
  {
    if canSafelyPull then "pull" else "push"
  }

  /** The listed word names the direction the safe move takes: push first. */
  function ListedWord(canSafelyPush: bool, canSafelyPull: bool): string
  {
    if canSafelyPush then "push" else "pull"
  }

  function ActionName(a: Action): string
  {
    match a
    case Push => "push"
    case Pull => "pull"
    case Both => "both"
  }

  /** When both plain verdicts hold, both safe flags are set, the safe move pushes,
      and the listing as written announces a pull. */
  lemma ListedWordAsWrittenMisleads()
    ensures var s := Status(false, true, false, false);
      var flags := SafeFlags(s, s);
      && flags == (true, true)
      && SafeDirection(s, s) == Some(Action.Push)
      && ListedWordAsWritten(flags.0, flags.1) == "pull"
      && ActionName(SafeDirection(s, s).value) != ListedWordAsWritten(flags.0, flags.1)
  {
    var s := Status(false, true, false, false);
    assert CanPush(s, s) && CanPull(s, s);
  }

  /** The listed word names the direction `perform_safe_move` takes, for every pair
      of statuses that offers a safe move. */
  lemma ListedWordNamesDirection(push: Status, pull: Status)
    requires SafeFlags(push, pull).0 || SafeFlags(push, pull).1
    ensures SafeDirection(push, pull).Some?
    ensures ListedWord(SafeFlags(push, pull).0, SafeFlags(push, pull).1) == ActionName(SafeDirection(push, pull).value)
  {
    SafeMoveHasDirection(push, pull);
    SafeFlagsNarrowingIsVacuous(push, pull);
  }

  /** What the listing announces, as written, for the directories that can move. */
  function Announced(ds: seq<AutogitDirectory>): seq<string>
    reads ds
  {
    if ds == [] then []
    else
      var d := ds[|ds| - 1];
      Announced(ds[..|ds| - 1]) + (if d.CanDoSafeMove() then [ListedWordAsWritten(d.canSafelyPush, d.canSafelyPull)] else [])
  }

  /** What is left of the operator's input `before` after the offer of safe moves:
      all of it when nothing was offered; otherwise the answer's lines are read, and
      an accepted offer reads on from there. */
  predicate OfferRead(before: seq<string>, after: seq<string>, offered: bool)
  {
    if !offered then after == before
    else
      var rest := before[Collisions.Answer(before).consumed..];
      if Collisions.Answer(before).yes then Consumed(rest, after) else after == rest
  }

  /** The offer reads only from the front of the input. */
  lemma OfferReadConsumed(before: seq<string>, after: seq<string>, offered: bool)
    requires OfferRead(before, after, offered)
    ensures Consumed(before, after)
  {
    if offered {
      var rest := before[Collisions.Answer(before).consumed..];
      ConsumedDrop(before, Collisions.Answer(before).consumed);
      if Collisions.Answer(before).yes {
        ConsumedTrans(before, rest, after);
      }
    }
  }

  /** What a pass over the directories leaves of the operator's input: a suffix,
      and all of it unless the run updates. */
  predicate InputRead(st: RunState, before: seq<string>, after: seq<string>)
  {
    Consumed(before, after) && (!st.update ==> after == before)
  }

  lemma InputReadTrans(st: RunState, a: seq<string>, b: seq<string>, c: seq<string>)
    requires InputRead(st, a, b) && InputRead(st, b, c)
    ensures InputRead(st, a, c)
  {
    ConsumedTrans(a, b, c);
  }

  /** An undirected status run that neither updates nor only looks for conflicts:
      the run that records the safe-move verdicts. */
  predicate StatusOnly(st: RunState)
  {
    st.action == Action.Both && st.status && !st.update && !st.onlyConflicts
  }

  /** A managed directory's safe-move flags are the verdict of its statuses. */
  predicate HoldsVerdict(d: AutogitDirectory)
    reads d
  {
    !d.Empty() ==> (d.canSafelyPush, d.canSafelyPull) == SafeFlags(d.pushStatus, d.pullStatus)
  }

  class Autogit {
    var directories: seq<AutogitDirectory>
    /** The path of each directory, in the same order. */
    ghost var paths: seq<Path>
    /** The directory runs and safe moves performed so far, in order. */
    ghost var visits: seq<Visit>

    /** No directory is recorded twice. */
    ghost predicate Distinct()
      reads this`directories
    {
      forall i, j :: 0 <= i < j < |directories| ==> directories[i] != directories[j]
    }

    /** `paths` lists the path of every directory. */
    ghost predicate Paired()
      reads this`directories, this`paths
    {
      |paths| == |directories| && forall i :: 0 <= i < |directories| ==> directories[i].path == paths[i]
    }

    ghost predicate Valid()
      reads this`directories, this`paths
    {
      Distinct() && Paired()
    }

    constructor ()
      ensures directories == [] && paths == [] && visits == [] && Valid()
    {
      directories, paths, visits := [], [], [];
    }

    /** `find_directory`: a managed directory is recorded; an unmanaged directory is
        searched entry by entry, except a solution directory without a git sibling. */
    method FindDirectory(w: World, p: Path)
      requires ValidHost(w.host) && Valid()
      modifies this`directories, this`paths
      ensures Valid()
      ensures paths == old(paths) + Found(w.host, w.fs, p)
      ensures old(directories) <= directories
      ensures forall i :: |old(directories)| <= i < |directories| ==>
        fresh(directories[i]) && !directories[i].Empty() && directories[i].steps == []
      decreases |Tree(w.fs, p)|, 1, 0
    {
      if CommentedOut(p) {
        return;
      }
      var directory := new AutogitDirectory.SetPath(w, p);
      if directory.Empty() {
        if IsDirectory(w.fs, p) && !directory.IsSolutionWithoutGit() {
          SearchEntries(w, p);
        }
      } else {
        directories := directories + [directory];
        paths := paths + [p];
      }
    }

    /** The loop of `find_directory` over the listed entries of `p`. */
    method SearchEntries(w: World, p: Path)
      requires ValidHost(w.host) && Valid() && p in w.fs
      modifies this`directories, this`paths
      ensures Valid()
      ensures paths == old(paths) + FoundAll(w.host, w.fs, p, w.host.list(w.fs, p))
      ensures old(directories) <= directories
      ensures forall i :: |old(directories)| <= i < |directories| ==>
        fresh(directories[i]) && !directories[i].Empty() && directories[i].steps == []
      decreases |Tree(w.fs, p)|, 0, 0
    {
      var list := w.host.list(w.fs, p);
      ListedChildren(w.host, w.fs, p);
      for i := 0 to |list|
        invariant Valid()
        invariant paths == old(paths) + FoundAll(w.host, w.fs, p, list[..i])
        invariant old(directories) <= directories
        invariant forall k :: |old(directories)| <= k < |directories| ==>
          fresh(directories[k]) && !directories[k].Empty() && directories[k].steps == []
      {
        ChildTreeSmaller(w.fs, p, list[i]);
        FoundAllSnoc(w.host, w.fs, p, list, i);
        FindDirectory(w, list[i]);
      }
      assert list[..|list|] == list;
    }

    /** `find_directories`: the directories found from each location in turn,
        replacing any found before. */
    method FindDirectories(w: World, locations: seq<string>)
      requires ValidHost(w.host)
      modifies this`directories, this`paths
      ensures Valid()
      ensures paths == FoundLocations(w.host, w.fs, locations)
      ensures forall i :: 0 <= i < |directories| ==>
        fresh(directories[i]) && !directories[i].Empty() && directories[i].steps == []
    {
      directories := [];
      paths := [];
      for i := 0 to |locations|
        invariant Valid()
        invariant paths == FoundLocations(w.host, w.fs, locations[..i])
        invariant forall k :: 0 <= k < |directories| ==>
          fresh(directories[k]) && !directories[k].Empty() && directories[k].steps == []
      {
        assert locations[..i + 1][..i] == locations[..i];
        FindDirectory(w, LocationPath(locations[i]));
      }
      assert locations[..|locations|] == locations;
    }

    /** `execute_no_collisions`: every selected directory runs with `st`, in order;
        the others are left as they are. */
    method ExecuteNoCollisions(w: World, st: RunState)
      requires ValidHost(w.host) && Valid()
      modifies w`fs, w`checked, w`totalChangeSum, w`reports, w`input, this`visits, directories
      ensures Valid()
      ensures visits == old(visits) + Selected(paths, st)
      ensures st.checkMode ==> w.fs == old(w.fs)
      ensures forall i :: 0 <= i < |directories| && !Selects(st, paths[i]) ==> unchanged(directories[i])
      ensures StatusOnly(st) ==>
        forall i :: 0 <= i < |directories| && Selects(st, paths[i]) ==> HoldsVerdict(directories[i])
      ensures InputRead(st, old(w.input), w.input)
    {
      for i := 0 to |directories|
        invariant Valid()
        invariant visits == old(visits) + Selected(paths[..i], st)
        invariant st.checkMode ==> w.fs == old(w.fs)
        invariant InputRead(st, old(w.input), w.input)
        invariant forall k :: 0 <= k < |directories| && (k >= i || !Selects(st, paths[k])) ==> unchanged(directories[k])
        invariant StatusOnly(st) ==>
          forall k :: 0 <= k < i && Selects(st, paths[k]) ==> HoldsVerdict(directories[k])
      {
        SelectedSnoc(paths, st, i);
        ghost var left := w.input;
        VisitStep(w, st, i);
        InputReadTrans(st, old(w.input), left, w.input);
      }
      assert paths[..|directories|] == paths;
    }

    /** One turn of `execute_no_collisions`: directory `i` runs if it is selected. */
    method VisitStep(w: World, st: RunState, i: nat)
      requires ValidHost(w.host) && Valid() && i < |directories|
      modifies w`fs, w`checked, w`totalChangeSum, w`reports, w`input, this`visits, directories
      ensures Valid()
      ensures visits == old(visits) + (if Selects(st, paths[i]) then [Run(paths[i], st)] else [])
      ensures st.checkMode ==> w.fs == old(w.fs)
      ensures forall k :: 0 <= k < |directories| && (k != i || !Selects(st, paths[i])) ==> unchanged(directories[k])
      ensures StatusOnly(st) && Selects(st, paths[i]) ==> HoldsVerdict(directories[i])
      ensures InputRead(st, old(w.input), w.input)
    {
      var dir := directories[i];
      if st.targetInputDirectories == [] || dir.path in st.targetInputDirectories {
        dir.Execute(w, st);
        visits := visits + [Run(paths[i], st)];
      }
    }

    /** `execute_check_collisions`: a check-mode collision pass over the selected
        directories, then the operator's confirmation of what it found. */
    method ExecuteCheckCollisions(w: World, st: RunState) returns (ok: bool, ghost found: nat)
      requires ValidHost(w.host) && Valid()
      modifies w`fs, w`checked, w`totalChangeSum, w`reports, w`input, this`visits, directories
      ensures Valid()
      ensures w.fs == old(w.fs)
      ensures found == w.totalChangeSum
      ensures visits == old(visits) + Selected(paths, CollisionState(st)) + [Confirm(found, ok)]
      ensures found == 0 ==> ok
      ensures !st.update ==>
        && ok == (found == 0 || st.status || Collisions.Answer(old(w.input)).yes)
        && w.input == (if found == 0 || st.status then old(w.input)
                       else old(w.input)[Collisions.Answer(old(w.input)).consumed..])
      ensures Consumed(old(w.input), w.input)
    {
      var collisionState := CollisionState(st);
      ExecuteNoCollisions(w, collisionState);
      ghost var asked := w.input;
      ok := Collisions.ConfirmCollisions(w, collisionState);
      found := w.totalChangeSum;
      visits := visits + [Confirm(found, ok)];
      if w.input != asked {
        ConsumedDrop(asked, Collisions.Answer(asked).consumed);
      }
      ConsumedTrans(old(w.input), asked, w.input);
    }

    /** `needs_check`: a directed run that is neither a status run nor an update. */
    static predicate NeedsCheck(st: RunState)
    {
      st.action != Action.Both && !st.status && !st.update
    }

    /** The number of directories that can do a safe move. */
    method CountSafeMoves() returns (n: nat)
      ensures n == CountMovers(MoveFlags(directories))
    {
      n := 0;
      for i := 0 to |directories|
        invariant n == CountMovers(MoveFlags(directories)[..i])
      {
        assert MoveFlags(directories)[..i + 1][..i] == MoveFlags(directories)[..i];
        if directories[i].CanDoSafeMove() {
          n := n + 1;
        }
      }
      assert MoveFlags(directories)[..|directories|] == MoveFlags(directories);
    }

    /** The listing shown before the question: one word per directory that can
        move, "pull" when a safe pull is allowed and "push" otherwise. */
    method ListSafeMoves() returns (words: seq<string>)
      ensures words == Announced(directories)
    {
      words := [];
      for i := 0 to |directories|
        invariant words == Announced(directories[..i])
      {
        assert directories[..i + 1][..i] == directories[..i];
        var d := directories[i];
        if d.CanDoSafeMove() {
          words := words + [ListedWordAsWritten(d.canSafelyPush, d.canSafelyPull)];
        }
      }
      assert directories[..|directories|] == directories;
    }

    /** The offer after a status run: when some directory can move, the operator is
        asked once, and on "y" every such directory performs its safe move with
        `update` set. */
    method OfferSafeMoves(w: World, st: RunState)
      requires ValidHost(w.host) && Valid()
      modifies w`fs, w`checked, w`totalChangeSum, w`reports, w`input, this`visits, directories
      ensures Valid()
      ensures var flags := old(MoveFlags(directories));
        var accepted := CountMovers(flags) > 0 && Collisions.Answer(old(w.input)).yes;
        && (accepted ==> visits == old(visits) + Movers(flags, paths, st.(update := true)))
        && (!accepted ==> visits == old(visits) && w.fs == old(w.fs))
        && OfferRead(old(w.input), w.input, CountMovers(flags) > 0)
      ensures MoveFlags(directories) == old(MoveFlags(directories))
      ensures st.checkMode ==> w.fs == old(w.fs)
    {
      ghost var flags := MoveFlags(directories);
      var foundMoves := CountSafeMoves();
      if foundMoves == 0 {
        assert OfferRead(w.input, w.input, false);
        return;
      }
      var words := ListSafeMoves();
      AskAndMove(w, st, flags);
      assert OfferRead(old(w.input), w.input, true);
    }

    /** The question of the offer and, on "y", the safe moves. */
    method AskAndMove(w: World, st: RunState, ghost flags: seq<bool>)
      requires ValidHost(w.host) && Valid()
      requires flags == MoveFlags(directories)
      modifies w`fs, w`checked, w`totalChangeSum, w`reports, w`input, this`visits, directories
      ensures Valid()
      ensures Collisions.Answer(old(w.input)).yes ==> visits == old(visits) + Movers(flags, paths, st.(update := true))
      ensures !Collisions.Answer(old(w.input)).yes ==> visits == old(visits) && w.fs == old(w.fs)
      ensures OfferRead(old(w.input), w.input, true)
      ensures MoveFlags(directories) == flags
      ensures st.checkMode ==> w.fs == old(w.fs)
    {
      var update := Collisions.Prompt(w);
      if update {
        PerformSafeMoves(w, st.(update := true), flags);
      }
    }

    /** Every directory that can move performs its safe move, in order. */
    method PerformSafeMoves(w: World, st: RunState, ghost flags: seq<bool>)
      requires ValidHost(w.host) && Valid()
      requires |flags| == |directories|
      requires forall k :: 0 <= k < |directories| ==> flags[k] == directories[k].CanDoSafeMove()
      modifies w`fs, w`checked, w`totalChangeSum, w`reports, w`input, this`visits, directories
      ensures Valid()
      ensures visits == old(visits) + Movers(flags, paths, st)
      ensures MoveFlags(directories) == flags
      ensures st.checkMode ==> w.fs == old(w.fs)
      ensures Consumed(old(w.input), w.input)
    {
      for i := 0 to |directories|
        invariant Valid()
        invariant visits == old(visits) + Movers(flags[..i], paths[..i], st)
        invariant forall k :: 0 <= k < |directories| ==>
          flags[k] == (directories[k].canSafelyPull || directories[k].canSafelyPush)
        invariant st.checkMode ==> w.fs == old(w.fs)
        invariant Consumed(old(w.input), w.input)
      {
        MoversSnoc(flags, paths, st, i);
        ghost var typed := w.input;
        SafeMoveStep(w, st, flags[i], i);
        ConsumedTrans(old(w.input), typed, w.input);
      }
      assert flags[..|directories|] == flags && paths[..|directories|] == paths;
      MoveFlagsAre(directories, flags);
    }

    /** One turn of the safe-move loop: directory `i` moves if it can. */
    method SafeMoveStep(w: World, st: RunState, ghost canMove: bool, i: nat)
      requires ValidHost(w.host) && Valid() && i < |directories|
      requires canMove == (directories[i].canSafelyPull || directories[i].canSafelyPush)
      modifies w`fs, w`checked, w`totalChangeSum, w`reports, w`input, this`visits, directories
      ensures Valid()
      ensures visits == old(visits) + (if canMove then [SafeMove(paths[i], st)] else [])
      ensures forall k :: 0 <= k < |directories| ==>
        directories[k].canSafelyPull == old(directories[k].canSafelyPull)
        && directories[k].canSafelyPush == old(directories[k].canSafelyPush)
      ensures st.checkMode ==> w.fs == old(w.fs)
      ensures Consumed(old(w.input), w.input)
    {
      if directories[i].CanDoSafeMove() {
        directories[i].PerformSafeMove(w, st);
        visits := visits + [SafeMove(paths[i], st)];
      }
    }

    /** `execute`: a directed run without status or update first runs a collision
        pass and goes on only when the operator accepts what it found; any other run
        visits the selected directories once, and an undirected status run then
        offers the safe moves. */
    method Execute(w: World, st: RunState) returns (ghost confirmed: bool, ghost found: nat, ghost asked: seq<string>)
      requires ValidHost(w.host) && Valid()
      modifies w`fs, w`checked, w`totalChangeSum, w`reports, w`input, this`visits, directories
      ensures Valid()
      ensures NeedsCheck(st) ==>
        && confirmed == (found == 0 || Collisions.Answer(old(w.input)).yes)
        && (!confirmed ==> visits == old(visits) + Selected(paths, CollisionState(st)) + [Confirm(found, false)] && w.fs == old(w.fs))
        && (confirmed ==> visits == old(visits) + Selected(paths, CollisionState(st)) + [Confirm(found, true)] + Selected(paths, st))
        && w.input == (if found == 0 then old(w.input) else old(w.input)[Collisions.Answer(old(w.input)).consumed..])
      ensures st.action == Action.Both && st.status ==>
        var flags := MoveFlags(directories);
        var accepted := CountMovers(flags) > 0 && Collisions.Answer(asked).yes;
        && (!st.update ==> asked == old(w.input))
        && Consumed(old(w.input), asked)
        && OfferRead(asked, w.input, CountMovers(flags) > 0)
        && (accepted ==> visits == old(visits) + Selected(paths, st) + Movers(flags, paths, st.(update := true)))
        && (!accepted ==> visits == old(visits) + Selected(paths, st))
      ensures !NeedsCheck(st) && !(st.action == Action.Both && st.status) ==> visits == old(visits) + Selected(paths, st)
      ensures st.action == Action.Both && st.status ==>
        old(visits) + Selected(paths, st) <= visits
        && forall v :: v in visits[|old(visits)| + |Selected(paths, st)|..] ==> v.SafeMove? && v.st == st.(update := true)
      ensures st.checkMode ==> w.fs == old(w.fs)
      ensures Consumed(old(w.input), w.input)
    {
      confirmed, found, asked := true, 0, w.input;
      if NeedsCheck(st) {
        var ok;
        ok, found := ExecuteCheckCollisions(w, st);
        confirmed := ok;
        ghost var checked := w.input;
        if ok {
          ExecuteNoCollisions(w, st);
        }
        ConsumedTrans(old(w.input), checked, w.input);
      } else if st.action == Action.Both && st.status {
        asked := StatusRunAll(w, st);
        OfferReadConsumed(asked, w.input, CountMovers(MoveFlags(directories)) > 0);
        ConsumedTrans(old(w.input), asked, w.input);
      } else {
        ExecuteNoCollisions(w, st);
      }
      // The elapsed time printed after a long run is not modelled.
    }

    /** The status branch of `execute`: every selected directory runs, then the safe
        moves are offered. */
    method StatusRunAll(w: World, st: RunState) returns (ghost asked: seq<string>)
      requires ValidHost(w.host) && Valid()
      modifies w`fs, w`checked, w`totalChangeSum, w`reports, w`input, this`visits, directories
      ensures Valid()
      ensures !st.update ==> asked == old(w.input)
      ensures Consumed(old(w.input), asked)
      ensures OfferRead(asked, w.input, CountMovers(MoveFlags(directories)) > 0)
      ensures var flags := MoveFlags(directories);
        var accepted := CountMovers(flags) > 0 && Collisions.Answer(asked).yes;
        && (accepted ==> visits == old(visits) + Selected(paths, st) + Movers(flags, paths, st.(update := true)))
        && (!accepted ==> visits == old(visits) + Selected(paths, st))
      ensures old(visits) + Selected(paths, st) <= visits
      ensures forall v :: v in visits[|old(visits)| + |Selected(paths, st)|..] ==> v.SafeMove? && v.st == st.(update := true)
      ensures st.checkMode ==> w.fs == old(w.fs)
    {
      ExecuteNoCollisions(w, st);
      ghost var mid := visits;
      ghost var flags := MoveFlags(directories);
      asked := w.input;
      OfferSafeMoves(w, st);
      if visits != mid {
        assert visits == mid + Movers(flags, paths, st.(update := true));
        assert visits[|mid|..] == Movers(flags, paths, st.(update := true));
      }
    }
  }
}
