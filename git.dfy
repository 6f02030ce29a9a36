/** The git step of git.hpp: which scripts run against the git root, how the output
    of `git status` decides whether there are git changes, and the hard-pull reset
    that empties the git root except for its `.git` directory. */
module GitSync {
  import opened Files
  import opened Strings
  import opened State
  import opened Environment
  import opened Wrappers

  /** The scripts the step can run; their text and the shell are not modelled. */
  datatype Script =
    | FetchStatus  // git fetch && git status -uno
    | AddStatus    // git add -A && git status
    | GitPull      // git pull
    | CommitPush   // git commit -m "update" && git push
    | PushOnly     // git push
    | ResetHard    // git reset --hard HEAD && git clean -f -d
    | NoScript     // an empty script

  predicate IsExec(s: Script)
  {
    s == GitPull || s == CommitPush || s == PushOnly
  }

  /** The git root: the working directory's `git` sibling when it exists, else the
      directory itself. */
  function GitRoot(fs: FileSystem, path: Path): (g: Path)
    ensures g == path || (g in fs && |g| == |path| && g[..|g| - 1] == path[..|path| - 1] && Name(g) == "git")
  {
    var sibling := WithBranch(path, LastBranch(path), "git");
    if sibling in fs then sibling else path
  }

  /** What the step prepares: the status query, whether the query is shown again on
      changes, and the script to execute on changes. */
  datatype Plan = Plan(status: Script, display: bool, exec: Option<Script>)

  function PlanFor(st: RunState): (p: Plan)
    ensures st.status ==> p.exec.None? && p.display
    ensures p.exec.Some? ==> IsExec(p.exec.value)
  {
    if st.status then
      if st.action == Action.Push then Plan(AddStatus, true, None) else Plan(FetchStatus, true, None)
    else if st.action == Action.Pull then Plan(FetchStatus, false, Some(GitPull))
    else if st.action == Action.Push then Plan(AddStatus, true, Some(CommitPush))
    else Plan(NoScript, false, None)
  }

  const UpToDate := "Your branch is up to date"
  const Ahead := "Your branch is ahead of"
  const TreeClean := "nothing to commit, working tree clean"

  /** Pull sentinel: no changes iff the second line starts, ignoring case, with
      "Your branch is up to date" or "Your branch is ahead of". */
  function PullChanges(lines: seq<string>): (changes: bool)
    requires |lines| > 0
    ensures |lines| == 1 ==> changes
    ensures !changes <==> |lines| > 1 && (StartsWithIgnoreCase(lines[1], UpToDate) || StartsWithIgnoreCase(lines[1], Ahead))
  {
    if |lines| > 1 then
      var case1 := StartsWithIgnoreCase(lines[1], UpToDate);
      var case2 := StartsWithIgnoreCase(lines[1], Ahead);
      !(case1 || case2)
    else true
  }

  /** The outcome of reading a non-empty status output. */
  datatype Decision = Decision(changes: bool, exec: Option<Script>)

  /** Push sentinel: changes whenever the last line is not the clean-tree line; with
      a clean tree, changes iff the second line says the branch is ahead, and then
      outside status mode only a push runs. */
  function PushDecision(lines: seq<string>, st: RunState): (d: Decision)
    requires |lines| > 0
    ensures !EqualsIgnoreCase(lines[|lines| - 1], TreeClean) ==> d == Decision(true, PlanFor(st).exec)
    ensures EqualsIgnoreCase(lines[|lines| - 1], TreeClean) ==>
      d.changes == (|lines| > 1 && StartsWithIgnoreCase(lines[1], Ahead))
    ensures d.exec != PlanFor(st).exec ==> d.changes && !st.status && d.exec == Some(PushOnly)
  {
    var changes := !EqualsIgnoreCase(lines[|lines| - 1], TreeClean);
    if !changes && |lines| > 1 then
      var ahead := StartsWithIgnoreCase(lines[1], Ahead);
      Decision(ahead, if !st.status && ahead then Some(PushOnly) else PlanFor(st).exec)
    else Decision(changes, PlanFor(st).exec)
  }

  /** The decision for a non-empty output: the pull or push sentinel, and changes
      assumed for any other action. */
  function Decide(lines: seq<string>, st: RunState): (d: Decision)
    requires |lines| > 0
  {
    if st.action == Action.Pull then Decision(PullChanges(lines), PlanFor(st).exec)
    else if st.action == Action.Push then PushDecision(lines, st)
    else Decision(true, PlanFor(st).exec)
  }

  /** The scripts a query-based run executes, in order: the status query, then on
      changes the shown query (when printing) and the exec script. */
  function Runs(lines: seq<string>, st: RunState): (r: seq<Script>)
    ensures |r| >= 1 && r[0] == PlanFor(st).status
    ensures forall i :: 0 <= i < |r| && IsExec(r[i]) ==> |lines| > 0 && Decide(lines, st).changes && !st.status
  {
    var plan := PlanFor(st);
    if lines == [] then [plan.status]
    else
      var d := Decide(lines, st);
      if !d.changes then [plan.status]
      else
        [plan.status]
        + (if plan.display && st.printing then [plan.status] else [])
        + (if d.exec.Some? then [d.exec.value] else [])
  }

  /** The first output waiting to be read, or none. */
  function NextLines(reports: seq<seq<string>>): seq<string>
  {
    if reports == [] then [] else reports[0]
  }

  /** The hard-pull path: outside status mode, for an action that is neither push
      nor pull, with `hard_pull` set. */
  predicate IsHardPull(st: RunState)
  {
    !st.status && st.action == Action.Both && st.hardPull
  }

  /** Removes every listed entry (with its subtree) whose name is not `.git`. */
  function HardPullClear(fs: FileSystem, entries: seq<Path>): (r: FileSystem)
    ensures r.Keys <= fs.Keys && forall q :: q in r ==> r[q] == fs[q]
    decreases |entries|
  {
    if entries == [] then fs
    else
      var e := entries[|entries| - 1];
      var mid := HardPullClear(fs, entries[..|entries| - 1]);
      if Name(e) != ".git" then RemoveTree(mid, e) else mid
  }

  lemma HardPullClearSnoc(fs: FileSystem, entries: seq<Path>, i: nat)
    requires i < |entries|
    ensures HardPullClear(fs, entries[..i + 1]) ==
      if Name(entries[i]) != ".git" then RemoveTree(HardPullClear(fs, entries[..i]), entries[i])
      else HardPullClear(fs, entries[..i])
  {
    assert entries[..i + 1][..i] == entries[..i];
  }

  /** A listed entry other than `.git` is removed together with everything below it;
      an entry survives iff no such listed entry lies above it. */
  lemma {:induction false} HardPullClearRemoves(fs: FileSystem, entries: seq<Path>, q: Path)
    ensures q in HardPullClear(fs, entries) <==>
      q in fs && forall i :: 0 <= i < |entries| && Name(entries[i]) != ".git" ==> !(entries[i] <= q)
    decreases |entries|
  {
    if entries != [] {
      var init := entries[..|entries| - 1];
      HardPullClearRemoves(fs, init, q);
      assert forall i :: 0 <= i < |init| ==> init[i] == entries[i];
    }
  }

  /** The listed `.git` directory of the git root and everything inside it survive a
      hard pull, and every other top-level entry is gone with its subtree. */
  lemma HardPullKeepsGitMetadata(host: Host, fs: FileSystem, root: Path, g: Path)
    requires ValidHost(host)
    requires g in Children(fs, root) && Name(g) == ".git"
    ensures var r := HardPullClear(fs, host.list(fs, root));
      && (forall q :: q in fs && g <= q ==> q in r && r[q] == fs[q])
      && (forall e, q :: e in Children(fs, root) && Name(e) != ".git" && e <= q ==> q !in r)
  {
    var entries := host.list(fs, root);
    var r := HardPullClear(fs, entries);
    forall q | q in fs && g <= q ensures q in r {
      forall i | 0 <= i < |entries| && Name(entries[i]) != ".git" ensures !(entries[i] <= q) {
        assert entries[i] in entries;
      }
      HardPullClearRemoves(fs, entries, q);
    }
    forall e, q | e in Children(fs, root) && Name(e) != ".git" && e <= q ensures q !in r {
      assert e in entries;
      var i :| 0 <= i < |entries| && entries[i] == e;
      HardPullClearRemoves(fs, entries, q);
    }
  }

  /** The reset of a hard pull: every top-level entry of the git root other than
      `.git` is removed. */
  method HardPull(w: World, gitPath: Path)
    modifies w`fs
    ensures w.fs == HardPullClear(old(w.fs), w.host.list(old(w.fs), gitPath))
  {
    var list := w.host.list(w.fs, gitPath);
    ghost var fs0 := w.fs;
    for i := 0 to |list|
      invariant w.fs == HardPullClear(fs0, list[..i])
    {
      HardPullClearSnoc(fs0, list, i);
      if Name(list[i]) != ".git" {
        w.fs := RemoveTree(w.fs, list[i]);
      }
    }
    assert list[..|list|] == list;
  }

  /** Reads a non-empty status output the way the step does. */
  method ReadStatus(lines: seq<string>, st: RunState) returns (changes: bool, exec: Option<Script>)
    requires |lines| > 0
    ensures Decision(changes, exec) == Decide(lines, st)
  {
    changes := true;
    exec := PlanFor(st).exec;
    if st.action == Action.Pull {
      if |lines| > 1 {
        var case1 := StartsWithIgnoreCase(lines[1], UpToDate);
        var case2 := StartsWithIgnoreCase(lines[1], Ahead);
        changes := !(case1 || case2);
      }
    } else if st.action == Action.Push {
      changes := !EqualsIgnoreCase(lines[|lines| - 1], TreeClean);
      if !changes && |lines| > 1 {
        var start := StartsWithIgnoreCase(lines[1], Ahead);
        changes := start;
        if !st.status && changes {
          exec := Some(PushOnly);
        }
      }
    }
  }

  /** The query-based path: runs the status query, reads its output and, on changes,
      shows the query again and runs the exec script. */
  method Query(w: World, history: History, st: RunState) returns (updated: History, ran: seq<Script>)
    modifies w`reports
    ensures w.reports == (if old(w.reports) == [] then [] else old(w.reports)[1..])
    ensures ran == Runs(NextLines(old(w.reports)), st)
    ensures updated == (if NextLines(old(w.reports)) == [] then history
                        else history.(gitChanges := Decide(NextLines(old(w.reports)), st).changes))
  {
    var plan := PlanFor(st);
    ran := [plan.status];
    var lines := w.NextReport();
    updated := history;
    if lines == [] {
      return;
    }
    var changes, exec := ReadStatus(lines, st);
    updated := updated.(gitChanges := changes);
    if changes {
      if plan.display && st.printing {
        ran := ran + [plan.status];
      }
      if exec.Some? {
        ran := ran + [exec.value];
      }
    }
  }

  /** `git(path, state, history)`: `ran` lists the scripts executed, in order. */
  method Git(w: World, history: History, path: Path, st: RunState) returns (updated: History, ran: seq<Script>)
    modifies w`fs, w`reports
    ensures st.checkMode && !st.status ==>
      updated == history && ran == [] && w.fs == old(w.fs) && w.reports == old(w.reports)
    ensures !(st.checkMode && !st.status) && IsHardPull(st) ==>
      && updated == history && ran == [ResetHard] && w.reports == old(w.reports)
      && w.fs == HardPullClear(old(w.fs), w.host.list(old(w.fs), GitRoot(old(w.fs), path)))
    ensures !(st.checkMode && !st.status) && !IsHardPull(st) ==>
      && w.fs == old(w.fs)
      && w.reports == (if old(w.reports) == [] then [] else old(w.reports)[1..])
      && ran == Runs(NextLines(old(w.reports)), st)
      && updated == (if NextLines(old(w.reports)) == [] then history
                     else history.(gitChanges := Decide(NextLines(old(w.reports)), st).changes))
  {
    if st.checkMode && !st.status {
      return history, [];
    }
    var gitPath := GitRoot(w.fs, path);
    if IsHardPull(st) {
      HardPull(w, gitPath);
      return history, [ResetHard];
    }
    updated, ran := Query(w, history, st);
  }

  /** A typical up-to-date fetch reports no git changes. */
  lemma PullUpToDateExample()
    ensures !PullChanges(["On branch master", "Your branch is up to date with 'origin/master'.", ""])
  {
    var line := "Your branch is up to date with 'origin/master'.";
    assert line[..|UpToDate|] == UpToDate;
  }

  /** A fetch that finds the branch behind reports changes, and the pull runs. */
  lemma PullBehindExample(st: RunState)
    requires st.action == Action.Pull && !st.status
    ensures var lines := ["On branch master", "Your branch is behind 'origin/master' by 2 commits."];
      Decide(lines, st).changes && Runs(lines, st) == [FetchStatus, GitPull]
  {
    var line := "Your branch is behind 'origin/master' by 2 commits.";
    assert line[..|UpToDate|][18] != UpToDate[18];
    assert line[..|Ahead|][18] != Ahead[18];
  }

  /** A clean tree whose branch is ahead runs only the push. */
  lemma PushAheadExample(st: RunState)
    requires st.action == Action.Push && !st.status && !st.printing
    ensures var lines := ["On branch main", "Your branch is ahead of 'origin/main' by 1 commit.", TreeClean];
      Decide(lines, st) == Decision(true, Some(PushOnly)) && Runs(lines, st) == [AddStatus, PushOnly]
  {
    var line := "Your branch is ahead of 'origin/main' by 1 commit.";
    assert line[..|Ahead|] == Ahead;
  }
}
