/** One managed directory of autogit_directory.hpp: its kind (git directory or
    solution directory), the commands it runs for a state, the push and pull status
    passes, the safe-move verdict and the safe move itself. */
module AutogitDirectories {
  import opened Files
  import opened State
  import opened Environment
  import opened Wrappers
  import opened Verdict
  import opened Planning
  import Mirror
  import Executable
  import GitSync
  import Collisions

  /** A step that reached the filesystem or git, with the state it ran under. */
  datatype Step = MoveStep(st: RunState) | ExeStep(st: RunState) | GitStep(st: RunState)

  /** A step that writes nothing: a mirror or promotion in check mode, or a git step
      that only queries status or is skipped by check mode. */
  predicate ReadOnly(s: Step)
  {
    match s
    case MoveStep(st) => st.checkMode
    case ExeStep(st) => st.checkMode
    case GitStep(st) => st.status || st.checkMode
  }

  /** A step ran for the same action, status flag and location as `st`. */
  predicate Carries(s: Step, st: RunState)
  {
    s.st.action == st.action && s.st.status == st.status && s.st.location == st.location
  }

  /** `after` extends `before` with steps that all ran for `st`. */
  predicate NewStepsCarry(before: seq<Step>, after: seq<Step>, st: RunState)
  {
    before <= after && forall i :: |before| <= i < |after| ==> Carries(after[i], st)
  }

  /** The mirror and promotion of a status run are forced into check mode. */
  function Forced(st: RunState): (r: RunState)
    ensures r.checkMode == (st.checkMode || st.status)
    ensures r.(checkMode := st.checkMode) == st
  {
    if st.status then st.(checkMode := true) else st
  }

  /** The state of a safe move in direction `a`: a printing pass without status. */
  function SafeState(st: RunState, a: Action): (r: RunState)
    ensures r.action == a && !r.status && r.printing
    ensures r.(status := st.status, printing := st.printing, action := st.action) == st
  {
    st.(status := false, printing := true, action := a)
  }

  /** A real update, which may ask before mirroring over a pull. */
  predicate ActualUpdate(st: RunState)
  {
    st.update && !st.status && !st.checkMode && !st.onlyConflicts
  }

  /** The check-mode collision pass run before mirroring after a pull. */
  function CollisionState(st: RunState): (r: RunState)
    ensures !ActualUpdate(r) && r.checkMode && r.onlyConflicts && r.findCollisions && !r.printing
    ensures r.action == st.action && r.status == st.status && r.location == st.location
  {
    st.(findCollisions := true, printing := false, checkMode := true, onlyConflicts := true)
  }

  /** The collision pass runs before a mirror when a real update follows a pull. */
  predicate Gated(st: RunState, cmd: Command, pulled: bool)
  {
    ActualUpdate(st) && cmd == Command.Move && pulled
  }

  function MoveSteps(st: RunState): seq<Step>
  {
    if st.location != Location.Git then [MoveStep(Forced(st))] else []
  }

  function ExeSteps(st: RunState): seq<Step>
  {
    if st.location != Location.Git then [ExeStep(Forced(st))] else []
  }

  function GitSteps(st: RunState): seq<Step>
  {
    if st.location != Location.Local then [GitStep(st)] else []
  }

  /** The steps one command takes: a pull mirrors then promotes, a push promotes then
      mirrors; git runs unless the location is local; exe is never dispatched. */
  function Planned(st: RunState, cmd: Command): (r: seq<Step>)
    ensures forall s :: s in r ==> Carries(s, st)
    ensures forall s :: s in r ==> s.st.onlyConflicts == st.onlyConflicts
    ensures st.status || st.checkMode ==> forall s :: s in r ==> ReadOnly(s)
    ensures cmd == Command.Exe || (cmd == Command.Move && st.action == Action.Both) ==> r == []
  {
    match cmd
    case Move =>
      if st.action == Action.Pull then MoveSteps(st) + ExeSteps(st)
      else if st.action == Action.Push then ExeSteps(st) + MoveSteps(st)
      else []
    case Git => GitSteps(st)
    case Exe => []
  }

  /** The steps of a command list, in order. */
  function PlannedAll(st: RunState, cmds: seq<Command>): (r: seq<Step>)
    ensures forall s :: s in r ==> Carries(s, st)
    ensures st.status || st.checkMode ==> forall s :: s in r ==> ReadOnly(s)
    decreases |cmds|
  {
    if cmds == [] then []
    else PlannedAll(st, cmds[..|cmds| - 1]) + Planned(st, cmds[|cmds| - 1])
  }

  /** The steps of a run leaving out those of its collision passes, which are the
      only passes that look for conflicts alone. */
  function Main(steps: seq<Step>): seq<Step>
    decreases |steps|
  {
    if steps == [] then []
    else
      var last := steps[|steps| - 1];
      Main(steps[..|steps| - 1]) + (if last.st.onlyConflicts then [] else [last])
  }

  /** Steps of passes that do not look for conflicts alone are all kept... */
  lemma {:induction false} MainKeeps(steps: seq<Step>)
    requires forall s :: s in steps ==> !s.st.onlyConflicts
    ensures Main(steps) == steps
    decreases |steps|
  {
    if steps != [] {
      var n := |steps| - 1;
      var init, last := steps[..n], steps[n];
      assert last in steps;
      assert forall s :: s in init ==> s in steps;
      MainKeeps(init);
      calc {
        Main(steps);
        Main(init) + [last];
        init + [last];
        { assert init + [last] == steps; }
        steps;
      }
    }
  }

  /** ...and those of collision passes are all left out. */
  lemma {:induction false} MainDrops(steps: seq<Step>)
    requires forall s :: s in steps ==> s.st.onlyConflicts
    ensures Main(steps) == []
    decreases |steps|
  {
    if steps != [] {
      var init := steps[..|steps| - 1];
      assert forall s :: s in init ==> s in steps;
      assert steps[|steps| - 1] in steps;
      MainDrops(init);
    }
  }

  lemma {:induction false} MainAppend(a: seq<Step>, b: seq<Step>)
    ensures Main(a + b) == Main(a) + Main(b)
    decreases |b|
  {
    if b == [] {
      assert a + b == a;
    } else {
      var init := b[..|b| - 1];
      var ab := a + b;
      assert ab[..|ab| - 1] == a + init && ab[|ab| - 1] == b[|b| - 1];
      MainAppend(a, init);
      var x := if b[|b| - 1].st.onlyConflicts then [] else [b[|b| - 1]];
      calc {
        Main(ab);
        Main(a + init) + x;
        Main(a) + Main(init) + x;
        Main(a) + (Main(init) + x);
      }
    }
  }

  /** `main` is what remains of the plan of `cmds` for `st` when the steps of some
      mirror commands are left out, as a refused collision confirmation does. */
  predicate RanAsPlanned(st: RunState, cmds: seq<Command>, main: seq<Step>)
    decreases |cmds|
  {
    if cmds == [] then main == []
    else
      var init := cmds[..|cmds| - 1];
      var c := cmds[|cmds| - 1];
      var p := Planned(st, c);
      || (|p| <= |main| && main[|main| - |p|..] == p && RanAsPlanned(st, init, main[..|main| - |p|]))
      || (c == Command.Move && RanAsPlanned(st, init, main))
  }

  /** The whole plan is one way to run as planned. */
  lemma {:induction false} PlanRunsAsPlanned(st: RunState, cmds: seq<Command>)
    ensures RanAsPlanned(st, cmds, PlannedAll(st, cmds))
    decreases |cmds|
  {
    if cmds != [] {
      var init := cmds[..|cmds| - 1];
      var all := PlannedAll(st, cmds);
      var p := Planned(st, cmds[|cmds| - 1]);
      assert all[|all| - |p|..] == p && all[..|all| - |p|] == PlannedAll(st, init);
      PlanRunsAsPlanned(st, init);
    }
  }

  /** Without mirror commands, running as planned is running the whole plan. */
  lemma {:induction false} RanAsPlannedWithoutMoves(st: RunState, cmds: seq<Command>, main: seq<Step>)
    requires Command.Move !in cmds && RanAsPlanned(st, cmds, main)
    ensures main == PlannedAll(st, cmds)
    decreases |cmds|
  {
    if cmds != [] {
      var init := cmds[..|cmds| - 1];
      var p := Planned(st, cmds[|cmds| - 1]);
      assert cmds[|cmds| - 1] in cmds;
      assert forall c :: c in init ==> c in cmds;
      RanAsPlannedWithoutMoves(st, init, main[..|main| - |p|]);
      assert main == main[..|main| - |p|] + main[|main| - |p|..];
    }
  }

  /** One more command of a real update keeps `RanAsPlanned` over the main steps. */
  lemma RanAsPlannedStep(st: RunState, cmds: seq<Command>, i: nat, main: seq<Step>, added: seq<Step>)
    requires i < |cmds| && !st.onlyConflicts
    requires RanAsPlanned(st, cmds[..i], main)
    requires Main(added) == Planned(st, cmds[i]) || (cmds[i] == Command.Move && Main(added) == [])
    ensures RanAsPlanned(st, cmds[..i + 1], main + Main(added))
  {
    var next := cmds[..i + 1];
    assert next[..|next| - 1] == cmds[..i] && next[|next| - 1] == cmds[i];
    var m := main + Main(added);
    if Main(added) == Planned(st, cmds[i]) {
      assert m[|m| - |Main(added)|..] == Main(added) && m[..|m| - |Main(added)|] == main;
    } else {
      assert m == main;
    }
  }

  /** Appending steps that ran for `st` keeps `NewStepsCarry`. */
  lemma CarryAppend(before: seq<Step>, plan: seq<Step>, st: RunState)
    requires forall s :: s in plan ==> Carries(s, st)
    ensures NewStepsCarry(before, before + plan, st)
  {
    forall i | |before| <= i < |before + plan| ensures Carries((before + plan)[i], st) {
      assert (before + plan)[i] == plan[i - |before|];
    }
  }

  /** `after` extends `before` with read-only steps of status runs only. */
  predicate QueriesOnly(before: seq<Step>, after: seq<Step>)
  {
    before <= after && forall i :: |before| <= i < |after| ==> ReadOnly(after[i]) && after[i].st.status
  }

  lemma QueriesOnlyTrans(a: seq<Step>, b: seq<Step>, c: seq<Step>)
    requires QueriesOnly(a, b) && QueriesOnly(b, c)
    ensures QueriesOnly(a, c)
  {
    forall i | |a| <= i < |c| ensures ReadOnly(c[i]) && c[i].st.status {
      if i < |b| {
        assert c[i] == b[i];
      }
    }
  }

  lemma CarryTrans(a: seq<Step>, b: seq<Step>, c: seq<Step>, st: RunState)
    requires NewStepsCarry(a, b, st) && NewStepsCarry(b, c, st)
    ensures NewStepsCarry(a, c, st)
  {
    forall i | |a| <= i < |c| ensures Carries(c[i], st) {
      if i < |b| {
        assert c[i] == b[i];
      }
    }
  }

  lemma PlannedAllSnoc(st: RunState, cmds: seq<Command>, i: nat)
    requires i < |cmds|
    ensures PlannedAll(st, cmds[..i + 1]) == PlannedAll(st, cmds[..i]) + Planned(st, cmds[i])
  {
    assert cmds[..i + 1][..i] == cmds[..i];
  }

  /** One more command of the loop keeps the loop's step invariants. */
  lemma RunStep(start: seq<Step>, mid: seq<Step>, after: seq<Step>, st: RunState, cmds: seq<Command>, i: nat)
    requires i < |cmds|
    requires NewStepsCarry(start, mid, st) && NewStepsCarry(mid, after, st)
    requires !ActualUpdate(st) ==> mid == start + PlannedAll(st, cmds[..i]) && after == mid + Planned(st, cmds[i])
    ensures NewStepsCarry(start, after, st)
    ensures !ActualUpdate(st) ==> after == start + PlannedAll(st, cmds[..i + 1])
  {
    CarryTrans(start, mid, after, st);
    PlannedAllSnoc(st, cmds, i);
  }

  /** In a real update, the main steps one command adds are its plan, or nothing
      when the collision confirmation before a mirror is refused. */
  lemma CommandMain(st: RunState, cmd: Command, pulled: bool, mid: seq<Step>, after: seq<Step>)
    requires ActualUpdate(st)
    requires !Gated(st, cmd, pulled) ==> after == mid + Planned(st, cmd)
    requires Gated(st, cmd, pulled) ==>
      || after == mid + Planned(CollisionState(st), cmd)
      || after == mid + Planned(CollisionState(st), cmd) + Planned(st, cmd)
    ensures mid <= after
    ensures Main(after[|mid|..]) == Planned(st, cmd) || (cmd == Command.Move && Main(after[|mid|..]) == [])
  {
    var collision := Planned(CollisionState(st), cmd);
    var plan := Planned(st, cmd);
    assert Main(collision) == [] by {
      MainDrops(collision);
    }
    assert Main(plan) == plan by {
      MainKeeps(plan);
    }
    if !Gated(st, cmd, pulled) {
      AppendedPart(mid, plan, after);
    } else if after == mid + collision {
      AppendedPart(mid, collision, after);
    } else {
      AppendedPart(mid, collision + plan, after);
      MainAppend(collision, plan);
    }
  }

  lemma AppendedPart(mid: seq<Step>, added: seq<Step>, after: seq<Step>)
    requires after == mid + added
    ensures mid <= after && after[|mid|..] == added
  {
  }

  /** The main steps of a run grow by the main steps of what is appended. */
  lemma MainGrows(start: seq<Step>, mid: seq<Step>, after: seq<Step>)
    requires start <= mid <= after
    ensures Main(after[|start|..]) == Main(mid[|start|..]) + Main(after[|mid|..])
  {
    assert after[|start|..] == mid[|start|..] + after[|mid|..];
    MainAppend(mid[|start|..], after[|mid|..]);
  }

  lemma ReadOnlyAppend(before: seq<Step>, plan: seq<Step>)
    requires forall s :: s in plan ==> ReadOnly(s)
    ensures forall i :: |before| <= i < |before + plan| ==> ReadOnly((before + plan)[i])
  {
    forall i | |before| <= i < |before + plan| ensures ReadOnly((before + plan)[i]) {
      assert (before + plan)[i] == plan[i - |before|];
    }
  }

  /** The name shown for a directory: its own name, or its parent's when it is the
      `git` sibling. */
  function DirectoryName(p: Path): (r: string)
    ensures Name(p) != "git" ==> r == Name(p)
    ensures Name(p) == "git" ==> r == Name(Parent(p))
  {
    if Name(p) == "git" then Name(Parent(p)) else Name(p)
  }

  /** The solution path and the git path `set_path` records for `p`: a solution
      directory records its git sibling when there is one; otherwise a directory that
      is itself a git directory is its own git path. An empty path means none. */
  function Classify(host: Host, fs: FileSystem, p: Path): (Path, Path)
  {
    var sol, git := host.solutionDirectory(fs, p), host.gitDirectory(fs, p);
    if sol.Some? then (sol.value, if git.Some? then git.value else [])
    else ([], if host.isGitDirectory(fs, p) then p else [])
  }

  /** The process-wide state a pass of one directory reads and writes: the
      filesystem, the `checked` set, the change tally and the pending git reports,
      with the history the pass accumulates into. */
  datatype Globals = Globals(fs: FileSystem, checked: set<Path>, total: nat, reports: seq<seq<string>>, history: History)

  function GlobalsOf(w: World, history: History): Globals
    reads w
  {
    Globals(w.fs, w.checked, w.totalChangeSum, w.reports, history)
  }

  /** `perform_exe` on the globals: the promotion under the forced state, except at
      the git location. */
  function ExeEffect(g: Globals, path: Path, st: RunState): (r: Globals)
    ensures r.checked == g.checked && r.total == g.total && r.reports == g.reports
    ensures st.checkMode || st.status ==> r.fs == g.fs
  {
    if st.location == Location.Git then g
    else
      var p := Executable.Promote(g.fs, g.history, path, Forced(st));
      g.(fs := p.fs, history := p.history)
  }

  /** `perform_move` on the globals: the mirror under the forced state, except at the
      git location. */
  function MoveEffect(g: Globals, host: Host, path: Path, st: RunState): (r: Globals)
    requires ValidHost(host)
    ensures r.reports == g.reports
    ensures st.checkMode || st.status ==> r.fs == g.fs
  {
    if st.location == Location.Git then g
    else
      var p := Mirror.MoveSpec(Mirror.Pass(g.fs, g.checked, g.total, g.history), host, path, Forced(st));
      g.(fs := p.fs, checked := p.checked, total := p.total, history := p.history)
  }

  /** `perform_git` on the globals: nothing at the local location or in a check-mode
      run without status; otherwise a hard pull, or one status query whose report
      decides the git flag. */
  function GitEffect(g: Globals, host: Host, path: Path, st: RunState): (r: Globals)
    ensures r.checked == g.checked && r.total == g.total
    ensures st.checkMode || st.status ==> r.fs == g.fs
  {
    if st.location == Location.Local || (st.checkMode && !st.status) then g
    else if GitSync.IsHardPull(st) then
      g.(fs := GitSync.HardPullClear(g.fs, host.list(g.fs, GitSync.GitRoot(g.fs, path))))
    else
      var lines := GitSync.NextLines(g.reports);
      g.(reports := if g.reports == [] then [] else g.reports[1..],
         history := if lines == [] then g.history else g.history.(gitChanges := GitSync.Decide(lines, st).changes))
  }

  /** One command of `execute(state, command)` on the globals. */
  function CommandEffect(g: Globals, host: Host, path: Path, st: RunState, cmd: Command): (r: Globals)
    requires ValidHost(host)
  {
    match cmd
    case Move =>
      if st.action == Action.Pull then ExeEffect(MoveEffect(g, host, path, st), path, st)
      else if st.action == Action.Push then MoveEffect(ExeEffect(g, path, st), host, path, st)
      else g
    case Git => GitEffect(g, host, path, st)
    case Exe => g
  }

  /** The commands in turn. */
  function CommandsEffect(g: Globals, host: Host, path: Path, st: RunState, cmds: seq<Command>): (r: Globals)
    requires ValidHost(host)
    decreases |cmds|
  {
    if cmds == [] then g
    else CommandEffect(CommandsEffect(g, host, path, st, cmds[..|cmds| - 1]), host, path, st, cmds[|cmds| - 1])
  }

  /** `execute(state, commands)` on the globals outside a real update: the commands
      in turn from a cleared history. */
  function PassEffect(g: Globals, host: Host, path: Path, st: RunState, cmds: seq<Command>): (r: Globals)
    requires ValidHost(host)
  {
    CommandsEffect(g.(history := EmptyHistory), host, path, st, cmds)
  }

  lemma CommandsEffectSnoc(g: Globals, host: Host, path: Path, st: RunState, cmds: seq<Command>, i: nat)
    requires ValidHost(host) && i < |cmds|
    ensures CommandsEffect(g, host, path, st, cmds[..i + 1])
      == CommandEffect(CommandsEffect(g, host, path, st, cmds[..i]), host, path, st, cmds[i])
  {
    assert cmds[..i + 1][..i] == cmds[..i];
  }

  /** A pass in check mode or of a status run leaves the filesystem as it was. */
  lemma {:induction false} CommandsEffectReadOnly(g: Globals, host: Host, path: Path, st: RunState, cmds: seq<Command>)
    requires ValidHost(host) && (st.checkMode || st.status)
    ensures CommandsEffect(g, host, path, st, cmds).fs == g.fs
    decreases |cmds|
  {
    if cmds != [] {
      CommandsEffectReadOnly(g, host, path, st, cmds[..|cmds| - 1]);
    }
  }

  /** What the status passes have produced so far: the globals, the two statuses and
      the whole step log. */
  datatype Passes = Passes(globals: Globals, push: Status, pull: Status, steps: seq<Step>)

  /** The state of the status passes of an undirected run: printing only in a status
      run, with status, check mode and collision search on. */
  function StatusPassState(st: RunState): (r: RunState)
    ensures r.status && r.checkMode && r.findCollisions && r.printing == st.status
    ensures r.update == st.update && r.onlyConflicts == st.onlyConflicts && r.location == st.location
  {
    st.(printing := st.status, status := true, checkMode := true, findCollisions := true)
  }

  /** One status pass in direction `a` after `p`: the direction's commands as a pass,
      whose history becomes that direction's status. */
  function StatusPassEffect(p: Passes, host: Host, path: Path, isGit: bool, isSolution: bool, passes: RunState, a: Action): (r: Passes)
    requires ValidHost(host)
  {
    var s := passes.(action := a);
    var cmds := Planning.Commands(isGit, isSolution, s);
    var g := PassEffect(p.globals, host, path, s, cmds);
    Passes(g, if a == Action.Push then StatusOf(g.history) else p.push,
           if a == Action.Pull then StatusOf(g.history) else p.pull, p.steps + PlannedAll(s, cmds))
  }

  /** The reruns after the first two status passes: when the run does not print,
      push again if the push status shows time overwrites, then pull again if the
      pull status does. */
  function RerunsEffect(p: Passes, host: Host, path: Path, isGit: bool, isSolution: bool, passes: RunState): (r: Passes)
    requires ValidHost(host)
  {
    var second := if !passes.printing && p.push.timeOverwrites
                  then StatusPassEffect(p, host, path, isGit, isSolution, passes, Action.Push) else p;
    if !passes.printing && second.pull.timeOverwrites
    then StatusPassEffect(second, host, path, isGit, isSolution, passes, Action.Pull) else second
  }

  /** The status passes of an undirected run: push, then pull, then the reruns. */
  function StatusPassesEffect(p: Passes, host: Host, path: Path, isGit: bool, isSolution: bool, passes: RunState): (r: Passes)
    requires ValidHost(host)
  {
    var first := StatusPassEffect(StatusPassEffect(p, host, path, isGit, isSolution, passes, Action.Push),
                                  host, path, isGit, isSolution, passes, Action.Pull);
    RerunsEffect(first, host, path, isGit, isSolution, passes)
  }

  /** What an undirected status or update run does before its verdict: nothing when
      the directory has no commands in either direction, otherwise the status
      passes. */
  function StatusRunPasses(p: Passes, host: Host, path: Path, isGit: bool, isSolution: bool, st: RunState): (r: Passes)
    requires ValidHost(host)
  {
    var passes := StatusPassState(st);
    if Planning.Commands(isGit, isSolution, passes.(action := Action.Push)) == []
       && Planning.Commands(isGit, isSolution, passes.(action := Action.Pull)) == []
    then p
    else StatusPassesEffect(p, host, path, isGit, isSolution, passes)
  }

  /** A status pass only queries: the filesystem is kept and every step it adds is a
      read-only step of a status run. */
  lemma StatusPassQueries(p: Passes, host: Host, path: Path, isGit: bool, isSolution: bool, passes: RunState, a: Action)
    requires ValidHost(host) && passes.status
    ensures var r := StatusPassEffect(p, host, path, isGit, isSolution, passes, a);
      r.globals.fs == p.globals.fs && QueriesOnly(p.steps, r.steps)
  {
    var s := passes.(action := a);
    var cmds := Planning.Commands(isGit, isSolution, s);
    CommandsEffectReadOnly(p.globals.(history := EmptyHistory), host, path, s, cmds);
    var plan := PlannedAll(s, cmds);
    forall i | |p.steps| <= i < |p.steps + plan| ensures ReadOnly((p.steps + plan)[i]) && (p.steps + plan)[i].st.status {
      assert (p.steps + plan)[i] == plan[i - |p.steps|];
      assert plan[i - |p.steps|] in plan;
    }
  }

  /** The status passes of an undirected run write nothing and take only read-only
      steps of status runs. */
  lemma StatusRunPassesQueries(p: Passes, host: Host, path: Path, isGit: bool, isSolution: bool, st: RunState)
    requires ValidHost(host)
    ensures var r := StatusRunPasses(p, host, path, isGit, isSolution, st);
      r.globals.fs == p.globals.fs && QueriesOnly(p.steps, r.steps)
  {
    var passes := StatusPassState(st);
    var p1 := StatusPassEffect(p, host, path, isGit, isSolution, passes, Action.Push);
    var p2 := StatusPassEffect(p1, host, path, isGit, isSolution, passes, Action.Pull);
    StatusPassQueries(p, host, path, isGit, isSolution, passes, Action.Push);
    StatusPassQueries(p1, host, path, isGit, isSolution, passes, Action.Pull);
    QueriesOnlyTrans(p.steps, p1.steps, p2.steps);
    var p3 := if !passes.printing && p2.push.timeOverwrites
              then StatusPassEffect(p2, host, path, isGit, isSolution, passes, Action.Push) else p2;
    StatusPassQueries(p2, host, path, isGit, isSolution, passes, Action.Push);
    QueriesOnlyTrans(p.steps, p2.steps, p3.steps);
    StatusPassQueries(p3, host, path, isGit, isSolution, passes, Action.Pull);
    if !passes.printing && p3.pull.timeOverwrites {
      QueriesOnlyTrans(p.steps, p3.steps, StatusPassEffect(p3, host, path, isGit, isSolution, passes, Action.Pull).steps);
    }
  }

  class AutogitDirectory {
    const solutionPath: Path
    const gitPath: Path
    const path: Path
    const directoryName: string
    var pushStatus: Status
    var pullStatus: Status
    var history: History
    var pulled: bool
    var canSafelyPush: bool
    var canSafelyPull: bool
    /** The mirror, promotion and git steps run so far, in order. */
    ghost var steps: seq<Step>

    predicate IsGit()
    {
      solutionPath == [] && gitPath != []
    }

    predicate IsSolution()
    {
      solutionPath != [] && gitPath != []
    }

    predicate IsSolutionWithoutGit()
    {
      solutionPath != [] && gitPath == []
    }

    /** `empty`: neither a git directory nor a solution directory. */
    predicate Empty()
    {
      !IsGit() && !IsSolution()
    }

    /** A default-constructed directory followed by `set_path`, the only way the
        program creates one: a solution directory records its git sibling when there
        is one; otherwise a directory that is itself a git directory is its own git
        path. The paths and the name never change afterwards. */
    constructor SetPath(w: World, p: Path)
      ensures path == p && directoryName == DirectoryName(p)
      ensures (solutionPath, gitPath) == Classify(w.host, w.fs, p)
      ensures w.host.solutionDirectory(w.fs, p).None? ==>
        (IsGit() <==> p != [] && w.host.isGitDirectory(w.fs, p)) && !IsSolution() && !IsSolutionWithoutGit()
      ensures pushStatus.Clean() && pullStatus.Clean() && history == EmptyHistory
      ensures !pulled && !canSafelyPush && !canSafelyPull && steps == []
    {
      var solution: Path := [];
      var git: Path := [];
      var solutionOptional := w.host.solutionDirectory(w.fs, p);
      if solutionOptional.Some? {
        solution := solutionOptional.value;
        var gitOptional := w.host.gitDirectory(w.fs, p);
        if gitOptional.Some? {
          git := gitOptional.value;
        }
      } else if w.host.isGitDirectory(w.fs, p) {
        git := p;
      }
      var name := Name(p);
      if name == "git" {
        name := Name(Parent(p));
      }
      solutionPath, gitPath, path, directoryName := solution, git, p, name;
      pushStatus := Status(false, false, false, false);
      pullStatus := Status(false, false, false, false);
      history := EmptyHistory;
      pulled, canSafelyPush, canSafelyPull := false, false, false;
      steps := [];
    }

    /** `get_active_path`: the git path of a git directory, the solution path of a
        solution directory, nothing otherwise. */
    function ActivePath(): (r: Path)
      ensures r == [] <==> Empty()
      ensures r != [] ==> (IsGit() && r == gitPath) || (IsSolution() && r == solutionPath)
    {
      if IsGit() then gitPath else if IsSolution() then solutionPath else []
    }

    /** `get_commands`. */
    function Commands(st: RunState): seq<Command>
    {
      Planning.Commands(IsGit(), IsSolution(), st)
    }

    /** `perform_exe`: skipped for the git location; a status run is forced into check
        mode. */
    method PerformExe(w: World, st: RunState)
      modifies w`fs, this`history, this`steps
      ensures steps == old(steps) + ExeSteps(st)
      ensures st.checkMode || st.status ==> w.fs == old(w.fs)
      ensures st.location == Location.Git ==> w.fs == old(w.fs) && history == old(history)
      ensures st.location != Location.Git ==>
        Executable.Promotion(w.fs, history) == Executable.Promote(old(w.fs), old(history), ActivePath(), Forced(st))
      ensures GlobalsOf(w, history) == ExeEffect(old(GlobalsOf(w, history)), ActivePath(), st)
    {
      if st.location != Location.Git {
        var path, forced := ActivePath(), Forced(st);
        history := Executable.Exe(w, history, path, forced);
        steps := steps + [ExeStep(forced)];
      }
    }

    /** `perform_move`: skipped for the git location; a status run is forced into
        check mode. */
    method PerformMove(w: World, st: RunState)
      requires ValidHost(w.host)
      modifies w`fs, w`checked, w`totalChangeSum, this`history, this`steps
      ensures steps == old(steps) + MoveSteps(st)
      ensures st.checkMode || st.status ==> w.fs == old(w.fs)
      ensures st.location == Location.Git ==> Mirror.Snapshot(w, history) == old(Mirror.Snapshot(w, history))
      ensures st.location != Location.Git ==>
        Mirror.Snapshot(w, history) == Mirror.MoveSpec(old(Mirror.Snapshot(w, history)), w.host, ActivePath(), Forced(st))
      ensures GlobalsOf(w, history) == MoveEffect(old(GlobalsOf(w, history)), w.host, ActivePath(), st)
    {
      if st.location != Location.Git {
        var path, forced := ActivePath(), Forced(st);
        var result;
        history, result := Mirror.Move(w, history, path, forced);
        steps := steps + [MoveStep(forced)];
      }
    }

    /** `perform_git`: skipped for the local location; a pull that found git changes
        marks the directory as pulled. */
    method PerformGit(w: World, st: RunState)
      modifies w`fs, w`reports, this`history, this`pulled, this`steps
      ensures steps == old(steps) + GitSteps(st)
      ensures history == old(history).(gitChanges := history.gitChanges)
      ensures st.location == Location.Local ==> w.reports == old(w.reports) && history == old(history)
      ensures pulled == (old(pulled) || (st.location != Location.Local && st.action == Action.Pull && history.gitChanges))
      ensures st.location == Location.Local || !GitSync.IsHardPull(st) || st.checkMode ==> w.fs == old(w.fs)
      ensures st.location != Location.Local && st.checkMode && !st.status ==>
        history == old(history) && w.reports == old(w.reports)
      ensures st.location != Location.Local && !(st.checkMode && !st.status) && GitSync.IsHardPull(st) ==>
        && history == old(history) && w.reports == old(w.reports)
        && w.fs == GitSync.HardPullClear(old(w.fs), w.host.list(old(w.fs), GitSync.GitRoot(old(w.fs), ActivePath())))
      ensures st.location != Location.Local && !(st.checkMode && !st.status) && !GitSync.IsHardPull(st) ==>
        var lines := GitSync.NextLines(old(w.reports));
        && w.reports == (if old(w.reports) == [] then [] else old(w.reports)[1..])
        && history == (if lines == [] then old(history) else old(history).(gitChanges := GitSync.Decide(lines, st).changes))
      ensures GlobalsOf(w, history) == GitEffect(old(GlobalsOf(w, history)), w.host, ActivePath(), st)
    {
      if st.location != Location.Local {
        var ran;
        history, ran := GitSync.Git(w, history, ActivePath(), st);
        steps := steps + [GitStep(st)];
        if st.action == Action.Pull && history.gitChanges {
          pulled := true;
        }
      }
    }

    /** `execute(state, command)`: a real mirror after a pull first runs the same
        mirror as a check-mode collision pass and goes on only if the operator
        confirms. */
    method ExecuteCommand(w: World, st: RunState, cmd: Command)
      requires ValidHost(w.host)
      modifies w`fs, w`checked, w`totalChangeSum, w`reports, w`input, this`history, this`pulled, this`steps
      ensures st.checkMode || st.status ==> w.fs == old(w.fs)
      ensures pulled == (old(pulled) || (cmd == Command.Git && st.location != Location.Local
                                         && st.action == Action.Pull && history.gitChanges))
      ensures !Gated(st, cmd, old(pulled)) ==> steps == old(steps) + Planned(st, cmd)
      ensures !Gated(st, cmd, old(pulled)) ==>
        GlobalsOf(w, history) == CommandEffect(old(GlobalsOf(w, history)), w.host, ActivePath(), st, cmd)
      ensures Gated(st, cmd, old(pulled)) ==>
        || (steps == old(steps) + Planned(CollisionState(st), cmd) && w.fs == old(w.fs))
        || steps == old(steps) + Planned(CollisionState(st), cmd) + Planned(st, cmd)
      ensures NewStepsCarry(old(steps), steps, st)
      ensures !ActualUpdate(st) ==> w.input == old(w.input)
      ensures Consumed(old(w.input), w.input)
      decreases if ActualUpdate(st) then 1 else 0
    {
      if ActualUpdate(st) && cmd == Command.Move && pulled {
        var collisionState := CollisionState(st);
        ExecuteCommand(w, collisionState, Command.Move);
        ghost var asked := w.input;
        var ok := Collisions.ConfirmCollisions(w, collisionState);
        if w.input != asked {
          ConsumedDrop(asked, Collisions.Answer(asked).consumed);
        }
        ConsumedTrans(old(w.input), asked, w.input);
        if !ok {
          return;
        }
      }
      // `command_reset` clears only what is shown, which is not modelled.
      ghost var before := steps;
      Dispatch(w, st, cmd);
      CarryAppend(before, Planned(st, cmd), st);
    }

    /** The command switch of `execute(state, command)`. */
    method Dispatch(w: World, st: RunState, cmd: Command)
      requires ValidHost(w.host)
      modifies w`fs, w`checked, w`totalChangeSum, w`reports, this`history, this`pulled, this`steps
      ensures st.checkMode || st.status ==> w.fs == old(w.fs)
      ensures pulled == (old(pulled) || (cmd == Command.Git && st.location != Location.Local
                                         && st.action == Action.Pull && history.gitChanges))
      ensures steps == old(steps) + Planned(st, cmd)
      ensures GlobalsOf(w, history) == CommandEffect(old(GlobalsOf(w, history)), w.host, ActivePath(), st, cmd)
    {
      if cmd == Command.Move {
        MoveCommand(w, st);
      } else if cmd == Command.Git {
        PerformGit(w, st);
      }
    }

    /** The move command: a pull mirrors then promotes, a push promotes then mirrors. */
    method MoveCommand(w: World, st: RunState)
      requires ValidHost(w.host)
      modifies w`fs, w`checked, w`totalChangeSum, this`history, this`steps
      ensures st.checkMode || st.status ==> w.fs == old(w.fs)
      ensures steps == old(steps) + Planned(st, Command.Move)
      ensures GlobalsOf(w, history) == CommandEffect(old(GlobalsOf(w, history)), w.host, ActivePath(), st, Command.Move)
    {
      if st.action == Action.Pull {
        PerformMove(w, st);
        PerformExe(w, st);
        assert steps == old(steps) + (MoveSteps(st) + ExeSteps(st));
      } else if st.action == Action.Push {
        PerformExe(w, st);
        PerformMove(w, st);
        assert steps == old(steps) + (ExeSteps(st) + MoveSteps(st));
      }
    }

    /** `get_status` and `determine_status`: the pass's history becomes the status of
        its direction. */
    method DetermineStatus(st: RunState)
      modifies this`pushStatus, this`pullStatus
      ensures st.action == Action.Pull ==> pullStatus == StatusOf(history) && pushStatus == old(pushStatus)
      ensures st.action == Action.Push ==> pushStatus == StatusOf(history) && pullStatus == old(pullStatus)
      ensures st.action == Action.Both ==> pushStatus == old(pushStatus) && pullStatus == old(pullStatus)
    {
      if st.action == Action.Pull {
        pullStatus := StatusOf(history);
      } else if st.action == Action.Push {
        pushStatus := StatusOf(history);
      }
    }

    /** The loop of `execute(state, commands)`: each command in turn. */
    method RunCommands(w: World, st: RunState, commands: seq<Command>)
      requires ValidHost(w.host)
      modifies w`fs, w`checked, w`totalChangeSum, w`reports, w`input, this`history, this`pulled, this`steps
      ensures st.checkMode || st.status ==> w.fs == old(w.fs)
      ensures !ActualUpdate(st) ==> steps == old(steps) + PlannedAll(st, commands)
      ensures NewStepsCarry(old(steps), steps, st)
      ensures ActualUpdate(st) ==> RanAsPlanned(st, commands, Main(steps[|old(steps)|..]))
      ensures !ActualUpdate(st) ==> w.input == old(w.input)
      ensures Consumed(old(w.input), w.input)
      ensures commands == [] ==> history == old(history)
      ensures !ActualUpdate(st) ==>
        GlobalsOf(w, history) == CommandsEffect(old(GlobalsOf(w, history)), w.host, ActivePath(), st, commands)
    {
      for i := 0 to |commands|
        invariant st.checkMode || st.status ==> w.fs == old(w.fs)
        invariant !ActualUpdate(st) ==> steps == old(steps) + PlannedAll(st, commands[..i])
        invariant !ActualUpdate(st) ==>
          GlobalsOf(w, history) == CommandsEffect(old(GlobalsOf(w, history)), w.host, ActivePath(), st, commands[..i])
        invariant NewStepsCarry(old(steps), steps, st)
        invariant ActualUpdate(st) ==> RanAsPlanned(st, commands[..i], Main(steps[|old(steps)|..]))
        invariant !ActualUpdate(st) ==> w.input == old(w.input)
        invariant Consumed(old(w.input), w.input)
        invariant i == 0 ==> history == old(history)
      {
        ghost var mid := steps;
        ghost var typed := w.input;
        ghost var wasPulled := pulled;
        CommandsEffectSnoc(old(GlobalsOf(w, history)), w.host, ActivePath(), st, commands, i);
        ExecuteCommand(w, st, commands[i]);
        ConsumedTrans(old(w.input), typed, w.input);
        RunStep(old(steps), mid, steps, st, commands, i);
        if ActualUpdate(st) {
          CommandMain(st, commands[i], wasPulled, mid, steps);
          MainGrows(old(steps), mid, steps);
          RanAsPlannedStep(st, commands, i, Main(mid[|old(steps)|..]), steps[|mid|..]);
        }
      }
      assert commands[..|commands|] == commands;
    }

    /** `execute(state, commands)`: one directional pass over a command list from a
        cleared history, ending with the status of that direction. */
    method ExecuteAll(w: World, st: RunState, commands: seq<Command>)
      requires ValidHost(w.host)
      modifies w`fs, w`checked, w`totalChangeSum, w`reports, w`input
      modifies this`history, this`pulled, this`steps, this`pushStatus, this`pullStatus
      ensures st.checkMode || st.status ==> w.fs == old(w.fs)
      ensures !ActualUpdate(st) ==> steps == old(steps) + PlannedAll(st, commands)
      ensures NewStepsCarry(old(steps), steps, st)
      ensures ActualUpdate(st) ==> RanAsPlanned(st, commands, Main(steps[|old(steps)|..]))
      ensures !ActualUpdate(st) ==> w.input == old(w.input)
      ensures Consumed(old(w.input), w.input)
      ensures st.status || st.checkMode ==> forall i :: |old(steps)| <= i < |steps| ==> ReadOnly(steps[i])
      ensures commands == [] ==> history == EmptyHistory
      ensures !ActualUpdate(st) ==>
        GlobalsOf(w, history) == PassEffect(old(GlobalsOf(w, history)), w.host, ActivePath(), st, commands)
      ensures st.action == Action.Pull ==> pullStatus == StatusOf(history) && pushStatus == old(pushStatus)
      ensures st.action == Action.Push ==> pushStatus == StatusOf(history) && pullStatus == old(pullStatus)
      ensures st.action == Action.Both ==> pushStatus == old(pushStatus) && pullStatus == old(pullStatus)
    {
      history := history.Reset();
      RunCommands(w, st, commands);
      if st.status || st.checkMode {
        ReadOnlyAppend(old(steps), PlannedAll(st, commands));
      }
      DetermineStatus(st);
      // The collision report printed here is not modelled.
    }

    /** `can_do_safe_move`. */
    predicate CanDoSafeMove()
      reads this`canSafelyPull, this`canSafelyPush
    {
      canSafelyPull || canSafelyPush
    }

    /** `perform_safe_move`: runs the one direction the statuses allow, push first;
        when it would overwrite git changes the operator must answer "y" first. */
    method PerformSafeMove(w: World, st: RunState)
      requires ValidHost(w.host)
      modifies w`fs, w`checked, w`totalChangeSum, w`reports, w`input
      modifies this`history, this`pulled, this`steps, this`pushStatus, this`pullStatus
      ensures !old(CanDoSafeMove()) ==> steps == old(steps) && w.fs == old(w.fs) && w.input == old(w.input)
      ensures st.checkMode ==> w.fs == old(w.fs)
      ensures Consumed(old(w.input), w.input)
      ensures steps != old(steps) ==>
        var d := SafeDirection(old(pushStatus), old(pullStatus));
        d.Some? && NewStepsCarry(old(steps), steps, st.(status := false, action := d.value))
      ensures old(CanDoSafeMove())
              && (CanPushBothChanges(old(pushStatus), old(pullStatus)) || CanPullBothChanges(old(pushStatus), old(pullStatus)))
              && !Collisions.Answer(old(w.input)).yes ==>
        steps == old(steps) && w.fs == old(w.fs)
      ensures old(CanDoSafeMove()) && SafeDirection(old(pushStatus), old(pullStatus)).Some?
              && (!(CanPushBothChanges(old(pushStatus), old(pullStatus)) || CanPullBothChanges(old(pushStatus), old(pullStatus)))
                  || Collisions.Answer(old(w.input)).yes) ==>
        var safe := SafeState(st, SafeDirection(old(pushStatus), old(pullStatus)).value);
        && old(steps) <= steps
        && (!ActualUpdate(safe) ==> steps == old(steps) + PlannedAll(safe, Commands(safe)))
        && (ActualUpdate(safe) ==> RanAsPlanned(safe, Commands(safe), Main(steps[|old(steps)|..])))
    {
      if !CanDoSafeMove() {
        return;
      }
      var canPushBothChanges := CanPushBothChanges(pushStatus, pullStatus);
      var canPullBothChanges := CanPullBothChanges(pushStatus, pullStatus);
      if canPushBothChanges || canPullBothChanges {
        var yes := Collisions.Prompt(w);
        ConsumedDrop(old(w.input), Collisions.Answer(old(w.input)).consumed);
        if !yes {
          return;
        }
      }
      ghost var asked := w.input;
      MoveInSafeDirection(w, st);
      ConsumedTrans(old(w.input), asked, w.input);
    }

    /** The branch of `perform_safe_move` that runs the pass: push when a push is
        allowed, else pull when a pull is. */
    method MoveInSafeDirection(w: World, st: RunState)
      requires ValidHost(w.host)
      modifies w`fs, w`checked, w`totalChangeSum, w`reports, w`input
      modifies this`history, this`pulled, this`steps, this`pushStatus, this`pullStatus
      ensures st.checkMode ==> w.fs == old(w.fs)
      ensures Consumed(old(w.input), w.input)
      ensures var d := SafeDirection(old(pushStatus), old(pullStatus));
        && (d.None? ==> steps == old(steps) && w.fs == old(w.fs))
        && (d.Some? ==>
              var safe := SafeState(st, d.value);
              && NewStepsCarry(old(steps), steps, st.(status := false, action := d.value))
              && (!ActualUpdate(safe) ==> steps == old(steps) + PlannedAll(safe, Commands(safe)))
              && (ActualUpdate(safe) ==> RanAsPlanned(safe, Commands(safe), Main(steps[|old(steps)|..]))))
    {
      var d := SafeDirection(pushStatus, pullStatus);
      if d.Some? {
        SafeMoveTo(w, st, d.value);
      }
    }

    /** The safe move in direction `a`: a printing, non-status pass over the
        direction's commands. */
    method SafeMoveTo(w: World, st: RunState, a: Action)
      requires ValidHost(w.host)
      modifies w`fs, w`checked, w`totalChangeSum, w`reports, w`input
      modifies this`history, this`pulled, this`steps, this`pushStatus, this`pullStatus
      ensures NewStepsCarry(old(steps), steps, st.(status := false, action := a))
      ensures !ActualUpdate(SafeState(st, a)) ==> steps == old(steps) + PlannedAll(SafeState(st, a), Commands(SafeState(st, a)))
      ensures ActualUpdate(SafeState(st, a)) ==> RanAsPlanned(SafeState(st, a), Commands(SafeState(st, a)), Main(steps[|old(steps)|..]))
      ensures st.checkMode ==> w.fs == old(w.fs)
      ensures Consumed(old(w.input), w.input)
    {
      var safe := SafeState(st, a);
      ExecuteAll(w, safe, Commands(safe));
      assert forall s :: Carries(s, safe) ==> Carries(s, st.(status := false, action := a));
    }

    /** One check-mode status pass in direction `a`: the direction's commands run as
        one pass, and its history becomes the direction's status. */
    method StatusPass(w: World, base: RunState, a: Action)
      requires ValidHost(w.host) && base.status && base.checkMode
      modifies w`fs, w`checked, w`totalChangeSum, w`reports, w`input
      modifies this`history, this`pulled, this`steps, this`pushStatus, this`pullStatus
      ensures w.fs == old(w.fs) && w.input == old(w.input)
      ensures QueriesOnly(old(steps), steps)
      ensures a == Action.Push ==> pushStatus == StatusOf(history) && pullStatus == old(pullStatus)
      ensures a == Action.Pull ==> pullStatus == StatusOf(history) && pushStatus == old(pushStatus)
      ensures Passes(GlobalsOf(w, history), pushStatus, pullStatus, steps)
        == StatusPassEffect(Passes(old(GlobalsOf(w, history)), old(pushStatus), old(pullStatus), old(steps)),
                            w.host, ActivePath(), IsGit(), IsSolution(), base, a)
    {
      var passes := base.(action := a);
      ExecuteAll(w, passes, Commands(passes));
      assert forall i :: |old(steps)| <= i < |steps| ==> Carries(steps[i], passes);
    }

    /** The push and pull status passes of an undirected status or update run, run in
        check mode, repeated for a direction with benign time-overwrites when the run
        does not print. */
    method StatusPasses(w: World, st: RunState) returns (passes: RunState)
      requires ValidHost(w.host)
      modifies w`fs, w`checked, w`totalChangeSum, w`reports, w`input
      modifies this`history, this`pulled, this`steps, this`pushStatus, this`pullStatus
      ensures w.fs == old(w.fs) && w.input == old(w.input)
      ensures passes == StatusPassState(st).(action := passes.action)
      ensures QueriesOnly(old(steps), steps)
      ensures Passes(GlobalsOf(w, history), pushStatus, pullStatus, steps)
        == StatusPassesEffect(Passes(old(GlobalsOf(w, history)), old(pushStatus), old(pullStatus), old(steps)),
                              w.host, ActivePath(), IsGit(), IsSolution(), StatusPassState(st))
    {
      var base := StatusPassState(st);
      FirstPasses(w, base);
      ghost var s2 := steps;
      passes := base.(action := Action.Pull);
      var rerun := Reruns(w, base);
      if rerun.Some? {
        passes := base.(action := rerun.value);
      }
      QueriesOnlyTrans(old(steps), s2, steps);
    }

    /** The first two status passes: push, then pull. */
    method FirstPasses(w: World, base: RunState)
      requires ValidHost(w.host) && base.status && base.checkMode
      modifies w`fs, w`checked, w`totalChangeSum, w`reports, w`input
      modifies this`history, this`pulled, this`steps, this`pushStatus, this`pullStatus
      ensures w.fs == old(w.fs) && w.input == old(w.input)
      ensures QueriesOnly(old(steps), steps)
      ensures Passes(GlobalsOf(w, history), pushStatus, pullStatus, steps)
        == StatusPassEffect(StatusPassEffect(Passes(old(GlobalsOf(w, history)), old(pushStatus), old(pullStatus), old(steps)),
                                             w.host, ActivePath(), IsGit(), IsSolution(), base, Action.Push),
                            w.host, ActivePath(), IsGit(), IsSolution(), base, Action.Pull)
    {
      StatusPass(w, base, Action.Push);
      ghost var s1 := steps;
      StatusPass(w, base, Action.Pull);
      QueriesOnlyTrans(old(steps), s1, steps);
    }

    /** The reruns of the status passes for benign time overwrites, when the run does
        not print: push, then pull. Returns the direction of the last rerun. */
    method Reruns(w: World, base: RunState) returns (last: Option<Action>)
      requires ValidHost(w.host) && base.status && base.checkMode
      modifies w`fs, w`checked, w`totalChangeSum, w`reports, w`input
      modifies this`history, this`pulled, this`steps, this`pushStatus, this`pullStatus
      ensures w.fs == old(w.fs) && w.input == old(w.input)
      ensures QueriesOnly(old(steps), steps)
      ensures last.None? || last.value != Action.Both
      ensures Passes(GlobalsOf(w, history), pushStatus, pullStatus, steps)
        == RerunsEffect(Passes(old(GlobalsOf(w, history)), old(pushStatus), old(pullStatus), old(steps)),
                        w.host, ActivePath(), IsGit(), IsSolution(), base)
    {
      last := None;
      if !base.printing {
        if pushStatus.timeOverwrites {
          StatusPass(w, base, Action.Push);
          last := Some(Action.Push);
          // The benign collisions are printed here; printing is not modelled.
        }
        ghost var s := steps;
        if pullStatus.timeOverwrites {
          StatusPass(w, base, Action.Pull);
          last := Some(Action.Pull);
        }
        QueriesOnlyTrans(old(steps), s, steps);
      }
    }

    /** The verdict step of a status run: which direction may safely move. */
    method RecordSafeFlags()
      modifies this`canSafelyPush, this`canSafelyPull
      ensures (canSafelyPush, canSafelyPull) == SafeFlags(pushStatus, pullStatus)
      ensures canSafelyPush ==> CanPush(pushStatus, pullStatus) || CanPushBothChanges(pushStatus, pullStatus)
      ensures canSafelyPull ==> CanPull(pushStatus, pullStatus) || CanPullBothChanges(pushStatus, pullStatus)
    {
      var canPush := CanPush(pushStatus, pullStatus);
      var canPull := CanPull(pushStatus, pullStatus);
      var canPushBothChanges := CanPushBothChanges(pushStatus, pullStatus);
      var canPullBothChanges := CanPullBothChanges(pushStatus, pullStatus);
      canSafelyPull := canPull || canPullBothChanges;
      canSafelyPush := canPush || canPushBothChanges;
      if canSafelyPull && canSafelyPush {
        canSafelyPull := canPull;
        canSafelyPush := canPush;
      }
      // The verdict banners and the conflict summary are printed here.
    }

    /** `execute(state)`. An undirected status or update run performs the push and
        pull passes in check mode, records which direction may safely move, and on
        update performs the safe move; a directed run executes its sorted commands. */
    method Execute(w: World, st: RunState)
      requires ValidHost(w.host)
      modifies w`fs, w`checked, w`totalChangeSum, w`reports, w`input
      modifies this`history, this`pulled, this`steps, this`pushStatus, this`pullStatus
      modifies this`canSafelyPush, this`canSafelyPull
      ensures Empty() ==> steps == old(steps) && w.fs == old(w.fs) && pushStatus == old(pushStatus)
                          && pullStatus == old(pullStatus) && canSafelyPush == old(canSafelyPush)
                          && canSafelyPull == old(canSafelyPull)
      ensures st.action == Action.Both && !st.update ==> w.fs == old(w.fs) && QueriesOnly(old(steps), steps)
      ensures st.checkMode ==> w.fs == old(w.fs)
      ensures !Empty() && st.onlyConflicts ==> !canSafelyPush && !canSafelyPull
      ensures !Empty() && st.action == Action.Both && st.status && !st.update && !st.onlyConflicts ==>
        (canSafelyPush, canSafelyPull) == SafeFlags(pushStatus, pullStatus)
      ensures !Empty() && st.action != Action.Both && !ActualUpdate(st) ==>
        steps == old(steps) + PlannedAll(st, Commands(st))
      ensures !Empty() && st.action != Action.Both && ActualUpdate(st) ==>
        old(steps) <= steps && RanAsPlanned(st, Commands(st), Main(steps[|old(steps)|..]))
      ensures !Empty() && st.action == Action.Both && (st.status || st.update) ==>
        var r := StatusRunPasses(Passes(old(GlobalsOf(w, history)), old(pushStatus).Reset(), old(pullStatus).Reset(), old(steps)),
                                 w.host, ActivePath(), IsGit(), IsSolution(), st);
        && (!st.update ==> Passes(GlobalsOf(w, history), pushStatus, pullStatus, steps) == r)
        && (!st.update && !st.onlyConflicts ==> (canSafelyPush, canSafelyPull) == SafeFlags(r.push, r.pull))
        && (st.update && !st.onlyConflicts ==> UpdatedSafely(st, r.steps, steps, old(w.fs), w.fs, old(w.input), r.push, r.pull))
      ensures !st.update ==> w.input == old(w.input)
      ensures Consumed(old(w.input), w.input)
      ensures !Empty() && !(st.action == Action.Both && (st.status || st.update)) && !ActualUpdate(st) ==>
        GlobalsOf(w, history) == (if Commands(st) == [] then old(GlobalsOf(w, history))
                                  else PassEffect(old(GlobalsOf(w, history)), w.host, ActivePath(), st, Commands(st)))
    {
      if Empty() {
        return;
      }
      pullStatus := pullStatus.Reset();
      pushStatus := pushStatus.Reset();
      pulled := false;
      canSafelyPush := false;
      canSafelyPull := false;

      if st.action == Action.Both && (st.status || st.update) {
        StatusRun(w, st);
      } else {
        DirectedRun(w, st);
      }
    }

    /** The directed branch of `execute(state)`: the sorted commands of the action,
        if there are any. */
    method DirectedRun(w: World, st: RunState)
      requires ValidHost(w.host)
      modifies w`fs, w`checked, w`totalChangeSum, w`reports, w`input
      modifies this`history, this`pulled, this`steps, this`pushStatus, this`pullStatus
      ensures st.action == Action.Both ==> steps == old(steps) && w.fs == old(w.fs)
      ensures st.checkMode || st.status ==> w.fs == old(w.fs)
      ensures !ActualUpdate(st) ==> steps == old(steps) + PlannedAll(st, Commands(st))
      ensures old(steps) <= steps
      ensures ActualUpdate(st) ==> RanAsPlanned(st, Commands(st), Main(steps[|old(steps)|..]))
      ensures !ActualUpdate(st) ==> w.input == old(w.input)
      ensures Consumed(old(w.input), w.input)
      ensures !ActualUpdate(st) ==>
        GlobalsOf(w, history) == (if Commands(st) == [] then old(GlobalsOf(w, history))
                                  else PassEffect(old(GlobalsOf(w, history)), w.host, ActivePath(), st, Commands(st)))
    {
      var commands := Commands(st);
      if commands == [] {
        return;
      }
      ExecuteAll(w, st, commands);
    }

    /** The undirected branch of `execute(state)`: both status passes, the verdict,
        and on update the safe move with the caller's check mode restored. */
    method StatusRun(w: World, st: RunState)
      requires ValidHost(w.host)
      modifies w`fs, w`checked, w`totalChangeSum, w`reports, w`input
      modifies this`history, this`pulled, this`steps, this`pushStatus, this`pullStatus
      modifies this`canSafelyPush, this`canSafelyPull
      ensures !st.update ==> w.fs == old(w.fs) && QueriesOnly(old(steps), steps)
      ensures st.checkMode ==> w.fs == old(w.fs)
      ensures st.onlyConflicts ==> canSafelyPush == old(canSafelyPush) && canSafelyPull == old(canSafelyPull)
      ensures !st.update && !st.onlyConflicts && old(pushStatus).Clean() && old(pullStatus).Clean()
              && !old(canSafelyPush) && !old(canSafelyPull) ==>
        (canSafelyPush, canSafelyPull) == SafeFlags(pushStatus, pullStatus)
      ensures !st.update ==>
        Passes(GlobalsOf(w, history), pushStatus, pullStatus, steps)
        == StatusRunPasses(Passes(old(GlobalsOf(w, history)), old(pushStatus), old(pullStatus), old(steps)),
                           w.host, ActivePath(), IsGit(), IsSolution(), st)
      ensures st.update && !st.onlyConflicts && old(pushStatus).Clean() && old(pullStatus).Clean()
              && !old(canSafelyPush) && !old(canSafelyPull) ==>
        var r := StatusRunPasses(Passes(old(GlobalsOf(w, history)), old(pushStatus), old(pullStatus), old(steps)),
                                 w.host, ActivePath(), IsGit(), IsSolution(), st);
        UpdatedSafely(st, r.steps, steps, old(w.fs), w.fs, old(w.input), r.push, r.pull)
      ensures !st.update ==> w.input == old(w.input)
      ensures Consumed(old(w.input), w.input)
    {
      var unsorted := UnsortedCommands(IsGit(), IsSolution(), st.location);
      ghost var base := StatusPassState(st);
      assert Commands(base.(action := Action.Push)) == Sort(unsorted, false);
      assert Commands(base.(action := Action.Pull)) == Sort(unsorted, true);
      if Sort(unsorted, false) == [] && Sort(unsorted, true) == [] {
        assert st.update && !st.onlyConflicts && pushStatus.Clean() && pullStatus.Clean()
               && !canSafelyPush && !canSafelyPull ==>
          UpdatedSafely(st, steps, steps, w.fs, w.fs, w.input, pushStatus, pullStatus);
        return;
      }
      PassesAndVerdict(w, st);
    }

    /** The status passes of an undirected run that has commands, followed by the
        verdict and, on update, the safe move. */
    method PassesAndVerdict(w: World, st: RunState)
      requires ValidHost(w.host)
      modifies w`fs, w`checked, w`totalChangeSum, w`reports, w`input
      modifies this`history, this`pulled, this`steps, this`pushStatus, this`pullStatus
      modifies this`canSafelyPush, this`canSafelyPull
      ensures !st.update ==> w.fs == old(w.fs) && w.input == old(w.input) && QueriesOnly(old(steps), steps)
      ensures st.checkMode ==> w.fs == old(w.fs)
      ensures Consumed(old(w.input), w.input)
      ensures st.onlyConflicts ==> canSafelyPush == old(canSafelyPush) && canSafelyPull == old(canSafelyPull)
      ensures !st.update && !st.onlyConflicts ==> (canSafelyPush, canSafelyPull) == SafeFlags(pushStatus, pullStatus)
      ensures var r := StatusPassesEffect(Passes(old(GlobalsOf(w, history)), old(pushStatus), old(pullStatus), old(steps)),
                                          w.host, ActivePath(), IsGit(), IsSolution(), StatusPassState(st));
        && (!st.update ==> Passes(GlobalsOf(w, history), pushStatus, pullStatus, steps) == r)
        && (st.update && !st.onlyConflicts ==> UpdatedSafely(st, r.steps, steps, old(w.fs), w.fs, old(w.input), r.push, r.pull))
    {
      var passes := StatusPasses(w, st);
      VerdictAndMove(w, st, passes);
    }

    /** What follows the status passes of an undirected run: the verdict and, on
        update, the safe move with the caller's check mode restored. */
    method VerdictAndMove(w: World, st: RunState, passes: RunState)
      requires ValidHost(w.host)
      requires passes == StatusPassState(st).(action := passes.action)
      modifies w`fs, w`checked, w`totalChangeSum, w`reports, w`input
      modifies this`history, this`pulled, this`steps, this`pushStatus, this`pullStatus
      modifies this`canSafelyPush, this`canSafelyPull
      ensures !st.update ==> steps == old(steps) && w.fs == old(w.fs) && w.input == old(w.input)
      ensures !st.update ==> pushStatus == old(pushStatus) && pullStatus == old(pullStatus)
      ensures !st.update ==> GlobalsOf(w, history) == old(GlobalsOf(w, history))
      ensures st.checkMode ==> w.fs == old(w.fs)
      ensures Consumed(old(w.input), w.input)
      ensures st.onlyConflicts ==> canSafelyPush == old(canSafelyPush) && canSafelyPull == old(canSafelyPull)
      ensures !st.update && !st.onlyConflicts ==> (canSafelyPush, canSafelyPull) == SafeFlags(pushStatus, pullStatus)
      ensures st.update && !st.onlyConflicts ==>
        UpdatedSafely(st, old(steps), steps, old(w.fs), w.fs, old(w.input), old(pushStatus), old(pullStatus))
    {
      if !passes.onlyConflicts {
        RecordSafeFlags();
      }
      if passes.update {
        MoveAfterPasses(w, st, passes);
      }
    }

    /** The safe move of an update run, with the caller's check mode restored. */
    method MoveAfterPasses(w: World, st: RunState, passes: RunState)
      requires ValidHost(w.host)
      requires passes == StatusPassState(st).(action := passes.action)
      modifies w`fs, w`checked, w`totalChangeSum, w`reports, w`input
      modifies this`history, this`pulled, this`steps, this`pushStatus, this`pullStatus
      ensures st.checkMode ==> w.fs == old(w.fs)
      ensures Consumed(old(w.input), w.input)
      ensures old((canSafelyPush, canSafelyPull) == SafeFlags(pushStatus, pullStatus)) ==>
        UpdatedSafely(st, old(steps), steps, old(w.fs), w.fs, old(w.input), old(pushStatus), old(pullStatus))
    {
      SafeMoveHasDirection(pushStatus, pullStatus);
      assert forall a :: SafeState(passes.(checkMode := st.checkMode), a) == SafeState(st.(findCollisions := true), a);
      PerformSafeMove(w, passes.(checkMode := st.checkMode));
    }

    /** The rest of an update run after its status passes, which ended at `mid` with
        statuses `push` and `pull`: the safe flags are their verdict, and what follows
        is the safe move they allow, after the question asked on `input` when both
        sides have changes. */
    ghost predicate UpdatedSafely(st: RunState, mid: seq<Step>, after: seq<Step>,
                                  fsBefore: FileSystem, fsAfter: FileSystem, input: seq<string>, push: Status, pull: Status)
      reads this`canSafelyPush, this`canSafelyPull
    {
      && mid <= after
      && (canSafelyPush, canSafelyPull) == SafeFlags(push, pull)
      && (var d := SafeDirection(push, pull);
          var asks := CanPushBothChanges(push, pull) || CanPullBothChanges(push, pull);
          && (d.None? || (asks && !Collisions.Answer(input).yes) ==> after == mid && fsAfter == fsBefore)
          && (d.Some? && (!asks || Collisions.Answer(input).yes) ==>
                var safe := SafeState(st.(findCollisions := true), d.value);
                && (!ActualUpdate(safe) ==> after == mid + PlannedAll(safe, Commands(safe)))
                && (ActualUpdate(safe) ==> RanAsPlanned(safe, Commands(safe), Main(after[|mid|..])))))
    }
  }

  /** `empty` holds exactly when no git path was found, and the three kinds are
      mutually exclusive. */
  lemma DirectoryKinds(d: AutogitDirectory)
    ensures d.Empty() <==> d.gitPath == []
    ensures !(d.IsGit() && d.IsSolution()) && !(d.IsGit() && d.IsSolutionWithoutGit())
    ensures !(d.IsSolution() && d.IsSolutionWithoutGit())
  {
  }
}
