/** The older `directory` class of directory.hpp: the same kinds of directory as
    autogit_directory.hpp, a fixed command list sorted by direction, passes that
    accumulate into the process-wide `info` history, and an undirected run that
    takes the push and pull statuses and, on update, moves in the one direction the
    statuses allow. */
module Directories {
  import opened Files
  import opened State
  import opened Environment
  import opened Verdict
  import opened Wrappers
  import opened Planning
  import opened AutogitDirectories
  import Mirror
  import Executable
  import GitSync

  /** `get_commands()`: git for a git directory; promotion, mirror and git for a
      solution directory. */
  function AllCommands(isGit: bool, isSolution: bool): (r: seq<Command>)
    ensures r == [] <==> !isGit && !isSolution
    ensures Command.Git in r <==> isGit || isSolution
    ensures Command.Exe in r <==> !isGit && isSolution
  {
    if isGit then [Command.Git]
    else if isSolution then [Command.Exe, Command.Move, Command.Git]
    else []
  }

  /** `get_commands(state)`: a push takes the ascending order (`get_pull_commands`)
      and a pull the descending one (`get_push_commands`); the undirected action
      takes none. */
  function CommandsFor(isGit: bool, isSolution: bool, st: RunState): (r: seq<Command>)
    ensures st.action == Action.Push ==> SortedBy(r, false) && multiset(r) == multiset(AllCommands(isGit, isSolution))
    ensures st.action == Action.Pull ==> SortedBy(r, true) && multiset(r) == multiset(AllCommands(isGit, isSolution))
    ensures st.action == Action.Both ==> r == []
  {
    if st.action == Action.Push then Sort(AllCommands(isGit, isSolution), false)
    else if st.action == Action.Pull then Sort(AllCommands(isGit, isSolution), true)
    else []
  }

  /** A push of a solution directory promotes, mirrors, then commits; a pull fetches,
      mirrors, then promotes. */
  lemma SolutionOrders(st: RunState)
    ensures st.action == Action.Push ==> CommandsFor(false, true, st) == [Command.Exe, Command.Move, Command.Git]
    ensures st.action == Action.Pull ==> CommandsFor(false, true, st) == [Command.Git, Command.Move, Command.Exe]
  {
    var all := AllCommands(false, true);
    if st.action == Action.Push {
      assert SortedBy([Command.Exe, Command.Move, Command.Git], false);
      SortedUnique(CommandsFor(false, true, st), [Command.Exe, Command.Move, Command.Git], false);
    } else if st.action == Action.Pull {
      assert multiset(all) == multiset([Command.Git, Command.Move, Command.Exe]);
      assert SortedBy([Command.Git, Command.Move, Command.Exe], true);
      SortedUnique(CommandsFor(false, true, st), [Command.Git, Command.Move, Command.Exe], true);
    }
  }

  /** `is_command_active`: mirroring and promotion need the local side, promotion
      only pushes, and git needs the git side. */
  predicate IsCommandActive(st: RunState, cmd: Command)
  {
    if cmd == Command.Move && st.location == Location.Git then false
    else if cmd == Command.Exe && (st.location == Location.Git || st.action == Action.Pull) then false
    else if cmd == Command.Git && st.location == Location.Local then false
    else true
  }

  /** Some command of the list is active. */
  predicate AnyActive(st: RunState, commands: seq<Command>)
  {
    exists i :: 0 <= i < |commands| && IsCommandActive(st, commands[i])
  }

  /** The steps one command of this revision takes: promotion and mirroring are
      skipped for the git location, git for the local one. */
  function CommandSteps(st: RunState, cmd: Command): (r: seq<Step>)
    ensures forall s :: s in r ==> Carries(s, st)
    ensures st.status || st.checkMode ==> forall s :: s in r ==> ReadOnly(s)
  {
    match cmd
    case Exe => ExeSteps(st)
    case Move => MoveSteps(st)
    case Git => GitSteps(st)
  }

  /** An inactive command takes no step, except a promotion during a pull, which the
      promotion itself ignores. */
  lemma InactiveCommandsTakeNoStep(st: RunState, cmd: Command)
    requires !IsCommandActive(st, cmd)
    ensures CommandSteps(st, cmd) == [] || (cmd == Command.Exe && st.action == Action.Pull)
    ensures CommandSteps(st, cmd) != [] ==>
      forall fs: FileSystem, h: History, p: Path :: Executable.Promote(fs, h, p, Forced(st)) == Executable.Promotion(fs, h)
  {
  }

  function CommandStepsAll(st: RunState, cmds: seq<Command>): (r: seq<Step>)
    ensures forall s :: s in r ==> Carries(s, st)
    ensures st.status || st.checkMode ==> forall s :: s in r ==> ReadOnly(s)
    decreases |cmds|
  {
    if cmds == [] then []
    else CommandStepsAll(st, cmds[..|cmds| - 1]) + CommandSteps(st, cmds[|cmds| - 1])
  }

  lemma CommandStepsAllSnoc(st: RunState, cmds: seq<Command>, i: nat)
    requires i < |cmds|
    ensures CommandStepsAll(st, cmds[..i + 1]) == CommandStepsAll(st, cmds[..i]) + CommandSteps(st, cmds[i])
  {
    assert cmds[..i + 1][..i] == cmds[..i];
  }

  /** One command of this revision on the globals: promotion, mirror or git. */
  function CommandOnGlobals(g: Globals, host: Host, path: Path, st: RunState, cmd: Command): (r: Globals)
    requires ValidHost(host)
  {
    match cmd
    case Exe => ExeEffect(g, path, st)
    case Move => MoveEffect(g, host, path, st)
    case Git => GitEffect(g, host, path, st)
  }

  /** The commands in turn. */
  function CommandsOnGlobals(g: Globals, host: Host, path: Path, st: RunState, cmds: seq<Command>): (r: Globals)
    requires ValidHost(host)
    decreases |cmds|
  {
    if cmds == [] then g
    else CommandOnGlobals(CommandsOnGlobals(g, host, path, st, cmds[..|cmds| - 1]), host, path, st, cmds[|cmds| - 1])
  }

  lemma CommandsOnGlobalsSnoc(g: Globals, host: Host, path: Path, st: RunState, cmds: seq<Command>, i: nat)
    requires ValidHost(host) && i < |cmds|
    ensures CommandsOnGlobals(g, host, path, st, cmds[..i + 1])
      == CommandOnGlobals(CommandsOnGlobals(g, host, path, st, cmds[..i]), host, path, st, cmds[i])
  {
    assert cmds[..i + 1][..i] == cmds[..i];
  }

  /** A check-mode or status pass of this revision leaves the filesystem as it was. */
  lemma {:induction false} CommandsOnGlobalsReadOnly(g: Globals, host: Host, path: Path, st: RunState, cmds: seq<Command>)
    requires ValidHost(host) && (st.checkMode || st.status)
    ensures CommandsOnGlobals(g, host, path, st, cmds).fs == g.fs
    decreases |cmds|
  {
    if cmds != [] {
      CommandsOnGlobalsReadOnly(g, host, path, st, cmds[..|cmds| - 1]);
    }
  }

  /** The status passes of this revision run a second round when neither direction
      can move and the statuses show a conflict. */
  predicate Rerun(push: Status, pull: Status)
  {
    !CanPush(push, pull) && !CanPull(push, pull) && HasConflictsWithoutBothChanges(push, pull)
  }

  /** The direction an update of this revision takes: push when the statuses allow
      it, otherwise pull when they allow that. */
  function UpdateDirection(push: Status, pull: Status): Option<Action>
  {
    if CanPush(push, pull) then Some(Action.Push)
    else if CanPull(push, pull) then Some(Action.Pull)
    else None
  }

  /** Whenever the older update moves, it moves the way the later safe move does,
      and it never moves a direction with changes on both sides. */
  lemma UpdateAgreesWithSafeDirection(push: Status, pull: Status)
    ensures UpdateDirection(push, pull).Some? ==> UpdateDirection(push, pull) == SafeDirection(push, pull)
    ensures push.BothChanges() || pull.BothChanges() ==> UpdateDirection(push, pull).None?
    ensures UpdateDirection(push, pull).None? ==> !CanPush(push, pull) && !CanPull(push, pull)
  {
    if push.BothChanges() {
      assert push.gitChanges && !push.CanExecute();
    }
    if pull.BothChanges() {
      assert pull.gitChanges && !pull.CanExecute();
    }
  }

  /** `after` extends `before` with read-only steps only. */
  predicate ReadOnlySince(before: seq<Step>, after: seq<Step>)
  {
    before <= after && forall i :: |before| <= i < |after| ==> ReadOnly(after[i])
  }

  lemma ReadOnlySinceTrans(a: seq<Step>, b: seq<Step>, c: seq<Step>)
    requires ReadOnlySince(a, b) && ReadOnlySince(b, c)
    ensures ReadOnlySince(a, c)
  {
    forall i | |a| <= i < |c| ensures ReadOnly(c[i]) {
      if i < |b| {
        assert c[i] == b[i];
      }
    }
  }

  /** The steps appended after `before` all ran for one action. */
  predicate OneDirection(before: seq<Step>, after: seq<Step>)
  {
    before <= after && forall i, j :: |before| <= i < |after| && |before| <= j < |after| ==> after[i].st.action == after[j].st.action
  }

  /** Steps that all ran for one run state ran for one action. */
  lemma CarryOneDirection(before: seq<Step>, after: seq<Step>, st: RunState)
    requires NewStepsCarry(before, after, st)
    ensures OneDirection(before, after)
  {
  }

  class Directory {
    const solutionPath: Path
    const gitPath: Path
    const path: Path
    var pushStatus: Status
    var pullStatus: Status
    /** The mirror, promotion and git steps run so far, in order. */
    ghost var steps: seq<Step>

    predicate IsGit()
    {
      solutionPath == [] && gitPath != []
    }

    predicate IsSolution()
    {
      solutionPath != [] && gitPath != []
    }

    predicate Empty()
    {
      !IsGit() && !IsSolution()
    }

    /** A default-constructed directory followed by `set_path`, with the same
        classification as the later revision. */
    constructor SetPath(w: World, p: Path)
      ensures path == p && (solutionPath, gitPath) == Classify(w.host, w.fs, p)
      ensures Empty() <==> gitPath == []
      ensures pushStatus.Clean() && pullStatus.Clean() && steps == []
    {
      var solution: Path := [];
      var git: Path := [];
      var solutionOptional := w.host.solutionDirectory(w.fs, p);
      if solutionOptional.Some? {
        solution := solutionOptional.value;
        var gitOptional := w.host.gitDirectory(w.fs, p);
        if gitOptional.Some? {
          git := gitOptional.value;
        }
      } else if w.host.isGitDirectory(w.fs, p) {
        git := p;
      }
      solutionPath, gitPath, path := solution, git, p;
      pushStatus := Status(false, false, false, false);
      pullStatus := Status(false, false, false, false);
      steps := [];
    }

    /** `get_active_path`. */
    function ActivePath(): (r: Path)
      ensures r == [] <==> Empty()
      ensures r != [] ==> (IsGit() && r == gitPath) || (IsSolution() && r == solutionPath)
    {
      if IsGit() then gitPath else if IsSolution() then solutionPath else []
    }

    function Commands(st: RunState): seq<Command>
    {
      CommandsFor(IsGit(), IsSolution(), st)
    }

    /** `exe`: promotion into the `info` history, skipped for the git location and
        forced into check mode by a status run. */
    method Exe(w: World, st: RunState)
      modifies w`fs, w`info, this`steps
      ensures steps == old(steps) + ExeSteps(st)
      ensures st.checkMode || st.status ==> w.fs == old(w.fs)
      ensures st.location != Location.Git ==>
        Executable.Promotion(w.fs, w.info) == Executable.Promote(old(w.fs), old(w.info), ActivePath(), Forced(st))
      ensures st.location == Location.Git ==> w.fs == old(w.fs) && w.info == old(w.info)
      ensures GlobalsOf(w, w.info) == ExeEffect(old(GlobalsOf(w, w.info)), ActivePath(), st)
    {
      if st.location != Location.Git {
        var forced := Forced(st);
        w.info := Executable.Exe(w, w.info, ActivePath(), forced);
        steps := steps + [ExeStep(forced)];
      }
    }

    /** `move`: the mirror into the `info` history, skipped for the git location and
        forced into check mode by a status run. */
    method Move(w: World, st: RunState)
      requires ValidHost(w.host)
      modifies w`fs, w`checked, w`totalChangeSum, w`info, this`steps
      ensures steps == old(steps) + MoveSteps(st)
      ensures st.checkMode || st.status ==> w.fs == old(w.fs)
      ensures st.location != Location.Git ==>
        Mirror.Snapshot(w, w.info) == Mirror.MoveSpec(old(Mirror.Snapshot(w, w.info)), w.host, ActivePath(), Forced(st))
      ensures GlobalsOf(w, w.info) == MoveEffect(old(GlobalsOf(w, w.info)), w.host, ActivePath(), st)
    {
      if st.location != Location.Git {
        var forced := Forced(st);
        var result;
        w.info, result := Mirror.Move(w, w.info, ActivePath(), forced);
        steps := steps + [MoveStep(forced)];
      }
    }

    /** `git`: skipped for the local location. */
    method Git(w: World, st: RunState)
      modifies w`fs, w`reports, w`info, this`steps
      ensures steps == old(steps) + GitSteps(st)
      ensures st.location == Location.Local || !GitSync.IsHardPull(st) || st.checkMode ==> w.fs == old(w.fs)
      ensures w.info == old(w.info).(gitChanges := w.info.gitChanges)
      ensures st.location != Location.Local && st.checkMode && !st.status ==>
        w.info == old(w.info) && w.reports == old(w.reports)
      ensures st.location != Location.Local && !(st.checkMode && !st.status) && GitSync.IsHardPull(st) ==>
        && w.info == old(w.info) && w.reports == old(w.reports)
        && w.fs == GitSync.HardPullClear(old(w.fs), w.host.list(old(w.fs), GitSync.GitRoot(old(w.fs), ActivePath())))
      ensures st.location != Location.Local && !(st.checkMode && !st.status) && !GitSync.IsHardPull(st) ==>
        var lines := GitSync.NextLines(old(w.reports));
        && w.reports == (if old(w.reports) == [] then [] else old(w.reports)[1..])
        && w.info == (if lines == [] then old(w.info) else old(w.info).(gitChanges := GitSync.Decide(lines, st).changes))
      ensures GlobalsOf(w, w.info) == GitEffect(old(GlobalsOf(w, w.info)), w.host, ActivePath(), st)
    {
      if st.location != Location.Local {
        var ran;
        w.info, ran := GitSync.Git(w, w.info, ActivePath(), st);
        steps := steps + [GitStep(st)];
      }
    }

    /** `execute(state, command)`: the command switch, promotion included. */
    method ExecuteCommand(w: World, st: RunState, cmd: Command)
      requires ValidHost(w.host)
      modifies w`fs, w`checked, w`totalChangeSum, w`reports, w`info, this`steps
      ensures steps == old(steps) + CommandSteps(st, cmd)
      ensures st.checkMode || st.status ==> w.fs == old(w.fs)
      ensures GlobalsOf(w, w.info) == CommandOnGlobals(old(GlobalsOf(w, w.info)), w.host, ActivePath(), st, cmd)
    {
      match cmd
      case Exe => Exe(w, st);
      case Move => Move(w, st);
      case Git => Git(w, st);
    }

    /** `any_active_commands`. */
    static method AnyActiveCommands(st: RunState, commands: seq<Command>) returns (r: bool)
      ensures r <==> AnyActive(st, commands)
    {
      for i := 0 to |commands|
        invariant forall k :: 0 <= k < i ==> !IsCommandActive(st, commands[k])
      {
        if IsCommandActive(st, commands[i]) {
          return true;
        }
      }
      return false;
    }

    /** `determine_status` with the older `get_status`, which reads the `info`
        history and counts every collision. */
    method DetermineStatus(w: World, st: RunState)
      modifies this`pushStatus, this`pullStatus
      ensures st.action == Action.Pull ==> pullStatus == StatusOfWithoutSeverity(w.info) && pushStatus == old(pushStatus)
      ensures st.action == Action.Push ==> pushStatus == StatusOfWithoutSeverity(w.info) && pullStatus == old(pullStatus)
      ensures st.action == Action.Both ==> pushStatus == old(pushStatus) && pullStatus == old(pullStatus)
    {
      if st.action == Action.Pull {
        pullStatus := StatusOfWithoutSeverity(w.info);
      } else if st.action == Action.Push {
        pushStatus := StatusOfWithoutSeverity(w.info);
      }
    }

    /** `execute(state, commands)`: nothing at all unless some command is active;
        otherwise the `info` history is cleared, every command runs, and the pass's
        history becomes the status of its direction. */
    method ExecuteAll(w: World, st: RunState, commands: seq<Command>)
      requires ValidHost(w.host)
      modifies w`fs, w`checked, w`totalChangeSum, w`reports, w`info, this`steps, this`pushStatus, this`pullStatus
      ensures !AnyActive(st, commands) ==>
        steps == old(steps) && w.fs == old(w.fs) && w.info == old(w.info)
        && pushStatus == old(pushStatus) && pullStatus == old(pullStatus)
      ensures AnyActive(st, commands) ==> steps == old(steps) + CommandStepsAll(st, commands)
      ensures st.checkMode || st.status ==> w.fs == old(w.fs)
      ensures AnyActive(st, commands) && st.action == Action.Pull ==>
        pullStatus == StatusOfWithoutSeverity(w.info) && pushStatus == old(pushStatus)
      ensures AnyActive(st, commands) && st.action == Action.Push ==>
        pushStatus == StatusOfWithoutSeverity(w.info) && pullStatus == old(pullStatus)
      ensures st.action == Action.Both ==> pushStatus == old(pushStatus) && pullStatus == old(pullStatus)
      ensures !AnyActive(st, commands) ==> GlobalsOf(w, w.info) == old(GlobalsOf(w, w.info))
      ensures AnyActive(st, commands) ==>
        GlobalsOf(w, w.info) == CommandsOnGlobals(old(GlobalsOf(w, w.info)).(history := EmptyHistory), w.host, ActivePath(), st, commands)
    {
      var any := AnyActiveCommands(st, commands);
      if !any {
        return;
      }
      w.info := EmptyHistory;
      RunCommands(w, st, commands);
      DetermineStatus(w, st);
    }

    /** The loop of `execute(state, commands)`: every command in the given order. */
    method RunCommands(w: World, st: RunState, commands: seq<Command>)
      requires ValidHost(w.host)
      modifies w`fs, w`checked, w`totalChangeSum, w`reports, w`info, this`steps
      ensures steps == old(steps) + CommandStepsAll(st, commands)
      ensures st.checkMode || st.status ==> w.fs == old(w.fs)
      ensures GlobalsOf(w, w.info) == CommandsOnGlobals(old(GlobalsOf(w, w.info)), w.host, ActivePath(), st, commands)
    {
      ghost var start := GlobalsOf(w, w.info);
      for i := 0 to |commands|
        invariant steps == old(steps) + CommandStepsAll(st, commands[..i])
        invariant GlobalsOf(w, w.info) == CommandsOnGlobals(start, w.host, ActivePath(), st, commands[..i])
      {
        ghost var before := GlobalsOf(w, w.info);
        CommandStepsAllSnoc(st, commands, i);
        CommandsOnGlobalsSnoc(start, w.host, ActivePath(), st, commands, i);
        ExecuteCommand(w, st, commands[i]);
        assert GlobalsOf(w, w.info) == CommandOnGlobals(before, w.host, ActivePath(), st, commands[i]);
      }
      assert commands[..|commands|] == commands;
      if st.checkMode || st.status {
        CommandsOnGlobalsReadOnly(start, w.host, ActivePath(), st, commands);
      }
    }

    /** One pass in direction `a`: the commands of that direction in turn. */
    method OnePass(w: World, st: RunState, a: Action)
      requires ValidHost(w.host)
      modifies w`fs, w`checked, w`totalChangeSum, w`reports, w`info, this`steps, this`pushStatus, this`pullStatus
      ensures steps == old(steps) + PassSteps(st, a)
      ensures st.checkMode || st.status ==> w.fs == old(w.fs)
      ensures Passes(GlobalsOf(w, w.info), pushStatus, pullStatus, steps)
        == PassOutcome(Passes(old(GlobalsOf(w, w.info)), old(pushStatus), old(pullStatus), old(steps)), w.host, st, a)
    {
      var s := st.(action := a);
      ExecuteAll(w, s, Commands(s));
    }

    /** A check-mode pass in one direction, as the undirected run performs it. */
    method CheckPass(w: World, st: RunState, a: Action)
      requires ValidHost(w.host) && st.checkMode
      modifies w`fs, w`checked, w`totalChangeSum, w`reports, w`info, this`steps, this`pushStatus, this`pullStatus
      ensures w.fs == old(w.fs) && ReadOnlySince(old(steps), steps)
      ensures steps == old(steps) + PassSteps(st, a)
      ensures a == Action.Pull ==> pushStatus == old(pushStatus)
      ensures a == Action.Push ==> pullStatus == old(pullStatus)
      ensures Passes(GlobalsOf(w, w.info), pushStatus, pullStatus, steps)
        == PassOutcome(Passes(old(GlobalsOf(w, w.info)), old(pushStatus), old(pullStatus), old(steps)), w.host, st, a)
    {
      var s := st.(action := a);
      OnePass(w, st, a);
      forall i | |old(steps)| <= i < |steps| ensures ReadOnly(steps[i]) {
        if AnyActive(s, Commands(s)) {
          assert steps[i] in CommandStepsAll(s, Commands(s));
        }
      }
    }

    /** The steps of one check-mode pass in direction `a`: those of its commands when
        any of them is active, none otherwise. */
    function PassSteps(st: RunState, a: Action): seq<Step>
    {
      var s := st.(action := a);
      if AnyActive(s, Commands(s)) then CommandStepsAll(s, Commands(s)) else []
    }

    /** One pass in direction `a` after `p`: nothing unless some command is active;
        otherwise the commands in turn from a cleared history, whose status under the
        older counting becomes the direction's status. */
    function PassOutcome(p: Passes, host: Host, st: RunState, a: Action): (r: Passes)
      requires ValidHost(host)
      ensures r.steps == p.steps + PassSteps(st, a)
    {
      var s := st.(action := a);
      if !AnyActive(s, Commands(s)) then p
      else
        var g := CommandsOnGlobals(p.globals.(history := EmptyHistory), host, ActivePath(), s, Commands(s));
        var status := StatusOfWithoutSeverity(g.history);
        Passes(g, if a == Action.Push then status else p.push, if a == Action.Pull then status else p.pull,
               p.steps + CommandStepsAll(s, Commands(s)))
    }

    /** One round of status passes: pull, then push. */
    function RoundOutcome(p: Passes, host: Host, st: RunState): Passes
      requires ValidHost(host)
    {
      PassOutcome(PassOutcome(p, host, st, Action.Pull), host, st, Action.Push)
    }

    /** The status passes of an undirected run: one round, and a second one when the
        first round's statuses call for it. */
    function StatusRounds(p: Passes, host: Host, passes: RunState): (r: Passes)
      requires ValidHost(host)
    {
      var first := RoundOutcome(p, host, passes);
      if Rerun(first.push, first.pull) then RoundOutcome(first, host, passes) else first
    }

    /** A check-mode pass leaves the filesystem as it was. */
    lemma PassOutcomeKeepsFs(p: Passes, host: Host, st: RunState, a: Action)
      requires ValidHost(host) && st.checkMode
      ensures PassOutcome(p, host, st, a).globals.fs == p.globals.fs
    {
      var s := st.(action := a);
      CommandsOnGlobalsReadOnly(p.globals.(history := EmptyHistory), host, ActivePath(), s, Commands(s));
    }

    /** The status rounds of an undirected run leave the filesystem as it was. */
    lemma StatusRoundsKeepFs(p: Passes, host: Host, passes: RunState)
      requires ValidHost(host) && passes.checkMode
      ensures StatusRounds(p, host, passes).globals.fs == p.globals.fs
    {
      var p1 := PassOutcome(p, host, passes, Action.Pull);
      PassOutcomeKeepsFs(p, host, passes, Action.Pull);
      PassOutcomeKeepsFs(p1, host, passes, Action.Push);
      var first := RoundOutcome(p, host, passes);
      var p2 := PassOutcome(first, host, passes, Action.Pull);
      PassOutcomeKeepsFs(first, host, passes, Action.Pull);
      PassOutcomeKeepsFs(p2, host, passes, Action.Push);
    }

    /** The update after the status passes: one pass in the direction the statuses
        allow, printing, or nothing when neither direction is safe. */
    function UpdateOutcome(p: Passes, host: Host, st: RunState): Passes
      requires ValidHost(host)
    {
      var d := UpdateDirection(p.push, p.pull);
      if d.None? then p else PassOutcome(p, host, st.(printing := true), d.value)
    }

    /** An undirected run from `p`: the status passes, then the update when asked for. */
    function UndirectedOutcome(p: Passes, host: Host, st: RunState): Passes
      requires ValidHost(host)
    {
      var passes := st.(checkMode := true, printing := false, findCollisions := true);
      var r := StatusRounds(p, host, passes);
      if st.update then UpdateOutcome(r, host, passes.(checkMode := st.checkMode)) else r
    }

    /** One round of status passes: pull, then push. */
    function RoundSteps(st: RunState): seq<Step>
    {
      PassSteps(st, Action.Pull) + PassSteps(st, Action.Push)
    }

    /** The status passes of an undirected run: pull then push in check mode with
        collision search on and printing off, both repeated when the statuses
        conflict. `firstPush` and `firstPull` are the statuses after the first
        round, and `rerun` tells whether the second round ran. */
    method StatusPasses(w: World, st: RunState) returns (passes: RunState, ghost rerun: bool, ghost firstPush: Status, ghost firstPull: Status)
      requires ValidHost(w.host)
      modifies w`fs, w`checked, w`totalChangeSum, w`reports, w`info, this`steps, this`pushStatus, this`pullStatus
      ensures passes == st.(checkMode := true, printing := false, findCollisions := true)
      ensures w.fs == old(w.fs) && ReadOnlySince(old(steps), steps)
      ensures rerun == Rerun(firstPush, firstPull)
      ensures steps == old(steps) + RoundSteps(passes) + (if rerun then RoundSteps(passes) else [])
      ensures !rerun ==> pushStatus == firstPush && pullStatus == firstPull
      ensures var first := RoundOutcome(Passes(old(GlobalsOf(w, w.info)), old(pushStatus), old(pullStatus), old(steps)), w.host, passes);
        && firstPush == first.push && firstPull == first.pull
        && Passes(GlobalsOf(w, w.info), pushStatus, pullStatus, steps)
           == StatusRounds(Passes(old(GlobalsOf(w, w.info)), old(pushStatus), old(pullStatus), old(steps)), w.host, passes)
    {
      passes := st.(checkMode := true, printing := false, findCollisions := true);
      StatusRound(w, passes);
      ghost var s1 := steps;
      firstPush, firstPull := pushStatus, pullStatus;
      rerun := !CanPush(pushStatus, pullStatus) && !CanPull(pushStatus, pullStatus)
               && HasConflictsWithoutBothChanges(pushStatus, pullStatus);
      if !CanPush(pushStatus, pullStatus) && !CanPull(pushStatus, pullStatus)
         && HasConflictsWithoutBothChanges(pushStatus, pullStatus) {
        // The verdict and the collisions of each rerun are printed, which is not modelled.
        StatusRound(w, passes);
        ReadOnlySinceTrans(old(steps), s1, steps);
      }
    }

    /** Two passes appended in turn append their concatenation. */
    static lemma SnocRound(a: seq<Step>, b: seq<Step>, c: seq<Step>, p: seq<Step>, q: seq<Step>)
      requires b == a + p && c == b + q
      ensures c == a + (p + q)
    {
    }

    /** One round of the status passes: pull, then push. */
    method StatusRound(w: World, passes: RunState)
      requires ValidHost(w.host) && passes.checkMode
      modifies w`fs, w`checked, w`totalChangeSum, w`reports, w`info, this`steps, this`pushStatus, this`pullStatus
      ensures w.fs == old(w.fs) && ReadOnlySince(old(steps), steps)
      ensures steps == old(steps) + RoundSteps(passes)
      ensures Passes(GlobalsOf(w, w.info), pushStatus, pullStatus, steps)
        == RoundOutcome(Passes(old(GlobalsOf(w, w.info)), old(pushStatus), old(pullStatus), old(steps)), w.host, passes)
    {
      CheckPass(w, passes, Action.Pull);
      ghost var s1 := steps;
      CheckPass(w, passes, Action.Push);
      ReadOnlySinceTrans(old(steps), s1, steps);
      SnocRound(old(steps), s1, steps, PassSteps(passes, Action.Pull), PassSteps(passes, Action.Push));
    }

    /** The update of an undirected run: one pass in the direction the statuses
        allow, with the caller's check mode and printing on. */
    method UpdatePass(w: World, st: RunState)
      requires ValidHost(w.host)
      modifies w`fs, w`checked, w`totalChangeSum, w`reports, w`info, this`steps, this`pushStatus, this`pullStatus
      ensures var d := UpdateDirection(old(pushStatus), old(pullStatus));
        && (d.None? ==> steps == old(steps) && w.fs == old(w.fs))
        && (d.Some? ==> NewStepsCarry(old(steps), steps, st.(printing := true, action := d.value)))
      ensures OneDirection(old(steps), steps)
      ensures st.checkMode ==> w.fs == old(w.fs)
      ensures Passes(GlobalsOf(w, w.info), pushStatus, pullStatus, steps)
        == UpdateOutcome(Passes(old(GlobalsOf(w, w.info)), old(pushStatus), old(pullStatus), old(steps)), w.host, st)
    {
      var a;
      if CanPush(pushStatus, pullStatus) {
        a := Action.Push;
      } else if CanPull(pushStatus, pullStatus) {
        a := Action.Pull;
      } else {
        return;
      }
      UpdateIn(w, st, a);
    }

    /** The update pass in the chosen direction, printing. */
    method UpdateIn(w: World, st: RunState, a: Action)
      requires ValidHost(w.host)
      modifies w`fs, w`checked, w`totalChangeSum, w`reports, w`info, this`steps, this`pushStatus, this`pullStatus
      ensures NewStepsCarry(old(steps), steps, st.(printing := true, action := a))
      ensures OneDirection(old(steps), steps)
      ensures st.checkMode ==> w.fs == old(w.fs)
      ensures Passes(GlobalsOf(w, w.info), pushStatus, pullStatus, steps)
        == PassOutcome(Passes(old(GlobalsOf(w, w.info)), old(pushStatus), old(pullStatus), old(steps)), w.host, st.(printing := true), a)
    {
      OnePass(w, st.(printing := true), a);
      PassCarries(old(steps), steps, st.(printing := true), a);
    }

    /** The steps of a pass in direction `a` all ran for that pass's state. */
    lemma PassCarries(before: seq<Step>, after: seq<Step>, st: RunState, a: Action)
      requires after == before + PassSteps(st, a)
      ensures NewStepsCarry(before, after, st.(action := a)) && OneDirection(before, after)
    {
      var s := st.(action := a);
      if AnyActive(s, Commands(s)) {
        CarryAppend(before, CommandStepsAll(s, Commands(s)), s);
      }
      CarryOneDirection(before, after, s);
    }

    /** The undirected branch of `execute(state)`: the status passes, then the update. */
    method UndirectedRun(w: World, st: RunState)
      requires ValidHost(w.host)
      modifies w`fs, w`checked, w`totalChangeSum, w`reports, w`info, this`steps, this`pushStatus, this`pullStatus
      ensures !st.update ==> w.fs == old(w.fs) && ReadOnlySince(old(steps), steps)
      ensures exists mid :: ReadOnlySince(old(steps), mid) && OneDirection(mid, steps)
      ensures st.checkMode ==> w.fs == old(w.fs)
      ensures Passes(GlobalsOf(w, w.info), pushStatus, pullStatus, steps)
        == UndirectedOutcome(Passes(old(GlobalsOf(w, w.info)), old(pushStatus), old(pullStatus), old(steps)), w.host, st)
    {
      var passes;
      ghost var rerun, firstPush, firstPull;
      passes, rerun, firstPush, firstPull := StatusPasses(w, st);
      ghost var mid := steps;
      if st.update {
        UpdatePass(w, passes.(checkMode := st.checkMode));
      }
      assert OneDirection(mid, steps);
    }

    /** `execute(state)`. */
    method Execute(w: World, st: RunState)
      requires ValidHost(w.host)
      modifies w`fs, w`checked, w`totalChangeSum, w`reports, w`info, this`steps, this`pushStatus, this`pullStatus
      ensures Empty() ==> steps == old(steps) && w.fs == old(w.fs) && unchanged(this)
      ensures !Empty() && st.action != Action.Both ==> steps == old(steps) + PassSteps(st, st.action)
      ensures !Empty() && st.action == Action.Both && !st.update ==> w.fs == old(w.fs) && ReadOnlySince(old(steps), steps)
      ensures !Empty() && st.action == Action.Both ==>
        exists mid :: ReadOnlySince(old(steps), mid) && OneDirection(mid, steps)
      ensures st.checkMode ==> w.fs == old(w.fs)
      ensures !Empty() && st.action == Action.Both ==>
        Passes(GlobalsOf(w, w.info), pushStatus, pullStatus, steps)
        == UndirectedOutcome(Passes(old(GlobalsOf(w, w.info)), old(pushStatus).Reset(), old(pullStatus).Reset(), old(steps)), w.host, st)
      ensures !Empty() && (st.action == Action.Push || st.action == Action.Pull) ==>
        Passes(GlobalsOf(w, w.info), pushStatus, pullStatus, steps)
        == PassOutcome(Passes(old(GlobalsOf(w, w.info)), old(pushStatus).Reset(), old(pullStatus).Reset(), old(steps)), w.host, st, st.action)
    {
      if Empty() {
        return;
      }
      ExecuteNonEmpty(w, st);
    }

    /** `execute(state)` on a directory that is a repository or a solution: the
        statuses are reset, then the run goes on from there. */
    method ExecuteNonEmpty(w: World, st: RunState)
      requires ValidHost(w.host)
      modifies w`fs, w`checked, w`totalChangeSum, w`reports, w`info, this`steps, this`pushStatus, this`pullStatus
      ensures st.action != Action.Both ==> steps == old(steps) + PassSteps(st, st.action)
      ensures st.action == Action.Both && !st.update ==> w.fs == old(w.fs) && ReadOnlySince(old(steps), steps)
      ensures st.action == Action.Both ==> exists mid :: ReadOnlySince(old(steps), mid) && OneDirection(mid, steps)
      ensures st.checkMode ==> w.fs == old(w.fs)
      ensures st.action == Action.Both ==>
        Passes(GlobalsOf(w, w.info), pushStatus, pullStatus, steps)
        == UndirectedOutcome(Passes(old(GlobalsOf(w, w.info)), old(pushStatus).Reset(), old(pullStatus).Reset(), old(steps)), w.host, st)
      ensures st.action != Action.Both ==>
        Passes(GlobalsOf(w, w.info), pushStatus, pullStatus, steps)
        == PassOutcome(Passes(old(GlobalsOf(w, w.info)), old(pushStatus).Reset(), old(pullStatus).Reset(), old(steps)), w.host, st, st.action)
    {
      pullStatus := pullStatus.Reset();
      pushStatus := pushStatus.Reset();
      RunAfterReset(w, st);
    }

    /** `execute(state)` once the statuses are reset: the undirected run, or one pass
        in the given direction. */
    method RunAfterReset(w: World, st: RunState)
      requires ValidHost(w.host)
      modifies w`fs, w`checked, w`totalChangeSum, w`reports, w`info, this`steps, this`pushStatus, this`pullStatus
      ensures st.action != Action.Both ==> steps == old(steps) + PassSteps(st, st.action)
      ensures st.action == Action.Both && !st.update ==> w.fs == old(w.fs) && ReadOnlySince(old(steps), steps)
      ensures st.action == Action.Both ==> exists mid :: ReadOnlySince(old(steps), mid) && OneDirection(mid, steps)
      ensures st.checkMode ==> w.fs == old(w.fs)
      ensures st.action == Action.Both ==>
        Passes(GlobalsOf(w, w.info), pushStatus, pullStatus, steps)
        == UndirectedOutcome(Passes(old(GlobalsOf(w, w.info)), old(pushStatus), old(pullStatus), old(steps)), w.host, st)
      ensures st.action != Action.Both ==>
        Passes(GlobalsOf(w, w.info), pushStatus, pullStatus, steps)
        == PassOutcome(Passes(old(GlobalsOf(w, w.info)), old(pushStatus), old(pullStatus), old(steps)), w.host, st, st.action)
    {
      if st.action == Action.Both {
        UndirectedRun(w, st);
      } else {
        assert st.(action := st.action) == st;
        OnePass(w, st, st.action);
        // The collision report printed after the pass is not modelled.
      }
    }
  }
}
