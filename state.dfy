/** The run options, the command kinds and their order, the per-direction status
    record with its verdicts, and the history a pass accumulates. */
module State {
  import opened Files

  datatype Action = Push | Pull | Both

  datatype Location = Local | Git | Both

  /** The command kinds; their declaration order is the order `<` compares. */
  datatype Command = Exe | Move | Git

  /** The enumerator value: exe = 0, move = 1, git = 2. */
  function Rank(c: Command): (r: nat)
    ensures r < 3
  {
    match c
    case Exe => 0
    case Move => 1
    case Git => 2
  }

  /** `a < b` on the enumeration. */
  predicate Before(a: Command, b: Command)
  {
    Rank(a) < Rank(b)
  }

  /** `Before` is a strict total order: exe < move < git. */
  lemma BeforeIsStrictTotal(a: Command, b: Command, c: Command)
    ensures !Before(a, a)
    ensures Rank(a) == Rank(b) ==> a == b
    ensures a != b ==> Before(a, b) || Before(b, a)
    ensures Before(a, b) ==> !Before(b, a)
    ensures Before(a, b) && Before(b, c) ==> Before(a, c)
    ensures Before(Command.Exe, Command.Move) && Before(Command.Move, Command.Git)
  {
  }

  /** The label printed for a command. */
  function CommandString(c: Command): (s: string)
    ensures |s| >= 3
  {
    match c
    case Exe => "EXE"
    case Move => "MOVE"
    case Git => "GIT"
  }

  /** Distinct commands print distinct labels. */
  lemma CommandStringInjective(a: Command, b: Command)
    ensures CommandString(a) == CommandString(b) ==> a == b
  {
    if a != b {
      assert CommandString(a) != CommandString(b) by {
        if |CommandString(a)| == |CommandString(b)| {
          assert CommandString(a)[0] != CommandString(b)[0];
        }
      }
    }
  }

  /** What one check pass found for one direction. */
  datatype Status = Status(localCollision: bool, localChanges: bool, gitChanges: bool, timeOverwrites: bool)
  {
    /** `status::reset`: every flag cleared. */
    function Reset(): (r: Status)
      ensures !r.localCollision && !r.localChanges && !r.gitChanges && !r.timeOverwrites
      ensures r.Clean() && !r.CanExecute()
    {
      Status(false, false, false, false)
    }

    /** Nothing to do in this direction; benign time-overwrites do not count. */
    predicate Clean()
    {
      !localCollision && !localChanges && !gitChanges
    }

    /** Only the git side has something to do. */
    predicate JustGitChanges()
    {
      !localCollision && !localChanges && gitChanges
    }

    /** The direction may run: no collision and changes on exactly one side. */
    function CanExecute(): (r: bool)
      ensures r <==> !localCollision && localChanges != gitChanges
      ensures JustGitChanges() ==> r
      ensures r ==> !Clean()
    {
      !localCollision && ((localChanges && !gitChanges) || JustGitChanges())
    }

    /** Changes on both sides and no collision: running would overwrite pending
        git changes. */
    function BothChanges(): (r: bool)
      ensures r ==> !CanExecute() && !Clean()
    {
      !localCollision && localChanges && gitChanges
    }

    /** The report lines of `string(command)`, one per flag set among collision,
        local changes and git changes. */
    function Lines(command: string): (r: seq<string>)
      ensures |r| == (if localCollision then 1 else 0) + (if localChanges then 1 else 0) + (if gitChanges then 1 else 0)
      ensures forall i :: 0 <= i < |r| ==> |r[i]| > 0 && r[i][|r[i]| - 1] == '\n'
    {
      (if localCollision then ["- " + command + "ing would cause conflicts.\n"] else [])
      + (if localChanges then ["- needs to " + command + " local files.\n"] else [])
      + (if gitChanges then ["- needs to GIT " + command + "\n"] else [])
    }

    /** `string(command)`: the lines joined; empty exactly when the status is clean. */
    function Text(command: string): (s: string)
      ensures |s| == 0 <==> Clean()
    {
      Concat(Lines(command))
    }
  }

  function Concat(lines: seq<string>): (s: string)
    ensures (forall i :: 0 <= i < |lines| ==> |lines[i]| > 0) ==> (|s| == 0 <==> |lines| == 0)
  {
    if lines == [] then "" else lines[0] + Concat(lines[1..])
  }

  /** The options of one run (`state`), with the members the later revision uses. */
  datatype RunState = RunState(
    checkMode: bool,
    printing: bool,
    onlyConflicts: bool,
    findCollisions: bool,
    action: Action,
    location: Location,
    status: bool,
    quickMode: bool,
    update: bool,
    hardPull: bool,
    targetInputDirectories: seq<Path>)

  /** The member initialisers of `state`. */
  const DefaultState := RunState(true, true, false, true, Action.Both, Location.Both, false, false, false, false, [])

  /** What a directional pass accumulated (`history_status`). */
  datatype History = History(
    moveChanges: bool,
    gitChanges: bool,
    timeOverwrites: seq<Path>,
    dataOverwrites: seq<Path>,
    removes: seq<Path>)
  {
    /** Cleared at the start of every directional pass. */
    function Reset(): (r: History)
      ensures !r.moveChanges && !r.gitChanges && !r.AnyCollisions()
    {
      History(false, false, [], [], [])
    }

    /** Any collision, benign time-overwrites included. */
    predicate AnyCollisions()
    {
      |timeOverwrites| + |dataOverwrites| + |removes| > 0
    }

    /** A destructive collision: a data overwrite or a removal. */
    function AnySeriousCollisions(): (r: bool)
      ensures r ==> AnyCollisions()
    {
      |dataOverwrites| > 0 || |removes| > 0
    }
  }

  const EmptyHistory := History(false, false, [], [], [])
}
