/** What the engine gets from outside: the library and operating-system behaviour it
    calls but that is not part of this model (`Host`), and the process-wide state it
    reads and writes (`World`): the filesystem, the global `checked` set and change
    tally, the operator's console input and the output of the git status queries. */
module Environment {
  import opened Files
  import opened State
  import opened Wrappers

  /** Behaviour of the path library taken as given:
      - `list`: `list_current_directory`, in the order the system returns entries;
      - `tree`: `list_current_directory_tree_include_self`;
      - `ignored`: `find_ignored_root`, the lookup in the ignore list held in
        memory, which depends on the path alone;
      - `equalsNoRead` / `equals`: `file_equals_no_read` / `file_equals`;
      - `hasGitDirectory`, `solutionDirectory`, `gitDirectory`, `isGitDirectory`:
        `has_git_directory`, `get_solution_directory_if_valid`,
        `get_git_directory_if_valid`, `is_git_directory`. */
  datatype Host = Host(
    list: (FileSystem, Path) -> seq<Path>,
    tree: (FileSystem, Path) -> seq<Path>,
    ignored: Path -> bool,
    equalsNoRead: (Node, Node) -> bool,
    equals: (Node, Node) -> bool,
    hasGitDirectory: (FileSystem, Path) -> bool,
    solutionDirectory: (FileSystem, Path) -> Option<Path>,
    gitDirectory: (FileSystem, Path) -> Option<Path>,
    isGitDirectory: (FileSystem, Path) -> bool)

  /** The listings enumerate exactly the entries of the filesystem they are asked about. */
  ghost predicate ValidHost(h: Host)
  {
    && (forall fs: FileSystem, p: Path, q: Path :: q in h.list(fs, p) <==> q in Children(fs, p))
    && (forall fs: FileSystem, p: Path, q: Path :: q in h.tree(fs, p) <==> q in Tree(fs, p))
  }

  /** `after` is what is left of the operator's input `before` once some of its
      lines have been read: a suffix of it. */
  predicate Consumed(before: seq<string>, after: seq<string>)
  {
    |after| <= |before| && after == before[|before| - |after|..]
  }

  /** Reading on from what is left of the input still leaves a suffix of it. */
  lemma ConsumedTrans(a: seq<string>, b: seq<string>, c: seq<string>)
    requires Consumed(a, b) && Consumed(b, c)
    ensures Consumed(a, c)
  {
    assert a[|a| - |c|..] == a[|a| - |b|..][|b| - |c|..];
  }

  /** Dropping the first `n` lines leaves a suffix. */
  lemma ConsumedDrop(a: seq<string>, n: nat)
    requires n <= |a|
    ensures Consumed(a, a[n..])
  {
  }

  /** The process: its filesystem, the globals of the `info` namespace and the
      streams it reads. */
  class World {
    const host: Host
    var fs: FileSystem
    /** `info::checked`: destinations visited by the current mirror pass. */
    var checked: set<Path>
    /** `info::total_change_sum`: changes that need the operator's confirmation. */
    var totalChangeSum: nat
    /** The lines the operator will type, in order. */
    var input: seq<string>
    /** The lines each git status query will write to the output file, in order. */
    var reports: seq<seq<string>>
    /** The history globals the older `directory` revision accumulates into. */
    var info: History

    constructor (host: Host, fs: FileSystem, input: seq<string>, reports: seq<seq<string>>)
      ensures this.host == host && this.fs == fs && this.input == input && this.reports == reports
      ensures checked == {} && totalChangeSum == 0 && info == EmptyHistory
    {
      this.host := host;
      this.fs := fs;
      this.input := input;
      this.reports := reports;
      checked := {};
      totalChangeSum := 0;
      info := EmptyHistory;
    }

    /** `qpl::get_input`: the next line typed, or nothing once the operator stops typing. */
    method ReadLine() returns (line: Option<string>)
      modifies this`input
      ensures old(input) == [] ==> line == None && input == []
      ensures old(input) != [] ==> line == Some(old(input)[0]) && input == old(input)[1..]
    {
      if input == [] {
        line := None;
      } else {
        line := Some(input[0]);
        input := input[1..];
      }
    }

    /** Runs a status query and reads back its output file, already split into lines;
        an exhausted stream reads as an empty file. */
    method NextReport() returns (lines: seq<string>)
      modifies this`reports
      ensures old(reports) == [] ==> lines == [] && reports == []
      ensures old(reports) != [] ==> lines == old(reports)[0] && reports == old(reports)[1..]
    {
      if reports == [] {
        lines := [];
      } else {
        lines := reports[0];
        reports := reports[1..];
      }
    }
  }
}
