/** The abstract filesystem the engine walks: a finite map from a path (a sequence of
    segments, the first being the drive or root) to a directory or a file with its
    bytes and last-write time. */
module Files {

  type Path = seq<string>

  newtype Byte = x: int | 0 <= x < 256

  datatype Node = Directory | File(data: seq<Byte>, mtime: int)

  type FileSystem = map<Path, Node>

  predicate IsFile(fs: FileSystem, p: Path) { p in fs && fs[p].File? }

  predicate IsDirectory(fs: FileSystem, p: Path) { p in fs && fs[p].Directory? }

  /** Size in bytes; a directory reads as empty. */
  function Size(n: Node): nat { if n.File? then |n.data| else 0 }

  /** Last-write time; a directory reads as time 0. */
  function Time(n: Node): int { if n.File? then n.mtime else 0 }

  /** Raw content; a directory reads as no bytes. */
  function Content(n: Node): seq<Byte> { if n.File? then n.data else [] }

  /** Last segment: the file name or the directory name. */
  function Name(p: Path): string { if p == [] then "" else p[|p| - 1] }

  /** The path without its last segment. */
  function Parent(p: Path): (q: Path)
    ensures |p| > 0 ==> q + [Name(p)] == p
  {
    if p == [] then [] else p[..|p| - 1]
  }

  /** `with_branch(i, s)`: the path with segment `i` replaced by `s`. */
  function WithBranch(p: Path, i: nat, s: string): (q: Path)
    ensures |q| == |p|
    ensures forall j :: 0 <= j < |p| && j != i ==> q[j] == p[j]
    ensures i < |p| ==> q[i] == s
  {
    if i < |p| then p[i := s] else p
  }

  /** `branch_size() - 1` on an unsigned size: the index of the last segment, which
      wraps to the largest value for an empty path (no segment to replace). */
  function LastBranch(p: Path): nat
  {
    if |p| == 0 then 0xFFFF_FFFF_FFFF_FFFF else |p| - 1
  }

  /** Entries directly inside `p`. */
  function Children(fs: FileSystem, p: Path): set<Path>
  {
    set q | q in fs && |q| == |p| + 1 && p <= q
  }

  /** `p` itself (when it exists) and every entry below it. */
  function Tree(fs: FileSystem, p: Path): set<Path>
  {
    set q | q in fs && p <= q
  }

  /** `qpl::filesys::remove`: the entry and everything below it disappear. */
  function RemoveTree(fs: FileSystem, p: Path): (r: FileSystem)
    ensures forall q :: q in r <==> q in fs && !(p <= q)
    ensures forall q :: q in r ==> r[q] == fs[q]
  {
    map q | q in fs && !(p <= q) :: fs[q]
  }

  /** A child's subtree is strictly smaller than its parent's. */
  lemma ChildTreeSmaller(fs: FileSystem, p: Path, c: Path)
    requires p in fs && c in Children(fs, p)
    ensures Tree(fs, c) < Tree(fs, p) && |Tree(fs, c)| < |Tree(fs, p)|
  {
    assert p in Tree(fs, p) && p !in Tree(fs, c);
    forall q | q in Tree(fs, c) ensures q in Tree(fs, p) {
      assert q[..|p|] == q[..|c|][..|p|];
    }
    var small, large := Tree(fs, c), Tree(fs, p);
    assert large == small + (large - small);
  }
}
