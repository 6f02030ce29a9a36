/** Which commands a directory runs and in which order: the unsorted command list
    of a directory kind and location, sorted ascending for a push and descending for
    a pull. */
module Planning {
  import opened State

  /** `a` may precede `b`: by rank, ascending or descending. */
  predicate InOrder(a: Command, b: Command, descending: bool)
  {
    if descending then Rank(b) <= Rank(a) else Rank(a) <= Rank(b)
  }

  predicate SortedBy(cs: seq<Command>, descending: bool)
  {
    forall i, j :: 0 <= i < j < |cs| ==> InOrder(cs[i], cs[j], descending)
  }

  /** Every element of `s` may follow `a`. */
  predicate Precedes(a: Command, s: seq<Command>, descending: bool)
  {
    forall x :: x in multiset(s) ==> InOrder(a, x, descending)
  }

  /** A sequence with a head is sorted iff the head precedes the rest and the rest is
      sorted. */
  lemma SortedCons(a: Command, s: seq<Command>, descending: bool)
    ensures SortedBy([a] + s, descending) <==> Precedes(a, s, descending) && SortedBy(s, descending)
  {
    var t := [a] + s;
    assert t[1..] == s;
    if SortedBy(t, descending) {
      forall x | x in multiset(s) ensures InOrder(a, x, descending) {
        var j :| 0 <= j < |s| && s[j] == x;
        assert InOrder(t[0], t[j + 1], descending);
      }
    }
    if Precedes(a, s, descending) && SortedBy(s, descending) {
      forall i, j | 0 <= i < j < |t| ensures InOrder(t[i], t[j], descending) {
        if i == 0 {
          assert t[j] in multiset(s);
        } else {
          assert t[i] == s[i - 1] && t[j] == s[j - 1];
        }
      }
    }
  }

  /** Inserts `c` before the first element it may precede. */
  function Insert(c: Command, cs: seq<Command>, descending: bool): seq<Command>
    decreases |cs|
  {
    if cs == [] || InOrder(c, cs[0], descending) then [c] + cs
    else [cs[0]] + Insert(c, cs[1..], descending)
  }

  /** `c` goes in front when it may precede the current head. */
  lemma InsertFront(c: Command, cs: seq<Command>, descending: bool)
    requires SortedBy(cs, descending) && cs != [] && InOrder(c, cs[0], descending)
    ensures SortedBy([c] + cs, descending)
  {
    SortedCons(cs[0], cs[1..], descending);
    assert cs == [cs[0]] + cs[1..];
    forall x | x in multiset(cs) ensures InOrder(c, x, descending) {
      if x != cs[0] {
        assert x in multiset(cs[1..]);
      }
    }
    SortedCons(c, cs, descending);
  }

  /** The head stays in front when `c` goes behind it. */
  lemma InsertBehind(c: Command, head: Command, tail: seq<Command>, rest: seq<Command>, descending: bool)
    requires SortedBy([head] + tail, descending) && !InOrder(c, head, descending)
    requires SortedBy(rest, descending) && multiset(rest) == multiset(tail) + multiset{c}
    ensures SortedBy([head] + rest, descending)
  {
    SortedCons(head, tail, descending);
    forall x | x in multiset(rest) ensures InOrder(head, x, descending) {
      assert x in multiset(tail) || x == c;
    }
    SortedCons(head, rest, descending);
  }

  lemma {:induction false} InsertSorted(c: Command, cs: seq<Command>, descending: bool)
    requires SortedBy(cs, descending)
    ensures SortedBy(Insert(c, cs, descending), descending)
    ensures multiset(Insert(c, cs, descending)) == multiset(cs) + multiset{c}
    decreases |cs|
  {
    if cs == [] {
      SortedCons(c, cs, descending);
    } else if InOrder(c, cs[0], descending) {
      InsertFront(c, cs, descending);
    } else {
      assert cs == [cs[0]] + cs[1..];
      SortedCons(cs[0], cs[1..], descending);
      InsertSorted(c, cs[1..], descending);
      InsertBehind(c, cs[0], cs[1..], Insert(c, cs[1..], descending), descending);
    }
  }

  /** `std::sort` with the rank comparison. */
  function Sort(cs: seq<Command>, descending: bool): (r: seq<Command>)
    ensures SortedBy(r, descending)
    ensures multiset(r) == multiset(cs)
    decreases |cs|
  {
    if cs == [] then []
    else
      assert cs == [cs[0]] + cs[1..];
      InsertSorted(cs[0], Sort(cs[1..], descending), descending);
      Insert(cs[0], Sort(cs[1..], descending), descending)
  }

  lemma MultisetTail(a: seq<Command>)
    requires a != []
    ensures multiset(a[1..]) == multiset(a) - multiset{a[0]}
  {
    assert a == [a[0]] + a[1..];
  }

  /** The first element of a sorted sequence precedes every element of it. */
  lemma SortedHeadFirst(a: seq<Command>, x: Command, descending: bool)
    requires SortedBy(a, descending) && x in multiset(a)
    ensures InOrder(a[0], x, descending)
  {
    var i :| 0 <= i < |a| && a[i] == x;
    if i > 0 {
      assert InOrder(a[0], a[i], descending);
    }
  }

  lemma RankInjective(a: Command, b: Command)
    ensures Rank(a) == Rank(b) ==> a == b
  {
  }

  /** Two sorted arrangements of the same commands start alike. */
  lemma HeadsAgree(a: seq<Command>, b: seq<Command>, descending: bool)
    requires SortedBy(a, descending) && SortedBy(b, descending)
    requires multiset(a) == multiset(b) && a != [] && b != []
    ensures a[0] == b[0]
  {
    assert a[0] in multiset(a) && b[0] in multiset(b);
    SortedHeadFirst(a, b[0], descending);
    SortedHeadFirst(b, a[0], descending);
    RankInjective(a[0], b[0]);
  }

  /** Two sorted arrangements of the same commands are the same sequence, so the
      result does not depend on the sorting algorithm. */
  lemma {:induction false} SortedUnique(a: seq<Command>, b: seq<Command>, descending: bool)
    requires SortedBy(a, descending) && SortedBy(b, descending)
    requires multiset(a) == multiset(b)
    ensures a == b
    decreases |a|
  {
    assert |multiset(a)| == |a| && |multiset(b)| == |b|;
    if a != [] {
      HeadsAgree(a, b, descending);
      assert a == [a[0]] + a[1..] && b == [b[0]] + b[1..];
      SortedCons(a[0], a[1..], descending);
      SortedCons(b[0], b[1..], descending);
      MultisetTail(a);
      MultisetTail(b);
      SortedUnique(a[1..], b[1..], descending);
    }
  }

  /** `get_unsorted_commands`: a git directory runs git unless the location is local;
      a solution directory runs move, git or both according to the location. */
  function UnsortedCommands(isGit: bool, isSolution: bool, location: Location): (r: seq<Command>)
    ensures Command.Exe !in r
    ensures Command.Move in r <==> isSolution && (location == Location.Local || (location == Location.Both && !isGit))
    ensures Command.Git in r <==> (isGit || isSolution) && location != Location.Local
  {
    if isGit && location != Location.Local then [Command.Git]
    else if isSolution then
      match location
      case Local => [Command.Move]
      case Git => [Command.Git]
      case Both => [Command.Move, Command.Git]
    else []
  }

  /** `get_commands`: a push sorts ascending (move before git), a pull descending
      (git before move), and the undirected action runs nothing. */
  function Commands(isGit: bool, isSolution: bool, st: RunState): (r: seq<Command>)
    ensures st.action == Action.Push ==>
      SortedBy(r, false) && multiset(r) == multiset(UnsortedCommands(isGit, isSolution, st.location))
    ensures st.action == Action.Pull ==>
      SortedBy(r, true) && multiset(r) == multiset(UnsortedCommands(isGit, isSolution, st.location))
    ensures st.action == Action.Both ==> r == []
  {
    if st.action == Action.Push then Sort(UnsortedCommands(isGit, isSolution, st.location), false)
    else if st.action == Action.Pull then Sort(UnsortedCommands(isGit, isSolution, st.location), true)
    else []
  }

  /** A solution directory with git on both locations mirrors before committing on a
      push. */
  lemma SolutionPushOrder(st: RunState)
    requires st.location == Location.Both && st.action == Action.Push
    ensures Commands(false, true, st) == [Command.Move, Command.Git]
  {
    var u := UnsortedCommands(false, true, st.location);
    assert u == [Command.Move, Command.Git];
    var r := Commands(false, true, st);
    assert SortedBy([Command.Move, Command.Git], false);
    SortedUnique(r, [Command.Move, Command.Git], false);
  }

  /** ... and fetches before mirroring on a pull. */
  lemma SolutionPullOrder(st: RunState)
    requires st.location == Location.Both && st.action == Action.Pull
    ensures Commands(false, true, st) == [Command.Git, Command.Move]
  {
    var u := UnsortedCommands(false, true, st.location);
    assert u == [Command.Move, Command.Git];
    var r := Commands(false, true, st);
    assert multiset(u) == multiset([Command.Git, Command.Move]);
    assert SortedBy([Command.Git, Command.Move], true);
    SortedUnique(r, [Command.Git, Command.Move], true);
  }
}
