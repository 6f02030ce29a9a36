/** The collision report printed after a pass and the operator's confirmation gate
    of collisions.hpp. */
module Collisions {
  import opened Files
  import opened Strings
  import opened State
  import opened Environment
  import opened Wrappers

  /** The three report sections, in the order they are printed. */
  datatype Kind = TimeHint | DataWarning | RemoveWarning

  function KindRank(k: Kind): nat
  {
    match k
    case TimeHint => 0
    case DataWarning => 1
    case RemoveWarning => 2
  }

  /** The history list a section reports. */
  function Listed(h: History, k: Kind): seq<Path>
  {
    match k
    case TimeHint => h.timeOverwrites
    case DataWarning => h.dataOverwrites
    case RemoveWarning => h.removes
  }

  /** One printed section: its kind, whether it carries the "WARNING: " prefix, the
      action word and the entries it lists. */
  datatype Section = Section(kind: Kind, warning: bool, actionWord: string, entries: seq<Path>)

  /** "PULL" for a pull, "PUSH" for anything else. */
  function ActionWord(a: Action): (s: string)
    ensures s == "PULL" <==> a == Action.Pull
    ensures s == "PUSH" <==> a != Action.Pull
  {
    if a == Action.Pull then "PULL" else "PUSH"
  }

  /** The section of kind `k` as it is printed. */
  function Make(st: RunState, h: History, k: Kind): Section
  {
    Section(k, k != TimeHint && !st.checkMode, ActionWord(st.action), Listed(h, k))
  }

  /** The section of kind `k`, present only when its list is non-empty. */
  function SectionOf(st: RunState, h: History, k: Kind): (r: seq<Section>)
    ensures |r| == (if |Listed(h, k)| == 0 then 0 else 1)
    ensures forall i :: 0 <= i < |r| ==> r[i] == Make(st, h, k)
  {
    if |Listed(h, k)| == 0 then [] else [Make(st, h, k)]
  }

  /** What `print_collisions` reports, section by section. */
  function Sections(st: RunState, h: History): seq<Section>
  {
    SectionOf(st, h, TimeHint) + SectionOf(st, h, DataWarning) + SectionOf(st, h, RemoveWarning)
  }

  /** Every printed section is the one of its kind, for a non-empty list, and the
      sections come in the order hint, data, removes. */
  lemma SectionsShape(st: RunState, h: History)
    ensures var r := Sections(st, h);
      && |r| <= 3
      && (forall i :: 0 <= i < |r| ==> r[i] == Make(st, h, r[i].kind) && |Listed(h, r[i].kind)| > 0)
      && (forall i, j :: 0 <= i < j < |r| ==> KindRank(r[i].kind) < KindRank(r[j].kind))
  {
    var r := Sections(st, h);
    var x, y, z := SectionOf(st, h, TimeHint), SectionOf(st, h, DataWarning), SectionOf(st, h, RemoveWarning);
    forall i | 0 <= i < |r| ensures r[i] == Make(st, h, r[i].kind) && |Listed(h, r[i].kind)| > 0
      && (i < |x| ==> r[i].kind == TimeHint)
      && (|x| <= i < |x| + |y| ==> r[i].kind == DataWarning)
      && (|x| + |y| <= i ==> r[i].kind == RemoveWarning)
    {
      if i < |x| {
        assert r[i] == x[i];
      } else if i < |x| + |y| {
        assert r[i] == y[i - |x|];
      } else {
        assert r[i] == z[i - |x| - |y|];
      }
    }
  }

  /** A section of kind `k` is printed iff its list is non-empty. */
  lemma SectionsPresence(st: RunState, h: History, k: Kind)
    ensures (exists i :: 0 <= i < |Sections(st, h)| && Sections(st, h)[i].kind == k) <==> |Listed(h, k)| > 0
  {
    var r := Sections(st, h);
    SectionsShape(st, h);
    var x, y := SectionOf(st, h, TimeHint), SectionOf(st, h, DataWarning);
    if |Listed(h, k)| > 0 {
      if k == TimeHint {
        assert r[0] == Make(st, h, k);
      } else if k == DataWarning {
        assert r[|x|] == Make(st, h, k);
      } else {
        assert r[|x| + |y|] == Make(st, h, k);
      }
    }
  }

  /** The WARNING prefix marks exactly the data and removal sections outside check
      mode, and every section names the action. */
  lemma SectionsWording(st: RunState, h: History)
    ensures forall s :: s in Sections(st, h) ==>
      (s.warning <==> s.kind != TimeHint && !st.checkMode) && s.actionWord == ActionWord(st.action)
      && s.entries == Listed(h, s.kind) && |s.entries| > 0
  {
    SectionsShape(st, h);
  }

  /** "is 1 file " or "are <n> files ". */
  function CountPhrase(n: nat): string
  {
    (if n == 1 then "is " else "are ") + NatToString(n) + (if n == 1 then " file " else " files ")
  }

  /** The header line of a section. */
  function Header(s: Section): string
  {
    var tail :=
      match s.kind
      case TimeHint => " would overwrite a more recent version, but the data is same."
      case DataWarning => " would overwrite a more recent version."
      case RemoveWarning => " would remove them.";
    (if s.kind == TimeHint then "HINT: " else "") + (if s.warning then "WARNING: " else "")
    + "There " + CountPhrase(|s.entries|) + "where a " + s.actionWord + tail
  }

  /** A path as it is printed: its segments joined by '/'. */
  function PathText(p: Path): string
  {
    Join(p, '/')
  }

  /** The entry lines of a section. */
  function EntryLines(entries: seq<Path>): (r: seq<string>)
    ensures |r| == |entries|
    ensures forall i :: 0 <= i < |r| ==> r[i] == ". . . . " + PathText(entries[i])
  {
    if entries == [] then [] else [". . . . " + PathText(entries[0])] + EntryLines(entries[1..])
  }

  /** The lines of one section: a blank line, the header, then one line per entry. */
  function SectionLines(s: Section): (r: seq<string>)
    ensures |r| == 2 + |s.entries|
  {
    ["", Header(s)] + EntryLines(s.entries)
  }

  function AllLines(sections: seq<Section>): seq<string>
  {
    if sections == [] then [] else SectionLines(sections[0]) + AllLines(sections[1..])
  }

  lemma {:induction false} AllLinesAppend(a: seq<Section>, b: seq<Section>)
    ensures AllLines(a + b) == AllLines(a) + AllLines(b)
    decreases |a|
  {
    if a == [] {
      assert a + b == b;
    } else {
      assert (a + b)[0] == a[0];
      assert (a + b)[1..] == a[1..] + b;
      AllLinesAppend(a[1..], b);
    }
  }

  /** A present section prints two lines plus one per entry; an absent one nothing. */
  lemma SectionOfSize(st: RunState, h: History, k: Kind)
    ensures |AllLines(SectionOf(st, h, k))| == (if |Listed(h, k)| > 0 then 2 + |Listed(h, k)| else 0)
  {
    var x := SectionOf(st, h, k);
    if x != [] {
      assert x[1..] == [];
    }
  }

  /** Number of report lines: two per non-empty list plus one per listed path. */
  function ReportSize(h: History): nat
  {
    (if |h.timeOverwrites| > 0 then 2 + |h.timeOverwrites| else 0)
    + (if |h.dataOverwrites| > 0 then 2 + |h.dataOverwrites| else 0)
    + (if |h.removes| > 0 then 2 + |h.removes| else 0)
  }

  /** `print_collisions` as the lines it writes. */
  function CollisionLines(st: RunState, h: History): (r: seq<string>)
    ensures |r| == ReportSize(h)
    ensures |r| == 0 <==> !h.AnyCollisions()
  {
    var x, y, z := SectionOf(st, h, TimeHint), SectionOf(st, h, DataWarning), SectionOf(st, h, RemoveWarning);
    AllLinesAppend(x + y, z);
    AllLinesAppend(x, y);
    SectionOfSize(st, h, TimeHint);
    SectionOfSize(st, h, DataWarning);
    SectionOfSize(st, h, RemoveWarning);
    AllLines(Sections(st, h))
  }

  /** `string_equals_ignore_case(input, "y")`. */
  predicate IsYes(line: string) { EqualsIgnoreCase(line, "y") }

  /** `string_equals_ignore_case(input, "n")`. */
  predicate IsNo(line: string) { EqualsIgnoreCase(line, "n") }

  /** The decision of a y/n prompt and how many lines it consumed. */
  datatype Reply = Reply(yes: bool, consumed: nat)

  /** The prompt loop over the typed lines: the first line that is "y" or "n" (any
      case) decides; other lines re-prompt; running out of lines refuses. */
  function Answer(input: seq<string>): (r: Reply)
    ensures r.consumed <= |input|
    ensures forall i :: 0 <= i < r.consumed - 1 ==> !IsYes(input[i]) && !IsNo(input[i])
    ensures r.consumed == 0 ==> |input| == 0
    ensures r.consumed > 0 ==> (IsYes(input[r.consumed - 1]) || IsNo(input[r.consumed - 1]) || r.consumed == |input|)
    ensures r.yes <==> r.consumed > 0 && IsYes(input[r.consumed - 1])
    decreases |input|
  {
    if input == [] then Reply(false, 0)
    else if IsYes(input[0]) then Reply(true, 1)
    else if IsNo(input[0]) then Reply(false, 1)
    else
      var r := Answer(input[1..]);
      assert r.consumed > 0 ==> input[r.consumed] == input[1..][r.consumed - 1];
      Reply(r.yes, r.consumed + 1)
  }

  /** A prompt reads through the first "y" or "n" and no further; with no such line it
      reads everything and refuses. */
  lemma {:induction false} AnswerIsFirstDecisiveLine(input: seq<string>, k: nat)
    requires k < |input| && (IsYes(input[k]) || IsNo(input[k]))
    requires forall i :: 0 <= i < k ==> !IsYes(input[i]) && !IsNo(input[i])
    ensures Answer(input).consumed == k + 1
    ensures Answer(input).yes <==> IsYes(input[k])
    decreases k
  {
    if k > 0 {
      assert !IsYes(input[0]) && !IsNo(input[0]);
      var tail := input[1..];
      assert forall i :: 0 <= i < k - 1 ==> tail[i] == input[i + 1];
      AnswerIsFirstDecisiveLine(tail, k - 1);
    }
  }

  /** `confirm_collisions`: asks only when there are changes to confirm and the run is
      not a status run. */
  method ConfirmCollisions(w: World, st: RunState) returns (ok: bool)
    modifies w`input
    ensures w.totalChangeSum == 0 || st.status ==> ok && w.input == old(w.input)
    ensures w.totalChangeSum > 0 && !st.status ==>
              ok == Answer(old(w.input)).yes && w.input == old(w.input)[Answer(old(w.input)).consumed..]
  {
    if w.totalChangeSum != 0 && !st.status {
      ok := Prompt(w);
    } else {
      ok := true;
    }
  }

  /** A y/n prompt over the operator's input. */
  method Prompt(w: World) returns (yes: bool)
    modifies w`input
    ensures yes == Answer(old(w.input)).yes
    ensures w.input == old(w.input)[Answer(old(w.input)).consumed..]
  {
    ghost var typed := w.input;
    while true
      invariant |w.input| <= |typed| && w.input == typed[|typed| - |w.input|..]
      invariant Answer(typed).yes == Answer(w.input).yes
      invariant Answer(typed).consumed == |typed| - |w.input| + Answer(w.input).consumed
      decreases |w.input|
    {
      ghost var before := w.input;
      var line := w.ReadLine();
      if line.None? {
        return false;
      }
      if IsYes(line.value) {
        return true;
      }
      if IsNo(line.value) {
        return false;
      }
      assert w.input == before[1..];
    }
  }
}
