/** Text helpers the engine relies on: splitting a name on a separator, ASCII case
    folding for the comparisons against git's sentinel lines, and decimal numbers for
    the collision report. */
module Strings {

  /** Concatenation of `parts` with `sep` between neighbours. */
  function Join(parts: seq<string>, sep: char): string
    decreases |parts|
  {
    if |parts| == 0 then ""
    else if |parts| == 1 then parts[0]
    else parts[0] + [sep] + Join(parts[1..], sep)
  }

  /** Index of the first occurrence of `c` in `s`. */
  function IndexOf(s: string, c: char): (i: nat)
    requires c in s
    ensures i < |s| && s[i] == c && c !in s[..i]
  {
    if s[0] == c then 0
    else
      assert c in s[1..];
      var j := IndexOf(s[1..], c);
      assert s[..j + 1] == [s[0]] + s[1..][..j];
      j + 1
  }

  /** Splits `s` at every `sep`; empty segments are kept, so there is always one
      part more than there are separators. */
  function Split(s: string, sep: char): (parts: seq<string>)
    ensures |parts| >= 1
    ensures forall i :: 0 <= i < |parts| ==> sep !in parts[i]
    ensures Join(parts, sep) == s
    decreases |s|
  {
    if sep !in s then [s]
    else
      var i := IndexOf(s, sep);
      var rest := Split(s[i + 1..], sep);
      assert s == s[..i] + [sep] + s[i + 1..];
      [s[..i]] + rest
  }

  /** Splitting undoes joining whenever no part contains the separator. */
  lemma {:induction false} SplitJoin(parts: seq<string>, sep: char)
    requires |parts| >= 1
    requires forall i :: 0 <= i < |parts| ==> sep !in parts[i]
    ensures Split(Join(parts, sep), sep) == parts
    decreases |parts|
  {
    if |parts| == 1 {
    } else {
      var s := Join(parts, sep);
      var tail := parts[1..];
      assert forall i :: 0 <= i < |tail| ==> sep !in tail[i] by {
        forall i | 0 <= i < |tail| ensures sep !in tail[i] {
          assert tail[i] == parts[i + 1];
        }
      }
      SplitJoin(tail, sep);
      FirstSeparator(parts[0], Join(tail, sep), sep);
    }
  }

  /** The first separator of `a + [sep] + b` is the one after `a`. */
  lemma FirstSeparator(a: string, b: string, sep: char)
    requires sep !in a
    ensures var s := a + [sep] + b;
      sep in s && IndexOf(s, sep) == |a| && s[..|a|] == a && s[|a| + 1..] == b
  {
    var s := a + [sep] + b;
    assert s[|a|] == sep;
    assert s[..|a|] == a;
  }

  /** ASCII lower-case folding of one character. */
  function Lower(c: char): char
  {
    if 'A' <= c <= 'Z' then (c as int + 32) as char else c
  }

  /** Equality of two strings after folding both to lower case. */
  predicate EqualsIgnoreCase(a: string, b: string)
  {
    |a| == |b| && forall i :: 0 <= i < |a| ==> Lower(a[i]) == Lower(b[i])
  }

  /** `line.substr(0, |prefix|)` compared with `prefix` ignoring case: the line
      is cut to at most the prefix's length first, as substr does. */
  predicate StartsWithIgnoreCase(line: string, prefix: string)
  {
    var cut := if |line| < |prefix| then line else line[..|prefix|];
    EqualsIgnoreCase(cut, prefix)
  }

  /** A cut line can only equal the prefix when the line is at least as long. */
  lemma StartsWithIgnoreCaseLength(line: string, prefix: string)
    requires StartsWithIgnoreCase(line, prefix)
    ensures |line| >= |prefix|
    ensures EqualsIgnoreCase(line[..|prefix|], prefix)
  {
  }

  /** Decimal digits of `n`, most significant first. */
  function NatToString(n: nat): (s: string)
    ensures |s| >= 1
    ensures forall i :: 0 <= i < |s| ==> '0' <= s[i] <= '9'
    decreases n
  {
    var d := ['0' + ((n % 10) as char)];
    if n < 10 then d else NatToString(n / 10) + d
  }
}
