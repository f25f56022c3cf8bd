/**
 * Python's `str.splitlines()` with no argument: the string is cut at every line
 * boundary, a `"\r\n"` pair counts as one boundary, the boundaries are dropped, and
 * a boundary at the very end does not start another (empty) line.
 */
module PyLines {

  /** The line boundaries `str.splitlines` recognises. */
  predicate IsLineBreak(c: char) {
    var k := c as int;
    || k == 0x0A || k == 0x0B || k == 0x0C || k == 0x0D
    || k == 0x1C || k == 0x1D || k == 0x1E
    || k == 0x85 || k == 0x2028 || k == 0x2029
  }

  /** A string holding no line boundary. */
  predicate NoBreak(s: string) {
    forall k | 0 <= k < |s| :: !IsLineBreak(s[k])
  }

  /** Index of the first line boundary of `s`, or `|s|` when there is none. */
  function LineLen(s: string): (n: nat)
    ensures n <= |s|
    ensures NoBreak(s[..n])
    ensures n < |s| ==> IsLineBreak(s[n])
    decreases |s|
  {
    if |s| == 0 || IsLineBreak(s[0]) then 0
    else
      var m := LineLen(s[1..]);
      assert s[..1 + m] == [s[0]] + s[1..][..m];
      1 + m
  }

  /** Length of the boundary that starts at `s[i]`: two for `"\r\n"`, one otherwise. */
  function BreakLen(s: string, i: nat): (n: nat)
    requires i < |s|
    ensures 1 <= n && i + n <= |s|
  {
    if s[i] == '\r' && i + 1 < |s| && s[i + 1] == '\n' then 2 else 1
  }

  /** Python's `s.splitlines()`. */
  function SplitLines(s: string): (ls: seq<string>)
    ensures forall j | 0 <= j < |ls| :: NoBreak(ls[j])
    ensures ls == [] <==> s == []
    decreases |s|
  {
    if |s| == 0 then []
    else
      var n := LineLen(s);
      if n == |s| then [s]
      else [s[..n]] + SplitLines(s[n + BreakLen(s, n)..])
  }

  /** A line with no boundary in it, followed by `"\n"`, is split off as one line. */
  lemma SplitLinesAfterNewline(a: string, b: string)
    requires NoBreak(a)
    ensures SplitLines(a + "\n" + b) == [a] + SplitLines(b)
  {
    var s := a + "\n" + b;
    assert s[|a|] == '\n';
    assert LineLen(s) == |a|;
    assert s[..|a|] == a;
    assert s[|a| + 1..] == b;
  }

  /** A `"\r\n"` pair ends a line exactly as a single `"\n"` does. */
  lemma SplitLinesAfterCrLf(a: string, b: string)
    requires NoBreak(a)
    ensures SplitLines(a + "\r\n" + b) == [a] + SplitLines(b)
  {
    var s := a + "\r\n" + b;
    assert s[|a|] == '\r' && s[|a| + 1] == '\n';
    assert LineLen(s) == |a|;
    assert s[..|a|] == a;
    assert s[|a| + 2..] == b;
  }

  /** A non-empty string without boundaries is a single line. */
  lemma SplitLinesSingle(a: string)
    requires a != [] && NoBreak(a)
    ensures SplitLines(a) == [a]
  {
    assert LineLen(a) == |a|;
  }

  /** Python's `"\n".join(ls)`. */
  function JoinLines(ls: seq<string>): string
    decreases |ls|
  {
    if |ls| == 0 then "" else if |ls| == 1 then ls[0] else ls[0] + "\n" + JoinLines(ls[1..])
  }

  /**
   * `splitlines` undoes a `"\n"` join of lines without boundaries, provided the
   * last line is not empty (a trailing empty line leaves no trace to split off).
   */
  lemma {:induction false} SplitLinesOfJoined(ls: seq<string>)
    requires |ls| >= 1 && ls[|ls| - 1] != []
    requires forall j | 0 <= j < |ls| :: NoBreak(ls[j])
    ensures SplitLines(JoinLines(ls)) == ls
    decreases |ls|
  {
    if |ls| == 1 {
      SplitLinesSingle(ls[0]);
    } else {
      var rest := ls[1..];
      assert JoinLines(ls) == ls[0] + "\n" + JoinLines(rest);
      assert rest[|rest| - 1] == ls[|ls| - 1];
      SplitLinesAfterNewline(ls[0], JoinLines(rest));
      SplitLinesOfJoined(rest);
      assert [ls[0]] + rest == ls;
    }
  }

  /** A final `"\n"` after text that does not already end a line adds no line. */
  lemma {:induction false} SplitLinesFinalNewline(s: string)
    requires s != [] && !IsLineBreak(s[|s| - 1])
    ensures SplitLines(s + "\n") == SplitLines(s)
    decreases |s|
  {
    var n := LineLen(s);
    var t := s + "\n";
    LineLenPrefix(s, "\n");
    assert t[..n] == s[..n];
    if n == |s| {
      assert t[|s| + 1..] == [];
      assert SplitLines(t) == [s] + SplitLines([]);
      SplitLinesSingle(s);
    } else {
      assert n < |s| - 1;
      var k := n + BreakLen(s, n);
      assert BreakLen(t, n) == BreakLen(s, n);
      assert k < |s|;
      assert t[k..] == s[k..] + "\n";
      assert s[k..][|s[k..]| - 1] == s[|s| - 1];
      SplitLinesFinalNewline(s[k..]);
      assert SplitLines(t) == [t[..n]] + SplitLines(t[k..]);
      assert SplitLines(s) == [s[..n]] + SplitLines(s[k..]);
    }
  }

  /** Appending after a boundary does not move the first boundary. */
  lemma {:induction false} LineLenPrefix(s: string, u: string)
    requires LineLen(s) < |s| || (u != [] && IsLineBreak(u[0]))
    ensures LineLen(s + u) == LineLen(s)
    decreases |s|
  {
    if |s| > 0 && !IsLineBreak(s[0]) {
      assert (s + u)[1..] == s[1..] + u;
      assert (s + u)[0] == s[0];
      LineLenPrefix(s[1..], u);
    } else if |s| > 0 {
      assert (s + u)[0] == s[0];
    }
  }

  /** Each line followed by `"\n"`, all concatenated. */
  function Terminated(ls: seq<string>): string
    decreases |ls|
  {
    if |ls| == 0 then "" else ls[0] + "\n" + Terminated(ls[1..])
  }

  /** `splitlines` recovers the lines of a newline-terminated text. */
  lemma {:induction false} SplitLinesOfTerminated(ls: seq<string>)
    requires forall j | 0 <= j < |ls| :: NoBreak(ls[j])
    ensures SplitLines(Terminated(ls)) == ls
    decreases |ls|
  {
    if |ls| > 0 {
      SplitLinesAfterNewline(ls[0], Terminated(ls[1..]));
      SplitLinesOfTerminated(ls[1..]);
    }
  }
}
