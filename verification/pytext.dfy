/**
 * The parts of Python's `str` that the label generator relies on for words:
 * `str.isspace` on one character, `str.split()` with no separator,
 * `" ".join(...)` and `str.strip()` with no argument.
 */
module PyText {

  /** Python's `str.isspace` for a single character (Unicode White_Space as CPython defines it). */
  predicate IsSpace(c: char) {
    var k := c as int;
    || (0x09 <= k <= 0x0D)
    || (0x1C <= k <= 0x20)
    || k == 0x85 || k == 0xA0 || k == 0x1680
    || (0x2000 <= k <= 0x200A)
    || k == 0x2028 || k == 0x2029 || k == 0x202F || k == 0x205F || k == 0x3000
  }

  /** Every character of `s` is whitespace (vacuously true of the empty string). */
  predicate AllSpace(s: string) {
    forall k | 0 <= k < |s| :: IsSpace(s[k])
  }

  /** A word as `str.split()` produces it: non-empty and free of whitespace. */
  predicate IsWord(w: string) {
    |w| > 0 && forall k | 0 <= k < |w| :: !IsSpace(w[k])
  }

  /** Length of the leading run of non-whitespace characters of `s`. */
  function WordLen(s: string): (n: nat)
    ensures n <= |s|
    ensures forall k | 0 <= k < n :: !IsSpace(s[k])
    ensures n < |s| ==> IsSpace(s[n])
    decreases |s|
  {
    if |s| == 0 || IsSpace(s[0]) then 0 else 1 + WordLen(s[1..])
  }

  /** Python's `s.split()`: the maximal runs of non-whitespace characters, in order. */
  function Words(s: string): (ws: seq<string>)
    ensures forall i | 0 <= i < |ws| :: IsWord(ws[i])
    decreases |s|
  {
    if |s| == 0 then []
    else if IsSpace(s[0]) then Words(s[1..])
    else
      var n := WordLen(s);
      [s[..n]] + Words(s[n..])
  }

  /** The number of characters in all the words together. */
  function TotalLen(ws: seq<string>): nat
    decreases |ws|
  {
    if |ws| == 0 then 0 else TotalLen(ws[..|ws| - 1]) + |ws[|ws| - 1]|
  }

  /**
   * Python's `" ".join(ws)`: the words separated by single spaces, so exactly
   * one character is added between each pair of neighbours.
   */
  function JoinWords(ws: seq<string>): (r: string)
    ensures |ws| > 0 ==> |r| == TotalLen(ws) + |ws| - 1
    decreases |ws|
  {
    if |ws| == 0 then ""
    else if |ws| == 1 then ws[0]
    else JoinWords(ws[..|ws| - 1]) + " " + ws[|ws| - 1]
  }

  /** Number of leading whitespace characters of `s`. */
  function LeadLen(s: string): (n: nat)
    ensures n <= |s|
    ensures AllSpace(s[..n])
    ensures n < |s| ==> !IsSpace(s[n])
    decreases |s|
  {
    if |s| > 0 && IsSpace(s[0]) then 1 + LeadLen(s[1..]) else 0
  }

  /** Number of trailing whitespace characters of `s`. */
  function TrailLen(s: string): (n: nat)
    ensures n <= |s|
    ensures AllSpace(s[|s| - n..])
    ensures n < |s| ==> !IsSpace(s[|s| - 1 - n])
    decreases |s|
  {
    if |s| > 0 && IsSpace(s[|s| - 1]) then
      var p := s[..|s| - 1];
      var m := TrailLen(p);
      assert s[|s| - (m + 1)..] == p[|p| - m..] + [s[|s| - 1]];
      assert m + 1 < |s| ==> s[|s| - 1 - (m + 1)] == p[|p| - 1 - m];
      1 + m
    else 0
  }

  /**
   * Python's `s.strip()`: drops leading and trailing whitespace. The result is the
   * infix of `s` that starts at the first non-space character and ends at the last
   * one; everything dropped is whitespace.
   */
  function Strip(s: string): (r: string)
    ensures LeadLen(s) + |r| <= |s| && r == s[LeadLen(s)..LeadLen(s) + |r|]
    ensures AllSpace(s[LeadLen(s) + |r|..])
    ensures r == [] <==> AllSpace(s)
    ensures |r| > 0 ==> !IsSpace(r[0]) && !IsSpace(r[|r| - 1])
  {
    var i := LeadLen(s);
    var t := s[i..];
    var k := |t| - TrailLen(t);
    StripBounds(s, i, t, k);
    assert |t[..k]| == k;
    t[..k]
  }

  /** The infix kept by `Strip` starts and ends at non-space characters, and only spaces lie outside it. */
  lemma {:induction false} StripBounds(s: string, i: nat, t: string, k: nat)
    requires i == LeadLen(s) && t == s[i..] && k == |t| - TrailLen(t)
    ensures t[..k] == s[i..i + k]
    ensures AllSpace(s[i + k..])
    ensures k == 0 <==> AllSpace(s)
    ensures k > 0 ==> !IsSpace(s[i]) && !IsSpace(s[i + k - 1])
  {
    assert t[..k] == s[i..i + k];
    StripBoundsTail(s, i, t, k);
    StripBoundsEmpty(s, i, t, k);
    StripBoundsEnds(s, i, t, k);
  }

  /** Only spaces follow the kept infix. */
  lemma StripBoundsTail(s: string, i: nat, t: string, k: nat)
    requires i == LeadLen(s) && t == s[i..] && k == |t| - TrailLen(t)
    ensures AllSpace(s[i + k..])
  {
    assert s[i + k..] == t[k..];
    assert t[k..] == t[|t| - TrailLen(t)..];
  }

  /** A non-empty kept infix starts and ends at non-space characters. */
  lemma StripBoundsEnds(s: string, i: nat, t: string, k: nat)
    requires i == LeadLen(s) && t == s[i..] && k == |t| - TrailLen(t)
    ensures k > 0 ==> !IsSpace(s[i]) && !IsSpace(s[i + k - 1])
  {
    if k > 0 {
      assert i < |s|;
      assert s[i + k - 1] == t[|t| - 1 - TrailLen(t)];
    }
  }

  /** Nothing is kept exactly when the whole string is whitespace. */
  lemma StripBoundsEmpty(s: string, i: nat, t: string, k: nat)
    requires i == LeadLen(s) && t == s[i..] && k == |t| - TrailLen(t)
    ensures k == 0 <==> AllSpace(s)
  {
    if AllSpace(s) {
      assert i == |s|;
    }
    if k == 0 {
      assert AllSpace(t);
      assert s == s[..i] + t;
    }
  }

  /** A string has no words exactly when it is all whitespace. */
  lemma {:induction false} WordsEmptyIffAllSpace(s: string)
    ensures Words(s) == [] <==> AllSpace(s)
    decreases |s|
  {
    if |s| > 0 && IsSpace(s[0]) {
      WordsEmptyIffAllSpace(s[1..]);
      if AllSpace(s[1..]) {
        forall k | 0 <= k < |s| ensures IsSpace(s[k]) {
          if k > 0 { assert s[k] == s[1..][k - 1]; }
        }
      }
    }
  }

  /** The first run of `a + [c] + b` ends inside `a` when `c` is whitespace. */
  lemma WordLenBeforeSpace(a: string, c: char, b: string)
    requires IsSpace(c)
    ensures WordLen(a + [c] + b) == WordLen(a)
    decreases |a|
  {
    var s := a + [c] + b;
    if |a| > 0 && !IsSpace(a[0]) {
      assert s[1..] == a[1..] + [c] + b;
      WordLenBeforeSpace(a[1..], c, b);
    }
  }

  /** A whitespace character separates words: splitting distributes over it. */
  lemma {:induction false} WordsAroundSpace(a: string, c: char, b: string)
    requires IsSpace(c)
    ensures Words(a + [c] + b) == Words(a) + Words(b)
    decreases |a|
  {
    var s := a + [c] + b;
    if |a| == 0 {
      assert s[1..] == b;
    } else if IsSpace(a[0]) {
      assert s[1..] == a[1..] + [c] + b;
      WordsAroundSpace(a[1..], c, b);
    } else {
      WordLenBeforeSpace(a, c, b);
      var n := WordLen(a);
      assert s[..n] == a[..n];
      assert s[n..] == a[n..] + [c] + b;
      WordsAroundSpace(a[n..], c, b);
    }
  }

  /** A single word splits to itself. */
  lemma WordsOfWord(w: string)
    requires IsWord(w)
    ensures Words(w) == [w]
  {
    assert WordLen(w) == |w|;
    assert w[..|w|] == w;
    assert w[|w|..] == [];
  }

  /** Splitting undoes joining: `" ".join(ws).split() == ws` whenever `ws` are words. */
  lemma {:induction false} WordsOfJoin(ws: seq<string>)
    requires forall i | 0 <= i < |ws| :: IsWord(ws[i])
    ensures Words(JoinWords(ws)) == ws
    decreases |ws|
  {
    if |ws| == 1 {
      WordsOfWord(ws[0]);
    } else if |ws| > 1 {
      var init, last := ws[..|ws| - 1], ws[|ws| - 1];
      WordsOfJoin(init);
      WordsOfWord(last);
      assert JoinWords(ws) == JoinWords(init) + [' '] + last;
      WordsAroundSpace(JoinWords(init), ' ', last);
      assert init + [last] == ws;
    }
  }

  /** Joining a non-empty word list gives a non-empty string. */
  lemma {:induction false} JoinWordsNonEmpty(ws: seq<string>)
    requires |ws| > 0 && forall i | 0 <= i < |ws| :: IsWord(ws[i])
    ensures JoinWords(ws) != []
    decreases |ws|
  {
    if |ws| > 1 { JoinWordsNonEmpty(ws[..|ws| - 1]); }
  }

  /** Leading whitespace contributes no words. */
  lemma {:induction false} WordsAfterSpaces(p: string, t: string)
    requires AllSpace(p)
    ensures Words(p + t) == Words(t)
    decreases |p|
  {
    if |p| > 0 {
      assert (p + t)[0] == p[0];
      assert (p + t)[1..] == p[1..] + t;
      assert AllSpace(p[1..]) by {
        forall j | 0 <= j < |p| - 1 ensures IsSpace(p[1..][j]) { assert p[1..][j] == p[j + 1]; }
      }
      WordsAfterSpaces(p[1..], t);
    } else {
      assert p + t == t;
    }
  }

  /** Trailing whitespace contributes no words. */
  lemma WordsBeforeSpaces(t: string, q: string)
    requires AllSpace(q)
    ensures Words(t + q) == Words(t)
  {
    if |q| > 0 {
      assert t + q == t + [q[0]] + q[1..];
      WordsAroundSpace(t, q[0], q[1..]);
      WordsEmptyIffAllSpace(q[1..]);
    } else {
      assert t + q == t;
    }
  }

  /** A string is its stripped form with whitespace on either side. */
  lemma {:induction false} StripSplit(s: string) returns (p: string, q: string)
    ensures AllSpace(p) && AllSpace(q)
    ensures s == p + (Strip(s) + q)
  {
    var r, i := Strip(s), LeadLen(s);
    p, q := s[..i], s[i + |r|..];
    assert s == s[..i] + s[i..i + |r|] + s[i + |r|..];
  }

  /** Stripping never changes the words of a string. */
  lemma WordsOfStrip(s: string)
    ensures Words(Strip(s)) == Words(s)
  {
    var r := Strip(s);
    var p, q := StripSplit(s);
    WordsAfterSpaces(p, r + q);
    WordsBeforeSpaces(r, q);
  }

  /** A string that neither starts nor ends with whitespace is its own strip. */
  lemma StripUnpadded(s: string)
    requires s != [] && !IsSpace(s[0]) && !IsSpace(s[|s| - 1])
    ensures Strip(s) == s
  {
    assert LeadLen(s) == 0;
    assert TrailLen(s) == 0;
  }
}
