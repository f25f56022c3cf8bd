/**
 * The pieces of Python that turn a font-size string such as `"12pt"` into a
 * number: `str.replace(pat, "")` and `int(str)` restricted to an optional sign
 * followed by ASCII digits. `FormatInt` (Python's `str(n)`) is the partner that
 * the parse undoes.
 */
module PyInt {
  import opened Outcome

  /** Python's `s.replace(pat, "")`: deletes the leftmost non-overlapping occurrences of `pat`. */
  function RemoveAll(s: string, pat: string): (r: string)
    requires |pat| > 0
    ensures |r| <= |s|
    decreases |s|
  {
    if |s| < |pat| then s
    else if s[..|pat|] == pat then RemoveAll(s[|pat|..], pat)
    else [s[0]] + RemoveAll(s[1..], pat)
  }

  /** Deleting only removes characters: every character left was in the original. */
  lemma {:induction false} RemoveAllFrom(s: string, pat: string)
    requires |pat| > 0
    ensures forall k | 0 <= k < |RemoveAll(s, pat)| :: RemoveAll(s, pat)[k] in s
    decreases |s|
  {
    if |s| < |pat| {
    } else if s[..|pat|] == pat {
      RemoveAllFrom(s[|pat|..], pat);
      forall k | 0 <= k < |RemoveAll(s, pat)| ensures RemoveAll(s, pat)[k] in s {
        assert RemoveAll(s, pat)[k] in s[|pat|..];
      }
    } else {
      RemoveAllFrom(s[1..], pat);
      var r := RemoveAll(s, pat);
      forall k | 0 <= k < |r| ensures r[k] in s {
        if k > 0 { assert r[k] == RemoveAll(s[1..], pat)[k - 1]; assert r[k] in s[1..]; }
      }
    }
  }

  /** A prefix that does not contain the pattern's first character is kept untouched. */
  lemma {:induction false} RemoveAllKeepsPrefix(a: string, b: string, pat: string)
    requires |pat| > 0 && pat[0] !in a
    ensures RemoveAll(a + b, pat) == a + RemoveAll(b, pat)
    decreases |a|
  {
    if |a| == 0 {
      assert a + b == b;
    } else {
      var t := a[1..];
      KeepsPrefixStep(a, b, pat);
      assert pat[0] !in t by { assert forall x | x in t :: x in a; }
      RemoveAllKeepsPrefix(t, b, pat);
      ConsBack(RemoveAll(a + b, pat), a, RemoveAll(t + b, pat), RemoveAll(b, pat));
    }
  }

  /** A string whose first character is not the pattern's keeps that character and moves on. */
  lemma KeepsPrefixStep(a: string, b: string, pat: string)
    requires |pat| > 0 && |a| > 0 && a[0] != pat[0]
    ensures RemoveAll(a + b, pat) == [a[0]] + RemoveAll(a[1..] + b, pat)
  {
    var s := a + b;
    assert !OccursAt(s, pat, 0) by {
      if |pat| <= |s| { assert s[0..|pat|][0] == a[0]; }
    }
    RemoveAllSkip(s, pat);
    assert s[1..] == a[1..] + b;
  }

  /** Putting the first element back in front: `[a[0]] + (a[1..] + r) == a + r`. */
  lemma ConsBack<T>(x: seq<T>, a: seq<T>, y: seq<T>, r: seq<T>)
    requires |a| > 0 && x == [a[0]] + y && y == a[1..] + r
    ensures x == a + r
  {
    assert [a[0]] + a[1..] == a;
  }

  /** `pat` occurs in `s` starting at index `i`. */
  predicate OccursAt(s: string, pat: string, i: int) {
    0 <= i && i + |pat| <= |s| && s[i..i + |pat|] == pat
  }

  /** A string in which `pat` occurs nowhere is left unchanged. */
  lemma {:induction false} RemoveAllAbsent(s: string, pat: string)
    requires |pat| > 0
    requires forall i | 0 <= i < |s| :: !OccursAt(s, pat, i)
    ensures RemoveAll(s, pat) == s
    decreases |s|
  {
    if |s| >= |pat| {
      RemoveAllSkip(s, pat);
      forall i | 0 <= i < |s[1..]| ensures !OccursAt(s[1..], pat, i) {
        OccursShift(s, pat, i);
      }
      RemoveAllAbsent(s[1..], pat);
      assert [s[0]] + s[1..] == s;
    }
  }

  /**
   * The leftmost occurrence is deleted and the scan resumes after it: when the
   * first occurrence of `pat` in `a + pat + b` starts at `|a|`, everything
   * before it is kept and the rest is `b` with its own occurrences deleted.
   * With `RemoveAllAbsent` this determines the result for every string.
   */
  lemma {:induction false} RemoveAllLeftmost(a: string, b: string, pat: string)
    requires |pat| > 0
    requires forall i | 0 <= i < |a| :: !OccursAt(a + pat, pat, i)
    ensures RemoveAll(a + pat + b, pat) == a + RemoveAll(b, pat)
    decreases |a|
  {
    if |a| == 0 {
      assert a + pat + b == pat + b;
      RemoveAllAtStart(pat, b);
    } else {
      var t := a[1..];
      var rest := RemoveAll(b, pat);
      LeftmostStep(a, b, pat);
      AbsentTail(a, pat);
      RemoveAllLeftmost(t, b, pat);
      ConsBack(RemoveAll(a + pat + b, pat), a, RemoveAll(t + pat + b, pat), rest);
    }
  }

  /** An occurrence at the very start is deleted and the scan resumes after it. */
  lemma RemoveAllAtStart(pat: string, b: string)
    requires |pat| > 0
    ensures RemoveAll(pat + b, pat) == RemoveAll(b, pat)
  {
    var s := pat + b;
    assert s[..|pat|] == pat && s[|pat|..] == b;
  }

  /** When `pat` does not start `a + pat`, the first character of `a` is kept. */
  lemma LeftmostStep(a: string, b: string, pat: string)
    requires |pat| > 0 && |a| > 0 && !OccursAt(a + pat, pat, 0)
    ensures RemoveAll(a + pat + b, pat) == [a[0]] + RemoveAll(a[1..] + pat + b, pat)
  {
    var s := a + pat + b;
    OccursInPrefix(a + pat, b, pat, 0);
    assert s == (a + pat) + b;
    RemoveAllSkip(s, pat);
    assert s[1..] == a[1..] + pat + b;
  }

  /** No early occurrence in `a + pat` leaves none in `a[1..] + pat` either. */
  lemma AbsentTail(a: string, pat: string)
    requires |a| > 0
    requires forall i | 0 <= i < |a| :: !OccursAt(a + pat, pat, i)
    ensures forall i | 0 <= i < |a[1..]| :: !OccursAt(a[1..] + pat, pat, i)
  {
    forall i | 0 <= i < |a[1..]| ensures !OccursAt(a[1..] + pat, pat, i) {
      assert (a + pat)[1..] == a[1..] + pat;
      OccursShift(a + pat, pat, i);
    }
  }

  /** Where `pat` does not start the string, its first character is kept and the scan moves on. */
  lemma RemoveAllSkip(s: string, pat: string)
    requires |pat| > 0 && |s| > 0 && !OccursAt(s, pat, 0)
    ensures RemoveAll(s, pat) == [s[0]] + RemoveAll(s[1..], pat)
  {
    if |s| >= |pat| {
      assert s[..|pat|] == s[0..|pat|];
    }
  }

  /** An occurrence in the tail of a string is an occurrence one place later in the string. */
  lemma OccursShift(s: string, pat: string, i: int)
    requires |s| > 0 && 0 <= i && !OccursAt(s, pat, i + 1)
    ensures !OccursAt(s[1..], pat, i)
  {
    if i + |pat| <= |s[1..]| {
      assert s[1..][i..i + |pat|] == s[i + 1..i + 1 + |pat|];
    }
  }

  /** An occurrence within a prefix is an occurrence in the whole string. */
  lemma OccursInPrefix(s: string, t: string, pat: string, i: int)
    requires !OccursAt(s, pat, i) && i + |pat| <= |s|
    ensures !OccursAt(s + t, pat, i)
  {
    if 0 <= i {
      assert (s + t)[i..i + |pat|] == s[i..i + |pat|];
    }
  }

  /** A string made of the pattern alone is erased. */
  lemma RemoveAllOfPattern(pat: string)
    requires |pat| > 0
    ensures RemoveAll(pat, pat) == ""
  {
    assert pat[..|pat|] == pat;
    assert pat[|pat|..] == [];
  }

  predicate IsDigit(c: char) {
    '0' <= c <= '9'
  }

  /** A non-empty run of ASCII decimal digits. */
  predicate IsDigits(s: string) {
    |s| > 0 && forall k | 0 <= k < |s| :: IsDigit(s[k])
  }

  /** The base-10 value of a digit string, most significant digit first. */
  function DigitsValue(s: string): (v: nat)
    requires forall k | 0 <= k < |s| :: IsDigit(s[k])
    decreases |s|
  {
    if |s| == 0 then 0
    else
      assert IsDigit(s[|s| - 1]);
      10 * DigitsValue(s[..|s| - 1]) + (s[|s| - 1] as int - '0' as int)
  }

  /**
   * Python's `int(s)` for an already stripped string: an optional `+` or `-`
   * followed by at least one ASCII digit; anything else is a parse failure.
   */
  function ParseInt(s: string): (r: Option<int>)
    ensures r.Some? ==> s != [] && forall k | 0 <= k < |s| :: IsDigit(s[k]) || (k == 0 && s[0] in "+-")
    ensures r.Some? ==> IsDigit(s[|s| - 1])
    ensures r.Some? && s[0] == '-' ==> r.value <= 0
    ensures r.Some? && s[0] != '-' ==> r.value >= 0
    ensures IsDigits(s) || (|s| >= 2 && s[0] in "+-" && IsDigits(s[1..])) ==> r.Some?
  {
    if |s| > 0 && (s[0] == '-' || s[0] == '+') then
      if IsDigits(s[1..]) then
        var v: int := DigitsValue(s[1..]);
        Some(if s[0] == '-' then -v else v)
      else None
    else if IsDigits(s) then Some(DigitsValue(s))
    else None
  }

  /** A leading zero does not change the value of a digit string. */
  lemma {:induction false} DigitsValueLeadingZero(d: string)
    requires forall k | 0 <= k < |d| :: IsDigit(d[k])
    ensures DigitsValue("0" + d) == DigitsValue(d)
    decreases |d|
  {
    var s := "0" + d;
    if |d| > 0 {
      assert s[..|s| - 1] == "0" + d[..|d| - 1];
      assert s[|s| - 1] == d[|d| - 1];
      DigitsValueLeadingZero(d[..|d| - 1]);
    }
  }

  /** `int("+" + d) == int(d)` and `int("0" + d) == int(d)` for a run of digits. */
  lemma ParseIntPlusAndZero(d: string)
    requires IsDigits(d)
    ensures ParseInt("+" + d) == ParseInt(d)
    ensures ParseInt("0" + d) == ParseInt(d)
  {
    assert ("+" + d)[1..] == d;
    DigitsValueLeadingZero(d);
    assert IsDigits("0" + d) by {
      forall k | 0 <= k < |"0" + d| ensures IsDigit(("0" + d)[k]) {
        if k > 0 { assert ("0" + d)[k] == d[k - 1]; }
      }
    }
  }

  /** A minus sign negates the value of a digit run: `int("-0") == 0` and `int("-007") == -7`. */
  lemma ParseIntNegate(d: string)
    requires IsDigits(d)
    ensures ParseInt(d).Some? && ParseInt("-" + d) == Some(-ParseInt(d).value)
  {
    assert ("-" + d)[0] == '-' && ("-" + d)[1..] == d;
  }

  /** The digit character for `d`. */
  function DigitChar(d: nat): (c: char)
    requires d < 10
    ensures IsDigit(c) && c as int - '0' as int == d
  {
    ('0' as int + d) as char
  }

  /** Python's `str(n)` for a natural number: decimal digits, no leading zero. */
  function FormatNat(n: nat): (s: string)
    ensures IsDigits(s)
    ensures n > 0 ==> s[0] != '0'
    decreases n
  {
    if n < 10 then [DigitChar(n)] else FormatNat(n / 10) + [DigitChar(n % 10)]
  }

  /** Python's `str(n)` for an integer. */
  function FormatInt(n: int): (s: string)
    ensures s != []
    ensures forall k | 0 <= k < |s| :: s[k] == '-' || IsDigit(s[k])
    ensures 'p' !in s
  {
    if n < 0 then "-" + FormatNat(-n) else FormatNat(n)
  }

  /** Reading the digits back gives the number that was written. */
  lemma {:induction false} DigitsValueOfFormatNat(n: nat)
    ensures DigitsValue(FormatNat(n)) == n
    decreases n
  {
    if n >= 10 {
      DigitsValueOfFormatNat(n / 10);
      var s := FormatNat(n);
      assert s[..|s| - 1] == FormatNat(n / 10);
    }
  }

  /** `int(str(n)) == n`. */
  lemma ParseFormatRoundTrip(n: int)
    ensures ParseInt(FormatInt(n)) == Some(n)
  {
    if n < 0 {
      var d := FormatNat(-n);
      DigitsValueOfFormatNat(-n);
      ParseIntDigits(d);
      ParseIntNegate(d);
      assert FormatInt(n) == "-" + d;
    } else {
      DigitsValueOfFormatNat(n);
      ParseIntDigits(FormatNat(n));
    }
  }

  /** A bare run of digits parses to its base-10 value. */
  lemma ParseIntDigits(d: string)
    requires IsDigits(d)
    ensures ParseInt(d) == Some(DigitsValue(d))
  {
    assert IsDigit(d[0]);
  }
}
