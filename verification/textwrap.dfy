/**
 * The greedy word wrapper `_wrap_text_to_lines` of the auto-fit label layout.
 * Whitespace-delimited words are packed, in order, into at most `maxLines`
 * lines: a word joins the current line (after one space) when the grown line
 * still measures within `maxWidth`, otherwise it opens a new line; when no new
 * line is allowed the wrapper gives up and returns the lines built so far.
 *
 * Internally a line is kept as the group of words it holds; the line string the
 * source builds by `lines[-1] + " " + word` is `" ".join` of that group
 * (`CandidateIsJoin`), so every width the source measures is measured here on
 * the same string.
 */
module TextWrap {
  import opened PyText

  /**
   * The text-width capability: the rendered width of a string at a font size,
   * for the one font the layout uses. Nothing is assumed about it.
   */
  type Measure = (string, real) -> real

  /** The wrapper's answer: the lines, and whether every word was placed. */
  datatype Wrapping = Wrapping(lines: seq<string>, ok: bool)

  /** The wrapper's state: the words of each line so far, and whether every word was placed. */
  datatype Grouping = Grouping(groups: seq<seq<string>>, ok: bool)

  function MaxInt(a: int, b: int): int {
    if a < b then b else a
  }

  /** `s` measures within `maxWidth` at font size `size`. */
  predicate FitsWidth(measure: Measure, size: real, maxWidth: real, s: string) {
    measure(s, size) <= maxWidth
  }

  /** What the current line would become if `word` joined it. */
  function Candidate(line: string, word: string): string {
    if line == "" then word else line + " " + word
  }

  /** The first word of a line, or `""` for a line without words. */
  function FirstWord(line: string): string {
    var ws := Words(line);
    if |ws| == 0 then "" else ws[0]
  }

  /** The words of all lines, in reading order. */
  function Flatten(lines: seq<string>): seq<string>
    decreases |lines|
  {
    if |lines| == 0 then [] else Flatten(lines[..|lines| - 1]) + Words(lines[|lines| - 1])
  }

  /** The words of all groups, in order. */
  function Concat(groups: seq<seq<string>>): seq<string>
    decreases |groups|
  {
    if |groups| == 0 then [] else Concat(groups[..|groups| - 1]) + groups[|groups| - 1]
  }

  /** The line strings of the groups. */
  function Render(groups: seq<seq<string>>): (lines: seq<string>)
    ensures |lines| == |groups|
    ensures forall i | 0 <= i < |groups| :: lines[i] == JoinWords(groups[i])
  {
    seq(|groups|, i requires 0 <= i < |groups| => JoinWords(groups[i]))
  }

  /** Every entry of every group is a word. */
  ghost predicate AllWords(groups: seq<seq<string>>) {
    forall i, j | 0 <= i < |groups| && 0 <= j < |groups[i]| :: IsWord(groups[i][j])
  }

  /**
   * The fewest leading words of group `i` that were ever measured as a
   * candidate: one for the first group, whose first word joins an empty line,
   * and two for a later group, whose first word opened it unmeasured.
   */
  function FirstMeasured(i: int): int {
    if i == 0 then 1 else 2
  }

  /**
   * Every candidate group `i` grew through measures within the width limit:
   * each of its leading runs of words, from the first one measured up to the
   * whole group.
   */
  ghost predicate GroupFits(groups: seq<seq<string>>, i: int, measure: Measure, size: real, maxWidth: real)
    requires 0 <= i < |groups|
  {
    forall k | FirstMeasured(i) <= k <= |groups[i]| :: FitsWidth(measure, size, maxWidth, JoinWords(groups[i][..k]))
  }

  /** Group `i` was closed because the first word of group `i + 1` did not fit after it. */
  ghost predicate BreakForced(groups: seq<seq<string>>, i: int, measure: Measure, size: real, maxWidth: real)
    requires 0 <= i < |groups| - 1
  {
    groups[i + 1] != [] && !FitsWidth(measure, size, maxWidth, JoinWords(groups[i] + [groups[i + 1][0]]))
  }

  /**
   * The shape of every state of the wrapper: at least one group, all entries
   * words, only the first group empty, the first word of the first group was
   * measured alone and fit, every candidate a group grew through fit, and every
   * group break was forced.
   */
  ghost predicate WellGrouped(groups: seq<seq<string>>, measure: Measure, size: real, maxWidth: real) {
    && |groups| >= 1
    && AllWords(groups)
    && (groups[0] != [] ==> FitsWidth(measure, size, maxWidth, groups[0][0]))
    && (forall i | 1 <= i < |groups| :: groups[i] != [])
    && (forall i | 0 <= i < |groups| :: GroupFits(groups, i, measure, size, maxWidth))
    && (forall i | 0 <= i < |groups| - 1 :: BreakForced(groups, i, measure, size, maxWidth))
  }

  /** The source's candidate string is the join of the grown group. */
  lemma CandidateIsJoin(group: seq<string>, word: string)
    requires forall j | 0 <= j < |group| :: IsWord(group[j])
    ensures Candidate(JoinWords(group), word) == JoinWords(group + [word])
  {
    if group == [] {
      assert group + [word] == [word];
    } else {
      JoinWordsNonEmpty(group);
      assert (group + [word])[..|group|] == group;
    }
  }

  /** A forced break survives any change that keeps the two groups around it and their first word. */
  lemma BreakKept(groups: seq<seq<string>>, groups': seq<seq<string>>, i: int, measure: Measure, size: real, maxWidth: real)
    requires 0 <= i < |groups| - 1 && i < |groups'| - 1
    requires BreakForced(groups, i, measure, size, maxWidth)
    requires groups'[i] == groups[i] && groups'[i + 1] != [] && groups'[i + 1][0] == groups[i + 1][0]
    ensures BreakForced(groups', i, measure, size, maxWidth)
  {
  }

  /** Accepting a fitting candidate keeps the state well formed and places one more word. */
  lemma AcceptWord(groups: seq<seq<string>>, word: string, measure: Measure, size: real, maxWidth: real)
    requires WellGrouped(groups, measure, size, maxWidth) && IsWord(word)
    requires FitsWidth(measure, size, maxWidth, JoinWords(groups[|groups| - 1] + [word]))
    ensures var grown := groups[..|groups| - 1] + [groups[|groups| - 1] + [word]];
      && WellGrouped(grown, measure, size, maxWidth)
      && Concat(grown) == Concat(groups) + [word]
  {
    var n := |groups|;
    var last := groups[n - 1];
    var grown := groups[..n - 1] + [last + [word]];
    assert grown[..n - 1] == groups[..n - 1];
    assert Concat(groups) == Concat(groups[..n - 1]) + last;
    assert Concat(grown) == Concat(groups[..n - 1]) + (last + [word]);
    AcceptWordWords(groups, word);
    AcceptWordFits(groups, word, measure, size, maxWidth);
    AcceptWordBreaks(groups, word, measure, size, maxWidth);
    if n > 1 {
      assert grown[0] == groups[0];
    } else if last == [] {
      assert grown[0] == [word];
    } else {
      assert grown[0][0] == last[0];
    }
  }

  /** Growing the last group by a word keeps every group a group of words. */
  lemma AcceptWordWords(groups: seq<seq<string>>, word: string)
    requires |groups| >= 1 && AllWords(groups) && IsWord(word)
    ensures AllWords(groups[..|groups| - 1] + [groups[|groups| - 1] + [word]])
  {
    var n := |groups|;
    var last := groups[n - 1];
    var grown := groups[..n - 1] + [last + [word]];
    forall i, j | 0 <= i < n && 0 <= j < |grown[i]| ensures IsWord(grown[i][j]) {
      if i < n - 1 { assert grown[i] == groups[i]; }
      else if j < |last| { assert grown[i][j] == last[j]; }
    }
  }

  /** Growing the last group by a word that fits keeps every measured candidate within the width. */
  lemma AcceptWordFits(groups: seq<seq<string>>, word: string, measure: Measure, size: real, maxWidth: real)
    requires |groups| >= 1
    requires forall i | 0 <= i < |groups| :: GroupFits(groups, i, measure, size, maxWidth)
    requires FitsWidth(measure, size, maxWidth, JoinWords(groups[|groups| - 1] + [word]))
    ensures var grown := groups[..|groups| - 1] + [groups[|groups| - 1] + [word]];
      forall i | 0 <= i < |grown| :: GroupFits(grown, i, measure, size, maxWidth)
  {
    var n := |groups|;
    var last := groups[n - 1];
    var grown := groups[..n - 1] + [last + [word]];
    forall i | 0 <= i < n ensures GroupFits(grown, i, measure, size, maxWidth) {
      if i < n - 1 {
        assert grown[i] == groups[i] && GroupFits(groups, i, measure, size, maxWidth);
      } else {
        assert GroupFits(groups, i, measure, size, maxWidth);
        forall k | FirstMeasured(i) <= k <= |grown[i]|
          ensures FitsWidth(measure, size, maxWidth, JoinWords(grown[i][..k]))
        {
          if k <= |last| {
            assert grown[i][..k] == last[..k];
          } else {
            assert grown[i][..k] == last + [word];
          }
        }
      }
    }
  }

  /** Growing the last group keeps every earlier break forced. */
  lemma AcceptWordBreaks(groups: seq<seq<string>>, word: string, measure: Measure, size: real, maxWidth: real)
    requires |groups| >= 1 && forall i | 1 <= i < |groups| :: groups[i] != []
    requires forall i | 0 <= i < |groups| - 1 :: BreakForced(groups, i, measure, size, maxWidth)
    ensures var grown := groups[..|groups| - 1] + [groups[|groups| - 1] + [word]];
      && (forall i | 0 <= i < |grown| - 1 :: BreakForced(grown, i, measure, size, maxWidth))
      && (forall i | 1 <= i < |grown| :: grown[i] != [])
  {
    var n := |groups|;
    var last := groups[n - 1];
    var grown := groups[..n - 1] + [last + [word]];
    forall i | 0 <= i < n - 1 ensures BreakForced(grown, i, measure, size, maxWidth) {
      assert grown[i] == groups[i];
      if i + 1 < n - 1 { assert grown[i + 1] == groups[i + 1]; }
      else { assert grown[i + 1][0] == last[0]; }
      BreakKept(groups, grown, i, measure, size, maxWidth);
    }
    forall i | 1 <= i < n ensures grown[i] != [] {
      if i < n - 1 { assert grown[i] == groups[i]; }
    }
  }

  /** Opening a new line keeps every group a group of words. */
  lemma OpenWordWords(groups: seq<seq<string>>, word: string)
    requires AllWords(groups) && IsWord(word)
    ensures AllWords(groups + [[word]])
  {
    var withNew := groups + [[word]];
    forall i, j | 0 <= i < |withNew| && 0 <= j < |withNew[i]| ensures IsWord(withNew[i][j]) {
      if i < |groups| { assert withNew[i] == groups[i]; }
    }
  }

  /** Opening a new line with one word adds no measured candidate. */
  lemma OpenWordFits(groups: seq<seq<string>>, word: string, measure: Measure, size: real, maxWidth: real)
    requires |groups| >= 1
    requires forall i | 0 <= i < |groups| :: GroupFits(groups, i, measure, size, maxWidth)
    ensures forall i | 0 <= i < |groups| + 1 :: GroupFits(groups + [[word]], i, measure, size, maxWidth)
  {
    var withNew := groups + [[word]];
    forall i | 0 <= i < |withNew| ensures GroupFits(withNew, i, measure, size, maxWidth) {
      if i < |groups| { assert withNew[i] == groups[i] && GroupFits(groups, i, measure, size, maxWidth); }
    }
  }

  /** Opening a new line with a word that did not fit on the open line is a forced break. */
  lemma OpenWordBreaks(groups: seq<seq<string>>, word: string, measure: Measure, size: real, maxWidth: real)
    requires |groups| >= 1 && forall i | 1 <= i < |groups| :: groups[i] != []
    requires forall i | 0 <= i < |groups| - 1 :: BreakForced(groups, i, measure, size, maxWidth)
    requires !FitsWidth(measure, size, maxWidth, JoinWords(groups[|groups| - 1] + [word]))
    ensures forall i | 0 <= i < |groups| :: BreakForced(groups + [[word]], i, measure, size, maxWidth)
  {
    var withNew := groups + [[word]];
    forall i | 0 <= i < |groups| ensures BreakForced(withNew, i, measure, size, maxWidth) {
      assert withNew[i] == groups[i];
      if i + 1 < |groups| {
        BreakKept(groups, withNew, i, measure, size, maxWidth);
      } else {
        assert withNew[i + 1] == [word];
      }
    }
  }

  /** Opening a new line with a word that did not fit keeps the state well formed. */
  lemma OpenWord(groups: seq<seq<string>>, word: string, measure: Measure, size: real, maxWidth: real)
    requires WellGrouped(groups, measure, size, maxWidth) && IsWord(word)
    requires !FitsWidth(measure, size, maxWidth, JoinWords(groups[|groups| - 1] + [word]))
    ensures WellGrouped(groups + [[word]], measure, size, maxWidth)
    ensures Concat(groups + [[word]]) == Concat(groups) + [word]
  {
    var withNew := groups + [[word]];
    assert withNew[..|groups|] == groups;
    OpenWordWords(groups, word);
    OpenWordFits(groups, word, measure, size, maxWidth);
    OpenWordBreaks(groups, word, measure, size, maxWidth);
    assert forall i | 1 <= i < |withNew| :: withNew[i] != [];
  }

  /**
   * Moving the next word into the placed words before the rest of the loop runs:
   * whatever the rest of the loop placed, counted from the original state.
   */
  lemma PlaceRest<T>(placed: seq<T>, next: seq<T>, rest: seq<T>, final: seq<T>, ok: bool)
    requires |rest| > 0 && next == placed + [rest[0]]
    requires ok ==> final == next + rest[1..]
    requires !ok ==> |next| <= |final| < |next| + |rest| - 1 && final == next + rest[1..][..|final| - |next|]
    ensures ok ==> final == placed + rest
    ensures !ok ==>
      && 0 <= |final| - |placed| < |rest|
      && final == placed + rest[..|final| - |placed|]
      && rest[|final| - |placed|] == rest[1..][|final| - |next|]
  {
    assert rest == [rest[0]] + rest[1..];
    if !ok {
      var k := |final| - |next|;
      assert rest[..k + 1] == [rest[0]] + rest[1..][..k];
    }
  }

  /**
   * The wrapper's loop over the remaining words `rest`, from the state `groups`.
   * The state stays well formed, earlier lines are never touched, the open line
   * never loses its words, and a line is added only while `maxLines` allows it.
   */
  function WrapGroups(rest: seq<string>, measure: Measure, size: real, maxWidth: real, maxLines: int,
                      groups: seq<seq<string>>): (r: Grouping)
    requires WellGrouped(groups, measure, size, maxWidth)
    requires forall j | 0 <= j < |rest| :: IsWord(rest[j])
    ensures WellGrouped(r.groups, measure, size, maxWidth)
    ensures 1 <= |groups| <= |r.groups| <= MaxInt(|groups|, maxLines)
    ensures forall i | 0 <= i < |groups| - 1 :: r.groups[i] == groups[i]
    ensures groups[|groups| - 1] != [] ==> r.groups[|groups| - 1] != []
    decreases |rest|
  {
    if |rest| == 0 then Grouping(groups, true)
    else
      var word := rest[0];
      var last := groups[|groups| - 1];
      CandidateIsJoin(last, word);
      if measure(Candidate(JoinWords(last), word), size) <= maxWidth then
        AcceptWord(groups, word, measure, size, maxWidth);
        WrapGroups(rest[1..], measure, size, maxWidth, maxLines, groups[..|groups| - 1] + [last + [word]])
      else if |groups| + 1 > maxLines then
        Grouping(groups, false)
      else
        OpenWord(groups, word, measure, size, maxWidth);
        var r := WrapGroups(rest[1..], measure, size, maxWidth, maxLines, groups + [[word]]);
        assert r.groups[|groups| - 1] == (groups + [[word]])[|groups| - 1];
        r
  }

  /**
   * The loop stopped early, after placing the first `k` of the remaining words:
   * the `k`-th word did not fit on the last line and no new line was allowed.
   */
  ghost predicate StoppedAt(r: Grouping, groups: seq<seq<string>>, rest: seq<string>, k: int,
                            measure: Measure, size: real, maxWidth: real, maxLines: int)
  {
    && 0 <= k < |rest|
    && |r.groups| >= 1
    && Concat(r.groups) == Concat(groups) + rest[..k]
    && |r.groups| + 1 > maxLines
    && !FitsWidth(measure, size, maxWidth, JoinWords(r.groups[|r.groups| - 1] + [rest[k]]))
  }

  /**
   * What the loop placed: every remaining word on success; otherwise it stopped
   * early, after the words it placed.
   */
  lemma {:induction false} WrapGroupsPlaces(rest: seq<string>, measure: Measure, size: real, maxWidth: real,
                                            maxLines: int, groups: seq<seq<string>>)
    requires WellGrouped(groups, measure, size, maxWidth)
    requires forall j | 0 <= j < |rest| :: IsWord(rest[j])
    ensures var r := WrapGroups(rest, measure, size, maxWidth, maxLines, groups);
      r.ok ==> Concat(r.groups) == Concat(groups) + rest
    ensures var r := WrapGroups(rest, measure, size, maxWidth, maxLines, groups);
      !r.ok ==> StoppedAt(r, groups, rest, |Concat(r.groups)| - |Concat(groups)|, measure, size, maxWidth, maxLines)
    decreases |rest|
  {
    if |rest| > 0 {
      var word := rest[0];
      var last := groups[|groups| - 1];
      CandidateIsJoin(last, word);
      if measure(Candidate(JoinWords(last), word), size) <= maxWidth {
        var next := groups[..|groups| - 1] + [last + [word]];
        AcceptWord(groups, word, measure, size, maxWidth);
        assert WrapGroups(rest, measure, size, maxWidth, maxLines, groups)
            == WrapGroups(rest[1..], measure, size, maxWidth, maxLines, next);
        StepPlaces(rest, measure, size, maxWidth, maxLines, groups, next);
      } else if |groups| + 1 <= maxLines {
        var next := groups + [[word]];
        OpenWord(groups, word, measure, size, maxWidth);
        assert WrapGroups(rest, measure, size, maxWidth, maxLines, groups)
            == WrapGroups(rest[1..], measure, size, maxWidth, maxLines, next);
        StepPlaces(rest, measure, size, maxWidth, maxLines, groups, next);
      } else {
        var r := WrapGroups(rest, measure, size, maxWidth, maxLines, groups);
        assert r == Grouping(groups, false);
        assert rest[..0] == [] && Concat(groups) + rest[..0] == Concat(groups);
        assert StoppedAt(r, groups, rest, 0, measure, size, maxWidth, maxLines);
      }
    }
  }

  /** One step of `WrapGroupsPlaces`: the loop continues from `next`, which placed the next word. */
  lemma {:induction false} StepPlaces(rest: seq<string>, measure: Measure, size: real, maxWidth: real,
                                      maxLines: int, groups: seq<seq<string>>, next: seq<seq<string>>)
    requires |rest| > 0 && forall j | 0 <= j < |rest| :: IsWord(rest[j])
    requires WellGrouped(groups, measure, size, maxWidth) && WellGrouped(next, measure, size, maxWidth)
    requires Concat(next) == Concat(groups) + [rest[0]]
    requires WrapGroups(rest, measure, size, maxWidth, maxLines, groups)
          == WrapGroups(rest[1..], measure, size, maxWidth, maxLines, next)
    ensures var r := WrapGroups(rest, measure, size, maxWidth, maxLines, groups);
      r.ok ==> Concat(r.groups) == Concat(groups) + rest
    ensures var r := WrapGroups(rest, measure, size, maxWidth, maxLines, groups);
      !r.ok ==> StoppedAt(r, groups, rest, |Concat(r.groups)| - |Concat(groups)|, measure, size, maxWidth, maxLines)
    decreases |rest|, 0
  {
    WrapGroupsPlaces(rest[1..], measure, size, maxWidth, maxLines, next);
    var r := WrapGroups(rest[1..], measure, size, maxWidth, maxLines, next);
    PlacedShift(r, groups, next, rest, measure, size, maxWidth, maxLines);
  }

  /** What the loop placed from the state after one more placed word, counted from the state before it. */
  lemma PlacedShift(r: Grouping, groups: seq<seq<string>>, next: seq<seq<string>>, rest: seq<string>,
                    measure: Measure, size: real, maxWidth: real, maxLines: int)
    requires |rest| > 0 && Concat(next) == Concat(groups) + [rest[0]]
    requires r.ok ==> Concat(r.groups) == Concat(next) + rest[1..]
    requires !r.ok ==> StoppedAt(r, next, rest[1..], |Concat(r.groups)| - |Concat(next)|, measure, size, maxWidth, maxLines)
    ensures r.ok ==> Concat(r.groups) == Concat(groups) + rest
    ensures !r.ok ==> StoppedAt(r, groups, rest, |Concat(r.groups)| - |Concat(groups)|, measure, size, maxWidth, maxLines)
  {
    if r.ok {
      PlaceRest(Concat(groups), Concat(next), rest, Concat(r.groups), r.ok);
    } else {
      StoppedShift(r, groups, next, rest, measure, size, maxWidth, maxLines);
    }
  }

  /** A stop counted from the state after one more placed word, counted from the state before it. */
  lemma StoppedShift(r: Grouping, groups: seq<seq<string>>, next: seq<seq<string>>, rest: seq<string>,
                     measure: Measure, size: real, maxWidth: real, maxLines: int)
    requires |rest| > 0 && Concat(next) == Concat(groups) + [rest[0]]
    requires StoppedAt(r, next, rest[1..], |Concat(r.groups)| - |Concat(next)|, measure, size, maxWidth, maxLines)
    ensures StoppedAt(r, groups, rest, |Concat(r.groups)| - |Concat(groups)|, measure, size, maxWidth, maxLines)
  {
    PlaceRest(Concat(groups), Concat(next), rest, Concat(r.groups), false);
  }

  /** Each rendered line splits back into the words of its group. */
  lemma RenderWords(groups: seq<seq<string>>)
    requires AllWords(groups)
    ensures forall i | 0 <= i < |groups| :: Words(Render(groups)[i]) == groups[i]
  {
    forall i | 0 <= i < |groups| ensures Words(Render(groups)[i]) == groups[i] {
      assert forall j | 0 <= j < |groups[i]| :: IsWord(groups[i][j]);
      WordsOfJoin(groups[i]);
    }
  }

  /** The words of the rendered lines are the words of the groups. */
  lemma {:induction false} FlattenRender(groups: seq<seq<string>>)
    requires AllWords(groups)
    ensures Flatten(Render(groups)) == Concat(groups)
    decreases |groups|
  {
    if |groups| > 0 {
      var init := groups[..|groups| - 1];
      assert AllWords(init) by {
        forall i, j | 0 <= i < |init| && 0 <= j < |init[i]| ensures IsWord(init[i][j]) {
          assert init[i] == groups[i];
        }
      }
      FlattenRender(init);
      RenderWords(groups);
      assert Render(groups)[..|groups| - 1] == Render(init);
    }
  }

  /**
   * `_wrap_text_to_lines`: the words of `text` packed into lines. A text without
   * words gives one empty line and success; otherwise there is at least one line
   * and never more than `maxLines`, except that one line is always returned.
   */
  function Wrap(text: string, measure: Measure, size: real, maxWidth: real, maxLines: int): (r: Wrapping)
    ensures Words(text) == [] ==> r == Wrapping([""], true)
    ensures 1 <= |r.lines| <= MaxInt(1, maxLines)
  {
    var words := Words(text);
    if words == [] then Wrapping([""], true)
    else
      var g := WrapGroups(words, measure, size, maxWidth, maxLines, [[]]);
      Wrapping(Render(g.groups), g.ok)
  }

  /** The groups behind `Wrap`'s lines, for a text with words. */
  function WrapState(text: string, measure: Measure, size: real, maxWidth: real, maxLines: int): (g: Grouping)
    requires Words(text) != []
    ensures WellGrouped(g.groups, measure, size, maxWidth)
    ensures Wrap(text, measure, size, maxWidth, maxLines) == Wrapping(Render(g.groups), g.ok)
  {
    WrapGroups(Words(text), measure, size, maxWidth, maxLines, [[]])
  }

  /**
   * The words the lines hold: every word of `text`, in order, on success; on
   * failure the first `k` of them, where word `k` did not fit after the last
   * line and no further line was allowed.
   */
  lemma WrapPlacesWords(text: string, measure: Measure, size: real, maxWidth: real, maxLines: int)
    ensures var r := Wrap(text, measure, size, maxWidth, maxLines);
      r.ok ==> Flatten(r.lines) == Words(text)
    ensures var r := Wrap(text, measure, size, maxWidth, maxLines);
      var k := |Flatten(r.lines)|;
      !r.ok ==>
        && k < |Words(text)|
        && Flatten(r.lines) == Words(text)[..k]
        && |r.lines| + 1 > maxLines
        && !FitsWidth(measure, size, maxWidth, Candidate(r.lines[|r.lines| - 1], Words(text)[k]))
  {
    WrapPlacesAll(text, measure, size, maxWidth, maxLines);
    WrapStopsAtWord(text, measure, size, maxWidth, maxLines);
  }

  /** On success the lines hold every word of the text, in order. */
  lemma WrapPlacesAll(text: string, measure: Measure, size: real, maxWidth: real, maxLines: int)
    ensures var r := Wrap(text, measure, size, maxWidth, maxLines);
      r.ok ==> Flatten(r.lines) == Words(text)
  {
    var words := Words(text);
    if words != [] {
      var g := WrapState(text, measure, size, maxWidth, maxLines);
      if g.ok {
        PlacedFromStart(words, measure, size, maxWidth, maxLines);
        FlattenRender(g.groups);
      }
    }
  }

  /** On failure the lines hold a strict prefix of the words, stopped at a word that neither fit nor could open a line. */
  lemma WrapStopsAtWord(text: string, measure: Measure, size: real, maxWidth: real, maxLines: int)
    ensures var r := Wrap(text, measure, size, maxWidth, maxLines);
      var k := |Flatten(r.lines)|;
      !r.ok ==>
        && k < |Words(text)|
        && Flatten(r.lines) == Words(text)[..k]
        && |r.lines| + 1 > maxLines
        && !FitsWidth(measure, size, maxWidth, Candidate(r.lines[|r.lines| - 1], Words(text)[k]))
  {
    var words := Words(text);
    if words != [] {
      var g := WrapState(text, measure, size, maxWidth, maxLines);
      var r := Wrap(text, measure, size, maxWidth, maxLines);
      assert r.lines == Render(g.groups) && r.ok == g.ok;
      if !g.ok {
        PlacedFromStart(words, measure, size, maxWidth, maxLines);
        StoppedLines(g, words, measure, size, maxWidth, maxLines);
      }
    }
  }

  /** What the loop placed when it starts from one empty line. */
  lemma PlacedFromStart(words: seq<string>, measure: Measure, size: real, maxWidth: real, maxLines: int)
    requires forall j | 0 <= j < |words| :: IsWord(words[j])
    ensures var g := WrapGroups(words, measure, size, maxWidth, maxLines, [[]]);
      && (g.ok ==> Concat(g.groups) == words)
      && (!g.ok ==> StoppedAt(g, [[]], words, |Concat(g.groups)|, measure, size, maxWidth, maxLines))
  {
    var start: seq<seq<string>> := [[]];
    StartWellGrouped(measure, size, maxWidth);
    WrapGroupsPlaces(words, measure, size, maxWidth, maxLines, start);
    var g := WrapGroups(words, measure, size, maxWidth, maxLines, start);
    if g.ok {
      assert Concat(g.groups) == Concat(start) + words;
    } else {
      var k := |Concat(g.groups)| - |Concat(start)|;
      assert k == |Concat(g.groups)|;
    }
  }

  /** The wrapper's starting state, one empty line, is well formed and holds no words. */
  lemma StartWellGrouped(measure: Measure, size: real, maxWidth: real)
    ensures WellGrouped([[]], measure, size, maxWidth)
    ensures Concat([[]]) == []
  {
    assert Concat([[]]) == Concat([]) + [];
  }

  /** An early stop of the loop, restated on the rendered lines. */
  lemma StoppedLines(g: Grouping, words: seq<string>, measure: Measure, size: real, maxWidth: real, maxLines: int)
    requires AllWords(g.groups)
    requires StoppedAt(g, [[]], words, |Concat(g.groups)|, measure, size, maxWidth, maxLines)
    ensures var lines := Render(g.groups);
      var k := |Flatten(lines)|;
      && k < |words|
      && Flatten(lines) == words[..k]
      && |lines| + 1 > maxLines
      && !FitsWidth(measure, size, maxWidth, Candidate(lines[|lines| - 1], words[k]))
  {
    assert Concat([[]]) == [];
    FlattenRender(g.groups);
    var last := g.groups[|g.groups| - 1];
    assert forall j | 0 <= j < |last| :: IsWord(last[j]);
    CandidateIsJoin(last, words[|Concat(g.groups)|]);
  }

  /**
   * Every line is its words joined by single spaces, and every line but the
   * first holds at least one word.
   */
  lemma WrapLineShape(text: string, measure: Measure, size: real, maxWidth: real, maxLines: int)
    ensures var r := Wrap(text, measure, size, maxWidth, maxLines);
      forall i | 0 <= i < |r.lines| :: r.lines[i] == JoinWords(Words(r.lines[i]))
    ensures var r := Wrap(text, measure, size, maxWidth, maxLines);
      forall i | 1 <= i < |r.lines| :: Words(r.lines[i]) != []
  {
    if Words(text) != [] {
      var g := WrapState(text, measure, size, maxWidth, maxLines);
      RenderWords(g.groups);
    }
  }

  /**
   * Every line that was grown by accepting a candidate measures within the
   * width: the first line whenever it is not empty, and every line of two or
   * more words.
   */
  lemma WrapLinesFit(text: string, measure: Measure, size: real, maxWidth: real, maxLines: int)
    ensures var r := Wrap(text, measure, size, maxWidth, maxLines);
      forall i | 0 <= i < |r.lines| && r.lines[i] != "" && (i == 0 || |Words(r.lines[i])| >= 2) ::
        FitsWidth(measure, size, maxWidth, r.lines[i])
  {
    if Words(text) != [] {
      var g := WrapState(text, measure, size, maxWidth, maxLines);
      RenderWords(g.groups);
      var r := Wrap(text, measure, size, maxWidth, maxLines);
      forall i | 0 <= i < |r.lines| && r.lines[i] != "" && (i == 0 || |Words(r.lines[i])| >= 2)
        ensures FitsWidth(measure, size, maxWidth, r.lines[i])
      {
        assert GroupFits(g.groups, i, measure, size, maxWidth);
        assert g.groups[i][..|g.groups[i]|] == g.groups[i];
      }
    }
  }

  /**
   * The wrapper is greedy: a line grew only through candidates that fit. Every
   * leading run of a line's words that was once measured as a candidate (from
   * the first word on the first line, from the first two words on a later line,
   * which its first word opened) measures within the width limit.
   */
  lemma WrapPrefixesFit(text: string, measure: Measure, size: real, maxWidth: real, maxLines: int)
    ensures var r := Wrap(text, measure, size, maxWidth, maxLines);
      forall i, k | 0 <= i < |r.lines| && FirstMeasured(i) <= k <= |Words(r.lines[i])| ::
        FitsWidth(measure, size, maxWidth, JoinWords(Words(r.lines[i])[..k]))
  {
    if Words(text) != [] {
      var g := WrapState(text, measure, size, maxWidth, maxLines);
      RenderWords(g.groups);
      var r := Wrap(text, measure, size, maxWidth, maxLines);
      forall i, k | 0 <= i < |r.lines| && FirstMeasured(i) <= k <= |Words(r.lines[i])|
        ensures FitsWidth(measure, size, maxWidth, JoinWords(Words(r.lines[i])[..k]))
      {
        assert GroupFits(g.groups, i, measure, size, maxWidth);
      }
    } else {
      assert Words("") == [];
    }
  }

  /** A new line was started only because the next word did not fit after the previous line. */
  lemma WrapBreaksForced(text: string, measure: Measure, size: real, maxWidth: real, maxLines: int)
    ensures var r := Wrap(text, measure, size, maxWidth, maxLines);
      forall i | 0 <= i < |r.lines| - 1 ::
        !FitsWidth(measure, size, maxWidth, Candidate(r.lines[i], FirstWord(r.lines[i + 1])))
  {
    if Words(text) != [] {
      var g := WrapState(text, measure, size, maxWidth, maxLines);
      RenderWords(g.groups);
      var r := Wrap(text, measure, size, maxWidth, maxLines);
      forall i | 0 <= i < |r.lines| - 1
        ensures !FitsWidth(measure, size, maxWidth, Candidate(r.lines[i], FirstWord(r.lines[i + 1])))
      {
        assert BreakForced(g.groups, i, measure, size, maxWidth);
        assert forall j | 0 <= j < |g.groups[i]| :: IsWord(g.groups[i][j]);
        CandidateIsJoin(g.groups[i], g.groups[i + 1][0]);
      }
    }
  }

  /** `Concat` read from the front: the first group, then the words of the others. */
  lemma {:induction false} ConcatCons(a: seq<string>, t: seq<seq<string>>)
    ensures Concat([a] + t) == a + Concat(t)
    decreases |t|
  {
    var s := [a] + t;
    if |t| == 0 {
      assert s[..0] == [];
      assert Concat(s) == Concat([]) + a;
    } else {
      var init := t[..|t| - 1];
      assert s[..|s| - 1] == [a] + init;
      assert s[|s| - 1] == t[|t| - 1];
      assert Concat(s) == Concat([a] + init) + t[|t| - 1];
      ConcatCons(a, init);
      assert Concat(t) == Concat(init) + t[|t| - 1];
    }
  }

  /** The first placed word is the first word of the first group, or of the second when the first is empty. */
  lemma FirstPlaced(groups: seq<seq<string>>, measure: Measure, size: real, maxWidth: real)
    requires |groups| >= 2 || (|groups| == 1 && groups[0] != [])
    requires groups[0] != [] ==> FitsWidth(measure, size, maxWidth, groups[0][0])
    requires |groups| >= 2 ==> BreakForced(groups, 0, measure, size, maxWidth)
    ensures |Concat(groups)| > 0
    ensures groups[0] != [] ==> Concat(groups)[0] == groups[0][0] && FitsWidth(measure, size, maxWidth, Concat(groups)[0])
    ensures groups[0] == [] ==> Concat(groups)[0] == groups[1][0] && !FitsWidth(measure, size, maxWidth, Concat(groups)[0])
  {
    assert groups == [groups[0]] + groups[1..];
    ConcatCons(groups[0], groups[1..]);
    if groups[0] == [] {
      assert groups[1..] == [groups[1]] + groups[2..];
      ConcatCons(groups[1], groups[2..]);
      assert BreakForced(groups, 0, measure, size, maxWidth);
      assert [] + [groups[1][0]] == [groups[1][0]];
    }
  }

  /**
   * The leading empty line: for a text with words, the first line is empty
   * exactly when the first word alone is too wide, because that word then opens
   * a second line and the empty first line is kept.
   */
  lemma WrapFirstLine(text: string, measure: Measure, size: real, maxWidth: real, maxLines: int)
    requires Words(text) != []
    ensures var r := Wrap(text, measure, size, maxWidth, maxLines);
      r.lines[0] == "" <==> !FitsWidth(measure, size, maxWidth, Words(text)[0])
  {
    var words := Words(text);
    var g := WrapState(text, measure, size, maxWidth, maxLines);
    PlacedFromStart(words, measure, size, maxWidth, maxLines);
    assert |g.groups| >= 2 ==> BreakForced(g.groups, 0, measure, size, maxWidth);
    assert forall j | 0 <= j < |g.groups[0]| :: IsWord(g.groups[0][j]);
    FirstGroup(g, words, measure, size, maxWidth, maxLines);
  }

  /** `WrapFirstLine` on the loop's groups, from the facts about the first group it needs. */
  lemma FirstGroup(g: Grouping, words: seq<string>, measure: Measure, size: real, maxWidth: real, maxLines: int)
    requires |words| > 0 && |g.groups| >= 1
    requires forall j | 0 <= j < |g.groups[0]| :: IsWord(g.groups[0][j])
    requires g.groups[0] != [] ==> FitsWidth(measure, size, maxWidth, g.groups[0][0])
    requires |g.groups| >= 2 ==> BreakForced(g.groups, 0, measure, size, maxWidth)
    requires g.ok ==> Concat(g.groups) == words
    requires !g.ok ==> StoppedAt(g, [[]], words, |Concat(g.groups)|, measure, size, maxWidth, maxLines)
    ensures JoinWords(g.groups[0]) == "" <==> !FitsWidth(measure, size, maxWidth, words[0])
  {
    if |g.groups| >= 2 || g.groups[0] != [] {
      assert Concat([[]]) == [] by { StartWellGrouped(measure, size, maxWidth); }
      if g.ok { assert words[..|words|] == words; }
      FirstGroupPlaced(g, words, measure, size, maxWidth, maxLines);
    } else {
      assert g.groups == [[]];
      assert Concat(g.groups) == [] by { StartWellGrouped(measure, size, maxWidth); }
      assert !g.ok by { assert words != []; }
      assert words[0] == words[..1][0];
    }
  }

  /** `FirstGroup` once some word is placed: the first placed word decides the first line. */
  lemma FirstGroupPlaced(g: Grouping, words: seq<string>, measure: Measure, size: real, maxWidth: real, maxLines: int)
    requires |words| > 0 && (|g.groups| >= 2 || (|g.groups| == 1 && g.groups[0] != []))
    requires forall j | 0 <= j < |g.groups[0]| :: IsWord(g.groups[0][j])
    requires g.groups[0] != [] ==> FitsWidth(measure, size, maxWidth, g.groups[0][0])
    requires |g.groups| >= 2 ==> BreakForced(g.groups, 0, measure, size, maxWidth)
    requires |Concat(g.groups)| <= |words| && Concat(g.groups) == words[..|Concat(g.groups)|]
    ensures JoinWords(g.groups[0]) == "" <==> !FitsWidth(measure, size, maxWidth, words[0])
  {
    if g.groups[0] != [] {
      JoinWordsNonEmpty(g.groups[0]);
    }
    FirstPlaced(g.groups, measure, size, maxWidth);
  }

  /**
   * A line opened by a word is never measured, so a successful wrap can hold a
   * line wider than the limit: with one unit of width per character and a limit
   * of one, the word `"ab"` opens a second line after the empty first one and the
   * result is still a success.
   */
  lemma WrapOpenedLineUnmeasured()
    ensures var m: Measure := (s: string, z: real) => |s| as real;
      var r := Wrap("ab", m, 1.0, 1.0, 3);
      && r == Wrapping(["", "ab"], true)
      && !FitsWidth(m, 1.0, 1.0, r.lines[1])
  {
    var m: Measure := (s: string, z: real) => |s| as real;
    WordsOfWord("ab");
    OpenedGroups(m);
    assert Render([[], ["ab"]]) == ["", "ab"];
  }

  /** The loop behind `WrapOpenedLineUnmeasured`: the word does not fit the empty line and opens a second one. */
  lemma OpenedGroups(m: Measure)
    requires m("ab", 1.0) == 2.0
    ensures WrapGroups(["ab"], m, 1.0, 1.0, 3, [[]]) == Grouping([[], ["ab"]], true)
  {
    assert JoinWords([]) == "" && Candidate("", "ab") == "ab";
    assert ["ab"][1..] == [];
    assert WrapGroups(["ab"], m, 1.0, 1.0, 3, [[]]) == WrapGroups([], m, 1.0, 1.0, 3, [[], ["ab"]]);
  }

  /**
   * Greed decides the packing: when only `"a b"` is too wide, `"a b c"` is
   * wrapped as `"a"` and `"b c"`, although `"a b c"` on one line would fit.
   */
  lemma WrapGreedyExample()
    ensures var m: Measure := (s: string, z: real) => if s == "a b" then 10.0 else 0.0;
      && Wrap("a b c", m, 1.0, 1.0, 3) == Wrapping(["a", "b c"], true)
      && FitsWidth(m, 1.0, 1.0, "a b c")
  {
    var m: Measure := (s: string, z: real) => if s == "a b" then 10.0 else 0.0;
    assert m("a", 1.0) == 0.0 && m("a b", 1.0) == 10.0 && m("b c", 1.0) == 0.0;
    GreedyWrap(m);
  }

  /** `WrapGreedyExample` for any measure that agrees on the three candidates the loop measures. */
  lemma GreedyWrap(m: Measure)
    requires m("a", 1.0) == 0.0 && m("a b", 1.0) == 10.0 && m("b c", 1.0) == 0.0
    ensures Wrap("a b c", m, 1.0, 1.0, 3) == Wrapping(["a", "b c"], true)
  {
    GreedyWords();
    GreedyGroups(m);
    assert JoinWords(["a"]) == "a";
    assert JoinWords(["b", "c"]) == "b c" by { assert ["b", "c"][..1] == ["b"]; }
    assert Render([["a"], ["b", "c"]]) == ["a", "b c"];
  }

  /** The words of the text of `WrapGreedyExample`. */
  lemma GreedyWords()
    ensures Words("a b c") == ["a", "b", "c"]
  {
    var ws := ["a", "b", "c"];
    assert IsWord("a") && IsWord("b") && IsWord("c");
    assert ws[..2] == ["a", "b"] && ["a", "b"][..1] == ["a"];
    assert JoinWords(["a", "b"]) == "a b";
    assert JoinWords(ws) == "a b c";
    WordsOfJoin(ws);
  }

  /** The loop behind `WrapGreedyExample`: `"a"` starts the first line, `"b"` opens a second and `"c"` joins it. */
  lemma GreedyGroups(m: Measure)
    requires m("a", 1.0) == 0.0 && m("a b", 1.0) == 10.0 && m("b c", 1.0) == 0.0
    ensures WrapGroups(["a", "b", "c"], m, 1.0, 1.0, 3, [[]]) == Grouping([["a"], ["b", "c"]], true)
  {
    GreedyFirst(m);
    GreedySecond(m);
    GreedyThird(m);
  }

  /** `"a"` fits and joins the empty first line. */
  lemma GreedyFirst(m: Measure)
    requires m("a", 1.0) == 0.0
    ensures WellGrouped([["a"]], m, 1.0, 1.0)
    ensures WrapGroups(["a", "b", "c"], m, 1.0, 1.0, 3, [[]]) == WrapGroups(["b", "c"], m, 1.0, 1.0, 3, [["a"]])
  {
    var g0: seq<seq<string>> := [[]];
    var e: seq<string> := [];
    StartWellGrouped(m, 1.0, 1.0);
    assert Candidate(JoinWords(e), "a") == "a";
    assert e + ["a"] == ["a"] && g0[..0] + [e + ["a"]] == [["a"]];
    assert JoinWords(e + ["a"]) == "a";
    AcceptWord(g0, "a", m, 1.0, 1.0);
    assert ["a", "b", "c"][1..] == ["b", "c"];
  }

  /** `"a b"` is too wide, so `"b"` opens the second line. */
  lemma GreedySecond(m: Measure)
    requires m("a b", 1.0) == 10.0 && WellGrouped([["a"]], m, 1.0, 1.0)
    ensures WellGrouped([["a"]] + [["b"]], m, 1.0, 1.0)
    ensures WrapGroups(["b", "c"], m, 1.0, 1.0, 3, [["a"]]) == WrapGroups(["c"], m, 1.0, 1.0, 3, [["a"]] + [["b"]])
  {
    assert JoinWords(["a"] + ["b"]) == "a b" by { assert (["a"] + ["b"])[..1] == ["a"]; }
    assert IsWord("b");
    OpenWord([["a"]], "b", m, 1.0, 1.0);
    GreedyOpen(m);
  }

  /** The step of `GreedySecond` on the loop itself. */
  lemma GreedyOpen(m: Measure)
    requires m("a b", 1.0) == 10.0
    requires WellGrouped([["a"]], m, 1.0, 1.0) && WellGrouped([["a"]] + [["b"]], m, 1.0, 1.0)
    ensures WrapGroups(["b", "c"], m, 1.0, 1.0, 3, [["a"]]) == WrapGroups(["c"], m, 1.0, 1.0, 3, [["a"]] + [["b"]])
  {
    assert Candidate(JoinWords(["a"]), "b") == "a b";
    assert ["b", "c"][0] == "b" && ["b", "c"][1..] == ["c"];
  }

  /** `"b c"` fits, so `"c"` joins the second line and the loop ends. */
  lemma GreedyThird(m: Measure)
    requires m("b c", 1.0) == 0.0 && WellGrouped([["a"]] + [["b"]], m, 1.0, 1.0)
    ensures WrapGroups(["c"], m, 1.0, 1.0, 3, [["a"]] + [["b"]]) == Grouping([["a"], ["b", "c"]], true)
  {
    var g2 := [["a"]] + [["b"]];
    assert g2[..1] == [["a"]] && g2[1] == ["b"];
    assert Candidate(JoinWords(["b"]), "c") == "b c";
    assert JoinWords(["b"] + ["c"]) == "b c" by { assert (["b"] + ["c"])[..1] == ["b"]; }
    assert ["b"] + ["c"] == ["b", "c"];
    assert g2[..1] + [["b"] + ["c"]] == [["a"], ["b", "c"]];
    assert IsWord("c");
    AcceptWord(g2, "c", m, 1.0, 1.0);
    assert ["c"][1..] == [];
  }
}
