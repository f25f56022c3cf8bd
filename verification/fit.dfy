/**
 * The auto-fit layout of `make_pdf_big_bold_landscape`: the label is turned to
 * landscape, the content is normalised, and a fixed 22-step bisection over the
 * font size looks for the largest size at which the text wraps into at most
 * three lines that also fit the available height.
 */
module AutoFit {
  import opened PyText
  import opened TextWrap
  import opened Labels

  /** The blank border kept on every side of the page. */
  const Margin: real := 0.15 * Inch
  /** The smallest font size the search considers, and its starting lower end. */
  const MinSize: real := 6.0
  /** The line-height factor of the initial upper bound. */
  const BoundLineFactor: real := 1.05
  /** The line-height factor of the height check and of the drawing. */
  const LineFactor: real := 1.1
  /** The number of bisection steps. */
  const Steps: nat := 22
  /** The most lines the text may wrap into. */
  const FitMaxLines: int := 3
  /** What is printed for blank content. */
  const Placeholder: string := "LABEL"

  function MaxReal(a: real, b: real): real {
    if a < b then b else a
  }

  function MinReal(a: real, b: real): real {
    if a < b then a else b
  }

  /** `max(side - 2 * margin, 1)`: the usable extent of one page side. */
  function Usable(side: real): (a: real)
    ensures a >= 1.0 && a >= side - 2.0 * Margin
    ensures a == 1.0 || a == side - 2.0 * Margin
  {
    MaxReal(side - 2.0 * Margin, 1.0)
  }

  /**
   * `(content or "").strip() or "LABEL"`: the stripped content, or the
   * placeholder when the content is blank. Either way the text has words, and
   * they are the content's own words whenever it has any.
   */
  function Normalise(content: string): (t: string)
    ensures t != [] && !IsSpace(t[0]) && !IsSpace(t[|t| - 1])
    ensures Words(t) == (if Words(content) == [] then [Placeholder] else Words(content))
  {
    WordsOfStrip(content);
    WordsEmptyIffAllSpace(content);
    WordsOfWord(Placeholder);
    var s := Strip(content);
    if s == "" then Placeholder else s
  }

  /** Blank content is replaced by the placeholder, and only blank content is replaced. */
  lemma NormaliseBlank(content: string)
    ensures AllSpace(content) ==> Normalise(content) == Placeholder
    ensures !AllSpace(content) ==> Normalise(content) == Strip(content)
  {
  }

  /** Python's `max(words, key=len)`: the position of the first word of greatest length. */
  function LongestIndex(words: seq<string>): (i: nat)
    requires words != []
    ensures i < |words|
    ensures forall j | 0 <= j < |words| :: |words[j]| <= |words[i]|
    ensures forall j | 0 <= j < i :: |words[j]| < |words[i]|
    decreases |words|
  {
    if |words| == 1 then 0
    else
      var k := LongestIndex(words[..|words| - 1]);
      if |words[|words| - 1]| > |words[k]| then |words| - 1 else k
  }

  /**
   * `w` is what `max(words, key=len)` returns: a word of the list, no word is
   * longer, and every word before it is strictly shorter.
   */
  ghost predicate FirstLongest(words: seq<string>, w: string) {
    && (forall v | v in words :: |v| <= |w|)
    && exists i | 0 <= i < |words| :: words[i] == w && forall j | 0 <= j < i :: |words[j]| < |w|
  }

  /** The word the width bound is computed from: the first longest word of the text, or the placeholder. */
  function LongestWord(text: string): (w: string)
    ensures Words(text) != [] ==> FirstLongest(Words(text), w)
    ensures Words(text) == [] ==> w == Placeholder
  {
    var ws := Words(text);
    if ws == [] then Placeholder
    else
      var i := LongestIndex(ws);
      assert forall v | v in ws :: |v| <= |ws[i]|;
      ws[i]
  }

  /** The upper end the search starts from, and the unit-size width of the longest word it was computed from. */
  datatype Bound = Bound(widthBase: real, upper: real)

  /**
   * Lines 64-67: `lw_base = max(stringWidth(longest, 1), 1)` and the bound
   * `max(min(avail_w / lw_base, avail_h / 1.05), 6.0)`.
   */
  function InitialBound(longest: string, availW: real, availH: real, measure: Measure): (b: Bound)
    ensures b.widthBase >= 1.0 && b.widthBase >= measure(longest, 1.0)
    ensures b.widthBase == 1.0 || b.widthBase == measure(longest, 1.0)
    ensures b.upper >= MinSize
    ensures b.upper > MinSize ==> b.upper * b.widthBase <= availW && b.upper * BoundLineFactor <= availH
    ensures b.upper * b.widthBase >= availW || b.upper * BoundLineFactor >= availH
  {
    var widthBase := MaxReal(measure(longest, 1.0), 1.0);
    Bound(widthBase, UpperBound(availW, availH, widthBase))
  }

  /** What the search works with: the landscape page, the usable area, the text and the initial bound. */
  datatype Setup = Setup(page: PageSize, availW: real, availH: real, text: string,
                         longest: string, bound: Bound)

  /**
   * Lines 48-67: the portrait page swapped to landscape, the usable area inside
   * the margins (at least one point each way), the normalised text, its longest
   * word, and the initial bound.
   */
  function Prepare(portrait: PageSize, content: string, measure: Measure): (s: Setup)
    ensures s.page.width == portrait.height && s.page.height == portrait.width
    ensures s.availW == Usable(s.page.width) && s.availH == Usable(s.page.height)
    ensures s.text == Normalise(content)
    ensures FirstLongest(Words(s.text), s.longest)
    ensures s.bound == InitialBound(s.longest, s.availW, s.availH, measure)
    ensures MinSize <= s.bound.upper
  {
    var page := PageSize(portrait.height, portrait.width);
    var availW := Usable(page.width);
    var availH := Usable(page.height);
    var text := Normalise(content);
    var longest := LongestWord(text);
    Setup(page, availW, availH, text, longest, InitialBound(longest, availW, availH, measure))
  }

  /**
   * `max(min(avail_w / lw_base, avail_h / 1.05), 6.0)`: never below the minimum
   * size, above it only when both quotients allow it, and always reaching at
   * least one of them. Together these pin the bound to that expression.
   */
  function UpperBound(availW: real, availH: real, widthBase: real): (upper: real)
    requires widthBase >= 1.0
    ensures upper >= MinSize
    ensures upper > MinSize ==> upper * widthBase <= availW && upper * BoundLineFactor <= availH
    ensures upper * widthBase >= availW || upper * BoundLineFactor >= availH
  {
    var byWidth := availW / widthBase;
    var byHeight := availH / BoundLineFactor;
    var upper := MaxReal(MinReal(byWidth, byHeight), MinSize);
    assert upper > MinSize ==> upper <= byWidth && upper <= byHeight;
    assert upper > MinSize ==> upper * widthBase <= byWidth * widthBase;
    assert upper > MinSize ==> upper * BoundLineFactor <= byHeight * BoundLineFactor;
    assert upper >= byWidth || upper >= byHeight;
    assert upper >= byWidth ==> upper * widthBase >= byWidth * widthBase;
    assert upper >= byHeight ==> upper * BoundLineFactor >= byHeight * BoundLineFactor;
    upper
  }

  /** The bound is exactly `max(min(avail_w / lw_base, avail_h / 1.05), 6.0)`, stated without division. */
  lemma UpperBoundValue(availW: real, availH: real, widthBase: real, q: real)
    requires widthBase >= 1.0
    requires q * widthBase <= availW && q * BoundLineFactor <= availH
    requires q * widthBase >= availW || q * BoundLineFactor >= availH
    ensures UpperBound(availW, availH, widthBase) == MaxReal(q, MinSize)
  {
  }

  /**
   * The bound's heuristic promise, for a measure that scales linearly with the
   * size and gives the longest word a non-negative width: whenever the bound is
   * above the minimum, the longest word fits the usable width at every size up
   * to the bound.
   */
  lemma LongestWordFitsBelowUpper(longest: string, availW: real, availH: real, measure: Measure, size: real)
    requires forall s: string, z: real :: measure(s, z) == z * measure(s, 1.0)
    requires measure(longest, 1.0) >= 0.0
    requires var b := InitialBound(longest, availW, availH, measure); b.upper > MinSize && 0.0 < size <= b.upper
    ensures FitsWidth(measure, size, availW, longest)
  {
    var b := InitialBound(longest, availW, availH, measure);
    var unit := measure(longest, 1.0);
    assert measure(longest, size) == size * unit;
    ScaledWithin(size, b.upper, unit, b.widthBase, availW);
  }

  /** A smaller size times a smaller unit width stays within a bound on the larger product. */
  lemma ScaledWithin(size: real, upper: real, unit: real, base: real, limit: real)
    requires 0.0 < size <= upper && 0.0 <= unit <= base && upper * base <= limit
    ensures size * unit <= limit
  {
    assert size * unit <= upper * unit;
    assert upper * unit <= upper * base;
  }

  /**
   * The bisection state: the open interval `[lo, hi]`, the best size and lines
   * so far, and the number of passes of the loop still to run.
   */
  datatype Search = Search(lo: real, hi: real, best: real, bestLines: seq<string>, left: nat)

  /**
   * Lines 69-71: the interval is `[6, upper]`, the best is the minimum with the
   * whole text as one line, and all 22 passes are still to run.
   */
  function Initial(s: Setup): (st: Search)
    ensures st.left == Steps && st.lo == MinSize && st.hi == s.bound.upper
    ensures st.best == st.lo && st.bestLines == [s.text]
  {
    Search(MinSize, s.bound.upper, MinSize, [s.text], Steps)
  }

  /** The search starts sound, whatever the attempt, once the bound is at least the minimum. */
  lemma InitialSound(s: Setup, attempt: Attempt)
    requires MinSize <= s.bound.upper
    ensures Sound(s, attempt, Initial(s))
  {
  }

  /** At `size` the text wraps into lines that are placed completely and whose stack fits the usable height. */
  ghost predicate Accepted(s: Setup, measure: Measure, size: real, lines: seq<string>) {
    var w := Wrap(s.text, measure, size, s.availW, FitMaxLines);
    && w.ok
    && w.lines == lines
    && size * LineFactor * (|lines| as real) <= s.availH
  }

  /** At `size` the wrap gives up, or its lines are too tall for the usable height. */
  ghost predicate Rejected(s: Setup, measure: Measure, size: real) {
    var w := Wrap(s.text, measure, size, s.availW, FitMaxLines);
    !w.ok || size * LineFactor * (|w.lines| as real) > s.availH
  }

  /**
   * The wrap the search tries at each size. The search below is written for
   * any such function, so that reasoning about its steps does not need to look
   * inside the wrapper.
   */
  type Attempt = real -> Wrapping

  /** Line 74: the text wrapped into at most three lines of the usable width. */
  function Attempts(s: Setup, measure: Measure): Attempt {
    size => Wrap(s.text, measure, size, s.availW, FitMaxLines)
  }

  /** `Accepted`, for the wrap `attempt` gives. */
  ghost predicate AcceptedBy(s: Setup, attempt: Attempt, size: real, lines: seq<string>) {
    var w := attempt(size);
    && w.ok
    && w.lines == lines
    && size * LineFactor * (|lines| as real) <= s.availH
  }

  /** `Rejected`, for the wrap `attempt` gives. */
  ghost predicate RejectedBy(s: Setup, attempt: Attempt, size: real) {
    var w := attempt(size);
    !w.ok || size * LineFactor * (|w.lines| as real) > s.availH
  }

  /** With the wrapper's own attempt, acceptance and rejection are the ones the label is judged by. */
  lemma AttemptsJudge(s: Setup, measure: Measure, size: real, lines: seq<string>)
    ensures AcceptedBy(s, Attempts(s, measure), size, lines) <==> Accepted(s, measure, size, lines)
    ensures RejectedBy(s, Attempts(s, measure), size) <==> Rejected(s, measure, size)
  {
    assert Attempts(s, measure)(size) == Wrap(s.text, measure, size, s.availW, FitMaxLines);
  }

  /**
   * What every state of the search keeps: the interval is ordered inside
   * `[6, upper]`, the best size is its lower end and was either never improved
   * or was accepted with the recorded lines, and its upper end is the initial
   * bound or a size that was rejected.
   */
  ghost predicate Sound(s: Setup, attempt: Attempt, st: Search) {
    && MinSize <= st.lo <= st.hi <= s.bound.upper
    && st.best == st.lo
    && ((st.best == MinSize && st.bestLines == [s.text]) || AcceptedBy(s, attempt, st.best, st.bestLines))
    && (st.hi == s.bound.upper || RejectedBy(s, attempt, st.hi))
  }

  /**
   * Lines 72-87, one pass of the loop: wrap at the midpoint; if every word was
   * placed and the lines fit the height, the midpoint becomes the best size and
   * the new lower end, otherwise the new upper end. The interval halves, its
   * ends only move inwards, and the state stays sound.
   */
  function Step(s: Setup, attempt: Attempt, st: Search): (st': Search)
    requires st.lo <= st.hi
    ensures st'.hi - st'.lo == (st.hi - st.lo) / 2.0
    ensures st.lo <= st'.lo <= st'.hi <= st.hi
    ensures st'.best == st.best || AcceptedBy(s, attempt, st'.best, st'.bestLines)
    ensures st'.hi == st.hi || RejectedBy(s, attempt, st'.hi)
    ensures Sound(s, attempt, st) ==> Sound(s, attempt, st')
  {
    var mid := (st.lo + st.hi) / 2.0;
    var w := attempt(mid);
    if !w.ok then st.(hi := mid)
    else if mid * LineFactor * (|w.lines| as real) <= s.availH then st.(lo := mid, best := mid, bestLines := w.lines)
    else st.(hi := mid)
  }

  function Pow2(n: nat): (p: nat)
    ensures p >= 1
  {
    if n == 0 then 1 else 2 * Pow2(n - 1)
  }

  /** Halving a width `n` more times after one halving is halving it `n + 1` times. */
  lemma HalveAgain(width: real, n: nat)
    ensures (width / 2.0) / (Pow2(n) as real) == width / (Pow2(n + 1) as real)
  {
    var p := Pow2(n) as real;
    assert Pow2(n + 1) as real == 2.0 * p;
  }

  /**
   * The passes of the loop still to run: each halves the interval, so at the
   * end its width is the starting width over `2^left`; the ends only move
   * inwards; the best size never decreases; and soundness is kept throughout.
   */
  function Bisect(s: Setup, attempt: Attempt, st: Search): (r: Search)
    requires st.lo <= st.hi
    ensures r.left == 0
    ensures r.lo <= r.hi
    ensures r.hi - r.lo == (st.hi - st.lo) / (Pow2(st.left) as real)
    ensures st.lo <= r.lo && r.hi <= st.hi
    ensures st.best == st.lo ==> st.best <= r.best
    ensures Sound(s, attempt, st) ==> Sound(s, attempt, r)
    decreases st.left
  {
    if st.left == 0 then st
    else
      var next := Step(s, attempt, st);
      HalveAgain(st.hi - st.lo, st.left - 1);
      Bisect(s, attempt, next.(left := st.left - 1))
  }

  /** The fitted font size and the lines to draw at it. */
  datatype Fitted = Fitted(size: real, lines: seq<string>)

  /**
   * Lines 69-87 for any attempt: the 22 passes from `[6, upper]`. The state is
   * sound and the interval has width `(upper - 6) / 2^22`.
   */
  function Passes(s: Setup, attempt: Attempt): (st: Search)
    requires MinSize <= s.bound.upper
    ensures Sound(s, attempt, st)
    ensures st.hi - st.lo == (s.bound.upper - MinSize) / 4194304.0
  {
    InitialSound(s, attempt);
    var st0 := Initial(s);
    var r := Bisect(s, attempt, st0);
    WidthAfterSteps(r.hi - r.lo, st0.hi - st0.lo, st0.left);
    r
  }

  /** Lines 69-87: the state the search ends in, with the wrapper's own attempt. */
  function Search22(s: Setup, measure: Measure): (st: Search)
    requires MinSize <= s.bound.upper
    ensures Sound(s, Attempts(s, measure), st)
    ensures st.hi - st.lo == (s.bound.upper - MinSize) / 4194304.0
  {
    Passes(s, Attempts(s, measure))
  }

  /**
   * Lines 48-87: the font size and lines the label is drawn with. The size lies
   * between 6 and the initial bound and there are one to three lines. Any size
   * above 6 was accepted: the lines are a complete wrap of the text at that size
   * and their stack fits the usable height. At exactly 6 the lines are that
   * accepted wrap or, when no size was ever accepted, the whole text as one line.
   */
  function Fit(portrait: PageSize, content: string, measure: Measure): (r: Fitted)
    ensures var s := Prepare(portrait, content, measure);
      && MinSize <= r.size <= s.bound.upper
      && 1 <= |r.lines| <= FitMaxLines
      && (r.size > MinSize ==> Accepted(s, measure, r.size, r.lines))
      && (r.lines == [s.text] || Accepted(s, measure, r.size, r.lines))
  {
    var s := Prepare(portrait, content, measure);
    var st := Search22(s, measure);
    SoundLines(s, Attempts(s, measure), st);
    AttemptsJudge(s, measure, st.best, st.bestLines);
    Fitted(st.best, st.bestLines)
  }

  /** A sound state holds one to three lines, and any best size above the minimum was accepted. */
  lemma SoundLines(s: Setup, attempt: Attempt, st: Search)
    requires Sound(s, attempt, st)
    requires forall size: real :: 1 <= |attempt(size).lines| <= FitMaxLines
    ensures 1 <= |st.bestLines| <= FitMaxLines
    ensures st.best > MinSize ==> AcceptedBy(s, attempt, st.best, st.bestLines)
  {
    if st.bestLines != [s.text] {
      assert attempt(st.best).lines == st.bestLines;
    }
  }

  /**
   * After the 22 passes the search has narrowed `[6, upper]` to a width of
   * `(upper - 6) / 2^22`, its lower end is the best size, and its upper end is
   * the initial bound or a size that was rejected: the result is the largest
   * accepted size up to the bisection's resolution.
   */
  lemma SearchResolution(s: Setup, measure: Measure)
    requires MinSize <= s.bound.upper
    ensures var st := Search22(s, measure);
      && st.best == st.lo
      && st.hi - st.lo == (s.bound.upper - MinSize) / 4194304.0
      && (st.hi == s.bound.upper || Rejected(s, measure, st.hi))
  {
    SearchUpperEnd(s, measure);
  }

  /** The final upper end is the initial bound or a size the wrapper's own test rejected. */
  lemma SearchUpperEnd(s: Setup, measure: Measure)
    requires MinSize <= s.bound.upper
    ensures var st := Search22(s, measure);
      st.hi == s.bound.upper || Rejected(s, measure, st.hi)
  {
    var st := Search22(s, measure);
    AttemptsJudge(s, measure, st.hi, []);
  }

  /** The fitted size is the lower end of the search's final interval. */
  lemma FitResolution(portrait: PageSize, content: string, measure: Measure)
    ensures var s := Prepare(portrait, content, measure);
      Fit(portrait, content, measure).size == Search22(s, measure).lo
  {
    var s := Prepare(portrait, content, measure);
    SearchResolution(s, measure);
  }

  /** A width divided by `2^n`, for the number of passes the loop runs. */
  lemma WidthAfterSteps(d: real, w: real, n: nat)
    requires n == Steps && d == w / (Pow2(n) as real)
    ensures d == w / 4194304.0
  {
    StepsResolution();
  }

  /** Twenty-two halvings divide by 4194304. */
  lemma StepsResolution()
    ensures Pow2(Steps) as real == 4194304.0
  {
    assert Pow2(5) == 32;
    assert Pow2(10) == 1024;
    assert Pow2(15) == 32768;
    assert Pow2(20) == 1048576;
  }

  /**
   * Lines 89-98: the drawing of the fitted block on the landscape page. Every
   * line is centred on the page's vertical midline; the first baseline sits
   * at `(height + block) / 2 - 0.75 * line height` and line `i` at `i` line
   * heights below it.
   */
  function Placement(page: PageSize, fitted: Fitted): (draws: seq<Draw>)
    ensures |draws| == |fitted.lines|
    ensures var lineHeight := fitted.size * LineFactor;
      var startY := (page.height + lineHeight * (|fitted.lines| as real)) / 2.0 - lineHeight * 0.75;
      forall i | 0 <= i < |draws| ::
        draws[i] == Draw(page.width / 2.0, startY - (i as real) * lineHeight, fitted.lines[i], Centre)
  {
    var lineHeight := fitted.size * LineFactor;
    var total := lineHeight * (|fitted.lines| as real);
    Stack(page.width / 2.0, Centre, (page.height + total) / 2.0 - lineHeight * 0.75, lineHeight, fitted.lines)
  }

  /**
   * The drawn block is centred a quarter line height below the page's middle:
   * the first and last baselines are symmetric about `height / 2 - line height / 4`.
   */
  lemma PlacementCentred(page: PageSize, fitted: Fitted)
    requires |fitted.lines| >= 1
    ensures var draws := Placement(page, fitted);
      (draws[0].y + draws[|draws| - 1].y) / 2.0 == page.height / 2.0 - fitted.size * LineFactor / 4.0
  {
    var lineHeight := fitted.size * LineFactor;
    var n := |fitted.lines|;
    assert ((n - 1) as real) * lineHeight == (n as real) * lineHeight - lineHeight;
  }
}
