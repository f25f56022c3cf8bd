/**
 * The fixed-size layout of `make_pdf_simple`: the font size comes from a
 * string such as `"12pt"`, the content is cut into lines, the block is placed
 * vertically by `align` and every line horizontally by `textAlign`, one line
 * height apart.
 */
module SimpleLayout {
  import opened PyText
  import opened PyLines
  import opened PyInt
  import opened Outcome
  import opened Labels

  /** The font size used when the given one does not parse. */
  const DefaultFontSize: int := 12
  /** What is drawn when the content has no lines. */
  const DefaultContent: string := "Label Content"
  /** The line height as a multiple of the font size. */
  const LineSpacing: real := 1.25
  /** The distance of left- and right-aligned text from the page edge. */
  const SideInset: real := 0.2 * Inch

  /**
   * `int(str(font_size).replace("pt", "").strip())`, or 12 when that raises.
   * A string without any decimal digit always falls back to 12.
   */
  function ParseFontSize(fontSize: string): (size: int)
    ensures (forall k | 0 <= k < |fontSize| :: !IsDigit(fontSize[k])) ==> size == DefaultFontSize
  {
    var cleaned := Strip(RemoveAll(fontSize, "pt"));
    match ParseInt(cleaned)
    case Some(n) =>
      assert cleaned[|cleaned| - 1] in fontSize by {
        RemoveAllFrom(fontSize, "pt");
        assert cleaned[|cleaned| - 1] == RemoveAll(fontSize, "pt")[LeadLen(RemoveAll(fontSize, "pt")) + |cleaned| - 1];
      }
      n
    case None => DefaultFontSize
  }

  /** A size written as `str(n) + "pt"` reads back as `n`. */
  lemma ParseFontSizeOfPoints(n: int)
    ensures ParseFontSize(FormatInt(n) + "pt") == n
  {
    var d := FormatInt(n);
    RemoveAllKeepsPrefix(d, "pt", "pt");
    RemoveAllOfPattern("pt");
    assert d + "" == d;
    StripUnpadded(d);
    ParseFormatRoundTrip(n);
  }

  /** A size written as a bare integer reads back as that integer. */
  lemma ParseFontSizeOfBare(n: int)
    ensures ParseFontSize(FormatInt(n)) == n
  {
    var d := FormatInt(n);
    RemoveAllKeepsPrefix(d, "", "pt");
    assert d + "" == d;
    StripUnpadded(d);
    ParseFormatRoundTrip(n);
  }

  /**
   * `(content or "").splitlines() or ["Label Content"]`: the content's lines, or
   * the default line when it has none. No line holds a line boundary.
   */
  function ContentLines(content: string): (lines: seq<string>)
    ensures |lines| >= 1
    ensures forall i | 0 <= i < |lines| :: NoBreak(lines[i])
    ensures content == "" ==> lines == [DefaultContent]
    ensures content != "" ==> lines == SplitLines(content)
  {
    var split := SplitLines(content);
    if split == [] then
      assert NoBreak(DefaultContent);
      [DefaultContent]
    else split
  }

  /** Lines joined by `"\n"` come back one for one, when the last line is not empty. */
  lemma {:induction false} ContentLinesOfJoined(ls: seq<string>)
    requires |ls| >= 1 && ls[|ls| - 1] != [] && forall j | 0 <= j < |ls| :: NoBreak(ls[j])
    ensures ContentLines(JoinLines(ls)) == ls
  {
    SplitLinesOfJoined(ls);
    assert JoinLines(ls) != [];
  }

  /** A final newline after the last line adds no line. */
  lemma {:induction false} ContentLinesFinalNewline(content: string)
    requires content != [] && !IsLineBreak(content[|content| - 1])
    ensures ContentLines(content + "\n") == ContentLines(content)
  {
    SplitLinesFinalNewline(content);
  }

  /** Newline-terminated lines come back one for one. */
  lemma {:induction false} ContentLinesOfTerminated(ls: seq<string>)
    requires |ls| >= 1 && forall j | 0 <= j < |ls| :: NoBreak(ls[j])
    ensures ContentLines(Terminated(ls)) == ls
  {
    SplitLinesOfTerminated(ls);
  }

  /**
   * Lines 42-47: the baseline of the first line. `"start"` hangs it one and a
   * half line heights below the top edge, `"end"` puts it the block's height
   * plus one line above the bottom edge, and anything else centres the block
   * between `height` and 0 by its top.
   */
  function StartY(align: string, height: real, lineHeight: real, count: nat): (y: real)
    ensures align == "start" ==> y == height - 1.5 * lineHeight
    ensures align == "end" ==> y == lineHeight * (count as real) + lineHeight
    ensures align != "start" && align != "end" ==> 2.0 * y == height + lineHeight * (count as real)
  {
    var total := lineHeight * (count as real);
    if align == "start" then height - lineHeight * 1.5
    else if align == "end" then total + lineHeight
    else (height + total) / 2.0
  }

  /**
   * Lines 52-60: where a line is anchored. `"left"` draws from the left inset,
   * `"right"` ends at the right inset, anything else is centred on the page.
   */
  function LineAnchor(textAlign: string, width: real): (p: (real, Anchor))
    ensures textAlign == "left" ==> p == (SideInset, Left)
    ensures textAlign == "right" ==> p == (width - SideInset, Right)
    ensures textAlign != "left" && textAlign != "right" ==> p == (width / 2.0, Centre)
  {
    if textAlign == "left" then (SideInset, Left)
    else if textAlign == "right" then (width - SideInset, Right)
    else (width / 2.0, Centre)
  }

  /** The parsed size and the drawing calls of one simple label. */
  datatype SimplePlan = SimplePlan(size: int, draws: seq<Draw>)

  /** The line height for a font size. */
  function LineHeight(size: int): real {
    (size as real) * LineSpacing
  }

  /**
   * Lines 39-61 for given lines and size: one drawing call per line, in order,
   * each at the anchor `textAlign` selects, the first baseline at the start
   * `align` selects and line `i` at `i` line heights below it.
   */
  function Layout(page: PageSize, texts: seq<string>, align: string, textAlign: string, size: int): (draws: seq<Draw>)
    ensures |draws| == |texts|
    ensures forall i | 0 <= i < |texts| ::
      && draws[i].text == texts[i]
      && (draws[i].x, draws[i].anchor) == LineAnchor(textAlign, page.width)
      && draws[i].y == StartY(align, page.height, LineHeight(size), |texts|) - (i as real) * LineHeight(size)
  {
    var anchor := LineAnchor(textAlign, page.width);
    Stack(anchor.0, anchor.1, StartY(align, page.height, LineHeight(size), |texts|), LineHeight(size), texts)
  }

  /** Each drawn line sits exactly one line height below the previous one. */
  lemma LayoutSpacing(page: PageSize, texts: seq<string>, align: string, textAlign: string, size: int, i: nat)
    requires i + 1 < |texts|
    ensures var draws := Layout(page, texts, align, textAlign, size);
      draws[i].y - draws[i + 1].y == LineHeight(size)
  {
    var lh := LineHeight(size);
    assert ((i + 1) as real) * lh == (i as real) * lh + lh;
  }

  /** With `"end"` the last baseline sits two line heights above the bottom edge, whatever the line count. */
  lemma LayoutEndBaseline(page: PageSize, texts: seq<string>, textAlign: string, size: int)
    requires |texts| >= 1
    ensures var draws := Layout(page, texts, "end", textAlign, size);
      draws[|texts| - 1].y == 2.0 * LineHeight(size)
  {
    var n := |texts|;
    var lh := LineHeight(size);
    assert ((n - 1) as real) * lh == (n as real) * lh - lh;
  }

  /** Centred blocks are centred half a line height above the page's middle. */
  lemma LayoutCentredBaselines(page: PageSize, texts: seq<string>, align: string, textAlign: string, size: int)
    requires |texts| >= 1 && align != "start" && align != "end"
    ensures var draws := Layout(page, texts, align, textAlign, size);
      (draws[0].y + draws[|texts| - 1].y) / 2.0 == page.height / 2.0 + LineHeight(size) / 2.0
  {
    var n := |texts|;
    var lh := LineHeight(size);
    assert ((n - 1) as real) * lh == (n as real) * lh - lh;
  }

  /** Every line with its surrounding whitespace removed. */
  function StripEach(lines: seq<string>): (texts: seq<string>)
    ensures |texts| == |lines|
    ensures forall i | 0 <= i < |lines| :: texts[i] == Strip(lines[i])
  {
    seq(|lines|, i requires 0 <= i < |lines| => Strip(lines[i]))
  }

  /**
   * `make_pdf_simple` without the canvas: the parsed size, and one drawing call
   * per content line (at least one), drawing that line stripped, laid out as
   * `Layout` places lines.
   */
  function SimpleLabel(page: PageSize, content: string, align: string, textAlign: string, fontSize: string): (plan: SimplePlan)
    ensures plan.size == ParseFontSize(fontSize)
    ensures |plan.draws| == |ContentLines(content)| >= 1
    ensures forall i | 0 <= i < |plan.draws| :: plan.draws[i].text == Strip(ContentLines(content)[i])
    ensures plan.draws == Layout(page, StripEach(ContentLines(content)), align, textAlign, plan.size)
  {
    var size := ParseFontSize(fontSize);
    SimplePlan(size, Layout(page, StripEach(ContentLines(content)), align, textAlign, size))
  }
}
