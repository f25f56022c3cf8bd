/**
 * The label stock both generator services share: the three page sizes a
 * request may name, in PDF points, and the drawing instruction a layout emits.
 */
module Labels {
  import opened Outcome

  /** One inch in PDF points, as the PDF library defines it. */
  const Inch: real := 72.0

  /** A page in points; the table holds portrait pages, width before height. */
  datatype PageSize = PageSize(width: real, height: real)

  /** The label-size keys, in the order the table declares them. */
  const SizeKeys: seq<string> := ["1x3", "2x4", "4x6"]

  /** How a drawn string hangs on its anchor point. */
  datatype Anchor = Left | Right | Centre

  /** One text-drawing call on the canvas: the baseline point, the string and its alignment. */
  datatype Draw = Draw(x: real, y: real, text: string, anchor: Anchor)

  /**
   * The drawing loop shared by both layouts: draw a line at `y`, then lower `y`
   * by one line height. Every line lands at the same anchor point `x`, the first
   * baseline at `y0` and line `i` at `i` line heights below it.
   */
  function Stack(x: real, anchor: Anchor, y0: real, lineHeight: real, texts: seq<string>): (draws: seq<Draw>)
    ensures |draws| == |texts|
    ensures forall i | 0 <= i < |texts| ::
      draws[i] == Draw(x, y0 - (i as real) * lineHeight, texts[i], anchor)
    decreases |texts|
  {
    if |texts| == 0 then []
    else
      var rest := Stack(x, anchor, y0 - lineHeight, lineHeight, texts[1..]);
      StackShift(x, anchor, y0, lineHeight, texts, rest);
      [Draw(x, y0, texts[0], anchor)] + rest
  }

  /** Lines drawn from one line height lower are line `i + 1` of a stack starting at `y0`. */
  lemma StackShift(x: real, anchor: Anchor, y0: real, lineHeight: real, texts: seq<string>, rest: seq<Draw>)
    requires |texts| > 0 && |rest| == |texts| - 1
    requires forall i | 0 <= i < |rest| ::
      rest[i] == Draw(x, (y0 - lineHeight) - (i as real) * lineHeight, texts[1..][i], anchor)
    ensures forall i | 0 <= i < |texts| ::
      ([Draw(x, y0, texts[0], anchor)] + rest)[i] == Draw(x, y0 - (i as real) * lineHeight, texts[i], anchor)
  {
    var draws := [Draw(x, y0, texts[0], anchor)] + rest;
    forall i | 0 <= i < |texts|
      ensures draws[i] == Draw(x, y0 - (i as real) * lineHeight, texts[i], anchor)
    {
      if i > 0 {
        assert draws[i] == rest[i - 1];
        assert (y0 - lineHeight) - ((i - 1) as real) * lineHeight == y0 - (i as real) * lineHeight;
      }
    }
  }

  /** Consecutive lines of a stack are exactly one line height apart. */
  lemma StackSpacing(x: real, anchor: Anchor, y0: real, lineHeight: real, texts: seq<string>, i: nat)
    requires i + 1 < |texts|
    ensures var draws := Stack(x, anchor, y0, lineHeight, texts);
      draws[i].y - draws[i + 1].y == lineHeight
  {
    assert ((i + 1) as real) * lineHeight == (i as real) * lineHeight + lineHeight;
  }

  /** The numeric value of a decimal digit character. */
  function DigitValue(c: char): real {
    (c as int - '0' as int) as real
  }

  /**
   * `LABEL_SIZES[key]`: the portrait page for a known key, nothing for any
   * other. A key reads as "<width>x<height>" in whole inches and the page is
   * exactly that.
   */
  function LabelSize(key: string): (r: Option<PageSize>)
    ensures r.Some? <==> key in SizeKeys
    ensures r.Some? ==> 0.0 < r.value.width < r.value.height
    ensures r.Some? ==> |key| == 3 && key[1] == 'x'
    ensures r.Some? ==> r.value == PageSize(DigitValue(key[0]) * Inch, DigitValue(key[2]) * Inch)
  {
    if key == "1x3" then Some(PageSize(1.0 * Inch, 3.0 * Inch))
    else if key == "2x4" then Some(PageSize(2.0 * Inch, 4.0 * Inch))
    else if key == "4x6" then Some(PageSize(4.0 * Inch, 6.0 * Inch))
    else None
  }

  /** Python's `repr` of a list of strings: `['a', 'b']`. */
  function ListRepr(items: seq<string>): string {
    "[" + ItemsRepr(items) + "]"
  }

  /** The comma-separated, single-quoted items of a list repr. */
  function ItemsRepr(items: seq<string>): string
    decreases |items|
  {
    if |items| == 0 then ""
    else if |items| == 1 then "'" + items[0] + "'"
    else "'" + items[0] + "', " + ItemsRepr(items[1..])
  }

  /** The body of the 400 answer for an unknown label size. */
  function InvalidSizeMessage(): (m: string)
    ensures m == "Invalid labelSize. Use one of ['1x3', '2x4', '4x6']"
  {
    "Invalid labelSize. Use one of " + ListRepr(SizeKeys)
  }
}
