# Label layout of the print-farm generator, in Dafny

The print-farm generator is a small HTTP service. It renders short text onto one of three
fixed label sizes as a one-page PDF. It comes in two variants:

- `print-brain/app.py` draws the content at a fixed font size. It parses a font-size string
  such as `"12pt"`, cuts the content into lines, and places them by an `align` and a
  `textAlign` keyword.
- `print-brain/otherapp.py` turns the label to landscape and fits the content as large as it
  can. A greedy word wrapper packs the words into at most three lines. A fixed 22-pass
  bisection over the font size looks for the largest size whose wrap places every word and
  whose lines also fit the usable height.

This project models both layouts as pure functions and proves what they guarantee. It also
models the request handlers that check the label size and choose the layout. The modules
are:

| module | file | what it holds |
|---|---|---|
| `Outcome` | `outcome.dfy` | `Option` and `Result` |
| `PyText` | `pytext.dfy` | Python's `str.isspace`, `str.split()`, `" ".join` and `str.strip()` |
| `PyLines` | `pylines.dfy` | Python's `str.splitlines()`, with every line boundary Python recognises |
| `PyInt` | `pyint.dfy` | `str.replace(pat, "")`, `int(str)` for an optional sign and ASCII digits, and `str(int)` |
| `TextWrap` | `textwrap.dfy` | `_wrap_text_to_lines` |
| `Labels` | `labels.dfy` | the label-size table, the 400 message, and stacked drawing calls |
| `AutoFit` | `fit.dfy` | the fit of `make_pdf_big_bold_landscape`: setup, bisection, placement |
| `SimpleLayout` | `simple.dfy` | `make_pdf_simple` without the canvas |
| `Handlers` | `handlers.dfy` | the two `POST /generate` handlers |

The text-width call of the PDF library is a parameter `measure(s, size)` about which nothing
is assumed. One lemma, `AutoFit.LongestWordFitsBelowUpper`, is the exception: it assumes a
width that scales linearly with the size. A layout's result is the list of drawing calls it
would make: `Draw(x, y, text, anchor)`.

The wrapper has two quirks. Both are modelled as written and stated as lemmas:

- When the first word alone is too wide, the wrapper opens a new line for it. The result
  then starts with an empty line (`TextWrap.WrapFirstLine`).
- A line opened with a word is never measured, so a successful wrap can still hold a
  one-word line wider than the limit (`TextWrap.WrapOpenedLineUnmeasured`).

Two constants follow the code exactly. An inch is the PDF library's 72 points
(`Labels.Inch`). Each usable side of the auto-fit page is `max(side - 2 * margin, 1)`, so it
is at least one point even on a page narrower than both margins (`AutoFit.Usable`).

## Model

| member | source | states |
|---|---|---|
| TextWrap.Wrap | print-brain/otherapp.py:26-43 | text without words gives `([""], True)`; otherwise between one and `max_lines` lines (at least one line even when `max_lines < 1`), on success and on the early return alike |
| TextWrap.WrapPlacesWords | print-brain/otherapp.py:31-43 | on success the words of the lines, in order, are exactly the words of the text; on failure they are a strict prefix, the next word did not fit after the last line, and no further line was allowed |
| TextWrap.WrapLineShape | print-brain/otherapp.py:33-41 | words are never split: every line is its own words joined by single spaces, and every line after the first holds a word |
| TextWrap.WrapLinesFit | print-brain/otherapp.py:33-36 | a line that grew by joining (two or more words, or the non-empty first line) measures within the width limit |
| TextWrap.WrapPrefixesFit | print-brain/otherapp.py:33-36 | the wrap is greedy: every candidate a line grew through measured within the width, that is every leading run of its words from the first word (first line) or the first two words (later lines) |
| TextWrap.WrapBreaksForced | print-brain/otherapp.py:37-41 | a new line starts only when the first word of the next line, joined to the current line, would exceed the width |
| TextWrap.WrapFirstLine | print-brain/otherapp.py:31-41 | the first line is empty exactly when the first word alone is too wide |
| TextWrap.WrapOpenedLineUnmeasured | print-brain/otherapp.py:37-43 | a concrete wrap that succeeds with an empty first line and a second line wider than the limit |
| TextWrap.WrapGreedyExample | print-brain/otherapp.py:31-43 | a concrete wrap where greed decides: with only `"a b"` too wide, `"a b c"` becomes `"a"` and `"b c"` although the whole text on one line would fit |
| TextWrap.WrapGroups | print-brain/otherapp.py:32-43 | the loop keeps the line state well formed, never rewrites a finished line, and adds a line only while `max_lines` allows it |
| TextWrap.WrapGroupsPlaces | print-brain/otherapp.py:32-43 | the loop places every remaining word on success, or stops after a prefix at a word that neither fits nor may open a line |
| PyText.Strip | print-brain/otherapp.py:58 | `strip()` keeps the infix from the first to the last non-space character; it is empty exactly for blank strings |
| PyText.WordsOfStrip | print-brain/otherapp.py:58-63 | stripping never changes the words of a string |
| PyText.WordsOfJoin | print-brain/otherapp.py:33 | splitting words joined by single spaces gives the same words back |
| PyText.WordsEmptyIffAllSpace | print-brain/otherapp.py:27-29 | a string has no words exactly when it is all whitespace |
| PyText.Words | print-brain/otherapp.py:27 | `split()` yields only words: non-empty and free of whitespace (with `WordsAroundSpace` and `WordsOfWord`: the maximal runs; with `WordsEmptyIffAllSpace`: none for blank text) |
| PyText.WordsAroundSpace | print-brain/otherapp.py:27 | any whitespace character separates words: `split()` of `a + c + b` with `c` whitespace is the words of `a` followed by the words of `b` |
| PyText.WordsOfWord | print-brain/otherapp.py:27 | a run of non-whitespace characters splits to itself, so together with `WordsAroundSpace` the words are exactly the maximal runs |
| PyText.JoinWords | print-brain/otherapp.py:33 | `" ".join(ws)` adds exactly one character between each pair of neighbouring words; `WordsOfJoin` is its inverse |
| PyLines.SplitLines | print-brain/app.py:37 | no line of `splitlines()` holds a line boundary, and it gives no lines exactly for the empty string |
| PyLines.SplitLinesAfterCrLf | print-brain/app.py:37 | a `"\r\n"` pair ends a line exactly as a single `"\n"` does: one boundary, not two |
| PyLines.SplitLinesOfJoined | print-brain/app.py:37 | `splitlines()` undoes a `"\n".join` of boundary-free lines whose last line is not empty |
| PyLines.SplitLinesFinalNewline | print-brain/app.py:37 | a final `"\n"` after text that does not end in a line boundary adds no line |
| AutoFit.Usable | print-brain/otherapp.py:51-53 | the usable extent of a side is at least one point and at least the side minus both margins |
| AutoFit.Normalise | print-brain/otherapp.py:58 | the normalised text is non-empty and unpadded; its words are the content's words, or `LABEL` when the content has none |
| AutoFit.NormaliseBlank | print-brain/otherapp.py:58 | the value of `content.strip() or "LABEL"`: the placeholder exactly for blank content, the stripped content otherwise |
| AutoFit.LongestIndex | print-brain/otherapp.py:63 | `max(words, key=len)` picks a longest word, and the first of several longest ones |
| AutoFit.LongestWord | print-brain/otherapp.py:63 | the width bound is computed from the first longest word of the text: no word is longer and every earlier word is strictly shorter, as `max(words, key=len)` picks; `LABEL` when there are no words |
| AutoFit.InitialBound | print-brain/otherapp.py:64-67 | the unit width is `max(stringWidth(longest, 1), 1)`: at least 1 and the measured width, and one of the two; the bound is at least 6, above 6 fits the longest word's unit width into the usable width and 1.05 line heights into the usable height, and always reaches one of the two limits |
| AutoFit.UpperBound | print-brain/otherapp.py:65-67 | the bound is at least 6, above 6 it is within both the width quotient and the height quotient, and it always reaches one of them; together this is `max(min(avail_w / lw_base, avail_h / 1.05), 6)` |
| AutoFit.UpperBoundValue | print-brain/otherapp.py:65-67 | for any `q` that is the smaller of the two quotients (stated without division), the bound is `max(q, 6)` |
| AutoFit.Prepare | print-brain/otherapp.py:48-67 | the page is swapped to landscape, the usable extents are exactly `max(side - 2 * margin, 1)` of the landscape sides, the text is normalised, the word is the first longest one, and the bound is computed from it |
| AutoFit.LongestWordFitsBelowUpper | print-brain/otherapp.py:62-67 | for a width linear in the size, the longest word fits the usable width at every size up to a bound above 6 |
| AutoFit.AttemptsJudge | print-brain/otherapp.py:74-87 | the search's accept and reject tests are the wrap at the size with the height check `size * 1.1 * lines <= avail_h` |
| AutoFit.Step | print-brain/otherapp.py:71-87 | one pass halves the interval, moves its ends only inwards, records only accepted sizes, lowers the upper end only to a rejected size, and keeps the loop invariant |
| AutoFit.Bisect | print-brain/otherapp.py:71-87 | the remaining passes leave the interval ordered, divide its width by `2^passes`, never lower the best size and keep the loop invariant |
| AutoFit.Initial | print-brain/otherapp.py:69-71 | the search starts with 22 passes to run, the interval from 6 to the upper bound, and the minimum size as the best with the whole text as its one line |
| AutoFit.InitialSound | print-brain/otherapp.py:69-71 | the starting state satisfies the loop invariant for any attempt, once the bound is at least 6 |
| AutoFit.Passes | print-brain/otherapp.py:69-87 | for any attempt, the 22 passes end in a state that keeps the invariant and whose interval has width `(upper - 6) / 4194304` |
| AutoFit.Search22 | print-brain/otherapp.py:69-87 | after 22 passes from `[6, upper]` with the wrapper's own test the invariant holds and the width is `(upper - 6) / 4194304` |
| AutoFit.SearchResolution | print-brain/otherapp.py:69-87 | the final width is `(upper - 6) / 4194304`, the best size is the lower end, and the upper end is the initial bound or a rejected size |
| AutoFit.Fit | print-brain/otherapp.py:48-87 | `6 <= size <= upper` and one to three lines; a size above 6 has lines that are a complete wrap whose stack fits the usable height; otherwise the lines are such a wrap or the whole text as one line |
| AutoFit.FitResolution | print-brain/otherapp.py:69-87 | the fitted size is the lower end of the search's final interval |
| AutoFit.Placement | print-brain/otherapp.py:89-98 | one centred drawing call per line at the page's midline; the first baseline is `(height + block) / 2 - 0.75` line heights and each next one is one line height lower |
| AutoFit.PlacementCentred | print-brain/otherapp.py:91-98 | the first and last baselines are symmetric about a quarter line height below the page's middle |
| Labels.LabelSize | print-brain/app.py:14-18 | exactly the three keys have a page; each portrait page is narrower than tall and measures the key's inches at 72 points per inch |
| Labels.InvalidSizeMessage | print-brain/app.py:90-91 | the 400 message lists the keys as Python prints the key list |
| Labels.Stack | print-brain/app.py:50-61 | the loop that draws a line and then lowers `y` by one line height puts line `i` at `y0 - i * lineHeight`, at the same anchor, in order, one call per line |
| Labels.StackSpacing | print-brain/otherapp.py:96-98 | consecutive drawn lines are exactly one line height apart |
| PyInt.ParseFormatRoundTrip | print-brain/app.py:28 | `int(str(n)) == n` for every integer |
| PyInt.RemoveAllKeepsPrefix | print-brain/app.py:28 | `replace("pt", "")` leaves a prefix without `p` untouched |
| PyInt.ParseInt | print-brain/app.py:28 | a parse succeeds exactly for an optional sign followed by a run of digits; the sign decides the sign of the value (with `ParseIntPlusAndZero`, `ParseIntNegate` and `ParseFormatRoundTrip`: the value of every accepted string) |
| PyInt.ParseIntNegate | print-brain/app.py:28 | a minus sign negates the value of a run of digits, so `"-0"` gives 0 and `"-007"` gives -7 |
| PyInt.ParseIntPlusAndZero | print-brain/app.py:28 | a leading `+` or a leading `0` does not change the value of a run of digits |
| PyInt.RemoveAll | print-brain/app.py:28 | `replace(pat, "")` never lengthens a string (with `RemoveAllFrom`: every character left was in the original; `RemoveAllAbsent` and `RemoveAllLeftmost` pin the result) |
| PyInt.RemoveAllAbsent | print-brain/app.py:28 | a string in which `pat` occurs nowhere is returned unchanged |
| PyInt.RemoveAllLeftmost | print-brain/app.py:28 | the leftmost occurrence is deleted and the scan resumes after it: `replace` on `a + pat + b`, where the first occurrence of `pat` starts right after `a`, gives `a` followed by `b` with its occurrences deleted (so `"2pt4"` becomes `"24"`) |
| PyInt.FormatInt | print-brain/app.py:28 | `str(n)` is a non-empty run of digits with an optional minus sign and no `p`; `ParseFormatRoundTrip` is its inverse |
| SimpleLayout.ParseFontSize | print-brain/app.py:27-30 | a size string without any digit falls back to 12 |
| SimpleLayout.ParseFontSizeOfPoints | print-brain/app.py:27-30 | `str(n) + "pt"` parses back to `n` |
| SimpleLayout.ParseFontSizeOfBare | print-brain/app.py:27-30 | a bare `str(n)` parses back to `n` |
| SimpleLayout.ContentLines | print-brain/app.py:37 | non-empty content gives its `splitlines()`; empty content gives `["Label Content"]`; there is always at least one line and no line holds a line boundary |
| SimpleLayout.ContentLinesOfTerminated | print-brain/app.py:37 | newline-terminated lines come back one for one |
| SimpleLayout.ContentLinesOfJoined | print-brain/app.py:37 | lines joined by `"\n"` come back one for one when the last line is not empty (content such as `"a\nb"`) |
| SimpleLayout.ContentLinesFinalNewline | print-brain/app.py:37 | a final newline after text that does not already end in a line boundary adds no line |
| SimpleLayout.StartY | print-brain/app.py:40-47 | `start` hangs the first baseline 1.5 line heights below the top, `end` puts it at the block height plus one line, anything else centres `(height + block) / 2` |
| SimpleLayout.LineAnchor | print-brain/app.py:52-60 | `left` anchors at 0.2 inch, `right` ends 0.2 inch from the right edge, anything else centres on `width / 2` |
| SimpleLayout.Layout | print-brain/app.py:39-61 | one drawing call per line, in order, at the anchor `textAlign` selects; line `i` sits `i` line heights of `1.25 * size` below the start `align` selects |
| SimpleLayout.LayoutSpacing | print-brain/app.py:61 | each drawn line is exactly one line height below the previous one |
| SimpleLayout.LayoutEndBaseline | print-brain/app.py:44-45 | with `end` the last baseline is two line heights above the bottom edge |
| SimpleLayout.LayoutCentredBaselines | print-brain/app.py:46-47 | a centred block's first and last baselines are symmetric about half a line height above the page's middle |
| SimpleLayout.SimpleLabel | print-brain/app.py:25-61 | the parsed size; one drawing call per content line, at least one, each drawing its line stripped |
| Handlers.CheckSize | print-brain/app.py:90-93 | a key passes exactly when it is a string in the table and then gives the table's page; any other key, and a missing string (a `null`, number or boolean `labelSize`), gives 400 with the message |
| Handlers.GenerateSimple | print-brain/app.py:82-119 | an unknown label size is a 400 and nothing is laid out; otherwise the table's page; the `simple` template lays out the request's fields with their defaults, and any other template lays out its stub heading, a newline and `str(data)`, centred both ways at `"12pt"` |
| Handlers.StubHeadingShape | print-brain/app.py:115 | the stub heading never has surrounding whitespace, and it has no line boundary whenever the template has none |
| Handlers.NonTextSizeRejected | print-brain/app.py:87-91 | a `labelSize` that is `null`, a number or a boolean is not treated as absent: both services answer 400 with the message, whatever the default |
| Handlers.StubPlan | print-brain/app.py:110-119 | for any template and data, the stub is drawn at 12pt, every line on the page's vertical midline, the block centred vertically; when the template has no line boundary its first line is the heading |
| Handlers.StubFirstLine | print-brain/app.py:82-119 | a request for any template other than `simple` with a known size is answered with that stub shape; the heading is the first line for templates without line boundaries |
| Handlers.GenerateFit | print-brain/otherapp.py:119-142 | an unknown label size is a 400 and nothing is laid out; otherwise the table's page turned to landscape with the content fitted to it and drawn centred |

## Left out

- HTTP and server plumbing are not modelled. This covers routes, JSON, CORS, the output
  directory, timestamped file names and the response body. The environment default for the
  label size is a parameter of the handlers.
- The PDF library is not modelled. Canvas, fonts and drawing are replaced by the list of
  drawing calls, and `stringWidth` is the parameter `measure`.
- Sizes and widths are Dafny `real`s, so floating-point rounding in the bisection is not modelled.
- The request's `copies` is converted with `int()` before the label-size check. A value
  `int()` cannot convert, such as a non-numeric string or `null`, fails the request there;
  a float such as `2.5` is truncated and passes. The value is never used otherwise (no
  printing happens), so it is not modelled.
- The request's `data` is a map of already `str`-converted values. `str(data)` for the stub is
  a parameter (`dataRepr`), and the template is taken to be a string. The label size is a
  string, absent, or another JSON scalar (`null`, a number, a boolean); a scalar of another type is
  not the absent field and is answered with 400. A list or an object as `labelSize` cannot be looked
  up in the size table: Python raises `TypeError` and Flask answers 500. That case is not modelled.
- `ParseInt` accepts only an optional sign and ASCII digits. Underscores, non-ASCII digits and
  the whitespace `int()` itself would strip are left out. Whitespace is already removed by
  `strip()` before the parse.
- SimpleLayout.ParseFontSize: its contract gives the fallback for strings without digits, and
  its round-trip lemmas give the value for `str(n)` with or without `pt`. It is not a
  closed-form statement of `int()` on every string.
- AutoFit.Fit: the largest accepted size is promised only up to the bisection's resolution
  (`AutoFit.SearchResolution`). The acceptance test is not monotone in the size, so no global
  maximality is claimed.
- AutoFit.LongestWordFitsBelowUpper: the width bound is a heuristic. It is proved only for a
  measure linear in the size.
- Printing to a backend with fallback does not exist in this code: both handlers ignore
  `copies`. Nothing about printing is modelled.
- The web front end's proxy and endpoint listing are not part of this model.
- Monotonicity of the fit in the available area is not promised by the code and is not stated.
