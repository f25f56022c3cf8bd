/**
 * The two `POST /generate` handlers without Flask: the label-size key is
 * checked against the table before anything is laid out, then the simple
 * service dispatches on the template and the auto-fit service fits the content
 * to the landscape page.
 */
module Handlers {
  import opened Outcome
  import opened PyText
  import opened PyLines
  import opened PyInt
  import TextWrap
  import opened Labels
  import opened AutoFit
  import opened SimpleLayout

  /**
   * The JSON value of the `labelSize` field: absent, a string, or a scalar of
   * another type (`null`, a number, a boolean). No value of another type is
   * equal to a key of the size table.
   */
  datatype SizeValue = Absent | Text(key: string) | NonText

  /**
   * The fields of a request body the handlers read. An absent template is
   * `None`; the values of `data` are already converted with `str`, and
   * `dataRepr` is `str(data)`.
   */
  datatype Request = Request(template: Option<string>, labelSize: SizeValue,
                             data: map<string, string>, dataRepr: string)

  /** An error answer: the HTTP status and the `error` message. */
  datatype Failure = Failure(status: int, message: string)

  /** What the simple service renders: the template and key it answers with, the page and the layout. */
  datatype SimpleJob = SimpleJob(template: string, labelSize: string, page: PageSize, plan: SimplePlan)

  /** What the auto-fit service renders: the key, the landscape page, the fit and its drawing calls. */
  datatype FitJob = FitJob(template: string, labelSize: string, page: PageSize, fitted: Fitted, draws: seq<Draw>)

  /** `payload.get(key, default)` for an optional field. */
  function OrDefault(field: Option<string>, default: string): string {
    match field
    case Some(v) => v
    case None => default
  }

  /**
   * `payload.get("labelSize", default)`: the given string, the default when the
   * field is absent, and nothing that is a string otherwise.
   */
  function SizeKey(field: SizeValue, default: string): Option<string> {
    match field
    case Absent => Some(default)
    case Text(key) => Some(key)
    case NonText => None
  }

  /** `str(data.get(key, default))`. */
  function DataField(data: map<string, string>, key: string, default: string): string {
    if key in data then data[key] else default
  }

  /** The heading line of the stub drawn for a template that is not implemented. */
  function StubHeading(template: string): string {
    "[" + template + "] template not implemented yet"
  }

  /**
   * The label-size check both handlers start with: the portrait page for a
   * string key in the table; any other key, and a value that is not a string,
   * gets a 400 answer naming the accepted keys.
   */
  function CheckSize(key: Option<string>): (r: Result<PageSize, Failure>)
    ensures r.Ok? <==> key.Some? && key.value in SizeKeys
    ensures r.Ok? ==> Some(r.value) == LabelSize(key.value)
    ensures r.Err? ==> r.error == Failure(400, "Invalid labelSize. Use one of ['1x3', '2x4', '4x6']")
  {
    match key
    case None => Err(Failure(400, InvalidSizeMessage()))
    case Some(k) =>
      match LabelSize(k)
      case Some(page) => Ok(page)
      case None => Err(Failure(400, InvalidSizeMessage()))
  }

  /**
   * `generate` of the simple service (app.py lines 82-119). An unknown label
   * size is answered with 400 and nothing is drawn. Otherwise the page comes
   * from the table; the `"simple"` template lays out the request's content,
   * alignments and font size, each defaulted as the handler defaults them, and
   * any other template lays out a stub naming it, followed by the data, at
   * 12pt, centred both ways.
   */
  function GenerateSimple(req: Request, defaultSize: string): (r: Result<SimpleJob, Failure>)
    ensures var key := SizeKey(req.labelSize, defaultSize);
      && (r.Ok? <==> key.Some? && key.value in SizeKeys)
      && (r.Err? ==> r.error == Failure(400, "Invalid labelSize. Use one of ['1x3', '2x4', '4x6']"))
      && (r.Ok? ==> Some(r.value.labelSize) == key && Some(r.value.page) == LabelSize(r.value.labelSize))
      && (r.Ok? ==> r.value.template == OrDefault(req.template, "simple"))
    ensures r.Ok? && r.value.template == "simple" ==>
      r.value.plan == SimpleLabel(r.value.page, DataField(req.data, "content", ""),
                                  DataField(req.data, "align", "center"),
                                  DataField(req.data, "textAlign", "center"),
                                  DataField(req.data, "fontSize", "12pt"))
    ensures r.Ok? && r.value.template != "simple" ==>
      r.value.plan == SimpleLabel(r.value.page, StubHeading(r.value.template) + "\n" + req.dataRepr,
                                  "center", "center", "12pt")
  {
    var key := SizeKey(req.labelSize, defaultSize);
    var template := OrDefault(req.template, "simple");
    match CheckSize(key)
    case Err(e) => Err(e)
    case Ok(page) =>
      var plan :=
        if template == "simple" then
          SimpleLabel(page, DataField(req.data, "content", ""), DataField(req.data, "align", "center"),
                      DataField(req.data, "textAlign", "center"), DataField(req.data, "fontSize", "12pt"))
        else
          SimpleLabel(page, StubHeading(template) + "\n" + req.dataRepr, "center", "center", "12pt");
      Ok(SimpleJob(template, key.value, page, plan))
  }

  /**
   * The stub heading never has surrounding whitespace, and it is free of line
   * boundaries whenever the template is.
   */
  lemma StubHeadingShape(template: string)
    ensures NoBreak(template) ==> NoBreak(StubHeading(template))
    ensures Strip(StubHeading(template)) == StubHeading(template)
  {
    var heading := StubHeading(template);
    if NoBreak(template) {
      forall k | 0 <= k < |heading| ensures !IsLineBreak(heading[k]) {
        if 1 <= k < 1 + |template| { assert heading[k] == template[k - 1]; }
      }
    }
    StripUnpadded(heading);
  }

  /**
   * A `labelSize` that is `null`, a number or a boolean is not the absent
   * field: both services answer it with 400, whatever the default size.
   */
  lemma NonTextSizeRejected(req: Request, defaultSize: string, measure: TextWrap.Measure)
    requires req.labelSize == NonText
    ensures GenerateSimple(req, defaultSize) == Err(Failure(400, "Invalid labelSize. Use one of ['1x3', '2x4', '4x6']"))
    ensures GenerateFit(req, defaultSize, measure) == Err(Failure(400, "Invalid labelSize. Use one of ['1x3', '2x4', '4x6']"))
  {
    assert SizeKey(req.labelSize, defaultSize) == None;
  }

  /**
   * What the stub of a template looks like on a page: 12pt, every line centred
   * on the page's vertical midline, and the block centred vertically (its first
   * and last baselines symmetric about half a line height above the middle).
   * When the template holds no line boundary, the first line drawn is the
   * heading.
   */
  ghost predicate StubShaped(page: PageSize, template: string, plan: SimplePlan) {
    && plan.size == 12
    && |plan.draws| >= 1
    && (forall i | 0 <= i < |plan.draws| :: plan.draws[i].x == page.width / 2.0 && plan.draws[i].anchor == Centre)
    && (plan.draws[0].y + plan.draws[|plan.draws| - 1].y) / 2.0 == page.height / 2.0 + LineHeight(12) / 2.0
    && (NoBreak(template) ==> plan.draws[0].text == StubHeading(template))
  }

  /** The stub's plan has that shape, for any template and any data. */
  lemma StubPlan(page: PageSize, template: string, dataRepr: string)
    ensures StubShaped(page, template, SimpleLabel(page, StubHeading(template) + "\n" + dataRepr, "center", "center", "12pt"))
  {
    var heading := StubHeading(template);
    var content := heading + "\n" + dataRepr;
    DefaultSizeParses();
    var plan := SimpleLabel(page, content, "center", "center", "12pt");
    CentredLayout(page, StripEach(ContentLines(content)), 12);
    if NoBreak(template) {
      StubHeadingShape(template);
      SplitLinesAfterNewline(heading, dataRepr);
      assert ContentLines(content)[0] == heading;
    }
  }

  /** The handler's default font size string reads as 12. */
  lemma DefaultSizeParses()
    ensures ParseFontSize("12pt") == 12
  {
    ParseFontSizeOfPoints(12);
    assert FormatNat(1) == "1";
    assert FormatNat(12) == "12";
    assert FormatInt(12) + "pt" == "12pt";
  }

  /**
   * Lines laid out `"center"` both ways: every line on the page's vertical
   * midline, and the block's first and last baselines symmetric about half a
   * line height above the middle.
   */
  lemma CentredLayout(page: PageSize, texts: seq<string>, size: int)
    requires |texts| >= 1
    ensures var draws := Layout(page, texts, "center", "center", size);
      && (forall i | 0 <= i < |draws| :: draws[i].x == page.width / 2.0 && draws[i].anchor == Centre)
      && (draws[0].y + draws[|draws| - 1].y) / 2.0 == page.height / 2.0 + LineHeight(size) / 2.0
  {
    LayoutCentredBaselines(page, texts, "center", "center", size);
  }

  /**
   * For a template other than `"simple"`, the request is laid out as the stub:
   * 12pt, centred both ways, and headed by the stub line when the template
   * holds no line boundary.
   */
  lemma StubFirstLine(req: Request, defaultSize: string)
    requires OrDefault(req.template, "simple") != "simple"
    requires var key := SizeKey(req.labelSize, defaultSize); key.Some? && key.value in SizeKeys
    ensures var r := GenerateSimple(req, defaultSize);
      r.Ok? && StubShaped(r.value.page, r.value.template, r.value.plan)
  {
    StubJob(req, defaultSize);
    var job := GenerateSimple(req, defaultSize).value;
    StubPlan(job.page, job.template, req.dataRepr);
  }

  /** A template other than `"simple"` with a known size is answered with the stub's plan. */
  lemma StubJob(req: Request, defaultSize: string)
    requires OrDefault(req.template, "simple") != "simple"
    requires var key := SizeKey(req.labelSize, defaultSize); key.Some? && key.value in SizeKeys
    ensures var r := GenerateSimple(req, defaultSize);
      && r.Ok?
      && r.value.plan == SimpleLabel(r.value.page, StubHeading(r.value.template) + "\n" + req.dataRepr,
                                     "center", "center", "12pt")
  {
  }

  /**
   * `generate` of the auto-fit service (otherapp.py lines 119-142). An unknown
   * label size is answered with 400 and nothing is drawn. Otherwise the
   * table's page is turned to landscape, the request's content (default empty)
   * is fitted to it, and the fitted lines are drawn centred.
   */
  function GenerateFit(req: Request, defaultSize: string, measure: TextWrap.Measure): (r: Result<FitJob, Failure>)
    ensures var key := SizeKey(req.labelSize, defaultSize);
      && (r.Ok? <==> key.Some? && key.value in SizeKeys)
      && (r.Err? ==> r.error == Failure(400, "Invalid labelSize. Use one of ['1x3', '2x4', '4x6']"))
      && (r.Ok? ==> Some(r.value.labelSize) == key && r.value.template == OrDefault(req.template, "simple"))
    ensures r.Ok? ==>
      var portrait := LabelSize(r.value.labelSize).value;
      && r.value.page == PageSize(portrait.height, portrait.width)
      && r.value.fitted == Fit(portrait, DataField(req.data, "content", ""), measure)
      && r.value.draws == Placement(r.value.page, r.value.fitted)
  {
    var key := SizeKey(req.labelSize, defaultSize);
    match CheckSize(key)
    case Err(e) => Err(e)
    case Ok(portrait) =>
      var content := DataField(req.data, "content", "");
      var page := Prepare(portrait, content, measure).page;
      var fitted := Fit(portrait, content, measure);
      Ok(FitJob(OrDefault(req.template, "simple"), key.value, page, fitted, Placement(page, fitted)))
  }
}
