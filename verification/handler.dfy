/** The HTTP layer of the report export (internal/http/handler.go): request validation in a fixed
    order, report-mode and date parsing, and the mapping of service errors to status codes. The gin
    context, JSON decoding, `uuid.Parse` and `time.Parse` are replaced by values and function
    parameters; the report service itself is a function parameter too. */
module Handler {
  import opened Wrappers
  import opened Text
  import opened Domain
  import opened ReportModel

  const StatusOk: int := 200
  const StatusBadRequest: int := 400
  const StatusUnauthorized: int := 401
  const StatusForbidden: int := 403
  const StatusNotFound: int := 404
  const StatusInternal: int := 500

  /** The fixed body of every 500 reply: nothing of the underlying error leaks to the caller. */
  const InternalMessage: string := "internal error"

  /** What the handler writes: a JSON error body with a status, or a file download. */
  datatype Reply =
    | ErrorReply(status: int, message: string)
    | FileReply(contentType: string, disposition: string, content: seq<bv8>)
  {
    function Status(): int {
      if ErrorReply? then status else StatusOk
    }
  }

  // ---------------------------------------------------------------------------
  // parseReportMode
  // ---------------------------------------------------------------------------

  /** `parseReportMode`: the trimmed, lower-cased text must be "contractor" or "landfill". */
  function ParseReportMode(raw: string): (r: Result<ReportMode, Error>)
    ensures r.Ok? <==> Lower(TrimSpace(raw)) == "contractor" || Lower(TrimSpace(raw)) == "landfill"
    ensures r.Ok? ==> (r.value == ContractorMode <==> Lower(TrimSpace(raw)) == "contractor")
    ensures r.Ok? ==> (r.value == LandfillMode <==> Lower(TrimSpace(raw)) == "landfill")
    ensures r.Err? ==> r.error == Sentinel(InvalidInput)
  {
    var key := Lower(TrimSpace(raw));
    if key == "contractor" then Ok(ContractorMode)
    else if key == "landfill" then Ok(LandfillMode)
    else Err(Sentinel(InvalidInput))
  }

  /** The lower-case key a mode's own text reads as. */
  function ModeKey(mode: ReportMode): string {
    if mode == ContractorMode then "contractor" else "landfill"
  }

  lemma ModeTextIsTrimmed(mode: ReportMode)
    requires mode == ContractorMode || mode == LandfillMode
    ensures TrimSpace(mode.text) == mode.text
  {
    assert !IsSpace(mode.text[0]) && !IsSpace(mode.text[|mode.text| - 1]);
  }

  /** Lower-casing a text of capital letters adds 32 to every code point. */
  lemma LowerOfCapitals(t: string, key: string)
    requires |t| == |key|
    requires forall k :: 0 <= k < |t| ==> 'A' <= t[k] <= 'Z' && key[k] as int == t[k] as int + 32
    ensures Lower(t) == key
  {
  }

  lemma ModeTextLowered(mode: ReportMode)
    requires mode == ContractorMode || mode == LandfillMode
    ensures Lower(mode.text) == ModeKey(mode)
  {
    LowerOfCapitals(mode.text, ModeKey(mode));
  }

  /** Each mode's own text parses back to the mode. */
  lemma ParseReportModeOfModeText(mode: ReportMode)
    requires mode == ContractorMode || mode == LandfillMode
    ensures ParseReportMode(mode.text) == Ok(mode)
  {
    ModeTextIsTrimmed(mode);
    ModeTextLowered(mode);
  }

  /** Upper-casing a rune never creates or removes white space. */
  lemma UpperRuneKeepsSpace(c: char)
    ensures IsSpace(UpperRune(c)) == IsSpace(c)
  {
  }

  lemma {:induction false} TrimLeftUpper(s: string)
    ensures TrimLeft(Upper(s), IsSpace) == Upper(TrimLeft(s, IsSpace))
    decreases |s|
  {
    if |s| > 0 {
      UpperRuneKeepsSpace(s[0]);
      assert Upper(s)[1..] == Upper(s[1..]);
      if IsSpace(s[0]) {
        TrimLeftUpper(s[1..]);
      }
    }
  }

  lemma {:induction false} TrimRightUpper(s: string)
    ensures TrimRight(Upper(s), IsSpace) == Upper(TrimRight(s, IsSpace))
    decreases |s|
  {
    if |s| > 0 {
      UpperRuneKeepsSpace(s[|s| - 1]);
      assert Upper(s)[..|s| - 1] == Upper(s[..|s| - 1]);
      if IsSpace(s[|s| - 1]) {
        TrimRightUpper(s[..|s| - 1]);
      }
    }
  }

  /** Trimming commutes with upper-casing. */
  lemma TrimSpaceUpper(s: string)
    ensures TrimSpace(Upper(s)) == Upper(TrimSpace(s))
  {
    TrimLeftUpper(s);
    TrimRightUpper(TrimLeft(s, IsSpace));
  }

  /** Lower-casing forgets an earlier upper-casing. */
  lemma LowerUpper(s: string)
    ensures Lower(Upper(s)) == Lower(s)
  {
    forall k | 0 <= k < |s| ensures Lower(Upper(s))[k] == Lower(s)[k] {
      var c := s[k];
      if 'a' <= c <= 'z' {
        assert 'A' <= UpperRune(c) <= 'Z';
      }
    }
  }

  /** The mode is read case-insensitively: upper-casing the request value changes nothing. */
  lemma ParseReportModeIgnoresCase(raw: string)
    ensures ParseReportMode(Upper(raw)) == ParseReportMode(raw)
  {
    TrimSpaceUpper(raw);
    LowerUpper(TrimSpace(raw));
  }

  // ---------------------------------------------------------------------------
  // handleError
  // ---------------------------------------------------------------------------

  /** An error chain has at most one sentinel kind, the one at its root. */
  lemma {:induction false} KindsExclusive(e: Error, k1: Kind, k2: Kind)
    requires Is(e, k1) && Is(e, k2)
    ensures k1 == k2
  {
    match e
    case Wrapped(cause, _) => KindsExclusive(cause, k1, k2);
    case _ =>
  }

  /** Consequently no error is of two of the kinds the handler distinguishes. */
  lemma OneKind(e: Error)
    ensures Is(e, PermissionDenied) ==> !Is(e, InvalidInput) && !Is(e, NotFound)
    ensures Is(e, InvalidInput) ==> !Is(e, NotFound)
  {
    if Is(e, PermissionDenied) && Is(e, InvalidInput) { KindsExclusive(e, PermissionDenied, InvalidInput); }
    if Is(e, PermissionDenied) && Is(e, NotFound) { KindsExclusive(e, PermissionDenied, NotFound); }
    if Is(e, InvalidInput) && Is(e, NotFound) { KindsExclusive(e, InvalidInput, NotFound); }
  }

  /** `handleError`: permission denied is 403, invalid input 400, not found 404 (checked in that
      order through `errors.Is`), and every other error, "no trips" included, a 500 that hides the
      error's text. */
  function HandleError(e: Error): (r: Reply)
    ensures r.ErrorReply?
    ensures r.status == StatusForbidden <==> Is(e, PermissionDenied)
    ensures r.status == StatusBadRequest <==> Is(e, InvalidInput)
    ensures r.status == StatusNotFound <==> Is(e, NotFound)
    ensures r.status == StatusInternal <==> !Is(e, PermissionDenied) && !Is(e, InvalidInput) && !Is(e, NotFound)
    ensures r.status == StatusInternal ==> r.message == InternalMessage
    ensures r.status != StatusInternal ==> r.message == Message(e)
  {
    OneKind(e);
    if Is(e, PermissionDenied) then ErrorReply(StatusForbidden, Message(e))
    else if Is(e, InvalidInput) then ErrorReply(StatusBadRequest, Message(e))
    else if Is(e, NotFound) then ErrorReply(StatusNotFound, Message(e))
    else ErrorReply(StatusInternal, InternalMessage)
  }

  /** Wrapping an error with `%w` never changes its status. */
  lemma WrappingKeepsStatus(e: Error, detail: string)
    ensures HandleError(Wrapped(e, detail)).status == HandleError(e).status
  {
  }

  /** A detailed invalid-input error is a 400 that shows its detail; "no trips" is an internal error. */
  lemma ServiceErrorReplies(detail: string)
    ensures HandleError(InvalidInputError(detail)) == ErrorReply(StatusBadRequest, "invalid input: " + detail)
    ensures HandleError(Sentinel(NoTrips)) == ErrorReply(StatusInternal, InternalMessage)
  {
  }

  // ---------------------------------------------------------------------------
  // parseDate
  // ---------------------------------------------------------------------------

  /** Go's `time.RFC3339` layout. */
  const Rfc3339: string := "2006-01-02T15:04:05Z07:00"

  /** The layouts `parseDate` tries, in order. */
  const DateLayouts: seq<string> := [Rfc3339, "2006-01-02", "2006-01-02T15:04:05"]

  /** The first layout of `layouts` under which `parse(layout, text)` succeeds, and its result. */
  function FirstLayoutParse(text: string, layouts: seq<string>, parse: (string, string) -> Option<Instant>)
    : (r: Option<Instant>)
    ensures r.Some? <==> exists i :: 0 <= i < |layouts| && parse(layouts[i], text).Some?
    ensures r.Some? ==> exists i :: 0 <= i < |layouts| && parse(layouts[i], text) == r &&
                                    forall j :: 0 <= j < i ==> parse(layouts[j], text).None?
    decreases |layouts|
  {
    if |layouts| == 0 then None
    else match parse(layouts[0], text)
      case Some(t) => Some(t)
      case None =>
        var r := FirstLayoutParse(text, layouts[1..], parse);
        assert forall i :: 1 <= i < |layouts| ==> layouts[i] == layouts[1..][i - 1];
        if r.Some? then
          var i :| 0 <= i < |layouts[1..]| && parse(layouts[1..][i], text) == r &&
                   forall j :: 0 <= j < i ==> parse(layouts[1..][j], text).None?;
          assert parse(layouts[i + 1], text) == r;
          r
        else r
  }

  /** `parseDate`: a blank value is rejected outright; otherwise the trimmed value is read with the
      first layout that accepts it. Every failure is the bare invalid-input error. */
  function ParseDate(raw: string, parse: (string, string) -> Option<Instant>): (r: Result<Instant, Error>)
    ensures IsBlank(raw) ==> r == Err(Sentinel(InvalidInput))
    ensures r.Err? ==> r.error == Sentinel(InvalidInput)
    ensures r.Ok? <==> !IsBlank(raw) && exists i :: 0 <= i < |DateLayouts| && parse(DateLayouts[i], TrimSpace(raw)).Some?
    ensures r.Ok? ==> Some(r.value) == FirstLayoutParse(TrimSpace(raw), DateLayouts, parse)
  {
    var text := TrimSpace(raw);
    if text == [] then Err(Sentinel(InvalidInput))
    else match FirstLayoutParse(text, DateLayouts, parse)
      case Some(t) => Ok(t)
      case None => Err(Sentinel(InvalidInput))
  }

  /** A blank date is refused before any layout is tried: the parser is never consulted. */
  lemma BlankDateTriesNoLayout(raw: string, p1: (string, string) -> Option<Instant>,
                               p2: (string, string) -> Option<Instant>)
    requires IsBlank(raw)
    ensures ParseDate(raw, p1) == ParseDate(raw, p2)
  {
  }

  // ---------------------------------------------------------------------------
  // exportActs / exportActsPDF
  // ---------------------------------------------------------------------------

  /** The JSON body of an export request; every field is required. */
  datatype ExportRequest = ExportRequest(mode: string, targetId: string, periodStart: string, periodEnd: string)

  /** What the handler passes to the report service. */
  datatype ReportInput = ReportInput(
    mode: ReportMode,
    targetId: Uuid,
    periodStart: Instant,
    periodEnd: Instant,
    principal: Principal)

  /** What the report service returns. */
  datatype ReportFile = ReportFile(fileName: string, content: seq<bv8>)

  /** The two export endpoints differ only in the service they call and the content type. */
  datatype Format = Spreadsheet | Pdf

  function ContentType(format: Format): string {
    match format
    case Spreadsheet => "application/vnd.openxmlformats-officedocument.spreadsheetml.sheet"
    case Pdf => "application/pdf"
  }

  function Disposition(fileName: string): string {
    "attachment; filename=\"" + fileName + "\""
  }

  /** The validator's message for one empty required field. */
  function RequiredMessage(field: string): string {
    "Key: 'exportActsRequest." + field + "' Error:Field validation for '" + field + "' failed on the 'required' tag"
  }

  /** The messages for the empty fields of a request, in declaration order. */
  function MissingFields(req: ExportRequest): (r: seq<string>)
    ensures r == [] <==> req.mode != "" && req.targetId != "" && req.periodStart != "" && req.periodEnd != ""
  {
    (if req.mode == "" then [RequiredMessage("Mode")] else [])
    + (if req.targetId == "" then [RequiredMessage("TargetID")] else [])
    + (if req.periodStart == "" then [RequiredMessage("PeriodStart")] else [])
    + (if req.periodEnd == "" then [RequiredMessage("PeriodEnd")] else [])
  }

  /** The checks before the service call, in the handler's order: the principal (401), the body,
      the mode, the target id, the start and the end (all 400). */
  function ValidateExport(principal: Option<Principal>, body: Result<ExportRequest, string>,
                          parseUuid: string -> Option<Uuid>, parseTime: (string, string) -> Option<Instant>)
    : (r: Result<ReportInput, Reply>)
    ensures principal.None? ==> r == Err(ErrorReply(StatusUnauthorized, "missing principal"))
    ensures principal.Some? && body.Err? ==> r == Err(ErrorReply(StatusBadRequest, body.error))
    ensures principal.Some? && body.Ok? && MissingFields(body.value) != [] ==>
              r == Err(ErrorReply(StatusBadRequest, Join(MissingFields(body.value), '\n')))
    ensures principal.Some? && body.Ok? && MissingFields(body.value) == [] && ParseReportMode(body.value.mode).Err? ==>
              r == Err(ErrorReply(StatusBadRequest, "invalid mode"))
    ensures principal.Some? && body.Ok? && MissingFields(body.value) == [] && ParseReportMode(body.value.mode).Ok?
            && parseUuid(TrimSpace(body.value.targetId)).None? ==>
              r == Err(ErrorReply(StatusBadRequest, "invalid target_id"))
    ensures principal.Some? && body.Ok? && MissingFields(body.value) == [] && ParseReportMode(body.value.mode).Ok?
            && parseUuid(TrimSpace(body.value.targetId)).Some? && ParseDate(body.value.periodStart, parseTime).Err? ==>
              r == Err(ErrorReply(StatusBadRequest, "invalid period_start"))
    ensures principal.Some? && body.Ok? && MissingFields(body.value) == [] && ParseReportMode(body.value.mode).Ok?
            && parseUuid(TrimSpace(body.value.targetId)).Some? && ParseDate(body.value.periodStart, parseTime).Ok?
            && ParseDate(body.value.periodEnd, parseTime).Err? ==>
              r == Err(ErrorReply(StatusBadRequest, "invalid period_end"))
    ensures r.Err? ==> r.error.ErrorReply? &&
                       (r.error.status == StatusUnauthorized <==> principal.None?) &&
                       (principal.Some? ==> r.error.status == StatusBadRequest)
    ensures r.Ok? <==> && principal.Some? && body.Ok? && MissingFields(body.value) == []
                       && ParseReportMode(body.value.mode).Ok?
                       && parseUuid(TrimSpace(body.value.targetId)).Some?
                       && ParseDate(body.value.periodStart, parseTime).Ok?
                       && ParseDate(body.value.periodEnd, parseTime).Ok?
    ensures r.Ok? ==> r.value == ReportInput(ParseReportMode(body.value.mode).value,
                                             parseUuid(TrimSpace(body.value.targetId)).value,
                                             ParseDate(body.value.periodStart, parseTime).value,
                                             ParseDate(body.value.periodEnd, parseTime).value,
                                             principal.value)
  {
    if principal.None? then Err(ErrorReply(StatusUnauthorized, "missing principal"))
    else if body.Err? then Err(ErrorReply(StatusBadRequest, body.error))
    else
      var req := body.value;
      var missing := MissingFields(req);
      if missing != [] then Err(ErrorReply(StatusBadRequest, Join(missing, '\n')))
      else match ParseReportMode(req.mode)
        case Err(_) => Err(ErrorReply(StatusBadRequest, "invalid mode"))
        case Ok(mode) =>
          match parseUuid(TrimSpace(req.targetId))
          case None => Err(ErrorReply(StatusBadRequest, "invalid target_id"))
          case Some(targetId) =>
            match ParseDate(req.periodStart, parseTime)
            case Err(_) => Err(ErrorReply(StatusBadRequest, "invalid period_start"))
            case Ok(start) =>
              match ParseDate(req.periodEnd, parseTime)
              case Err(_) => Err(ErrorReply(StatusBadRequest, "invalid period_end"))
              case Ok(end) => Ok(ReportInput(mode, targetId, start, end, principal.value))
  }

  /** `exportActs` and `exportActsPDF`: validate, call the report service, and either stream the
      file or map the service error. */
  function ExportActs(format: Format, principal: Option<Principal>, body: Result<ExportRequest, string>,
                      parseUuid: string -> Option<Uuid>, parseTime: (string, string) -> Option<Instant>,
                      generate: ReportInput -> Result<ReportFile, Error>): (r: Reply)
    ensures var v := ValidateExport(principal, body, parseUuid, parseTime);
            && (v.Err? ==> r == v.error)
            && (r.FileReply? <==> v.Ok? && generate(v.value).Ok?)
            && (r.FileReply? ==> r.contentType == ContentType(format) &&
                                 r.disposition == Disposition(generate(v.value).value.fileName) &&
                                 r.content == generate(v.value).value.content)
            && (v.Ok? && generate(v.value).Err? ==> r == HandleError(generate(v.value).error))
  {
    match ValidateExport(principal, body, parseUuid, parseTime)
    case Err(reply) => reply
    case Ok(input) =>
      match generate(input)
      case Err(e) => HandleError(e)
      case Ok(file) => FileReply(ContentType(format), Disposition(file.fileName), file.content)
  }

  /** The report service is reached only by a valid request: when validation fails, the reply is the
      same whatever the service would have done. */
  lemma InvalidRequestNeverReachesService(format: Format, principal: Option<Principal>,
                                          body: Result<ExportRequest, string>,
                                          parseUuid: string -> Option<Uuid>,
                                          parseTime: (string, string) -> Option<Instant>,
                                          g1: ReportInput -> Result<ReportFile, Error>,
                                          g2: ReportInput -> Result<ReportFile, Error>)
    requires ValidateExport(principal, body, parseUuid, parseTime).Err?
    ensures ExportActs(format, principal, body, parseUuid, parseTime, g1) ==
            ExportActs(format, principal, body, parseUuid, parseTime, g2)
  {
  }
}
