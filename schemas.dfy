/** The validated shapes: `AnalysisResult`, the payload the model must return,
    `AnalyzeRequest` and `AnalyzeResponse`. Validation is a function from the field map
    to a typed value or the list of every violated field, in field order, as pydantic
    reports them. */
module Schemas {
  import opened Common

  datatype Status = Complete | Partial | Unknown

  datatype AnalysisResult = AnalysisResult(
    summary: string,
    completenessStatus: Status,
    missingPoints: seq<string>,
    evidence: seq<string>,
    confidence: real)

  /** Why a field was rejected. */
  datatype Reason =
    | Missing                    // a required field is absent
    | WrongType                  // the value is not of the field's type
    | TooShort                   // below `min_length` / `min_items`
    | TooLong                    // above `max_length`
    | NotAllowed                 // not one of the `Literal` values
    | OutOfRange                 // outside `ge` / `le`
    | MissingPointsWhenComplete  // `validate_missing_points_with_status`
    | ResultRequired             // `validate_result_with_success`

  /** The validated fields, each known by its JSON key `Key(f)`. */
  datatype Field = SummaryField | StatusField | MissingPointsField | EvidenceField | ConfidenceField
                 | DocumentTextField | ResultField

  function Key(f: Field): string {
    match f
    case SummaryField => "summary"
    case StatusField => "completeness_status"
    case MissingPointsField => "missing_points"
    case EvidenceField => "evidence"
    case ConfidenceField => "confidence"
    case DocumentTextField => "document_text"
    case ResultField => "result"
  }

  datatype FieldError = FieldError(field: Field, reason: Reason)

  const SummaryMinLength: nat := 10
  const SummaryMaxLength: nat := 500
  const EvidenceMinItems: nat := 1
  const DocumentMinLength: nat := 20
  const DocumentMaxLength: nat := 10000

  /** Every constraint of `AnalysisResult`, its one cross-field rule included. */
  predicate WellFormed(r: AnalysisResult) {
    && SummaryMinLength <= |r.summary| <= SummaryMaxLength
    && |r.evidence| >= EvidenceMinItems
    && 0.0 <= r.confidence <= 1.0
    && (r.completenessStatus == Complete ==> r.missingPoints == [])
  }

  function StatusName(s: Status): string {
    match s
    case Complete => "complete"
    case Partial => "partial"
    case Unknown => "unknown"
  }

  // ---------------------------------------------------------------------------
  // One validator per field
  // ---------------------------------------------------------------------------

  /** `summary: str`, 10 to 500 characters, required. */
  function ValidateSummary(v: Option<Json>): (r: Result<string, Reason>)
    ensures r.Ok? <==> v.Some? && v.value.JString? && SummaryMinLength <= |v.value.s| <= SummaryMaxLength
    ensures r.Ok? ==> r.value == v.value.s
    ensures v.None? ==> r == Err(Missing)
  {
    match v
    case None => Err(Missing)
    case Some(JString(s)) =>
      if |s| < SummaryMinLength then Err(TooShort)
      else if |s| > SummaryMaxLength then Err(TooLong)
      else Ok(s)
    case Some(_) => Err(WrongType)
  }

  /** `completeness_status: Literal["complete", "partial", "unknown"]`, required. */
  function ValidateStatus(v: Option<Json>): (r: Result<Status, Reason>)
    ensures r.Ok? <==> v.Some? && v.value.JString? && v.value.s in {"complete", "partial", "unknown"}
    ensures r.Ok? ==> StatusName(r.value) == v.value.s
    ensures v.None? ==> r == Err(Missing)
  {
    match v
    case None => Err(Missing)
    case Some(JString(s)) =>
      if s == "complete" then Ok(Complete)
      else if s == "partial" then Ok(Partial)
      else if s == "unknown" then Ok(Unknown)
      else Err(NotAllowed)
    case Some(_) => Err(NotAllowed)
  }

  /** A JSON array all of whose items are strings, as `List[str]`. */
  function StringList(items: seq<Json>): (r: Option<seq<string>>)
    ensures r.Some? <==> forall i :: 0 <= i < |items| ==> items[i].JString?
    ensures r.Some? ==> |r.value| == |items| && forall i :: 0 <= i < |items| ==> r.value[i] == items[i].s
    decreases |items|
  {
    if items == [] then Some([])
    else if !items[0].JString? then None
    else
      match StringList(items[1..])
      case None => None
      case Some(rest) => Some([items[0].s] + rest)
  }

  /** `missing_points: List[str]`, default `[]`. A given list runs through the validator,
      which sees the status only when the status itself passed. */
  function ValidateMissingPoints(v: Option<Json>, status: Result<Status, Reason>): (r: Result<seq<string>, Reason>)
    ensures v.None? ==> r == Ok([])
    ensures r == Err(MissingPointsWhenComplete) <==>
      && v.Some? && v.value.JArray? && StringList(v.value.items).Some?
      && status == Ok(Complete) && |v.value.items| > 0
  {
    match v
    case None => Ok([])
    case Some(JArray(items)) =>
      (match StringList(items)
       case None => Err(WrongType)
       case Some(points) =>
         if status.Ok? && status.value == Complete && |points| > 0 then Err(MissingPointsWhenComplete)
         else Ok(points))
    case Some(_) => Err(WrongType)
  }

  /** `evidence: List[str]`, at least one item, required. */
  function ValidateEvidence(v: Option<Json>): (r: Result<seq<string>, Reason>)
    ensures r.Ok? <==> v.Some? && v.value.JArray? && StringList(v.value.items).Some? && |v.value.items| >= EvidenceMinItems
    ensures r.Ok? ==> r.value == StringList(v.value.items).value
    ensures v.None? ==> r == Err(Missing)
  {
    match v
    case None => Err(Missing)
    case Some(JArray(items)) =>
      (match StringList(items)
       case None => Err(WrongType)
       case Some(ev) => if |ev| < EvidenceMinItems then Err(TooShort) else Ok(ev))
    case Some(_) => Err(WrongType)
  }

  /** The float a JSON value stands for in lax mode: a number, a bool, or a string that
      `parseFloat` reads as a number. */
  function AsFloat(v: Json, parseFloat: string -> Option<real>): Option<real>
  {
    match v
    case JNumber(x) => Some(x)
    case JBool(b) => Some(if b then 1.0 else 0.0)
    case JString(s) => parseFloat(s)
    case _ => None
  }

  /** `confidence: float`, `0.0 <= confidence <= 1.0`, required. */
  function ValidateConfidence(v: Option<Json>, parseFloat: string -> Option<real>): (r: Result<real, Reason>)
    ensures r.Ok? <==> v.Some? && AsFloat(v.value, parseFloat).Some? && 0.0 <= AsFloat(v.value, parseFloat).value <= 1.0
    ensures r.Ok? ==> r.value == AsFloat(v.value, parseFloat).value
    ensures v.None? ==> r == Err(Missing)
  {
    match v
    case None => Err(Missing)
    case Some(j) =>
      match AsFloat(j, parseFloat)
      case None => Err(WrongType)
      case Some(x) => if 0.0 <= x <= 1.0 then Ok(x) else Err(OutOfRange)
  }

  // ---------------------------------------------------------------------------
  // AnalysisResult(**fields)
  // ---------------------------------------------------------------------------

  function Get(fields: map<string, Json>, name: string): Option<Json> {
    if name in fields then Some(fields[name]) else None
  }

  /** The error of one field's outcome, if any. */
  function ErrorOf<T>(name: Field, r: Result<T, Reason>): seq<FieldError> {
    if r.Err? then [FieldError(name, r.error)] else []
  }

  /** The outcome of every field, in declaration order; extra keys are ignored. */
  datatype Outcomes = Outcomes(
    summary: Result<string, Reason>,
    status: Result<Status, Reason>,
    missingPoints: Result<seq<string>, Reason>,
    evidence: Result<seq<string>, Reason>,
    confidence: Result<real, Reason>)

  function FieldOutcomes(fields: map<string, Json>, parseFloat: string -> Option<real>): Outcomes {
    var status := ValidateStatus(Get(fields, Key(StatusField)));
    Outcomes(
      ValidateSummary(Get(fields, Key(SummaryField))),
      status,
      ValidateMissingPoints(Get(fields, Key(MissingPointsField)), status),
      ValidateEvidence(Get(fields, Key(EvidenceField))),
      ValidateConfidence(Get(fields, Key(ConfidenceField)), parseFloat))
  }

  /** Every failed field, in declaration order. */
  function Errors(o: Outcomes): seq<FieldError> {
    ErrorOf(SummaryField, o.summary) + ErrorOf(StatusField, o.status)
      + ErrorOf(MissingPointsField, o.missingPoints) + ErrorOf(EvidenceField, o.evidence)
      + ErrorOf(ConfidenceField, o.confidence)
  }

  /** `AnalysisResult(**fields)`: the result when every field passes, else the error list. */
  function ValidateAnalysis(fields: map<string, Json>, parseFloat: string -> Option<real>): (r: Result<AnalysisResult, seq<FieldError>>)
    ensures r.Err? ==> r.error == Errors(FieldOutcomes(fields, parseFloat)) && r.error != []
    ensures var o := FieldOutcomes(fields, parseFloat);
      && (r.Ok? <==> o.summary.Ok? && o.status.Ok? && o.missingPoints.Ok? && o.evidence.Ok? && o.confidence.Ok?)
      && (r.Ok? ==> r.value == AnalysisResult(o.summary.value, o.status.value, o.missingPoints.value,
                                              o.evidence.value, o.confidence.value))
  {
    var o := FieldOutcomes(fields, parseFloat);
    if o.summary.Ok? && o.status.Ok? && o.missingPoints.Ok? && o.evidence.Ok? && o.confidence.Ok? then
      Ok(AnalysisResult(o.summary.value, o.status.value, o.missingPoints.value, o.evidence.value, o.confidence.value))
    else
      Err(Errors(o))
  }

  /** An accepted payload satisfies every constraint of `AnalysisResult`. */
  lemma AcceptedIsWellFormed(fields: map<string, Json>, parseFloat: string -> Option<real>)
    requires ValidateAnalysis(fields, parseFloat).Ok?
    ensures WellFormed(ValidateAnalysis(fields, parseFloat).value)
  {
    var o := FieldOutcomes(fields, parseFloat);
    var r := ValidateAnalysis(fields, parseFloat).value;
    if r.completenessStatus == Complete {
      assert o.status == Ok(Complete);
      assert o.missingPoints != Err(MissingPointsWhenComplete);
    }
  }

  /** An accepted result is read off the payload: the summary and the status are the
      payload's strings, the two lists are its string arrays (no list of missing points
      meaning none), and the confidence is the float its value stands for. */
  lemma AcceptedIsPayload(fields: map<string, Json>, parseFloat: string -> Option<real>)
    requires ValidateAnalysis(fields, parseFloat).Ok?
    ensures var r := ValidateAnalysis(fields, parseFloat).value;
      && Get(fields, Key(SummaryField)) == Some(JString(r.summary))
      && Get(fields, Key(StatusField)) == Some(JString(StatusName(r.completenessStatus)))
      && (Get(fields, Key(MissingPointsField)).None? ==> r.missingPoints == [])
      && (Get(fields, Key(MissingPointsField)).Some? ==>
            Get(fields, Key(MissingPointsField)).value.JArray? &&
            StringList(Get(fields, Key(MissingPointsField)).value.items) == Some(r.missingPoints))
      && Get(fields, Key(EvidenceField)).Some? && Get(fields, Key(EvidenceField)).value.JArray?
      && StringList(Get(fields, Key(EvidenceField)).value.items) == Some(r.evidence)
      && Get(fields, Key(ConfidenceField)).Some?
      && AsFloat(Get(fields, Key(ConfidenceField)).value, parseFloat) == Some(r.confidence)
  {
    var o := FieldOutcomes(fields, parseFloat);
    var v := Get(fields, Key(MissingPointsField));
    if v.Some? {
      assert o.missingPoints.Ok?;
      assert v.value.JArray? && StringList(v.value.items).Some?;
    }
  }

  /** A field appears in the error list exactly when its own validator rejects it, with
      that validator's reason: every violated field is reported, not just the first. */
  lemma ErrorsListEveryField(o: Outcomes)
    ensures forall reason :: FieldError(SummaryField, reason) in Errors(o) <==> o.summary == Err(reason)
    ensures forall reason :: FieldError(StatusField, reason) in Errors(o) <==> o.status == Err(reason)
    ensures forall reason :: FieldError(MissingPointsField, reason) in Errors(o) <==> o.missingPoints == Err(reason)
    ensures forall reason :: FieldError(EvidenceField, reason) in Errors(o) <==> o.evidence == Err(reason)
    ensures forall reason :: FieldError(ConfidenceField, reason) in Errors(o) <==> o.confidence == Err(reason)
  {
    var a, b, c := ErrorOf(SummaryField, o.summary), ErrorOf(StatusField, o.status), ErrorOf(MissingPointsField, o.missingPoints);
    var d, e := ErrorOf(EvidenceField, o.evidence), ErrorOf(ConfidenceField, o.confidence);
    assert Errors(o) == a + b + c + d + e;
    assert forall x :: x in Errors(o) <==> x in a || x in b || x in c || x in d || x in e;
  }

  /** `complete` with a non-empty list of missing points is rejected for that reason; the
      rule is not applied when the status itself failed. */
  lemma CompleteRejectsMissingPoints(fields: map<string, Json>, parseFloat: string -> Option<real>)
    ensures var o := FieldOutcomes(fields, parseFloat);
      o.missingPoints == Err(MissingPointsWhenComplete) ==> ValidateAnalysis(fields, parseFloat).Err?
    ensures FieldOutcomes(fields, parseFloat).status.Err? ==>
      FieldOutcomes(fields, parseFloat).missingPoints != Err(MissingPointsWhenComplete)
  {
  }

  /** The JSON object a well-formed result is written as. */
  function Encode(r: AnalysisResult): map<string, Json> {
    map[Key(SummaryField) := JString(r.summary),
        Key(StatusField) := JString(StatusName(r.completenessStatus)),
        Key(MissingPointsField) := JArray(Strings(r.missingPoints)),
        Key(EvidenceField) := JArray(Strings(r.evidence)),
        Key(ConfidenceField) := JNumber(r.confidence)]
  }

  function Strings(xs: seq<string>): seq<Json> {
    seq(|xs|, i requires 0 <= i < |xs| => JString(xs[i]))
  }

  lemma StringListOfStrings(xs: seq<string>)
    ensures StringList(Strings(xs)) == Some(xs)
  {
    var l := StringList(Strings(xs)).value;
    assert l == xs;
  }

  /** Distinct fields have distinct keys. */
  lemma KeysDistinct()
    ensures forall f, g :: f != g ==> Key(f) != Key(g)
  {
  }

  /** Every well-formed result, written as JSON, is accepted as itself: validation rejects
      nothing a well-formed result can say. */
  lemma {:induction false} EncodeAccepted(r: AnalysisResult, parseFloat: string -> Option<real>)
    requires WellFormed(r)
    ensures ValidateAnalysis(Encode(r), parseFloat) == Ok(r)
  {
    StringListOfStrings(r.missingPoints);
    StringListOfStrings(r.evidence);
    KeysDistinct();
    var f := Encode(r);
    assert Get(f, Key(SummaryField)) == Some(JString(r.summary));
    assert Get(f, Key(StatusField)) == Some(JString(StatusName(r.completenessStatus)));
    assert Get(f, Key(MissingPointsField)) == Some(JArray(Strings(r.missingPoints)));
    assert Get(f, Key(EvidenceField)) == Some(JArray(Strings(r.evidence)));
    assert Get(f, Key(ConfidenceField)) == Some(JNumber(r.confidence));
    var o := FieldOutcomes(f, parseFloat);
    assert o.summary == Ok(r.summary) && o.status == Ok(r.completenessStatus);
    assert o.missingPoints == Ok(r.missingPoints) && o.evidence == Ok(r.evidence);
    assert o.confidence == Ok(r.confidence);
  }

  // ---------------------------------------------------------------------------
  // AnalyzeRequest and AnalyzeResponse
  // ---------------------------------------------------------------------------

  /** `AnalyzeRequest(**body)`: `document_text`, a string of 20 to 10000 characters. */
  function ValidateAnalyzeRequest(body: map<string, Json>): (r: Result<string, seq<FieldError>>)
    ensures var key := Key(DocumentTextField);
      r.Ok? <==> key in body && body[key].JString? && DocumentMinLength <= |body[key].s| <= DocumentMaxLength
    ensures r.Ok? ==> r.value == body[Key(DocumentTextField)].s
  {
    match Get(body, Key(DocumentTextField))
    case None => Err([FieldError(DocumentTextField, Missing)])
    case Some(JString(s)) =>
      if |s| < DocumentMinLength then Err([FieldError(DocumentTextField, TooShort)])
      else if |s| > DocumentMaxLength then Err([FieldError(DocumentTextField, TooLong)])
      else Ok(s)
    case Some(_) => Err([FieldError(DocumentTextField, WrongType)])
  }

  /** How the `result` argument was passed: left out, passed as `None`, or given. */
  datatype ResultArg = Omitted | ExplicitNone | Given(value: AnalysisResult)

  datatype AnalyzeResponse = AnalyzeResponse(success: bool, result: Option<AnalysisResult>, error: Option<string>)

  /** `AnalyzeResponse(...)`. Its validator runs only on a `result` that was passed, so a
      left-out result with `success=True` is not checked. */
  function ValidateAnalyzeResponse(success: bool, result: ResultArg, error: Option<string>): (r: Result<AnalyzeResponse, seq<FieldError>>)
    ensures r.Err? <==> success && result == ExplicitNone
    ensures r.Err? ==> r.error == [FieldError(ResultField, ResultRequired)]
    ensures r.Ok? ==> r.value.success == success && r.value.error == error
    ensures r.Ok? ==> (r.value.result.Some? <==> result.Given?)
    ensures r.Ok? && result.Given? ==> r.value.result == Some(result.value)
  {
    match result
    case Omitted => Ok(AnalyzeResponse(success, None, error))
    case ExplicitNone =>
      if success then Err([FieldError(ResultField, ResultRequired)]) else Ok(AnalyzeResponse(success, None, error))
    case Given(a) => Ok(AnalyzeResponse(success, Some(a), error))
  }
}
