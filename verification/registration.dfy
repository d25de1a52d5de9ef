/**
  The batch registration form: its validation schema, its default values
  and the QR placeholder it shows once a batch is submitted.

  The schema checks every field and reports every failing rule, not just
  the first. Text fields need at least three characters, the GPS field
  must match the coordinate pattern of `GpsFormat`, and the temperature
  limit, coerced to a number, must lie in [-100, 100].
 */
module Registration {
  import opened Wrappers
  import opened Text
  import opened GpsFormat

  /** The outcome of coercing the temperature input to a number. */
  datatype Coerced = Num(value: real) | NaN

  datatype FormValues = FormValues(
    batchId: string,
    productName: string,
    origin: string,
    destination: string,
    initialGps: string,
    temperatureLimit: Coerced)

  datatype Field = BatchIdField | ProductNameField | OriginField | DestinationField | GpsField | TemperatureField

  /** One failed rule of the schema. */
  datatype Issue =
    | TooShort(field: Field)
    | InvalidGps
    | NotANumber
    | BelowMinimum
    | AboveMaximum

  const MinTextLength: nat := 3
  const MinTemperature: real := -100.0
  const MaxTemperature: real := 100.0

  // ---------------------------------------------------------------------------
  // What a valid submission is

  /** The acceptance condition of the whole schema, field by field. */
  predicate Valid(v: FormValues) {
    && |v.batchId| >= MinTextLength
    && |v.productName| >= MinTextLength
    && |v.origin| >= MinTextLength
    && |v.destination| >= MinTextLength
    && GpsPattern(v.initialGps)
    && v.temperatureLimit.Num?
    && MinTemperature <= v.temperatureLimit.value <= MaxTemperature
  }

  // ---------------------------------------------------------------------------
  // The schema as a checker

  function LengthIssues(s: string, field: Field): seq<Issue> {
    if |s| < MinTextLength then [TooShort(field)] else []
  }

  /** A non-number stops the field's checks; otherwise both bounds are checked. */
  function TemperatureIssues(t: Coerced): seq<Issue> {
    match t
    case NaN => [NotANumber]
    case Num(x) =>
      (if x < MinTemperature then [BelowMinimum] else [])
      + (if x > MaxTemperature then [AboveMaximum] else [])
  }

  function GpsIssues(s: string): seq<Issue> {
    if ParseGps(s).None? then [InvalidGps] else []
  }

  /** Every issue of every field, in the schema's field order. */
  function Issues(v: FormValues): seq<Issue> {
    LengthIssues(v.batchId, BatchIdField)
    + LengthIssues(v.productName, ProductNameField)
    + LengthIssues(v.origin, OriginField)
    + LengthIssues(v.destination, DestinationField)
    + GpsIssues(v.initialGps)
    + TemperatureIssues(v.temperatureLimit)
  }

  lemma IssuesMembers(v: FormValues, x: Issue)
    ensures x in Issues(v) <==>
      x in LengthIssues(v.batchId, BatchIdField)
      || x in LengthIssues(v.productName, ProductNameField)
      || x in LengthIssues(v.origin, OriginField)
      || x in LengthIssues(v.destination, DestinationField)
      || x in GpsIssues(v.initialGps)
      || x in TemperatureIssues(v.temperatureLimit)
  {
  }

  /** The temperature issues against the bounds, both ways. */
  lemma TemperatureIssuesSpec(t: Coerced)
    ensures NotANumber in TemperatureIssues(t) <==> t.NaN?
    ensures BelowMinimum in TemperatureIssues(t) <==> t.Num? && t.value < MinTemperature
    ensures AboveMaximum in TemperatureIssues(t) <==> t.Num? && t.value > MaxTemperature
    ensures forall f :: TooShort(f) !in TemperatureIssues(t)
    ensures InvalidGps !in TemperatureIssues(t)
  {
  }

  /** Each issue is reported exactly when its rule fails. */
  lemma IssuesSpec(v: FormValues)
    ensures TooShort(BatchIdField) in Issues(v) <==> |v.batchId| < MinTextLength
    ensures TooShort(ProductNameField) in Issues(v) <==> |v.productName| < MinTextLength
    ensures TooShort(OriginField) in Issues(v) <==> |v.origin| < MinTextLength
    ensures TooShort(DestinationField) in Issues(v) <==> |v.destination| < MinTextLength
    ensures InvalidGps in Issues(v) <==> !GpsPattern(v.initialGps)
    ensures NotANumber in Issues(v) <==> v.temperatureLimit.NaN?
    ensures BelowMinimum in Issues(v) <==> v.temperatureLimit.Num? && v.temperatureLimit.value < MinTemperature
    ensures AboveMaximum in Issues(v) <==> v.temperatureLimit.Num? && v.temperatureLimit.value > MaxTemperature
  {
    ParseGpsExact(v.initialGps);
    TemperatureIssuesSpec(v.temperatureLimit);
    IssuesMembers(v, TooShort(BatchIdField));
    IssuesMembers(v, TooShort(ProductNameField));
    IssuesMembers(v, TooShort(OriginField));
    IssuesMembers(v, TooShort(DestinationField));
    IssuesMembers(v, InvalidGps);
    IssuesMembers(v, NotANumber);
    IssuesMembers(v, BelowMinimum);
    IssuesMembers(v, AboveMaximum);
  }

  /** The checker finds nothing exactly when the submission is valid. */
  lemma NoIssuesIffValid(v: FormValues)
    ensures Issues(v) == [] <==> Valid(v)
  {
    IssuesSpec(v);
    if Issues(v) != [] {
      assert Issues(v)[0] in Issues(v);
    }
  }

  /** The schema's verdict: the values, or every issue found. */
  function Validate(v: FormValues): (r: Result<FormValues, seq<Issue>>)
    ensures r.Success? <==> Valid(v)
    ensures r.Success? ==> r.value == v
    ensures r.Failure? ==> r.error != [] && forall i | 0 <= i < |r.error| :: r.error[i] in Issues(v)
  {
    NoIssuesIffValid(v);
    var issues := Issues(v);
    if issues == [] then Success(v) else Failure(issues)
  }

  /** A valid form has coordinates in range and a limit within the bounds. */
  lemma ValidHasCoordinates(v: FormValues)
    requires Valid(v)
    ensures ParseGps(v.initialGps).Some?
    ensures var c := ParseGps(v.initialGps).value;
      -90.0 <= c.latitude <= 90.0 && -180.0 <= c.longitude <= 180.0
  {
    ParseGpsExact(v.initialGps);
  }

  // ---------------------------------------------------------------------------
  // Default values

  /** The pre-filled batch id: `BATCH` and the last six digits of the clock. */
  function DefaultBatchId(now: nat): string {
    TimeSuffixId("BATCH", now, 6)
  }

  function DefaultValues(now: nat): FormValues {
    FormValues(DefaultBatchId(now), "", "", "", "", Num(5.0))
  }

  /** The pre-filled id starts with `BATCH` and ends in the clock modulo 10^6. */
  lemma DefaultBatchIdShape(now: nat)
    ensures var id := DefaultBatchId(now);
      && StartsWith(id, "BATCH")
      && 6 <= |id| <= 11
      && (now >= 100000 ==> |id| == 11)
      && AllDigits(id[5..])
      && DigitsValue(id[5..]) == now % 1000000
  {
    TimeSuffixIdShape("BATCH", now, 6);
  }

  /**
    An untouched form fails exactly on the empty product name, origin,
    destination and GPS fields; the pre-filled id and limit pass.
   */
  lemma DefaultValuesIssues(now: nat)
    ensures Issues(DefaultValues(now)) == DefaultIssues
  {
    DefaultBatchIdShape(now);
    BlankFormIssues(DefaultValues(now));
  }

  /** With a long enough id and a limit in range, only the four blank fields are reported. */
  lemma BlankFormIssues(v: FormValues)
    requires |v.batchId| >= MinTextLength
    requires v.productName == v.origin == v.destination == v.initialGps == ""
    requires v.temperatureLimit.Num? && MinTemperature <= v.temperatureLimit.value <= MaxTemperature
    ensures Issues(v) == DefaultIssues
  {
    assert GpsIssues(v.initialGps) == [InvalidGps] by { assert ParseGps("").None?; }
  }

  const DefaultIssues: seq<Issue> :=
    [TooShort(ProductNameField), TooShort(OriginField), TooShort(DestinationField), InvalidGps]

  // ---------------------------------------------------------------------------
  // Submission

  const QrPrefix := "https://placehold.co/200x200.png?text=QR+"

  /** The placeholder QR image for a registered batch, carrying the whole id. */
  function QrCodeUrl(batchId: string): (r: string)
    ensures StartsWith(r, QrPrefix) && |r| == |QrPrefix| + |batchId|
  {
    QrPrefix + batchId
  }

  /** Read the batch id back out of a placeholder QR url. */
  function BatchIdOfQrCodeUrl(url: string): (r: Option<string>)
    ensures r.Some? <==> StartsWith(url, QrPrefix)
  {
    if StartsWith(url, QrPrefix) then Some(url[|QrPrefix|..]) else None
  }

  /** The url gives back the full id, so different ids get different codes. */
  lemma QrCodeRoundTrip(batchId: string)
    ensures BatchIdOfQrCodeUrl(QrCodeUrl(batchId)) == Some(batchId)
  {
    assert (QrPrefix + batchId)[|QrPrefix|..] == batchId;
  }

  lemma QrCodeUrlInjective(a: string, b: string)
    requires QrCodeUrl(a) == QrCodeUrl(b)
    ensures a == b
  {
    QrCodeRoundTrip(a);
    QrCodeRoundTrip(b);
  }

  /** Submitting: a QR code for a valid form, the issues otherwise. */
  function Submit(v: FormValues): (r: Result<string, seq<Issue>>)
    ensures r.Success? <==> Valid(v)
    ensures r.Failure? ==> r.error == Issues(v)
  {
    match Validate(v)
    case Success(values) => Success(QrCodeUrl(values.batchId))
    case Failure(issues) => Failure(issues)
  }

  /** A successful submission's code names the submitted batch id. */
  lemma SubmitNamesBatch(v: FormValues)
    requires Valid(v)
    ensures Submit(v).Success? && BatchIdOfQrCodeUrl(Submit(v).value) == Some(v.batchId)
  {
    QrCodeRoundTrip(v.batchId);
  }
}
