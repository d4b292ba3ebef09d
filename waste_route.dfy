/** app/api/waste/route.js: the credit calculation, `POST` (classify a report as
    a bin disposal or a hotspot, run the ordered rejection checks, build the
    record) and `PUT` (mark a stored report verified). */
module WasteRoute {
  import opened Js
  import opened Geo
  import opened ReportModel

  /** `creditRates[wasteType] || 1`: credits per unit of quantity. */
  function CreditRate(wasteType: string): (rate: real)
    ensures rate >= 1.0
    ensures !IsCategory(wasteType) ==> rate == 1.0
  {
    if wasteType == "General Waste" then 1.0
    else if wasteType == "Recyclable" then 3.0
    else if wasteType == "Organic" then 2.0
    else if wasteType == "Hazardous" then 5.0
    else if wasteType == "E-waste" then 4.0
    else if wasteType == "Medical" then 4.0
    else 1.0
  }

  /** `Math.round(quantity * rate * 10) / 10`: the whole number of tenths nearest
      the exact product, ties going up, and never negative for a non-negative
      quantity. */
  function CalculateCredits(wasteType: string, quantity: real): (credits: real)
    ensures (credits * 10.0).Floor as real == credits * 10.0
    ensures quantity * CreditRate(wasteType) - 0.05 < credits <= quantity * CreditRate(wasteType) + 0.05
    ensures quantity >= 0.0 ==> credits >= 0.0
  {
    var exact := quantity * CreditRate(wasteType);
    MathRoundMonotone(0.0, if exact >= 0.0 then exact * 10.0 else 0.0);
    RoundTenth(exact)
  }

  /** The table of rates, one entry per category. */
  lemma RateTable()
    ensures CreditRate("General Waste") == 1.0 && CreditRate("Recyclable") == 3.0
    ensures CreditRate("Organic") == 2.0 && CreditRate("Hazardous") == 5.0
    ensures CreditRate("E-waste") == 4.0 && CreditRate("Medical") == 4.0
  {
  }

  /** A whole number of tenths comes back exactly. */
  lemma {:induction false} CreditsOfWholeTenths(wasteType: string, tenths: int)
    ensures CalculateCredits(wasteType, tenths as real / 10.0 / CreditRate(wasteType)) == tenths as real / 10.0
  {
    var q := tenths as real / 10.0 / CreditRate(wasteType);
    assert q * CreditRate(wasteType) * 10.0 == tenths as real;
    MathRoundOfInteger(tenths);
  }

  /** A tie rounds up: 1.25 of hazardous waste is 6.25 credits, paid as 6.3. */
  lemma HazardousTieRoundsUp()
    ensures CalculateCredits("Hazardous", 1.25) == 6.3
  {
    assert 1.25 * CreditRate("Hazardous") * 10.0 + 0.5 == 63.0;
    assert MathRound(62.5) == 63;
  }

  /** The `coordinates` member of the body. */
  datatype Coordinates = Coordinates(latitude: Option<real>, longitude: Option<real>)

  /** The members of the POST body the handler reads. */
  datatype ReportBody = ReportBody(
    userId: Option<string>,
    binId: Option<string>,
    wasteType: Option<string>,
    quantity: Option<real>,
    unit: Option<string>,
    description: Option<string>,
    binLocation: Option<string>,
    coordinates: Option<Coordinates>,
    photo: Option<string>)

  /** Why a report request was refused. */
  datatype ReportError =
    | MissingUserOrQuantity
    | MissingWasteType
    | MissingBinLocation
    | MissingCoordinates
    | InvalidWasteType
    | SchemaRejected
    | ReportIdRequired
    | MalformedReportId
    | ReportNotFound

  /** A report with a bin is a disposal; without one it is a hotspot. */
  function ReportTypeOf(binId: Option<string>): (t: string)
    ensures t == "bin_disposal" <==> TruthyStr(binId)
    ensures t == "waste_hotspot" <==> !TruthyStr(binId)
  {
    if TruthyStr(binId) then "bin_disposal" else "waste_hotspot"
  }

  /** `!coordinates || !coordinates.latitude || !coordinates.longitude`: a zero
      latitude or longitude counts as missing. */
  predicate CoordinatesMissing(c: Option<Coordinates>) {
    c.None? || !TruthyNum(c.value.latitude) || !TruthyNum(c.value.longitude)
  }

  /** The credits a report earns: the calculated amount for a disposal, 0 for a
      hotspot. */
  function CreditsFor(b: ReportBody): (credits: real)
    requires TruthyStr(b.binId) ==> b.wasteType.Some? && b.quantity.Some?
    ensures !TruthyStr(b.binId) ==> credits == 0.0
    ensures TruthyStr(b.binId) ==> credits == CalculateCredits(b.wasteType.value, b.quantity.value)
  {
    if ReportTypeOf(b.binId) == "bin_disposal" then CalculateCredits(b.wasteType.value, b.quantity.value) else 0.0
  }

  /** The values the handler passes to `new WasteReport`. */
  function FieldsOf(b: ReportBody): ReportFields
    requires b.userId.Some? && b.quantity.Some?
    requires TruthyStr(b.binId) ==> b.wasteType.Some?
  {
    ReportFields(
      b.userId.value,
      if TruthyStr(b.binId) then b.binId else None,
      Some(ReportTypeOf(b.binId)),
      Some("pending"),
      b.wasteType,
      b.quantity.value,
      Some(b.unit.GetOr("kg")),
      b.description,
      b.photo,
      Some(CreditsFor(b)),
      Some(OrElse(b.binLocation, DefaultBinLocation)),
      if b.coordinates.Some? then b.coordinates.value.latitude else None,
      if b.coordinates.Some? then b.coordinates.value.longitude else None)
  }

  /** Every check the handler makes before it builds the record passes. */
  predicate ChecksPass(b: ReportBody) {
    && TruthyStr(b.userId) && TruthyNum(b.quantity)
    && (TruthyStr(b.binId) ==> TruthyStr(b.wasteType) && TruthyStr(b.binLocation) && IsCategory(b.wasteType.value))
    && (!TruthyStr(b.binId) ==> !CoordinatesMissing(b.coordinates))
  }

  /** The handler: each refusal happens exactly when every earlier check passed and
      its own check fails; otherwise the record is built and validated by the
      schema, whose ObjectId cast of `binId` is `isObjectId`. */
  function Submit(b: ReportBody, now: int, isObjectId: string -> bool): (res: Result<WasteReport, ReportError>)
    ensures res == Failure(MissingUserOrQuantity) <==> !TruthyStr(b.userId) || !TruthyNum(b.quantity)
    ensures res == Failure(MissingWasteType) <==>
              TruthyStr(b.userId) && TruthyNum(b.quantity) && TruthyStr(b.binId) && !TruthyStr(b.wasteType)
    ensures res == Failure(MissingBinLocation) <==>
              TruthyStr(b.userId) && TruthyNum(b.quantity) && TruthyStr(b.binId) && TruthyStr(b.wasteType)
              && !TruthyStr(b.binLocation)
    ensures res == Failure(MissingCoordinates) <==>
              TruthyStr(b.userId) && TruthyNum(b.quantity) && !TruthyStr(b.binId) && CoordinatesMissing(b.coordinates)
    ensures res == Failure(InvalidWasteType) <==>
              TruthyStr(b.userId) && TruthyNum(b.quantity) && TruthyStr(b.binId) && TruthyStr(b.wasteType)
              && TruthyStr(b.binLocation) && !IsCategory(b.wasteType.value)
    ensures res == Failure(SchemaRejected) <==>
              ChecksPass(b) && !ValidReport(NewReport(FieldsOf(b), now), isObjectId)
    ensures res.Success? <==> ChecksPass(b) && ValidReport(NewReport(FieldsOf(b), now), isObjectId)
    ensures res.Failure? ==>
              res.error != ReportIdRequired && res.error != MalformedReportId && res.error != ReportNotFound
    ensures res.Success? ==> res.value == NewReport(FieldsOf(b), now)
    ensures res.Success? ==>
              && res.value.reportType == ReportTypeOf(b.binId)
              && res.value.status == "pending" && !res.value.verified
              && res.value.creditsEarned == CreditsFor(b)
              && res.value.binLocation == OrElse(b.binLocation, DefaultBinLocation)
              && res.value.userId == b.userId.value && res.value.quantity == b.quantity.value
              && res.value.binId == (if TruthyStr(b.binId) then b.binId else None)
  {
    if !TruthyStr(b.userId) || !TruthyNum(b.quantity) then Failure(MissingUserOrQuantity)
    else
      var reportType := ReportTypeOf(b.binId);
      if reportType == "bin_disposal" && !TruthyStr(b.wasteType) then Failure(MissingWasteType)
      else if reportType == "bin_disposal" && !TruthyStr(b.binLocation) then Failure(MissingBinLocation)
      else if reportType == "waste_hotspot" && CoordinatesMissing(b.coordinates) then Failure(MissingCoordinates)
      else if reportType == "bin_disposal" && b.wasteType.value !in Categories then Failure(InvalidWasteType)
      else
        var r := NewReport(FieldsOf(b), now);
        if ValidReport(r, isObjectId) then Success(r) else Failure(SchemaRejected)
  }

  /** A hotspot exactly on the equator is refused as if it had no coordinates. */
  lemma EquatorHotspotRefused(b: ReportBody, now: int, isObjectId: string -> bool)
    requires TruthyStr(b.userId) && TruthyNum(b.quantity) && !TruthyStr(b.binId)
    requires b.coordinates.Some? && b.coordinates.value.latitude == Some(0.0)
    ensures Submit(b, now, isObjectId) == Failure(MissingCoordinates)
  {
  }

  /** Completeness for disposals: a body that passes the handler's checks, names a
      bin by a well-formed ObjectId and whose quantity, unit and description fit
      the schema is accepted. */
  lemma DisposalAccepted(b: ReportBody, now: int, isObjectId: string -> bool)
    requires TruthyStr(b.userId) && b.quantity.Some? && MinQuantity <= b.quantity.value <= MaxQuantity
    requires TruthyStr(b.binId) && isObjectId(b.binId.value) && TruthyStr(b.binLocation)
    requires b.wasteType.Some? && IsCategory(b.wasteType.value)
    requires b.unit.GetOr("kg") in Units
    requires b.description.Some? ==> |b.description.value| <= MaxDescription
    ensures Submit(b, now, isObjectId).Success?
    ensures Submit(b, now, isObjectId).value.creditsEarned == CalculateCredits(b.wasteType.value, b.quantity.value)
  {
    var r := NewReport(FieldsOf(b), now);
    assert b.wasteType.value != "";
    assert r.creditsEarned >= 0.0;
    if b.description.Some? {
      assert |r.description.value| <= |b.description.value|;
    }
    assert ValidReport(r, isObjectId);
  }

  /** A disposal naming its bin by something that is not an ObjectId passes every
      check of the handler and is then refused by the schema's cast. */
  lemma MalformedBinIdRejected(b: ReportBody, now: int, isObjectId: string -> bool)
    requires ChecksPass(b) && TruthyStr(b.binId) && !isObjectId(b.binId.value)
    ensures Submit(b, now, isObjectId) == Failure(SchemaRejected)
  {
    assert NewReport(FieldsOf(b), now).binId == b.binId;
  }

  /** Completeness for hotspots: a body with a user, an in-range quantity, no bin
      and non-zero coordinates, whose optional fields fit the schema, is accepted
      and earns nothing. */
  lemma HotspotAccepted(b: ReportBody, now: int, isObjectId: string -> bool)
    requires TruthyStr(b.userId) && b.quantity.Some? && MinQuantity <= b.quantity.value <= MaxQuantity
    requires !TruthyStr(b.binId) && !CoordinatesMissing(b.coordinates)
    requires b.wasteType.None? || IsReportWasteType(b.wasteType.value)
    requires b.unit.GetOr("kg") in Units
    requires b.description.Some? ==> |b.description.value| <= MaxDescription
    ensures Submit(b, now, isObjectId).Success?
    ensures Submit(b, now, isObjectId).value.reportType == "waste_hotspot"
    ensures Submit(b, now, isObjectId).value.creditsEarned == 0.0
  {
    var r := NewReport(FieldsOf(b), now);
    assert r.binId.None?;
    if b.description.Some? {
      assert |r.description.value| <= |b.description.value|;
    }
    assert ValidReport(r, isObjectId);
  }

  /** `PUT`: `findByIdAndUpdate(reportId, {verified: true, verifiedAt: now})`. The
      id is cast to an ObjectId first (`isObjectId`), and a failed cast is an
      error. The update runs no validators and leaves status and credits alone;
      the `timestamps` option refreshes `updatedAt`. */
  function Verify(db: map<string, WasteReport>, reportId: Option<string>, now: int, isObjectId: string -> bool)
    : (out: (Result<WasteReport, ReportError>, map<string, WasteReport>))
    ensures !TruthyStr(reportId) ==> out == (Failure(ReportIdRequired), db)
    ensures TruthyStr(reportId) && !isObjectId(reportId.value) ==> out == (Failure(MalformedReportId), db)
    ensures TruthyStr(reportId) && isObjectId(reportId.value) && reportId.value !in db ==>
              out == (Failure(ReportNotFound), db)
    ensures TruthyStr(reportId) && isObjectId(reportId.value) && reportId.value in db ==>
              var old_ := db[reportId.value];
              && out.0.Success? && out.0.value.verified && out.0.value.verifiedAt == Some(now)
              && out.0.value.updatedAt == now
              && out.0.value.(verified := old_.verified, verifiedAt := old_.verifiedAt, updatedAt := old_.updatedAt) == old_
              && out.1 == db[reportId.value := out.0.value]
  {
    if !TruthyStr(reportId) then (Failure(ReportIdRequired), db)
    else if !isObjectId(reportId.value) then (Failure(MalformedReportId), db)
    else if reportId.value !in db then (Failure(ReportNotFound), db)
    else
      var r := db[reportId.value].(verified := true, verifiedAt := Some(now), updatedAt := now);
      (Success(r), db[reportId.value := r])
  }

  /** Verifying twice at the same moment is verifying once. */
  lemma VerifyIdempotent(db: map<string, WasteReport>, reportId: Option<string>, now: int, isObjectId: string -> bool)
    ensures Verify(Verify(db, reportId, now, isObjectId).1, reportId, now, isObjectId) == Verify(db, reportId, now, isObjectId)
  {
    if TruthyStr(reportId) && isObjectId(reportId.value) && reportId.value in db {
      var once := Verify(db, reportId, now, isObjectId).1;
      assert once[reportId.value := once[reportId.value]] == once;
    }
  }
}
