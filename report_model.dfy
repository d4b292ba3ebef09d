/** The WasteReport schema (models/WasteReport.js): what a report record holds,
    the defaults `new WasteReport(...)` fills in, and what `save()` validates. */
module ReportModel {
  import opened Js
  import opened Geo

  /** A stored report. `latitude`/`longitude` are the optional members of
      `coordinates`; times are milliseconds since the epoch. */
  datatype WasteReport = WasteReport(
    userId: string,
    binId: Option<string>,
    reportType: string,
    status: string,
    wasteType: string,
    quantity: real,
    unit: string,
    description: Option<string>,
    photo: Option<string>,
    creditsEarned: real,
    binLocation: string,
    latitude: Option<real>,
    longitude: Option<real>,
    reportedAt: int,
    verified: bool,
    verifiedBy: Option<string>,
    verifiedAt: Option<int>,
    createdAt: int,
    updatedAt: int)

  /** The values handed to the constructor; `None` is a member left undefined, which
      the schema default replaces. */
  datatype ReportFields = ReportFields(
    userId: string,
    binId: Option<string>,
    reportType: Option<string>,
    status: Option<string>,
    wasteType: Option<string>,
    quantity: real,
    unit: Option<string>,
    description: Option<string>,
    photo: Option<string>,
    creditsEarned: Option<real>,
    binLocation: Option<string>,
    latitude: Option<real>,
    longitude: Option<real>)

  const ReportTypes: seq<string> := ["bin_disposal", "waste_hotspot"]
  const ReportStatuses: seq<string> := ["pending", "verified", "resolved", "rejected"]
  const Units: seq<string> := ["kg", "lbs", "pieces", "liters"]
  const HotspotWasteType: string := "waste_hotspot"
  const DefaultBinLocation: string := "Custom Location"
  const MinQuantity: real := 0.1
  const MaxQuantity: real := 1000.0
  const MaxDescription: nat := 500

  /** The `wasteType` enum: the six categories and the hotspot sentinel. */
  predicate IsReportWasteType(s: string) {
    IsCategory(s) || s == HotspotWasteType
  }

  /** Everything the schema checks when a report is saved. `binId` is an ObjectId
      path: a present value that is not an ObjectId fails its cast, which `save()`
      reports with the validation errors. `isObjectId` stands for Mongoose's
      ObjectId cast. */
  predicate ValidReport(r: WasteReport, isObjectId: string -> bool) {
    && r.userId != []
    && (r.binId.Some? ==> isObjectId(r.binId.value))
    && r.reportType in ReportTypes
    && r.status in ReportStatuses
    && IsReportWasteType(r.wasteType)
    && MinQuantity <= r.quantity <= MaxQuantity
    && r.unit in Units
    && (r.description.Some? ==> |r.description.value| <= MaxDescription)
    && r.creditsEarned >= 0.0
  }

  /** `new WasteReport(fields)` at time now: defaults for the members left
      undefined, the trim setter on `description`, and the timestamps. */
  function NewReport(f: ReportFields, now: int): (r: WasteReport)
    ensures r.reportType == f.reportType.GetOr("bin_disposal")
    ensures r.status == f.status.GetOr("pending")
    ensures r.wasteType == f.wasteType.GetOr(HotspotWasteType)
    ensures r.unit == f.unit.GetOr("kg")
    ensures r.creditsEarned == f.creditsEarned.GetOr(0.0)
    ensures r.binLocation == f.binLocation.GetOr(DefaultBinLocation)
    ensures f.description.Some? ==> r.description == Some(Trim(f.description.value))
    ensures !r.verified && r.verifiedBy.None? && r.verifiedAt.None?
    ensures r.reportedAt == now && r.createdAt == now && r.updatedAt == now
  {
    WasteReport(
      f.userId, f.binId, f.reportType.GetOr("bin_disposal"), f.status.GetOr("pending"),
      f.wasteType.GetOr(HotspotWasteType), f.quantity, f.unit.GetOr("kg"),
      if f.description.Some? then Some(Trim(f.description.value)) else None,
      f.photo, f.creditsEarned.GetOr(0.0), f.binLocation.GetOr(DefaultBinLocation),
      f.latitude, f.longitude, now, false, None, None, now, now)
  }

  /** The defaults alone make a valid report: only `userId` and `quantity` have to
      be supplied. */
  lemma DefaultsAreValid(userId: string, quantity: real, now: int, isObjectId: string -> bool)
    requires userId != [] && MinQuantity <= quantity <= MaxQuantity
    ensures ValidReport(NewReport(ReportFields(userId, None, None, None, None, quantity, None,
                                               None, None, None, None, None, None), now), isObjectId)
  {
  }
}
