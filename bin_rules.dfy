/** The update rules that `PUT /api/bins` (app/api/bins/route.js) and the bin
    controller (controllers/binController.js) share: the capacity check, the
    capacity-driven status rule, the general field patch, and the result of
    `Bin.create`. */
module BinRules {
  import opened Js
  import opened BinModel

  /** Why a bin request was refused. */
  datatype BinError =
    | IdRequired
    | MalformedId
    | NotFound
    | InvalidCapacity
    | ValidationFailed
    | MissingFields(names: seq<string>)
    | MissingRequired
    | BadCoordinateFormat
    | CoordinatesNotNumbers
    | CoordinatesOutOfRange

  /** `capacity === undefined || capacity < 0 || capacity > 100` */
  predicate CapacityRejected(c: Option<real>) {
    c.None? || c.value < 0.0 || c.value > 100.0
  }

  /** The status after the capacity is set to c: at or above the threshold the bin
      is full; below it a full bin becomes active and any other status stays. */
  function NextStatus(status: string, c: real): (r: string)
    ensures r == "full" <==> c >= FullThreshold
    ensures c < FullThreshold && status == "full" ==> r == "active"
    ensures c < FullThreshold && status != "full" ==> r == status
    ensures IsBinStatus(status) ==> IsBinStatus(r)
  {
    if c >= FullThreshold then "full"
    else if c < FullThreshold && status == "full" then "active"
    else status
  }

  /** Status and capacity agree: a bin is full exactly when it is at or above the
      threshold. */
  predicate StatusMatchesCapacity(r: BinRecord) {
    r.status == "full" <==> r.capacity >= FullThreshold
  }

  /** An accepted capacity update: new capacity, derived status, fresh `updatedAt`,
      nothing else touched. */
  function CapacityUpdated(r: BinRecord, c: real, now: int): (r': BinRecord)
    ensures r'.capacity == c && r'.updatedAt == now
    ensures StatusMatchesCapacity(r')
    ensures c < FullThreshold && r.status == "full" ==> r'.status == "active"
    ensures c < FullThreshold && r.status != "full" ==> r'.status == r.status
    ensures r'.status == NextStatus(r.status, c)
    ensures r'.(capacity := r.capacity, status := r.status, updatedAt := r.updatedAt) == r
    ensures ValidBin(r) && !CapacityRejected(Some(c)) ==> ValidBin(r')
  {
    r.(capacity := c, status := NextStatus(r.status, c), updatedAt := now)
  }

  /** Repeating a capacity update changes nothing more. */
  lemma CapacityUpdateIdempotent(r: BinRecord, c: real, now: int)
    ensures CapacityUpdated(CapacityUpdated(r, c, now), c, now) == CapacityUpdated(r, c, now)
  {
  }

  /** A capacity update that passed the range check on a valid stored bin is always
      saved. */
  lemma CapacityUpdateAlwaysSaves(db: map<string, BinRecord>, id: string, r: BinRecord, c: real, now: int)
    requires ValidBin(r) && !CapacityRejected(Some(c))
    ensures SaveOutcome(db, id, CapacityUpdated(r, c, now)).0.Some?
    ensures StatusMatchesCapacity(SaveOutcome(db, id, CapacityUpdated(r, c, now)).0.value)
  {
  }

  /** The fields a general update may carry. */
  datatype BinPatch = BinPatch(
    locationName: Option<string>,
    category: Option<string>,
    capacity: Option<real>,
    status: Option<string>)

  /** The general update: truthy `locationName`, `category` and `status` and a
      defined `capacity` are copied (the name through the trim setter), `updatedAt`
      is refreshed, and status is never derived from capacity. */
  function Patched(r: BinRecord, p: BinPatch, now: int): (r': BinRecord)
    ensures r'.locationName == (if TruthyStr(p.locationName) then Trim(p.locationName.value) else r.locationName)
    ensures r'.category == OrElse(p.category, r.category)
    ensures r'.capacity == p.capacity.GetOr(r.capacity)
    ensures r'.status == OrElse(p.status, r.status)
    ensures r'.updatedAt == now
    ensures r'.(locationName := r.locationName, category := r.category, capacity := r.capacity,
                status := r.status, updatedAt := r.updatedAt) == r
  {
    var r1 := if TruthyStr(p.locationName) then r.(locationName := Trim(p.locationName.value)) else r;
    var r2 := if TruthyStr(p.category) then r1.(category := p.category.value) else r1;
    var r3 := if p.capacity.Some? then r2.(capacity := p.capacity.value) else r2;
    var r4 := if TruthyStr(p.status) then r3.(status := p.status.value) else r3;
    r4.(updatedAt := now)
  }

  /** A general update that only sets capacity leaves status alone, so a bin
      raised to 90 stays active: the general path can break the rule the capacity
      path keeps. */
  lemma PatchCanBreakFullRule(r: BinRecord, now: int)
    requires r.status == "active"
    ensures !StatusMatchesCapacity(Patched(r, BinPatch(None, None, Some(90.0), None), now))
  {
  }

  /** The outcome of `Bin.create(fields)`: the record is validated, passed through
      the pre-save hook and written. */
  function Created(r: BinRecord): (res: Result<BinRecord, BinError>)
    ensures res.Success? <==> ValidBin(r)
    ensures res.Success? ==> ValidBin(res.value) && Consistent(res.value) && res.value == Synced(r)
    ensures res.Failure? ==> res.error == ValidationFailed
  {
    if ValidBin(r) then Success(Synced(r)) else Failure(ValidationFailed)
  }

  /** The handler's reply after `bin.save()`. */
  function SavedReply(saved: Option<BinRecord>): (res: Result<BinRecord, BinError>)
    ensures saved.Some? ==> res == Success(saved.value)
    ensures saved.None? ==> res == Failure(ValidationFailed)
  {
    if saved.Some? then Success(saved.value) else Failure(ValidationFailed)
  }

  /** The general update applied to a loaded document field by field, then the
      `updatedAt` refresh. */
  method ApplyPatch(bin: BinDocument, p: BinPatch, now: int)
    modifies bin
    ensures bin.Record() == Patched(old(bin.Record()), p, now)
  {
    ghost var r0 := bin.Record();
    if TruthyStr(p.locationName) {
      bin.SetLocationName(p.locationName.value);
    }
    ghost var r1 := bin.Record();
    assert r1 == if TruthyStr(p.locationName) then r0.(locationName := Trim(p.locationName.value)) else r0;
    if TruthyStr(p.category) {
      bin.category := p.category.value;
    }
    if p.capacity.Some? {
      bin.capacity := p.capacity.value;
    }
    if TruthyStr(p.status) {
      bin.status := p.status.value;
    }
    bin.updatedAt := now;
  }
}
