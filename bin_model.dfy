/** The Bin schema (models/Bin.js): field constraints and defaults, the `trim`
    setter on `locationName`, the pre-save hook that copies the GeoJSON pair into
    `latitude`/`longitude`, and what `save()` does with a loaded document.

    Times are milliseconds since the epoch, supplied by the caller. */
module BinModel {
  import opened Js
  import opened Geo

  /** A stored bin. `geo` is `coordinates.coordinates`, GeoJSON order
      `[longitude, latitude]`; `pointType` is `coordinates.type`. */
  datatype BinRecord = BinRecord(
    locationName: string,
    pointType: string,
    geo: seq<real>,
    latitude: real,
    longitude: real,
    category: string,
    status: string,
    capacity: real,
    lastServiceDate: int,
    isActive: bool,
    createdAt: int,
    updatedAt: int)

  const MaxLocationName: nat := 100
  const FullThreshold: real := 85.0

  const BinStatuses: seq<string> := ["active", "inactive", "full", "maintenance"]

  predicate IsBinStatus(s: string) {
    s in BinStatuses
  }

  /** The custom validator on `coordinates.coordinates`: exactly two numbers, a
      longitude then a latitude. */
  predicate CoordinatesValidator(v: seq<real>) {
    |v| == 2 && ValidLongitude(v[0]) && ValidLatitude(v[1])
  }

  /** Everything the schema checks when a bin is saved. A required string fails
      when empty. */
  predicate ValidBin(r: BinRecord) {
    && r.locationName != [] && |r.locationName| <= MaxLocationName
    && r.pointType == "Point"
    && CoordinatesValidator(r.geo)
    && ValidLatitude(r.latitude)
    && ValidLongitude(r.longitude)
    && IsCategory(r.category)
    && IsBinStatus(r.status)
    && 0.0 <= r.capacity <= 100.0
  }

  /** The flat latitude/longitude fields agree with the GeoJSON pair. */
  predicate Consistent(r: BinRecord) {
    |r.geo| == 2 && r.longitude == r.geo[0] && r.latitude == r.geo[1]
  }

  /** Mongoose's cast of a request value to a `Number` path. A number is kept, a
      boolean becomes 1 or 0, and a non-empty string goes through JavaScript's
      `Number(s)`, passed in as `parseNumber` (None where it gives NaN). `undefined`,
      `null` and `""` cast to no value, which a required path refuses. An array or
      an object is a cast error here. */
  function CastNumber(v: Json, parseNumber: string -> Option<real>): (n: Option<real>)
    ensures v.Num? ==> n == Some(v.x)
    ensures v.Bool? ==> n == Some(if v.b then 1.0 else 0.0)
    ensures v.Str? && v.s != "" ==> n == parseNumber(v.s)
    ensures v.Undefined? || v.Null? || v == Str("") || v.Arr? || v.Obj? ==> n.None?
  {
    match v
    case Num(x) => Some(x)
    case Bool(b) => Some(if b then 1.0 else 0.0)
    case Str(s) => if s == "" then None else parseNumber(s)
    case _ => None
  }

  /** A new bin as `Bin.create` builds it: the `trim` setter on the name, and the
      schema defaults for `coordinates.type`, `isActive` and the timestamps. */
  function NewBin(locationName: string, geo: seq<real>, latitude: real, longitude: real,
                  category: string, capacity: real, status: string,
                  lastServiceDate: int, now: int): (r: BinRecord)
    ensures r.locationName == Trim(locationName) && r.geo == geo
    ensures r.pointType == "Point" && r.isActive
    ensures r.createdAt == now && r.updatedAt == now
  {
    BinRecord(Trim(locationName), "Point", geo, latitude, longitude,
              category, status, capacity, lastServiceDate, true, now, now)
  }

  /** The effect of the pre-save hook on a record whose pair passed validation. */
  function Synced(r: BinRecord): (r': BinRecord)
    requires |r.geo| >= 2
    ensures r'.longitude == r.geo[0] && r'.latitude == r.geo[1]
    ensures r'.(latitude := r.latitude, longitude := r.longitude) == r
    ensures ValidBin(r) ==> ValidBin(r') && Consistent(r')
  {
    r.(longitude := r.geo[0], latitude := r.geo[1])
  }

  /** Running the hook twice is running it once. */
  lemma SyncedIdempotent(r: BinRecord)
    requires |r.geo| >= 2
    ensures Synced(Synced(r)) == Synced(r)
  {
  }

  /** The hook changes nothing on a record that is already consistent. */
  lemma SyncedOfConsistent(r: BinRecord)
    requires Consistent(r)
    ensures Synced(r) == r
  {
  }

  /** What `doc.save()` does to the collection: validation first (a failure leaves
      the collection alone), then the pre-save hook, then the write under the
      document's id. */
  function SaveOutcome(db: map<string, BinRecord>, id: string, r: BinRecord): (out: (Option<BinRecord>, map<string, BinRecord>))
    ensures out.0.Some? <==> ValidBin(r)
    ensures out.0.None? ==> out.1 == db
    ensures out.0.Some? ==> out.0.value == Synced(r) && ValidBin(out.0.value) && Consistent(out.0.value)
                            && id in out.1 && out.1[id] == out.0.value
                            && forall k :: k in db && k != id ==> k in out.1 && out.1[k] == db[k]
    ensures out.1.Keys == db.Keys || out.1.Keys == db.Keys + {id}
  {
    if ValidBin(r) then (Some(Synced(r)), db[id := Synced(r)]) else (None, db)
  }

  /** A bin document loaded into memory; the handlers assign its fields one by one
      and then save it. */
  class BinDocument {
    var locationName: string
    var pointType: string
    var geo: seq<real>
    var latitude: real
    var longitude: real
    var category: string
    var status: string
    var capacity: real
    var lastServiceDate: int
    var isActive: bool
    var createdAt: int
    var updatedAt: int

    function Record(): BinRecord
      reads this
    {
      BinRecord(locationName, pointType, geo, latitude, longitude, category, status,
                capacity, lastServiceDate, isActive, createdAt, updatedAt)
    }

    /** `Bin.findById`: the document holding a stored record. */
    constructor Load(r: BinRecord)
      ensures Record() == r
    {
      locationName := r.locationName;
      pointType := r.pointType;
      geo := r.geo;
      latitude := r.latitude;
      longitude := r.longitude;
      category := r.category;
      status := r.status;
      capacity := r.capacity;
      lastServiceDate := r.lastServiceDate;
      isActive := r.isActive;
      createdAt := r.createdAt;
      updatedAt := r.updatedAt;
    }

    /** `doc.locationName = s` goes through the `trim: true` setter. */
    method SetLocationName(s: string)
      modifies this
      ensures Record() == old(Record()).(locationName := Trim(s))
    {
      var trimmed := Trim(s);
      locationName := trimmed;
      assert Record() == old(Record()).(locationName := trimmed);
    }

    /** The pre-save hook (models/Bin.js lines 77-88). Mongoose runs validation
        before it, so the pair has already been checked. */
    method PreSave()
      requires |geo| >= 2
      modifies this
      ensures Record() == Synced(old(Record()))
    {
      longitude := geo[0];
      latitude := geo[1];
    }

    /** `doc.save()`: validate, run the hook, write. The result is the saved
        record, or None after a validation error. */
    method Save(db: map<string, BinRecord>, id: string) returns (saved: Option<BinRecord>, db': map<string, BinRecord>)
      modifies this
      ensures (saved, db') == SaveOutcome(db, id, old(Record()))
      ensures saved.Some? ==> Record() == saved.value
      ensures saved.None? ==> Record() == old(Record())
    {
      if !ValidBin(Record()) {
        return None, db;
      }
      PreSave();
      saved := Some(Record());
      db' := db[id := Record()];
    }
  }
}
