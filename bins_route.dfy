/** `POST` and `PUT` of app/api/bins/route.js: the guard chain that builds a new
    bin, and the update of a stored bin, either capacity-only (`?capacity=true`)
    or general. The collection is a map from id to record. */
module BinsRoute {
  import opened Js
  import opened Geo
  import opened BinModel
  import opened BinRules

  /** The members of the POST body the handler reads. */
  datatype BinBody = BinBody(
    locationName: Option<string>,
    coordinates: Json,
    category: Option<string>,
    capacity: Option<real>,
    status: Option<string>)

  /** Position of a required field in the order the error lists them. */
  function FieldRank(name: string): int {
    if name == "locationName" then 0 else if name == "coordinates" then 1 else 2
  }

  /** The `missingFields` list: the falsy required fields, in the order
      locationName, coordinates, category. */
  function MissingFieldNames(b: BinBody): (names: seq<string>)
    ensures "locationName" in names <==> !TruthyStr(b.locationName)
    ensures "coordinates" in names <==> !Truthy(b.coordinates)
    ensures "category" in names <==> !TruthyStr(b.category)
    ensures forall n :: n in names ==> n in ["locationName", "coordinates", "category"]
    ensures forall i, j :: 0 <= i < j < |names| ==> FieldRank(names[i]) < FieldRank(names[j])
  {
    (if !TruthyStr(b.locationName) then ["locationName"] else [])
    + (if !Truthy(b.coordinates) then ["coordinates"] else [])
    + (if !TruthyStr(b.category) then ["category"] else [])
  }

  /** Coordinates the handler accepts: an array of exactly two numbers, a latitude
      and then a longitude, both in range. */
  predicate AcceptedCoordinates(c: Json) {
    c.Arr? && |c.items| == 2 && c.items[0].Num? && c.items[1].Num?
    && ValidLatitude(c.items[0].x) && ValidLongitude(c.items[1].x)
  }

  /** The handler. A success carries the record `Bin.create` writes. */
  function Post(b: BinBody, now: int): (res: Result<BinRecord, BinError>)
    ensures (res.Failure? && res.error.MissingFields?) <==> MissingFieldNames(b) != []
    ensures res.Failure? && res.error.MissingFields? ==> res.error.names == MissingFieldNames(b)
    ensures MissingFieldNames(b) == [] && !AcceptedCoordinates(b.coordinates) ==>
              res.Failure? && (res.error == BadCoordinateFormat || res.error == CoordinatesNotNumbers
                               || res.error == CoordinatesOutOfRange)
    ensures res.Success? ==>
              && MissingFieldNames(b) == [] && AcceptedCoordinates(b.coordinates)
              && ValidBin(res.value) && Consistent(res.value)
              && res.value.latitude == b.coordinates.items[0].x
              && res.value.longitude == b.coordinates.items[1].x
              && res.value.geo == [b.coordinates.items[1].x, b.coordinates.items[0].x]
              && res.value.locationName == Trim(b.locationName.value)
              && res.value.category == b.category.value
              && res.value.capacity == OrZero(b.capacity)
              && res.value.status == OrElse(b.status, "active")
              && res.value.lastServiceDate == now && res.value.createdAt == now
  {
    var missing := MissingFieldNames(b);
    if missing != [] then Failure(MissingFields(missing))
    else if !b.coordinates.Arr? || |b.coordinates.items| != 2 then Failure(BadCoordinateFormat)
    else
      var lat := b.coordinates.items[0];
      var lng := b.coordinates.items[1];
      if !lat.Num? || !lng.Num? then Failure(CoordinatesNotNumbers)
      else if lat.x < -90.0 || lat.x > 90.0 || lng.x < -180.0 || lng.x > 180.0 then Failure(CoordinatesOutOfRange)
      else
        Created(NewBin(b.locationName.value, [lng.x, lat.x], lat.x, lng.x, b.category.value,
                       OrZero(b.capacity), OrElse(b.status, "active"), now, now))
  }

  /** A POST with a well-formed body is refused only by the schema: a blank or
      over-long name, an unknown category or status, or a capacity outside 0..100. */
  lemma PostRefusedOnlyBySchema(b: BinBody, now: int)
    requires MissingFieldNames(b) == [] && AcceptedCoordinates(b.coordinates)
    ensures Post(b, now).Failure? ==> Post(b, now).error == ValidationFailed
    ensures Post(b, now).Success? <==>
              var name := Trim(b.locationName.value);
              && name != [] && |name| <= MaxLocationName
              && IsCategory(b.category.value)
              && IsBinStatus(OrElse(b.status, "active"))
              && 0.0 <= OrZero(b.capacity) <= 100.0
  {
  }

  /** The handler's state changes for one request. `capacityFlag` is the
      `capacity` query parameter and `body` the JSON body. */
  method Put(db: map<string, BinRecord>, id: Option<string>, capacityFlag: Option<string>, body: BinPatch, now: int,
             isObjectId: string -> bool)
    returns (res: Result<BinRecord, BinError>, db': map<string, BinRecord>)
    ensures !TruthyStr(id) ==> res == Failure(IdRequired) && db' == db
    ensures TruthyStr(id) && !isObjectId(id.value) ==> res == Failure(MalformedId) && db' == db
    ensures TruthyStr(id) && isObjectId(id.value) && id.value !in db ==> res == Failure(NotFound) && db' == db
    ensures TruthyStr(id) && isObjectId(id.value) && id.value in db && capacityFlag == Some("true") ==>
              if CapacityRejected(body.capacity) then res == Failure(InvalidCapacity) && db' == db
              else
                var out := SaveOutcome(db, id.value, CapacityUpdated(db[id.value], body.capacity.value, now));
                res == SavedReply(out.0) && db' == out.1
    ensures TruthyStr(id) && isObjectId(id.value) && id.value in db && capacityFlag != Some("true") ==>
              var out := SaveOutcome(db, id.value, Patched(db[id.value], body, now));
              res == SavedReply(out.0) && db' == out.1
  {
    if !TruthyStr(id) {
      return Failure(IdRequired), db;
    }
    if !isObjectId(id.value) {
      return Failure(MalformedId), db;
    }
    if id.value !in db {
      return Failure(NotFound), db;
    }
    var bin := new BinDocument.Load(db[id.value]);
    if capacityFlag == Some("true") {
      if body.capacity.None? || body.capacity.value < 0.0 || body.capacity.value > 100.0 {
        return Failure(InvalidCapacity), db;
      }
      SetCapacity(bin, body.capacity.value, now);
      assert bin.Record() == CapacityUpdated(db[id.value], body.capacity.value, now);
    } else {
      ApplyPatch(bin, body, now);
      assert bin.Record() == Patched(db[id.value], body, now);
    }
    var saved;
    saved, db' := bin.Save(db, id.value);
    res := SavedReply(saved);
  }

  /** The capacity branch (lines 217-222) and the `updatedAt` refresh (line 231). */
  method SetCapacity(bin: BinDocument, c: real, now: int)
    modifies bin
    ensures bin.Record() == CapacityUpdated(old(bin.Record()), c, now)
  {
    bin.capacity := c;
    if c >= FullThreshold {
      bin.status := "full";
    } else if c < FullThreshold && bin.status == "full" {
      bin.status := "active";
    }
    bin.updatedAt := now;
  }
}
