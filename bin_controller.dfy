/** The bin controller (controllers/binController.js): `getBins` filter
    construction, `createBin`, `updateBin` and `updateBinCapacity`. It repeats the
    route's rules with three differences the lemmas below make precise: the
    capacity is checked before the bin is looked up, `createBin` checks no
    coordinate shape itself (the schema does), and `createBin` sets
    `lastServiceDate` explicitly. */
module BinController {
  import opened Js
  import opened Geo
  import opened BinModel
  import opened BinRules
  import BinsRoute

  /** The `$near` clause: a GeoJSON point `[longitude, latitude]` and a radius in
      metres. */
  datatype Near = Near(longitude: real, latitude: real, maxDistance: int)

  /** The Mongo filter `getBins` builds; an absent member is no constraint. */
  datatype BinQuery = BinQuery(category: Option<string>, status: Option<string>, near: Option<Near>)

  const DefaultMaxDistance: int := 50000

  /** `getBins` up to the query: filters are added one by one when their parameter
      is truthy. `parseFloat` and `parseInt` are JavaScript's, passed in. */
  method GetBinsQuery(category: Option<string>, status: Option<string>,
                      latitude: Option<string>, longitude: Option<string>, maxDistance: Option<string>,
                      parseFloat: string -> real, parseInt: string -> int)
    returns (query: BinQuery)
    ensures query.category == (if TruthyStr(category) then category else None)
    ensures query.status == (if TruthyStr(status) then status else None)
    ensures query.near.Some? <==> TruthyStr(latitude) && TruthyStr(longitude)
    ensures query.near.Some? ==>
              && query.near.value.longitude == parseFloat(longitude.value)
              && query.near.value.latitude == parseFloat(latitude.value)
              && query.near.value.maxDistance == (if maxDistance.Some? then parseInt(maxDistance.value) else DefaultMaxDistance)
  {
    query := BinQuery(None, None, None);
    if TruthyStr(category) {
      query := query.(category := category);
    }
    if TruthyStr(status) {
      query := query.(status := status);
    }
    if TruthyStr(latitude) && TruthyStr(longitude) {
      var radius := if maxDistance.Some? then parseInt(maxDistance.value) else DefaultMaxDistance;
      query := query.(near := Some(Near(parseFloat(longitude.value), parseFloat(latitude.value), radius)));
    }
  }

  /** `createBin`: `coordinates[0]` is taken as the latitude and `coordinates[1]` as
      the longitude with no shape check of its own. Both go through the schema's
      Number cast (`parseNumber` is JavaScript's `Number` on a string), and a value
      that does not cast fails the save. */
  function CreateBin(b: BinsRoute.BinBody, now: int, parseNumber: string -> Option<real>): (res: Result<BinRecord, BinError>)
    ensures res == Failure(MissingRequired) <==>
              !TruthyStr(b.locationName) || !Truthy(b.coordinates) || !TruthyStr(b.category)
    ensures TruthyStr(b.locationName) && Truthy(b.coordinates) && TruthyStr(b.category)
            && (CastNumber(Index(b.coordinates, 0), parseNumber).None?
                || CastNumber(Index(b.coordinates, 1), parseNumber).None?) ==>
              res == Failure(ValidationFailed)
    ensures TruthyStr(b.locationName) && Truthy(b.coordinates) && TruthyStr(b.category) ==>
              var lat := CastNumber(Index(b.coordinates, 0), parseNumber);
              var lng := CastNumber(Index(b.coordinates, 1), parseNumber);
              lat.Some? && lng.Some? ==>
                (res.Success? <==>
                   ValidBin(NewBin(b.locationName.value, [lng.value, lat.value], lat.value, lng.value,
                                   b.category.value, OrZero(b.capacity), OrElse(b.status, "active"), now, now)))
    ensures res.Failure? ==> res.error == MissingRequired || res.error == ValidationFailed
    ensures res.Success? ==>
              var lat := CastNumber(Index(b.coordinates, 0), parseNumber);
              var lng := CastNumber(Index(b.coordinates, 1), parseNumber);
              && lat.Some? && lng.Some?
              && ValidBin(res.value) && Consistent(res.value)
              && res.value.latitude == lat.value
              && res.value.longitude == lng.value
              && res.value.geo == [lng.value, lat.value]
              && res.value.locationName == Trim(b.locationName.value)
              && res.value.category == b.category.value
              && res.value.capacity == OrZero(b.capacity)
              && res.value.status == OrElse(b.status, "active")
              && res.value.lastServiceDate == now && res.value.createdAt == now
  {
    if !TruthyStr(b.locationName) || !Truthy(b.coordinates) || !TruthyStr(b.category) then
      Failure(MissingRequired)
    else
      var lat := CastNumber(Index(b.coordinates, 0), parseNumber);
      var lng := CastNumber(Index(b.coordinates, 1), parseNumber);
      if lat.None? || lng.None? then Failure(ValidationFailed)
      else
        Created(NewBin(b.locationName.value, [lng.value, lat.value], lat.value, lng.value, b.category.value,
                       OrZero(b.capacity), OrElse(b.status, "active"), now, now))
  }

  /** On a two-element array of numbers the controller and the route accept the
      same bodies and create the same bin. */
  lemma CreateBinAgreesWithPost(b: BinsRoute.BinBody, now: int, parseNumber: string -> Option<real>)
    requires b.coordinates.Arr? && |b.coordinates.items| == 2
    requires b.coordinates.items[0].Num? && b.coordinates.items[1].Num?
    ensures CreateBin(b, now, parseNumber).Success? <==> BinsRoute.Post(b, now).Success?
    ensures CreateBin(b, now, parseNumber).Success? ==> CreateBin(b, now, parseNumber) == BinsRoute.Post(b, now)
  {
    var lat := b.coordinates.items[0];
    var lng := b.coordinates.items[1];
    assert Index(b.coordinates, 0) == lat && Index(b.coordinates, 1) == lng;
    if TruthyStr(b.locationName) && TruthyStr(b.category) {
      var r := NewBin(b.locationName.value, [lng.x, lat.x], lat.x, lng.x, b.category.value,
                      OrZero(b.capacity), OrElse(b.status, "active"), now, now);
      assert CreateBin(b, now, parseNumber) == Created(r);
      if ValidLatitude(lat.x) && ValidLongitude(lng.x) {
        assert BinsRoute.Post(b, now) == Created(r);
      } else {
        assert !CoordinatesValidator(r.geo);
      }
    }
  }

  /** The controller accepts a three-element array the route refuses: it reads only
      the first two entries. */
  lemma CreateBinIgnoresExtraCoordinates(now: int, parseNumber: string -> Option<real>)
    ensures var b := BinsRoute.BinBody(Some("Depot"), Arr([Num(10.0), Num(20.0), Num(30.0)]),
                                       Some("Organic"), None, None);
            && CreateBin(b, now, parseNumber).Success?
            && BinsRoute.Post(b, now) == Failure(BadCoordinateFormat)
  {
    var b := BinsRoute.BinBody(Some("Depot"), Arr([Num(10.0), Num(20.0), Num(30.0)]),
                               Some("Organic"), None, None);
    assert BinsRoute.MissingFieldNames(b) == [];
    assert BinsRoute.Post(b, now) == Failure(BadCoordinateFormat);
    assert CastNumber(Index(b.coordinates, 0), parseNumber) == Some(10.0);
    assert CastNumber(Index(b.coordinates, 1), parseNumber) == Some(20.0);
    DepotIsValid(now);
    SyncedOfConsistent(Depot(now));
    assert CreateBin(b, now, parseNumber) == Success(Depot(now));
  }

  /** The controller casts numeric strings, which the route's `typeof` check
      refuses: `["10", "20"]` creates a bin at latitude 10, longitude 20. */
  lemma CreateBinCastsNumericStrings(now: int, parseNumber: string -> Option<real>)
    requires parseNumber("10") == Some(10.0) && parseNumber("20") == Some(20.0)
    ensures var b := BinsRoute.BinBody(Some("Depot"), Arr([Str("10"), Str("20")]),
                                       Some("Organic"), None, None);
            && CreateBin(b, now, parseNumber).Success?
            && CreateBin(b, now, parseNumber).value.latitude == 10.0
            && CreateBin(b, now, parseNumber).value.longitude == 20.0
            && BinsRoute.Post(b, now) == Failure(CoordinatesNotNumbers)
  {
    var b := BinsRoute.BinBody(Some("Depot"), Arr([Str("10"), Str("20")]),
                               Some("Organic"), None, None);
    assert BinsRoute.MissingFieldNames(b) == [];
    assert BinsRoute.Post(b, now) == Failure(CoordinatesNotNumbers);
    assert CastNumber(Index(b.coordinates, 0), parseNumber) == Some(10.0);
    assert CastNumber(Index(b.coordinates, 1), parseNumber) == Some(20.0);
    DepotIsValid(now);
    SyncedOfConsistent(Depot(now));
    assert CreateBin(b, now, parseNumber) == Success(Depot(now));
  }

  /** The controller indexes `coordinates` without asking for an array, so an
      object with members "0" and "1" creates a bin the route refuses. */
  lemma CreateBinReadsIndexedObject(now: int, parseNumber: string -> Option<real>)
    ensures var b := BinsRoute.BinBody(Some("Depot"), Obj(map["0" := Num(10.0), "1" := Num(20.0)]),
                                       Some("Organic"), None, None);
            && CreateBin(b, now, parseNumber).Success?
            && CreateBin(b, now, parseNumber).value.latitude == 10.0
            && CreateBin(b, now, parseNumber).value.longitude == 20.0
            && BinsRoute.Post(b, now) == Failure(BadCoordinateFormat)
  {
    var b := BinsRoute.BinBody(Some("Depot"), Obj(map["0" := Num(10.0), "1" := Num(20.0)]),
                               Some("Organic"), None, None);
    assert NatToDecimal(0) == "0" && NatToDecimal(1) == "1";
    assert BinsRoute.MissingFieldNames(b) == [];
    assert BinsRoute.Post(b, now) == Failure(BadCoordinateFormat);
    assert CastNumber(Index(b.coordinates, 0), parseNumber) == Some(10.0);
    assert CastNumber(Index(b.coordinates, 1), parseNumber) == Some(20.0);
    DepotIsValid(now);
    SyncedOfConsistent(Depot(now));
    assert CreateBin(b, now, parseNumber) == Success(Depot(now));
  }

  /** The bin both examples create, and its validity. */
  function Depot(now: int): BinRecord {
    BinRecord("Depot", "Point", [20.0, 10.0], 10.0, 20.0, "Organic", "active", 0.0, now, true, now, now)
  }

  lemma DepotIsValid(now: int)
    ensures ValidBin(Depot(now))
    ensures NewBin("Depot", [20.0, 10.0], 10.0, 20.0, "Organic", 0.0, "active", now, now) == Depot(now)
  {
    assert IsCategory("Organic") by {
      assert Categories[2] == "Organic";
    }
    assert IsBinStatus("active") by {
      assert BinStatuses[0] == "active";
    }
    DepotTrimmed();
  }

  lemma DepotTrimmed()
    ensures Trim("Depot") == "Depot"
  {
    TrimOfTrimmed("Depot");
  }

  /** `updateBinCapacity`. The capacity is checked before the lookup, so a bad
      capacity is reported even for an unknown id. */
  method UpdateBinCapacity(db: map<string, BinRecord>, id: Option<string>, capacity: Option<real>, now: int,
                           isObjectId: string -> bool)
    returns (res: Result<BinRecord, BinError>, db': map<string, BinRecord>)
    ensures CapacityRejected(capacity) ==> res == Failure(InvalidCapacity) && db' == db
    ensures !CapacityRejected(capacity) && id.Some? && !isObjectId(id.value) ==> res == Failure(MalformedId) && db' == db
    ensures !CapacityRejected(capacity) && (id.None? || (isObjectId(id.value) && id.value !in db)) ==>
              res == Failure(NotFound) && db' == db
    ensures !CapacityRejected(capacity) && id.Some? && isObjectId(id.value) && id.value in db ==>
              var out := SaveOutcome(db, id.value, CapacityUpdated(db[id.value], capacity.value, now));
              res == SavedReply(out.0) && db' == out.1
  {
    if capacity.None? || capacity.value < 0.0 || capacity.value > 100.0 {
      return Failure(InvalidCapacity), db;
    }
    if id.Some? && !isObjectId(id.value) {
      return Failure(MalformedId), db;
    }
    if id.None? || id.value !in db {
      return Failure(NotFound), db;
    }
    var bin := new BinDocument.Load(db[id.value]);
    SetCapacityAndStatus(bin, capacity.value, now);
    var saved;
    saved, db' := bin.Save(db, id.value);
    res := SavedReply(saved);
  }

  /** Lines 199-207: capacity, then `updatedAt`, then the status rule. */
  method SetCapacityAndStatus(bin: BinDocument, c: real, now: int)
    modifies bin
    ensures bin.Record() == CapacityUpdated(old(bin.Record()), c, now)
  {
    bin.capacity := c;
    bin.updatedAt := now;
    if c >= FullThreshold {
      bin.status := "full";
    } else if c < FullThreshold && bin.status == "full" {
      bin.status := "active";
    }
  }

  /** `updateBin`: the general update, with no check of its own before the save. */
  method UpdateBin(db: map<string, BinRecord>, id: Option<string>, body: BinPatch, now: int,
                   isObjectId: string -> bool)
    returns (res: Result<BinRecord, BinError>, db': map<string, BinRecord>)
    ensures id.Some? && !isObjectId(id.value) ==> res == Failure(MalformedId) && db' == db
    ensures id.None? || (isObjectId(id.value) && id.value !in db) ==> res == Failure(NotFound) && db' == db
    ensures id.Some? && isObjectId(id.value) && id.value in db ==>
              var out := SaveOutcome(db, id.value, Patched(db[id.value], body, now));
              res == SavedReply(out.0) && db' == out.1
  {
    if id.Some? && !isObjectId(id.value) {
      return Failure(MalformedId), db;
    }
    if id.None? || id.value !in db {
      return Failure(NotFound), db;
    }
    var bin := new BinDocument.Load(db[id.value]);
    ApplyPatch(bin, body, now);
    var saved;
    saved, db' := bin.Save(db, id.value);
    res := SavedReply(saved);
  }
}
