# TrashTrack core rules in Dafny

TrashTrack is a waste-tracking web app. Citizens report waste at bins, which earns them credits, or at unmanaged spots called hotspots. Operators manage bins and watch their fill level. This project models the server-side rules of the app and the data rules of two client pages, and proves properties of them:

- **Hotspot clustering** (`Hotspots`) is the greedy pass of `GET /api/waste-hotspots`.
  - Each unprocessed report seeds a cluster.
  - Later unprocessed reports join it when they lie within the radius of the seed.
  - Each cluster gets a centroid and a size-based priority, and the clusters are then ranked.
  - It is an imperative method over a visited set, proved against a ghost description of the partition it builds.
- **Bins**:
  - `BinModel` holds the schema of a stored bin: bounds, enums, the trimmed name, defaults, and the GeoJSON validator.
  - `BinModel.BinDocument` is a loaded document, updated field by field. It runs the pre-save hook that copies the GeoJSON pair into `latitude`/`longitude`, and it is saved into a collection modelled as a map from id to record.
  - `BinRules` holds the capacity/status rule that both update paths share: capacity 85 or more means `full`, and falling below 85 from `full` gives `active`. It also holds the general field patch.
  - `BinsRoute` covers `POST`/`PUT /api/bins`.
  - `BinController` covers the controller copies: `getBins` query building, `createBin`, `updateBin` and `updateBinCapacity`.
- **Report intake** (`WasteRoute`, `ReportModel`):
  - the credit rate table and its rounding to one decimal;
  - disposal versus hotspot classification;
  - the ordered chain of rejections of `POST /api/waste`;
  - the defaults of a new report;
  - the verify operation of `PUT /api/waste`.
- **Finding bins** (`FindBins`, `Geo.CategoryColor`): annotating bins with their distance from the user and stable-sorting them, the metre/kilometre display switch, the two views' different handling of a zero distance, and the category colours.
- **Contribution statistics** (`Contributions`): the loop of `calculateStats`, which totals credits and waste and fills a per-waste-type breakdown, and the impact-in-tons figure.
- **Login** (`Auth`): `authenticateUser` as a search over the fixed credential table. `Math.random` is a parameter.

Shared JavaScript semantics live in `Js`:

- truthiness and `||` defaults;
- `Math.round`, which rounds half up (ECMA-262 section 21.3.2.28);
- `String.prototype.trim` with the ECMAScript white-space set;
- decimal rendering of a whole number.

`Sorting` models the stable `Array.prototype.sort` (ECMA-262 section 23.1.3.30) as an insertion sort. Its result is proved sorted, a permutation of the input, and stable. Distances are an abstract function parameter (`Geo.Distance`), so every clustering and ranking property holds for any distance function.

On these points the model follows the code as written:

- Verifying a report sets only `verified`, `verifiedAt` and `updatedAt`. Its `status` stays as it was.
- `updateBinCapacity` in the controller validates the capacity before it looks the bin up.
- The controller's `createBin` accepts coordinate arrays longer than two entries, objects with members `"0"` and `"1"`, and entries that Mongoose's Number cast turns into numbers, such as numeric strings.

## Model

| member | source | states |
|---|---|---|
| Hotspots.RadiusOrDefault | app/api/waste-hotspots/route.js:23 | an absent `radius` parameter gives 200; a given one is used as is |
| Hotspots.PriorityFor | app/api/waste-hotspots/route.js:72-75 | `high` iff at least 3 reports, `medium` iff exactly 2, `low` iff at most 1 |
| Hotspots.MakeCluster | app/api/waste-hotspots/route.js:77-86 | the cluster lists its members in order, its coordinates are their centroid, `reportCount` is their number, `clusterRadius` is the radius used, and the priority follows the size rule |
| Hotspots.Centroid | app/api/waste-hotspots/route.js:69-70 | the mean latitude and the mean longitude of the members |
| Hotspots.GrowCluster | app/api/waste-hotspots/route.js:45-66 | seed `i` comes first and the members strictly increase; a later report `m` joins iff it was unprocessed and within the radius of the seed; the processed set grows by exactly the members |
| Hotspots.ClusterReports | app/api/waste-hotspots/route.js:41-87 | the clusters, in increasing seed order, are exactly the greedy clustering: each seed is the least report not in an earlier cluster, and each cluster holds the seed plus every later uncovered report within the radius of the seed |
| Hotspots.GetHotspots | app/api/waste-hotspots/route.js:23-102 | `data` is the input; an empty input gives no clusters; `clusteredData` is the ranking of the greedy clustering built with the defaulted radius |
| Hotspots.PartitionExactlyOnce | app/api/waste-hotspots/route.js:42-66 | every report index is in some cluster, only valid indices are, and no index is in two clusters |
| Hotspots.FirstCluster | app/api/waste-hotspots/route.js:45-65 | the first cluster is seeded by report 0 and holds exactly the reports within the radius of report 0 |
| Hotspots.CentroidWithin | app/api/waste-hotspots/route.js:69-70 | the mean latitude and longitude lie within any bounds that every member respects |
| Hotspots.CentroidOfOne | app/api/waste-hotspots/route.js:69-70 | the centroid of a single report is that report's position |
| Hotspots.CentroidValid | app/api/waste-hotspots/route.js:69-70 | the centroid of valid positions is a valid position |
| Hotspots.SumLatitudesBounds | app/api/waste-hotspots/route.js:69 | the latitude sum of n members lies between n times a lower bound and n times an upper bound |
| Hotspots.SumLongitudesBounds | app/api/waste-hotspots/route.js:70 | the same bounds for the longitude sum |
| Hotspots.ClusterLeTotalPreorder | app/api/waste-hotspots/route.js:89-96 | the comparator (priority rank, then `reportCount` descending) is a total preorder |
| Hotspots.ClusterCompare | app/api/waste-hotspots/route.js:89-96 | a negative, zero or positive comparison by priority rank (`high` first), then by `reportCount` descending |
| Hotspots.RankClusters | app/api/waste-hotspots/route.js:89-96 | the stable sort of the clusters by that comparison |
| Hotspots.RankedOrder | app/api/waste-hotspots/route.js:89-96 | the ranked list is a permutation of the clusters, is sorted by the comparator, and keeps tied clusters in their original order |
| Hotspots.RankedBySize | app/api/waste-hotspots/route.js:72-96 | after ranking a greedy clustering, report counts never increase along the list |
| Hotspots.ClusterNotTransitive | app/api/waste-hotspots/route.js:52-65 | two reports more than the radius apart can share a cluster because both are near its seed |
| Sorting.SortBy | app/api/waste-hotspots/route.js:89 | the sort returns a permutation of its input |
| Sorting.InsertBy | app/api/waste-hotspots/route.js:89 | inserting adds exactly one element |
| Sorting.SortSorted | app/api/waste-hotspots/route.js:89-96 | under a total preorder the result is sorted |
| Sorting.InsertSorted | app/api/waste-hotspots/route.js:89-96 | inserting into a sorted list keeps it sorted |
| Sorting.SortStable | app/find-bins/page.js:107 | the sort keeps the relative order of elements that compare equal |
| Sorting.InsertTiedWith | app/find-bins/page.js:107 | inserting keeps the relative order of tied elements |
| Sorting.TiedWithAppend | app/find-bins/page.js:107 | the tied elements of a concatenation are those of each part, in order |
| BinModel.NewBin | models/Bin.js:5-69 | a new bin has a trimmed name, point type `Point`, `isActive` true and both timestamps set to now |
| BinModel.ValidBin | models/Bin.js:5-66 | the schema checks on save: a non-empty name of at most 100 characters, point type `Point`, the GeoJSON validator, latitude and longitude ranges, the category and status enums and capacity in 0..100 |
| BinModel.CoordinatesValidator | models/Bin.js:20-28 | the GeoJSON pair has exactly two entries, a longitude in -180..180 then a latitude in -90..90 |
| BinModel.BinDocument.Load | app/api/bins/route.js:207 | a document loaded by `findById` holds exactly the stored record |
| BinModel.Synced | models/Bin.js:77-88 | the hook sets `longitude` from the first and `latitude` from the second GeoJSON entry, changes nothing else, and keeps a valid bin valid and makes it consistent |
| BinModel.SyncedIdempotent | models/Bin.js:77-88 | running the hook twice equals running it once |
| BinModel.SyncedOfConsistent | models/Bin.js:77-88 | the hook leaves a consistent record unchanged |
| BinModel.SaveOutcome | models/Bin.js:5-88 | a save succeeds iff the record satisfies every schema rule; a failure leaves the collection unchanged; a success stores the record as the pre-save hook leaves it, valid and consistent, under the id, and keeps every other entry |
| BinModel.BinDocument.SetLocationName | models/Bin.js:5-10 | assigning the name stores it trimmed and changes nothing else |
| BinModel.BinDocument.PreSave | models/Bin.js:77-88 | the document afterwards is the synced record |
| BinModel.BinDocument.Save | models/Bin.js:5-88 | the returned record and collection are the save outcome of the document, and the document holds the saved record |
| BinRules.NextStatus | app/api/bins/route.js:217-222 | `full` iff capacity is at least 85; below 85, `full` becomes `active` and any other status stays; a schema status stays a schema status |
| BinRules.CapacityRejected | app/api/bins/route.js:214 | a capacity is refused when absent, below 0 or above 100 |
| BinRules.CapacityUpdated | app/api/bins/route.js:212-231 | capacity and `updatedAt` are set; status becomes `full` at 85 or more, `full` below 85 becomes `active`, any other status below 85 stays; status then matches capacity, nothing else changes, and an accepted capacity keeps a valid bin valid |
| BinRules.CapacityUpdateIdempotent | controllers/binController.js:199-207 | repeating the same capacity update changes nothing more |
| BinRules.CapacityUpdateAlwaysSaves | app/api/bins/route.js:212-232 | an accepted capacity update of a valid bin always passes validation, and the stored status matches the capacity |
| BinRules.Patched | app/api/bins/route.js:223-231 | only the truthy `locationName` (trimmed), `category` and `status` and a defined `capacity` change, plus `updatedAt`; status is not derived from capacity |
| BinRules.PatchCanBreakFullRule | app/api/bins/route.js:223-229 | a general update to capacity 90 leaves an `active` bin `active`, against the full rule |
| BinRules.Created | app/api/bins/route.js:151-162 | `Bin.create` succeeds iff the record is valid, and then returns the record as the pre-save hook leaves it, valid and consistent; otherwise it is a validation error |
| BinRules.SavedReply | app/api/bins/route.js:232-234 | a saved record is the reply; a refused save is a validation error |
| BinRules.ApplyPatch | app/api/bins/route.js:223-231 | the loaded document afterwards is the patched record |
| BinsRoute.MissingFieldNames | app/api/bins/route.js:109-119 | each required field is listed iff it is falsy, nothing else is listed, and the order is locationName, coordinates, category |
| BinsRoute.Post | app/api/bins/route.js:97-192 | missing fields are reported first; a body that is not a two-number array within range is refused by a coordinate error; a success stores `latitude` = entry 0, `longitude` = entry 1, GeoJSON `[lng, lat]`, a trimmed name, capacity defaulting to 0 and status to `active` |
| BinsRoute.AcceptedCoordinates | app/api/bins/route.js:123-148 | a two-entry array of numbers whose first entry is a latitude in -90..90 and second a longitude in -180..180 |
| BinsRoute.PostRefusedOnlyBySchema | app/api/bins/route.js:151-162 | a well-formed body succeeds iff the trimmed name is non-empty and at most 100 characters, the category and status are known and capacity is in 0..100 |
| BinsRoute.Put | app/api/bins/route.js:194-239 | no id, an id that does not cast to an ObjectId, or an unknown id changes nothing; with `capacity=true` a missing or out-of-range capacity changes nothing, otherwise the collection becomes the save outcome of the capacity update; without it, the save outcome of the general patch |
| BinsRoute.SetCapacity | app/api/bins/route.js:217-222 | the loaded document afterwards is the capacity-updated record |
| BinController.GetBinsQuery | controllers/binController.js:8-31 | the category and status filters are present iff given; the geo clause is present iff both latitude and longitude are given; it holds the parsed longitude and latitude, and `maxDistance` defaults to 50000 |
| BinModel.CastNumber | models/Bin.js:21-42 | Mongoose's Number cast: numbers are kept, booleans become 1 or 0, non-empty strings go through `Number`, and `undefined`, `null` and `""` give no value |
| BinController.CreateBin | controllers/binController.js:48-85 | a required field is missing iff one of the three is falsy; an entry that does not cast to a number fails the save; when both entries cast, the bin is created iff the record built from them satisfies the schema; the only failures are a missing field and a validation error; a success stores GeoJSON `[coordinates[1], coordinates[0]]`, `latitude` = `coordinates[0]`, `longitude` = `coordinates[1]` (both after the cast), the trimmed name, the category and the defaults |
| BinController.CreateBinAgreesWithPost | controllers/binController.js:61-73 | for a two-entry array of numbers the controller and the route accept the same bodies and build the same record |
| BinController.CreateBinCastsNumericStrings | controllers/binController.js:61-73 | the controller creates a bin from `["10", "20"]`, which the route refuses because the entries are not numbers |
| BinController.CreateBinIgnoresExtraCoordinates | controllers/binController.js:61-73 | the controller accepts a three-entry array and uses its first two entries |
| BinController.CreateBinReadsIndexedObject | controllers/binController.js:61-68 | the controller creates a bin from an object `{"0": 10, "1": 20}`, which the route refuses as not an array |
| BinController.UpdateBinCapacity | controllers/binController.js:176-221 | an absent or out-of-range capacity is refused before the lookup; an id that does not cast to an ObjectId or an unknown id changes nothing; otherwise the collection becomes the save outcome of the capacity update |
| BinController.SetCapacityAndStatus | controllers/binController.js:199-207 | the loaded document afterwards is the capacity-updated record |
| BinController.UpdateBin | controllers/binController.js:113-147 | an id that does not cast to an ObjectId or an unknown id changes nothing; otherwise the collection becomes the save outcome of the general patch |
| ReportModel.NewReport | models/WasteReport.js:4-81 | defaults: `bin_disposal`, `pending`, `waste_hotspot`, `kg`, 0 credits, `Custom Location`, a trimmed description, `verified` false, no verifier and no verification time, and every timestamp set to now |
| ReportModel.ValidReport | models/WasteReport.js:4-77 | the schema checks on save: a user id, a present `binId` that casts to an ObjectId, the type, status, waste type and unit enums, quantity in 0.1..1000, a description of at most 500 characters and non-negative credits |
| ReportModel.DefaultsAreValid | models/WasteReport.js:4-81 | a report built from a user id, an in-range quantity and defaults alone satisfies the schema |
| WasteRoute.CreditRate | app/api/waste/route.js:5-15 | every rate is at least 1, and a type outside the six categories gets rate 1 |
| WasteRoute.RateTable | app/api/waste/route.js:6-13 | General Waste 1, Recyclable 3, Organic 2, Hazardous 5, E-waste 4, Medical 4 |
| WasteRoute.CalculateCredits | app/api/waste/route.js:16 | credits are a whole number of tenths within a half-open band of 0.05 around quantity times rate, which is the nearest tenth with ties going up; non-negative for a non-negative quantity |
| WasteRoute.CreditsOfWholeTenths | app/api/waste/route.js:16 | a quantity whose exact credit is a whole number of tenths gets exactly that credit |
| WasteRoute.HazardousTieRoundsUp | app/api/waste/route.js:16 | a tie rounds up: 1.25 of Hazardous earns 6.3 |
| WasteRoute.ReportTypeOf | app/api/waste/route.js:79 | `bin_disposal` iff a truthy `binId` is supplied, `waste_hotspot` otherwise |
| WasteRoute.CreditsFor | app/api/waste/route.js:121 | hotspot reports earn 0; disposal reports earn the calculated credits |
| WasteRoute.Submit | app/api/waste/route.js:50-157 | each rejection happens iff its check is the first to fail, in the order: user or quantity, waste type, bin location, coordinates, unknown waste type, then the schema (including the ObjectId cast of `binId`); a report is accepted iff every check passes and the schema accepts the new record; no other error occurs; an accepted report is exactly the new record built from the body's fields with the schema defaults, is `pending`, carries the derived type, bin and credits |
| WasteRoute.EquatorHotspotRefused | app/api/waste/route.js:100-105 | a hotspot at latitude 0 is refused as missing coordinates |
| WasteRoute.DisposalAccepted | app/api/waste/route.js:68-139 | a complete disposal report naming its bin by an ObjectId and within the schema is accepted and earns the calculated credits |
| WasteRoute.MalformedBinIdRejected | models/WasteReport.js:9-13 | a disposal whose `binId` is not an ObjectId passes the handler's checks and is refused by the schema's cast |
| WasteRoute.HotspotAccepted | app/api/waste/route.js:68-139 | a report with a user, an in-range quantity, no bin and non-zero coordinates, whose optional fields fit the schema, is accepted as a hotspot earning 0 credits |
| WasteRoute.ChecksPass | app/api/waste/route.js:68-116 | every check before the record is built passes: a user and quantity; for a disposal a waste type, a bin location and a known category; for a hotspot both coordinates |
| WasteRoute.FieldsOf | app/api/waste/route.js:121-137 | the values handed to the constructor: `binId` only when truthy, the derived type, `pending`, the unit defaulting to `kg`, the credits and the bin location defaulting to `Custom Location` |
| WasteRoute.CoordinatesMissing | app/api/waste/route.js:100 | the coordinates count as missing when absent or when either member is falsy, so 0 is missing |
| WasteRoute.Verify | app/api/waste/route.js:160-199 | a missing id, an id that does not cast to an ObjectId, or an unknown id changes nothing; otherwise only `verified`, `verifiedAt` (now) and `updatedAt` (now) change |
| WasteRoute.VerifyIdempotent | app/api/waste/route.js:174-178 | verifying twice at the same time equals verifying once |
| FindBins.WithDistance | app/find-bins/page.js:101-106 | a bin gains its distance from the user and nothing else changes |
| FindBins.Annotate | app/find-bins/page.js:101-106 | each bin, in order, is annotated with its distance |
| FindBins.NearbyBins | app/find-bins/page.js:98-108 | without a user location or with no bins the list is unchanged; otherwise the output is a permutation of the annotated bins |
| FindBins.NearerOrEqualTotalPreorder | app/find-bins/page.js:107 | the distance comparator is a total preorder |
| FindBins.NearerOrEqual | app/find-bins/page.js:107 | `a.distance - b.distance <= 0` on annotated views, which all carry a distance; an absent distance, which sorting never meets, is read as 0 only to make the relation total |
| FindBins.NearbyAnnotated | app/find-bins/page.js:101-107 | a view is in the output iff it is some input bin annotated with its distance |
| FindBins.NearbySortedAndStable | app/find-bins/page.js:107 | output distances never decrease, and bins at equal distance keep their fetched order |
| FindBins.FormatDistance | app/find-bins/page.js:142-147 | metres iff the distance is below 1 km, below 1000 m, and the shown amount is the same distance |
| FindBins.DetailDistance | app/find-bins/page.js:264 | a distance is shown iff it is truthy |
| FindBins.ListDistance | app/find-bins/page.js:335 | a distance is shown iff it is defined |
| FindBins.ViewsDifferOnlyAtZero | app/find-bins/page.js:264 | the detail and list views disagree exactly when the distance is 0 |
| Geo.CategoryColor | app/find-bins/page.js:130-140 | the grey `#64748b` is returned iff the category is General Waste or unknown |
| Geo.ColorsDistinct | app/my-contributions/page.js:79-89 | the six categories have six different colours |
| Contributions.AddOrNaN | app/my-contributions/page.js:67 | adding `undefined` gives NaN, and NaN is absorbing |
| Contributions.CalculateStats | app/my-contributions/page.js:54-77 | the totals are the credit and waste sums rounded to one decimal, `reportCount` is the number of reports, and the breakdown is the per-type fold |
| Contributions.AddToBreakdown | app/my-contributions/page.js:63-68 | only the report's own waste type entry changes, by one step |
| Contributions.SumsSnoc | app/my-contributions/page.js:60-61 | one more report adds its credits and its quantity, with missing values counted as 0 |
| Contributions.BreakdownSnoc | app/my-contributions/page.js:63-68 | one more report steps its own type's entry and leaves the others alone |
| Contributions.NeverSeen | app/my-contributions/page.js:63-65 | a type that never occurs has count 0, credits 0 and quantity 0 |
| Contributions.BreakdownKeys | app/my-contributions/page.js:63-68 | the keys are exactly the waste types that occur, and each has a positive count |
| Contributions.CountPositive | app/my-contributions/page.js:66 | every occurring type is counted at least once |
| Contributions.BreakdownTotals | app/my-contributions/page.js:63-74 | the per-type counts sum to `reportCount` and the per-type credits sum to the total credits |
| Contributions.BreakdownQuantities | app/my-contributions/page.js:61-67 | when every report has a quantity, the per-type quantities are defined and sum to the total waste |
| Contributions.MissingQuantityIsNaN | app/my-contributions/page.js:67 | a report without a quantity makes its type's quantity NaN, while the total waste counts it as 0 |
| Contributions.ImpactTons | app/my-contributions/page.js:174 | the impact is a whole number of hundredths within a half-open band of 0.005 around the waste in tonnes, which is the nearest hundredth with ties going up; non-negative for non-negative waste |
| Auth.FindCredential | lib/auth.js:10-12 | a found index matches both username and password; none found means no entry matches |
| Auth.Matches | lib/auth.js:11 | an entry matches when both username and password are equal |
| Auth.SessionId | lib/auth.js:18 | the id is `user_` followed by decimal digits whose value is at most 9999 |
| Auth.AuthenticateUser | lib/auth.js:9-30 | success iff some entry matches both fields exactly; the returned username and role are a matching entry's; a failure carries `Invalid username or password` |
| Auth.CredentialTable | lib/auth.js:3-7 | three entries with distinct usernames, and only `admin` has role `admin` |
| Auth.AdminRoleOnlyForAdmin | lib/auth.js:3-23 | a successful login has role `admin` iff the username is `admin` |
| Auth.WrongPasswordRefused | lib/auth.js:9-29 | another user's password is refused, and the admin's own password is accepted |
| Js.MathRound | app/api/waste/route.js:16 | the result is the integer nearest to x, with ties rounding up |
| Js.MathRoundOfInteger | app/api/waste/route.js:16 | an integer rounds to itself |
| Js.MathRoundMonotone | app/api/waste/route.js:16 | rounding is monotone |
| Js.RoundTenth | app/my-contributions/page.js:72-73 | the result is a whole number of tenths within a half-open band of 0.05 around x: the nearest tenth, ties going up |
| Js.RoundHundredth | app/my-contributions/page.js:174 | the result is a whole number of hundredths within a half-open band of 0.005 around x: the nearest hundredth, ties going up |
| Js.OrZero | app/my-contributions/page.js:60-61 | a truthy number is kept, and anything else becomes 0 |
| Js.OrElse | app/api/bins/route.js:161 | a truthy string is kept, and anything else becomes the fallback |
| Js.Index | controllers/binController.js:64-67 | indexing an array gives the entry or `undefined` past its end; a string gives its one-character slice; an object gives the member named by the decimal digits of the index, or `undefined`; a boolean or number gives `undefined` |
| Js.Trim | models/Bin.js:8 | the result is a middle slice of the input with only white space cut off on either side, and neither starts nor ends with white space |
| Js.LeadingSpaces | models/Bin.js:8 | counts a run of white space at the front that ends at a non-space character or at the end |
| Js.TrailingSpaces | models/Bin.js:8 | counts a run of white space at the end that starts after a non-space character or at the start |
| Js.TrimOfTrimmed | models/Bin.js:8 | trimming a string without outer white space changes nothing |
| Js.TrimIdempotent | models/WasteReport.js:43 | trimming twice equals trimming once |
| Js.NatToDecimal | lib/auth.js:18 | the rendering is a non-empty string of digits with no leading zero |
| Js.DecimalRoundTrip | lib/auth.js:18 | reading the rendering back gives the number |

## Left out

- Haversine distance: the trigonometry is left out. Distance is a function parameter, and no metric fact about it is used.
- Persistence: MongoDB and Mongoose are modelled only as a map from id to record.
  - `connectDB`, `find`, `findByIdAndDelete`, `countDocuments`, the aggregate statistics and the `$near`/2dsphere query semantics are not modelled.
  - `GetBinsQuery` builds the query value but does not run it.
  - New ids and the insert of a created bin or report are not modelled. `Post`, `CreateBin` and `Submit` return the record that would be stored.
- HTTP: `NextResponse`, status codes beyond accept or refuse, CORS headers, `OPTIONS` and `DELETE`, `getBinById`, and the read-only `GET` listings of bins and reports are not modelled. Error kinds are kept, but not their message texts, except the login failure.
- Query and body parsing: `URL` and JSON decoding are not modelled, and request values arrive already decoded as options. In `getBins`, `parseFloat` and `parseInt` are function parameters. A NaN from parsing is not represented.
- Hotspots.RadiusOrDefault: a `radius` that is present but not a number, which gives NaN in the source, is not modelled.
- Numbers are exact reals. Floating-point rounding error is not modelled, and NaN appears only as the poisoned per-type quantity of the contributions breakdown.
- FindBins.FormatDistance: the `toFixed` digits are not modelled. It states the unit chosen and the amount before formatting.
- Lookups in the rate and colour tables use exact category strings. A key such as `constructor`, which JavaScript would find on the object prototype, is not modelled.
- Session helpers in lib/auth.js (lines 32-59) are `localStorage` I/O and are not modelled. `Math.random` and the login time are parameters.
- React and Leaflet rendering, geolocation and form wiring in the pages are not modelled. Only the data rules of find-bins and my-contributions are.
- BinsRoute.Put: a JSON `null` or a string capacity is not modelled; the capacity is a number or absent. In the source, `null` passes the `=== undefined` guard and compares below 85, so a `full` bin becomes `active` and `null` is saved, because the schema's `min`/`max` skip null.
- BinController.UpdateBinCapacity: the same `null` and string capacities are not modelled.
- BinController.CreateBin: an array or object used as a coordinate entry is treated as a cast error. Mongoose's handling of such values, through `valueOf`, is not modelled.
- BinModel.ValidBin: the 100-character limit on `locationName` counts Unicode scalar values, whereas JavaScript counts UTF-16 code units. A name with characters outside the Basic Multilingual Plane can pass the model's limit and exceed the source's. The same holds for the 500-character report description in `ReportModel.ValidReport`.
- Contributions.CalculateStats: the breakdown is a map, so the insertion order in which the page lists the waste types is not modelled.
- BinController.UpdateBinCapacity: a missing `id` is treated as not found, which is the source's outcome when `findById` matches nothing. The same holds in `BinController.UpdateBin`.
- ObjectId casting: `isObjectId` is a parameter standing for Mongoose's cast of a string to an ObjectId, used by the lookups in `BinsRoute.Put`, `BinController.UpdateBin`, `BinController.UpdateBinCapacity` and `WasteRoute.Verify` and by the `binId` path of `ReportModel.ValidReport`. The exact set of strings it accepts is not modelled.
