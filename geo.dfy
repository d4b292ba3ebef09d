/** Geographic points, the coordinate ranges every layer checks, and the fixed
    list of waste/bin categories shared by bins, reports, credits and colours. */
module Geo {

  /** A point in degrees. */
  datatype GeoPoint = GeoPoint(latitude: real, longitude: real)

  /** Great-circle distance between two points. The Haversine formula itself is not
      part of this model; every operation that needs a distance takes one of these
      as a parameter, and its properties hold for any such function. */
  type Distance = (GeoPoint, GeoPoint) -> real

  predicate ValidLatitude(x: real) {
    -90.0 <= x <= 90.0
  }

  predicate ValidLongitude(x: real) {
    -180.0 <= x <= 180.0
  }

  predicate ValidPoint(p: GeoPoint) {
    ValidLatitude(p.latitude) && ValidLongitude(p.longitude)
  }

  /** The six categories, in the order the source lists them. */
  const Categories: seq<string> :=
    ["General Waste", "Recyclable", "Organic", "Hazardous", "E-waste", "Medical"]

  predicate IsCategory(s: string) {
    s in Categories
  }

  /** The colour shown for a category; anything else gets the General Waste grey. */
  function CategoryColor(category: string): (color: string)
    ensures color == "#64748b" <==> category == "General Waste" || !IsCategory(category)
  {
    if category == "General Waste" then "#64748b"
    else if category == "Recyclable" then "#13ec5b"
    else if category == "Organic" then "#84cc16"
    else if category == "Hazardous" then "#ef4444"
    else if category == "E-waste" then "#f59e0b"
    else if category == "Medical" then "#ec4899"
    else "#64748b"
  }

  /** Different categories get different colours. */
  lemma ColorsDistinct(i: nat, j: nat)
    requires i < |Categories| && j < |Categories| && i != j
    ensures CategoryColor(Categories[i]) != CategoryColor(Categories[j])
  {
  }
}
