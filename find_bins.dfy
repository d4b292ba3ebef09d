/** The nearest-bins list of app/find-bins/page.js: each bin annotated with its
    distance from the user, sorted nearest first, and the rules that decide how a
    distance is shown. */
module FindBins {
  import opened Js
  import opened Geo
  import Sorting

  /** A bin as the page holds it; `distance` (km) is set once the user's position
      is known. */
  datatype BinView = BinView(id: string, category: string, location: GeoPoint, distance: Option<real>)

  /** `{ ...bin, distance }` */
  function WithDistance(b: BinView, user: GeoPoint, dist: Distance): (v: BinView)
    ensures v.distance == Some(dist(user, b.location))
    ensures v.(distance := b.distance) == b
  {
    b.(distance := Some(dist(user, b.location)))
  }

  function Annotate(bins: seq<BinView>, user: GeoPoint, dist: Distance): (r: seq<BinView>)
    ensures |r| == |bins|
    ensures forall i :: 0 <= i < |r| ==> r[i] == WithDistance(bins[i], user, dist)
  {
    if bins == [] then [] else [WithDistance(bins[0], user, dist)] + Annotate(bins[1..], user, dist)
  }

  /** The comparator `a.distance - b.distance`, as "a may stay before b". It is
      only applied to annotated views, whose distances are all present; the 0 for
      an absent distance just makes the relation total and is never consulted. */
  predicate NearerOrEqual(a: BinView, b: BinView) {
    a.distance.GetOr(0.0) <= b.distance.GetOr(0.0)
  }

  /** `nearbyBins`: unchanged without a user position or without bins, otherwise
      annotated and sorted by distance. */
  function NearbyBins(bins: seq<BinView>, user: Option<GeoPoint>, dist: Distance): (r: seq<BinView>)
    ensures |r| == |bins|
    ensures user.None? || bins == [] ==> r == bins
    ensures user.Some? ==> multiset(r) == multiset(Annotate(bins, user.value, dist))
  {
    if user.None? || |bins| == 0 then bins
    else Sorting.SortBy(Annotate(bins, user.value, dist), NearerOrEqual)
  }

  lemma NearerOrEqualTotalPreorder()
    ensures Sorting.TotalPreorder(NearerOrEqual)
  {
  }

  /** With a user position, every listed bin is one of the input bins with its
      distance from the user filled in, and every input bin is listed. */
  lemma NearbyAnnotated(bins: seq<BinView>, user: GeoPoint, dist: Distance)
    ensures forall v :: v in NearbyBins(bins, Some(user), dist) <==>
              exists i :: 0 <= i < |bins| && v == WithDistance(bins[i], user, dist)
  {
    var r := NearbyBins(bins, Some(user), dist);
    var a := Annotate(bins, user, dist);
    forall v
      ensures v in r <==> exists i :: 0 <= i < |bins| && v == WithDistance(bins[i], user, dist)
    {
      assert v in r <==> v in multiset(r);
      assert v in a <==> v in multiset(a);
      if v in a {
        var i :| 0 <= i < |a| && a[i] == v;
        assert v == WithDistance(bins[i], user, dist);
      }
      if exists i :: 0 <= i < |bins| && v == WithDistance(bins[i], user, dist) {
        var i :| 0 <= i < |bins| && v == WithDistance(bins[i], user, dist);
        assert a[i] == v;
      }
    }
  }

  /** The listed distances never decrease, and bins at equal distance keep the
      order they were fetched in. */
  lemma NearbySortedAndStable(bins: seq<BinView>, user: GeoPoint, dist: Distance)
    requires bins != []
    ensures var r := NearbyBins(bins, Some(user), dist);
            && (forall i :: 0 <= i < |r| ==> r[i].distance.Some?)
            && (forall i, j :: 0 <= i < j < |r| ==> r[i].distance.GetOr(0.0) <= r[j].distance.GetOr(0.0))
    ensures forall x :: Sorting.TiedWith(NearbyBins(bins, Some(user), dist), NearerOrEqual, x)
                        == Sorting.TiedWith(Annotate(bins, user, dist), NearerOrEqual, x)
  {
    var a := Annotate(bins, user, dist);
    var r := NearbyBins(bins, Some(user), dist);
    NearerOrEqualTotalPreorder();
    Sorting.SortSorted(a, NearerOrEqual);
    forall i | 0 <= i < |r|
      ensures r[i].distance.Some?
    {
      assert r[i] in multiset(a);
    }
    forall x
      ensures Sorting.TiedWith(r, NearerOrEqual, x) == Sorting.TiedWith(a, NearerOrEqual, x)
    {
      Sorting.SortStable(a, NearerOrEqual, x);
    }
  }

  /** What `formatDistance` shows: whole metres below 1 km, else kilometres (the
      digits themselves are JavaScript's `toFixed`). */
  datatype DistanceText = Metres(amount: real) | Kilometres(amount: real)

  function FormatDistance(km: real): (t: DistanceText)
    ensures t.Metres? <==> km < 1.0
    ensures t.Metres? ==> t.amount < 1000.0
    ensures InKilometres(t) == km
  {
    if km < 1.0 then Metres(km * 1000.0) else Kilometres(km)
  }

  /** The distance a rendered text stands for, in kilometres. */
  function InKilometres(t: DistanceText): real {
    match t
    case Metres(m) => m / 1000.0
    case Kilometres(k) => k
  }

  /** The detail view: `'--'` (None) unless the distance is truthy. */
  function DetailDistance(d: Option<real>): (shown: Option<DistanceText>)
    ensures shown.Some? <==> TruthyNum(d)
    ensures shown.Some? ==> InKilometres(shown.value) == d.value
  {
    if TruthyNum(d) then Some(FormatDistance(d.value)) else None
  }

  /** The list view: `'--'` (None) only when the distance is undefined. */
  function ListDistance(d: Option<real>): (shown: Option<DistanceText>)
    ensures shown.Some? <==> d.Some?
    ensures shown.Some? ==> InKilometres(shown.value) == d.value
  {
    if d.Some? then Some(FormatDistance(d.value)) else None
  }

  /** The two views disagree exactly on a bin at distance 0, which the list shows
      as "0 m" and the detail view as "--". */
  lemma ViewsDifferOnlyAtZero(d: Option<real>)
    ensures DetailDistance(d) != ListDistance(d) <==> d == Some(0.0)
  {
  }
}
