/** The hotspot clustering of `GET /api/waste-hotspots` (app/api/waste-hotspots/route.js).

    Pending hotspot reports are grouped greedily, in input order: each report not yet
    taken seeds a new cluster, and every later report not yet taken joins it when it
    lies within `radius` metres of the SEED (not of the other members, so a cluster
    need not be tight). Each cluster gets the mean of its members' coordinates and a
    priority from its size, and the clusters are then sorted, most urgent first.

    Reports are identified by their position in the fetched list, so a cluster's
    `reports` are indices into that list. */
module Hotspots {
  import opened Js
  import opened Geo
  import Sorting

  datatype Priority = High | Medium | Low

  /** `priorityOrder`: high 0, medium 1, low 2. */
  function PriorityRank(p: Priority): nat {
    match p
    case High => 0
    case Medium => 1
    case Low => 2
  }

  /** One entry of `clusteredData`. */
  datatype Cluster = Cluster(
    priority: Priority,
    reportCount: nat,
    coordinates: GeoPoint,
    reports: seq<nat>,
    clusterRadius: int)

  datatype HotspotResponse = HotspotResponse(data: seq<GeoPoint>, clusteredData: seq<Cluster>)

  /** The radius used when the `radius` query parameter is absent or empty. */
  const DefaultRadius: int := 200

  /** `parseInt(searchParams.get('radius') || '200')`, with the parse of a present
      value already done by the caller. */
  function RadiusOrDefault(param: Option<int>): (r: int)
    ensures param.None? ==> r == 200
    ensures param.Some? ==> r == param.value
  {
    param.GetOr(DefaultRadius)
  }

  /** The priority rule: three or more reports is high, two medium, one low. */
  function PriorityFor(count: nat): (p: Priority)
    ensures p == High <==> count >= 3
    ensures p == Medium <==> count == 2
    ensures p == Low <==> count <= 1
  {
    if count >= 3 then High else if count >= 2 then Medium else Low
  }

  predicate IndicesBelow(members: seq<nat>, n: nat) {
    forall k :: 0 <= k < |members| ==> members[k] < n
  }

  /** `cluster.reduce((sum, r) => sum + r.coordinates.latitude, 0)` */
  function SumLatitudes(reports: seq<GeoPoint>, members: seq<nat>): real
    requires IndicesBelow(members, |reports|)
  {
    if members == [] then 0.0
    else SumLatitudes(reports, members[..|members| - 1]) + reports[members[|members| - 1]].latitude
  }

  /** `cluster.reduce((sum, r) => sum + r.coordinates.longitude, 0)` */
  function SumLongitudes(reports: seq<GeoPoint>, members: seq<nat>): real
    requires IndicesBelow(members, |reports|)
  {
    if members == [] then 0.0
    else SumLongitudes(reports, members[..|members| - 1]) + reports[members[|members| - 1]].longitude
  }

  /** The cluster centre: mean latitude and mean longitude of the members. */
  function Centroid(reports: seq<GeoPoint>, members: seq<nat>): GeoPoint
    requires IndicesBelow(members, |reports|) && |members| > 0
  {
    GeoPoint(SumLatitudes(reports, members) / |members| as real,
             SumLongitudes(reports, members) / |members| as real)
  }

  /** The record pushed onto `clusteredReports` for one group of members. */
  function MakeCluster(reports: seq<GeoPoint>, members: seq<nat>, radius: int): (c: Cluster)
    requires IndicesBelow(members, |reports|) && |members| > 0
    ensures c.reports == members && c.reportCount == |members| && c.clusterRadius == radius
    ensures c.coordinates == Centroid(reports, members)
    ensures c.priority == High <==> |members| >= 3
    ensures c.priority == Medium <==> |members| == 2
    ensures c.priority == Low <==> |members| == 1
  {
    Cluster(PriorityFor(|members|), |members|, Centroid(reports, members), members, radius)
  }

  function Elements(s: seq<nat>): set<nat> {
    set k | k in s
  }

  /** The reports taken by the clusters in cs: `processedReports` once cs is built. */
  function Covered(cs: seq<Cluster>): set<nat> {
    if cs == [] then {} else Covered(cs[..|cs| - 1]) + Elements(cs[|cs| - 1].reports)
  }

  ghost predicate StrictlyIncreasing(s: seq<nat>) {
    forall a, b :: 0 <= a < b < |s| ==> s[a] < s[b]
  }

  function Seed(c: Cluster): nat
    requires c.reports != []
  {
    c.reports[0]
  }

  /** Cluster p of cs is what the greedy pass builds after the clusters before it:
      its seed comes first, its members are in input order, none of them was taken
      by an earlier cluster, and a later report joins it exactly when it was not yet
      taken and lies within the radius of the seed. */
  ghost predicate WellBuilt(reports: seq<GeoPoint>, radius: int, dist: Distance, cs: seq<Cluster>, p: nat)
    requires p < |cs|
  {
    var members := cs[p].reports;
    && |members| >= 1
    && StrictlyIncreasing(members)
    && IndicesBelow(members, |reports|)
    && Elements(members) !! Covered(cs[..p])
    && (forall j :: members[0] < j < |reports| ==>
          (j in members <==> j !in Covered(cs[..p]) && dist(reports[members[0]], reports[j]) <= radius as real))
    && cs[p] == MakeCluster(reports, members, radius)
  }

  /** The clusters built by the greedy pass, in creation order: every report is
      taken, every cluster is well built, and seeds increase. */
  ghost predicate GreedyClustering(reports: seq<GeoPoint>, radius: int, dist: Distance, cs: seq<Cluster>) {
    && (forall k :: 0 <= k < |reports| ==> k in Covered(cs))
    && (forall k :: k in Covered(cs) ==> k < |reports|)
    && (forall p :: 0 <= p < |cs| ==> WellBuilt(reports, radius, dist, cs, p))
    && (forall p, q :: 0 <= p < q < |cs| ==>
          cs[p].reports != [] && cs[q].reports != [] && Seed(cs[p]) < Seed(cs[q]))
  }

  lemma CoveredAppend(cs: seq<Cluster>, c: Cluster)
    ensures Covered(cs + [c]) == Covered(cs) + Elements(c.reports)
  {
    assert (cs + [c])[..|cs|] == cs;
  }

  /** Appending a cluster built from the clusters so far keeps every cluster well built. */
  lemma AppendWellBuilt(reports: seq<GeoPoint>, radius: int, dist: Distance, cs: seq<Cluster>, members: seq<nat>)
    requires forall p :: 0 <= p < |cs| ==> WellBuilt(reports, radius, dist, cs, p)
    requires |members| >= 1 && StrictlyIncreasing(members) && IndicesBelow(members, |reports|)
    requires Elements(members) !! Covered(cs)
    requires forall j :: members[0] < j < |reports| ==>
               (j in members <==> j !in Covered(cs) && dist(reports[members[0]], reports[j]) <= radius as real)
    ensures forall p :: 0 <= p <= |cs| ==>
              WellBuilt(reports, radius, dist, cs + [MakeCluster(reports, members, radius)], p)
  {
    var cs' := cs + [MakeCluster(reports, members, radius)];
    forall p | 0 <= p <= |cs|
      ensures WellBuilt(reports, radius, dist, cs', p)
    {
      assert cs'[..p] == cs[..p];
      if p < |cs| {
        assert cs'[p] == cs[p];
        assert WellBuilt(reports, radius, dist, cs, p);
      } else {
        assert cs[..p] == cs;
      }
    }
  }

  /** The inner loop (lines 52-66 of the route): report i seeds a cluster, and every
      later report not yet processed joins it when it lies within the radius of i. */
  method GrowCluster(reports: seq<GeoPoint>, radius: int, dist: Distance, i: nat, processed: set<nat>)
    returns (members: seq<nat>, processed': set<nat>)
    requires i < |reports| && i !in processed
    ensures |members| >= 1 && members[0] == i
    ensures StrictlyIncreasing(members) && IndicesBelow(members, |reports|)
    ensures Elements(members) !! processed
    ensures processed' == processed + Elements(members)
    ensures forall m :: i < m < |reports| ==>
              (m in members <==> m !in processed && dist(reports[i], reports[m]) <= radius as real)
  {
    var n := |reports|;
    members := [i];
    processed' := processed + {i};
    var j := i + 1;
    while j < n
      invariant i < j <= n
      invariant |members| >= 1 && members[0] == i
      invariant StrictlyIncreasing(members)
      invariant forall k :: 0 <= k < |members| ==> i <= members[k] < j
      invariant processed' == processed + Elements(members)
      invariant Elements(members) !! processed
      invariant forall m :: i < m < j ==>
                  (m in members <==> m !in processed && dist(reports[i], reports[m]) <= radius as real)
    {
      if j !in processed' {
        var d := dist(reports[i], reports[j]);
        if d <= radius as real {
          members := members + [j];
          processed' := processed' + {j};
        }
      }
      j := j + 1;
    }
  }

  /** The clustering loop (lines 42-87 of the route), before the sort. */
  method ClusterReports(reports: seq<GeoPoint>, radius: int, dist: Distance) returns (clusters: seq<Cluster>)
    ensures GreedyClustering(reports, radius, dist, clusters)
  {
    var n := |reports|;
    clusters := [];
    var processed: set<nat> := {};
    var i := 0;
    while i < n
      invariant 0 <= i <= n
      invariant processed == Covered(clusters)
      invariant forall k :: 0 <= k < i ==> k in processed
      invariant forall k :: k in processed ==> k < n
      invariant forall p :: 0 <= p < |clusters| ==> WellBuilt(reports, radius, dist, clusters, p)
      invariant forall p :: 0 <= p < |clusters| ==> clusters[p].reports != [] && Seed(clusters[p]) < i
      invariant forall p, q :: 0 <= p < q < |clusters| ==>
                  clusters[p].reports != [] && clusters[q].reports != [] && Seed(clusters[p]) < Seed(clusters[q])
    {
      if i in processed {
        i := i + 1;
        continue;
      }
      var members;
      members, processed := GrowCluster(reports, radius, dist, i, processed);
      var c := MakeCluster(reports, members, radius);
      CoveredAppend(clusters, c);
      AppendWellBuilt(reports, radius, dist, clusters, members);
      clusters := clusters + [c];
      i := i + 1;
    }
  }

  /** `clusteredReports.sort(...)`'s comparator. */
  function ClusterCompare(a: Cluster, b: Cluster): int {
    if PriorityRank(a.priority) != PriorityRank(b.priority) then
      PriorityRank(a.priority) - PriorityRank(b.priority)
    else
      b.reportCount - a.reportCount
  }

  predicate ClusterLe(a: Cluster, b: Cluster) {
    ClusterCompare(a, b) <= 0
  }

  /** The sorted `clusteredData`. */
  function RankClusters(cs: seq<Cluster>): seq<Cluster> {
    Sorting.SortBy(cs, ClusterLe)
  }

  /** The route handler after the reports have been fetched. */
  method GetHotspots(reports: seq<GeoPoint>, radiusParam: Option<int>, dist: Distance)
    returns (response: HotspotResponse, ghost built: seq<Cluster>)
    ensures response.data == reports
    ensures reports == [] ==> response.clusteredData == []
    ensures GreedyClustering(reports, RadiusOrDefault(radiusParam), dist, built)
    ensures response.clusteredData == RankClusters(built)
  {
    var radius := RadiusOrDefault(radiusParam);
    if |reports| == 0 {
      built := [];
      return HotspotResponse([], []), built;
    }
    var clusters := ClusterReports(reports, radius, dist);
    built := clusters;
    clusters := RankClusters(clusters);
    response := HotspotResponse(reports, clusters);
  }

  /** A report is covered exactly when some cluster lists it. */
  lemma {:induction false} CoveredMember(cs: seq<Cluster>, k: nat)
    ensures k in Covered(cs) <==> exists p :: 0 <= p < |cs| && k in cs[p].reports
  {
    if cs != [] {
      var init := cs[..|cs| - 1];
      CoveredMember(init, k);
      if k in Covered(cs) && k !in Covered(init) {
        assert k in cs[|cs| - 1].reports;
      }
      if exists p :: 0 <= p < |cs| && k in cs[p].reports {
        var p :| 0 <= p < |cs| && k in cs[p].reports;
        if p < |cs| - 1 {
          assert init[p] == cs[p];
        }
      }
    }
  }

  /** The clusters partition the reports: each report index lies in exactly one
      cluster, and no cluster lists anything else. */
  lemma PartitionExactlyOnce(reports: seq<GeoPoint>, radius: int, dist: Distance, cs: seq<Cluster>, k: nat)
    requires GreedyClustering(reports, radius, dist, cs)
    ensures k < |reports| <==> exists p :: 0 <= p < |cs| && k in cs[p].reports
    ensures forall p, q :: 0 <= p < q < |cs| ==> !(k in cs[p].reports && k in cs[q].reports)
  {
    CoveredMember(cs, k);
    forall p, q | 0 <= p < q < |cs|
      ensures !(k in cs[p].reports && k in cs[q].reports)
    {
      if k in cs[p].reports {
        assert WellBuilt(reports, radius, dist, cs, q);
        CoveredMember(cs[..q], k);
        assert cs[..q][p] == cs[p];
        assert k in Covered(cs[..q]);
      }
    }
  }

  /** The first cluster is seeded by the first report and takes exactly the
      reports within the radius of it; closeness among the other members is not
      required. */
  lemma FirstCluster(reports: seq<GeoPoint>, radius: int, dist: Distance, cs: seq<Cluster>)
    requires GreedyClustering(reports, radius, dist, cs) && |reports| > 0
    ensures |cs| > 0 && cs[0].reports != [] && Seed(cs[0]) == 0
    ensures forall j :: 0 < j < |reports| ==>
              (j in cs[0].reports <==> dist(reports[0], reports[j]) <= radius as real)
  {
    PartitionExactlyOnce(reports, radius, dist, cs, 0);
    var p :| 0 <= p < |cs| && 0 in cs[p].reports;
    assert WellBuilt(reports, radius, dist, cs, p);
    var m := cs[p].reports;
    var t :| 0 <= t < |m| && m[t] == 0;
    assert WellBuilt(reports, radius, dist, cs, 0);
    assert cs[..0] == [];
  }

  /** A sum of latitudes lies between |members| times the smallest and the largest
      latitude any member may have. */
  lemma {:induction false} SumLatitudesBounds(reports: seq<GeoPoint>, members: seq<nat>, lo: real, hi: real)
    requires IndicesBelow(members, |reports|)
    requires forall k :: 0 <= k < |members| ==> lo <= reports[members[k]].latitude <= hi
    ensures |members| as real * lo <= SumLatitudes(reports, members) <= |members| as real * hi
  {
    if members != [] {
      var init := members[..|members| - 1];
      assert forall k :: 0 <= k < |init| ==> init[k] == members[k];
      SumLatitudesBounds(reports, init, lo, hi);
      StepBound(|init| as real, |members| as real, SumLatitudes(reports, init),
                reports[members[|members| - 1]].latitude, lo, hi);
    }
  }

  /** The same for longitudes. */
  lemma {:induction false} SumLongitudesBounds(reports: seq<GeoPoint>, members: seq<nat>, lo: real, hi: real)
    requires IndicesBelow(members, |reports|)
    requires forall k :: 0 <= k < |members| ==> lo <= reports[members[k]].longitude <= hi
    ensures |members| as real * lo <= SumLongitudes(reports, members) <= |members| as real * hi
  {
    if members != [] {
      var init := members[..|members| - 1];
      assert forall k :: 0 <= k < |init| ==> init[k] == members[k];
      SumLongitudesBounds(reports, init, lo, hi);
      StepBound(|init| as real, |members| as real, SumLongitudes(reports, init),
                reports[members[|members| - 1]].longitude, lo, hi);
    }
  }

  /** One more summand within [lo, hi] keeps a sum of m terms within bounds. */
  lemma StepBound(m: real, n: real, s: real, x: real, lo: real, hi: real)
    requires n == m + 1.0
    requires m * lo <= s <= m * hi && lo <= x <= hi
    ensures n * lo <= s + x <= n * hi
  {
    assert n * lo == m * lo + lo;
    assert n * hi == m * hi + hi;
  }

  /** The centre of a cluster lies in any box holding all its members, so the centre
      of valid points is a valid point. */
  lemma CentroidWithin(reports: seq<GeoPoint>, members: seq<nat>, lo: GeoPoint, hi: GeoPoint)
    requires IndicesBelow(members, |reports|) && |members| > 0
    requires forall k :: 0 <= k < |members| ==>
               lo.latitude <= reports[members[k]].latitude <= hi.latitude &&
               lo.longitude <= reports[members[k]].longitude <= hi.longitude
    ensures lo.latitude <= Centroid(reports, members).latitude <= hi.latitude
    ensures lo.longitude <= Centroid(reports, members).longitude <= hi.longitude
  {
    var n := |members| as real;
    assert lo.latitude <= Centroid(reports, members).latitude <= hi.latitude by {
      SumLatitudesBounds(reports, members, lo.latitude, hi.latitude);
      MeanWithin(SumLatitudes(reports, members), n, lo.latitude, hi.latitude);
    }
    assert lo.longitude <= Centroid(reports, members).longitude <= hi.longitude by {
      SumLongitudesBounds(reports, members, lo.longitude, hi.longitude);
      MeanWithin(SumLongitudes(reports, members), n, lo.longitude, hi.longitude);
    }
  }

  lemma MeanWithin(s: real, n: real, lo: real, hi: real)
    requires n > 0.0 && n * lo <= s <= n * hi
    ensures lo <= s / n <= hi
  {
    var q := s / n;
    assert q * n == s;
    assert (q - lo) * n >= 0.0;
    assert (hi - q) * n >= 0.0;
  }

  /** The centre of a single report is that report. */
  lemma CentroidOfOne(reports: seq<GeoPoint>, k: nat)
    requires k < |reports|
    ensures Centroid(reports, [k]) == reports[k]
  {
    assert [k][..0] == [];
    assert SumLatitudes(reports, [k]) == reports[k].latitude;
    assert SumLongitudes(reports, [k]) == reports[k].longitude;
  }

  lemma CentroidValid(reports: seq<GeoPoint>, members: seq<nat>)
    requires IndicesBelow(members, |reports|) && |members| > 0
    requires forall k :: 0 <= k < |members| ==> ValidPoint(reports[members[k]])
    ensures ValidPoint(Centroid(reports, members))
  {
    CentroidWithin(reports, members, GeoPoint(-90.0, -180.0), GeoPoint(90.0, 180.0));
  }

  /** The comparator orders by priority rank, then by report count descending, and
      is consistent. */
  lemma ClusterLeTotalPreorder()
    ensures Sorting.TotalPreorder(ClusterLe)
  {
    forall x, y, z | ClusterLe(x, y) && ClusterLe(y, z)
      ensures ClusterLe(x, z)
    {
    }
  }

  /** The ranked clusters are the built clusters, reordered by the comparator, with
      clusters the comparator calls equal kept in creation order. */
  lemma RankedOrder(cs: seq<Cluster>)
    ensures multiset(RankClusters(cs)) == multiset(cs)
    ensures Sorting.SortedBy(RankClusters(cs), ClusterLe)
    ensures forall x :: Sorting.TiedWith(RankClusters(cs), ClusterLe, x) == Sorting.TiedWith(cs, ClusterLe, x)
  {
    ClusterLeTotalPreorder();
    Sorting.SortSorted(cs, ClusterLe);
    forall x
      ensures Sorting.TiedWith(RankClusters(cs), ClusterLe, x) == Sorting.TiedWith(cs, ClusterLe, x)
    {
      Sorting.SortStable(cs, ClusterLe, x);
    }
  }

  /** Because priority follows size, the ranked clusters of a greedy clustering are
      in non-increasing order of report count. */
  lemma RankedBySize(reports: seq<GeoPoint>, radius: int, dist: Distance, cs: seq<Cluster>)
    requires GreedyClustering(reports, radius, dist, cs)
    ensures forall a, b :: 0 <= a < b < |cs| ==>
              RankClusters(cs)[a].reportCount >= RankClusters(cs)[b].reportCount
  {
    RankedOrder(cs);
    var r := RankClusters(cs);
    forall a | 0 <= a < |r|
      ensures r[a].priority == PriorityFor(r[a].reportCount)
    {
      assert r[a] in multiset(cs);
      var p :| 0 <= p < |cs| && cs[p] == r[a];
      assert WellBuilt(reports, radius, dist, cs, p);
    }
  }

  /** An east-west distance, enough to show that membership is decided by the seed alone. */
  function LongitudeGap(a: GeoPoint, b: GeoPoint): real {
    if a.longitude >= b.longitude then a.longitude - b.longitude else b.longitude - a.longitude
  }

  /** Reports at longitudes 0, 1 and -1 with radius 1: both neighbours join the
      seed's cluster although they lie 2 apart. */
  lemma ClusterNotTransitive(cs: seq<Cluster>)
    requires GreedyClustering([GeoPoint(0.0, 0.0), GeoPoint(0.0, 1.0), GeoPoint(0.0, -1.0)], 1, LongitudeGap, cs)
    ensures |cs| > 0 && 1 in cs[0].reports && 2 in cs[0].reports
    ensures LongitudeGap(GeoPoint(0.0, 1.0), GeoPoint(0.0, -1.0)) > 1.0
  {
    var reports := [GeoPoint(0.0, 0.0), GeoPoint(0.0, 1.0), GeoPoint(0.0, -1.0)];
    FirstCluster(reports, 1, LongitudeGap, cs);
    assert LongitudeGap(reports[0], reports[1]) <= 1.0;
    assert LongitudeGap(reports[0], reports[2]) <= 1.0;
  }
}
