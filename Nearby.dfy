/** The proximity endpoints of Heatmap/backend_api.py: `incidents_nearby` keeps
    the located incidents within `radius_km` of a point and `heatmap_nearby` the
    aggregated zones within it; each kept item is copied with `distance_km` (the
    distance rounded to 3 decimals) and the list is sorted by that distance,
    zones breaking ties by larger `weight`. The great-circle distance
    `_haversine_km` is a parameter of the model. */
module Nearby {
  import opened Wrappers
  import opened Numeric
  import opened Sorting
  import opened Incidents
  import opened Heatmap

  /** `_haversine_km(lat1, lon1, lat2, lon2)`. */
  type Distance = (real, real, real, real) -> real

  /** `dict(x)` with the extra key `"distance_km"`. */
  datatype Near<T> = Near(item: T, distanceKm: real)

  /** Where an incident is, if it has both coordinates. */
  function IncidentPosition(it: Record): (p: Option<(real, real)>)
    ensures p.Some? <==> Located(it)
  {
    if Located(it) then Some((it.latitude.value, it.longitude.value)) else None
  }

  /** Where a zone is: its centre. */
  function ZonePosition(z: ZoneEntry): (p: Option<(real, real)>)
    ensures p == Some(CentreOf(z))
  {
    Some((z.lat, z.lng))
  }

  /** `x` has a position and its unrounded distance from `(lat, lng)` is at most `radiusKm`. */
  predicate InRadius<T>(x: T, position: T -> Option<(real, real)>, lat: real, lng: real, radiusKm: real, dist: Distance)
  {
    position(x).Some? && dist(lat, lng, position(x).value.0, position(x).value.1) <= radiusKm
  }

  /** The copy of `x` with its rounded distance. */
  function Annotate<T>(x: T, position: T -> Option<(real, real)>, lat: real, lng: real, dist: Distance): Near<T>
    requires position(x).Some?
  {
    Near(x, RoundTo(dist(lat, lng, position(x).value.0, position(x).value.1), 3))
  }

  /** The list the filtering loop builds, in input order, before sorting. */
  function WithinRadius<T>(xs: seq<T>, position: T -> Option<(real, real)>, lat: real, lng: real, radiusKm: real, dist: Distance): seq<Near<T>>
  {
    if xs == [] then []
    else
      var x := xs[|xs| - 1];
      WithinRadius(xs[..|xs| - 1], position, lat, lng, radiusKm, dist)
        + (if InRadius(x, position, lat, lng, radiusKm, dist) then [Annotate(x, position, lat, lng, dist)] else [])
  }

  /** The filter keeps exactly the items within the radius, each copied with its
      rounded distance. */
  lemma {:induction false} WithinRadiusMembers<T>(xs: seq<T>, position: T -> Option<(real, real)>, lat: real, lng: real, radiusKm: real, dist: Distance, r: Near<T>)
    ensures r in WithinRadius(xs, position, lat, lng, radiusKm, dist)
        <==> exists i :: 0 <= i < |xs| && InRadius(xs[i], position, lat, lng, radiusKm, dist)
                         && r == Annotate(xs[i], position, lat, lng, dist)
  {
    if xs != [] {
      var init := xs[..|xs| - 1];
      WithinRadiusMembers(init, position, lat, lng, radiusKm, dist, r);
      if r in WithinRadius(init, position, lat, lng, radiusKm, dist) {
        var i :| 0 <= i < |init| && InRadius(init[i], position, lat, lng, radiusKm, dist)
                 && r == Annotate(init[i], position, lat, lng, dist);
        assert xs[i] == init[i];
      }
      if exists i :: 0 <= i < |xs| && InRadius(xs[i], position, lat, lng, radiusKm, dist)
                     && r == Annotate(xs[i], position, lat, lng, dist) {
        var i :| 0 <= i < |xs| && InRadius(xs[i], position, lat, lng, radiusKm, dist)
                 && r == Annotate(xs[i], position, lat, lng, dist);
        if i < |xs| - 1 {
          assert init[i] == xs[i];
        }
      }
    }
  }

  /** Python's sort key `lambda x: x["distance_km"]`. */
  const ByDistance: (Near<Record>, Near<Record>) -> bool :=
    (a: Near<Record>, b: Near<Record>) => a.distanceKm <= b.distanceKm

  /** Python's sort key `lambda x: (x["distance_km"], -x["weight"])`: tuples
      compare on distance first, then on the negated weight. */
  const ByDistanceThenWeight: (Near<ZoneEntry>, Near<ZoneEntry>) -> bool :=
    (a: Near<ZoneEntry>, b: Near<ZoneEntry>) =>
      a.distanceKm < b.distanceKm || (a.distanceKm == b.distanceKm && a.item.weight >= b.item.weight)

  /** The `incidents` list of `incidents_nearby`. */
  function NearbyIncidents(items: seq<Record>, lat: real, lng: real, radiusKm: real, dist: Distance): seq<Near<Record>>
  {
    SortBy(WithinRadius(items, IncidentPosition, lat, lng, radiusKm, dist), ByDistance)
  }

  /** The `zones` list of `heatmap_nearby`. */
  function NearbyZones(items: seq<Record>, lat: real, lng: real, radiusKm: real, zoneStep: real,
                       sigmoid: real -> real, dist: Distance): seq<Near<ZoneEntry>>
    requires zoneStep != 0.0
  {
    SortBy(WithinRadius(AggregatedZones(items, zoneStep, sigmoid), ZonePosition, lat, lng, radiusKm, dist), ByDistanceThenWeight)
  }

  /** `incidents_nearby` over the loaded incidents `items`. */
  method IncidentsNearby(items: seq<Record>, lat: real, lng: real, radiusKm: real, dist: Distance)
    returns (results: seq<Near<Record>>)
    ensures results == NearbyIncidents(items, lat, lng, radiusKm, dist)
  {
    var kept: seq<Near<Record>> := [];
    for i := 0 to |items|
      invariant kept == WithinRadius(items[..i], IncidentPosition, lat, lng, radiusKm, dist)
    {
      assert items[..i + 1][..i] == items[..i];
      var it := items[i];
      if it.latitude.Some? && it.longitude.Some? {
        var d := dist(lat, lng, it.latitude.value, it.longitude.value);
        if d <= radiusKm {
          kept := kept + [Near(it, RoundTo(d, 3))];
        }
      }
    }
    assert items[..|items|] == items;
    results := SortBy(kept, ByDistance);
  }

  /** `heatmap_nearby` over the loaded incidents `items`. */
  method HeatmapNearby(items: seq<Record>, lat: real, lng: real, radiusKm: real, zoneStep: real,
                       sigmoid: real -> real, dist: Distance)
    returns (nearby: seq<Near<ZoneEntry>>)
    requires zoneStep != 0.0
    ensures nearby == NearbyZones(items, lat, lng, radiusKm, zoneStep, sigmoid, dist)
  {
    var zones := AggregateHeatmap(items, zoneStep, sigmoid);
    var kept: seq<Near<ZoneEntry>> := [];
    for i := 0 to |zones|
      invariant kept == WithinRadius(zones[..i], ZonePosition, lat, lng, radiusKm, dist)
    {
      assert zones[..i + 1][..i] == zones[..i];
      var z := zones[i];
      var d := dist(lat, lng, z.lat, z.lng);
      if d <= radiusKm {
        kept := kept + [Near(z, RoundTo(d, 3))];
      }
    }
    assert zones[..|zones|] == zones;
    nearby := SortBy(kept, ByDistanceThenWeight);
  }

  // ----- Properties -----

  /** `incidents_nearby` returns exactly the located incidents whose unrounded
      distance is at most `radiusKm`, each copied with its distance rounded to
      3 decimals. */
  lemma NearbyIncidentsMembers(items: seq<Record>, lat: real, lng: real, radiusKm: real, dist: Distance, r: Near<Record>)
    ensures r in NearbyIncidents(items, lat, lng, radiusKm, dist)
        <==> exists i :: 0 <= i < |items| && Located(items[i])
                         && dist(lat, lng, items[i].latitude.value, items[i].longitude.value) <= radiusKm
                         && r == Near(items[i], RoundTo(dist(lat, lng, items[i].latitude.value, items[i].longitude.value), 3))
  {
    var w := WithinRadius(items, IncidentPosition, lat, lng, radiusKm, dist);
    assert r in NearbyIncidents(items, lat, lng, radiusKm, dist) <==> r in multiset(w);
    WithinRadiusMembers(items, IncidentPosition, lat, lng, radiusKm, dist, r);
  }

  /** The incidents come out nearest first, and incidents at the same rounded
      distance keep their load order (most recent first). */
  lemma NearbyIncidentsOrdered(items: seq<Record>, lat: real, lng: real, radiusKm: real, dist: Distance, e: Near<Record>)
    ensures forall i, j :: 0 <= i < j < |NearbyIncidents(items, lat, lng, radiusKm, dist)| ==>
              NearbyIncidents(items, lat, lng, radiusKm, dist)[i].distanceKm
                <= NearbyIncidents(items, lat, lng, radiusKm, dist)[j].distanceKm
    ensures SameKey(NearbyIncidents(items, lat, lng, radiusKm, dist), e, ByDistance)
         == SameKey(WithinRadius(items, IncidentPosition, lat, lng, radiusKm, dist), e, ByDistance)
  {
    assert TotalPreorder(ByDistance);
    SortBySorted(WithinRadius(items, IncidentPosition, lat, lng, radiusKm, dist), ByDistance);
    SortByStable(WithinRadius(items, IncidentPosition, lat, lng, radiusKm, dist), e, ByDistance);
  }

  /** `heatmap_nearby` returns exactly the aggregated zones whose centre lies
      within `radiusKm`, each copied with its rounded distance. */
  lemma NearbyZonesMembers(items: seq<Record>, lat: real, lng: real, radiusKm: real, zoneStep: real,
                           sigmoid: real -> real, dist: Distance, r: Near<ZoneEntry>)
    requires zoneStep != 0.0
    ensures r in NearbyZones(items, lat, lng, radiusKm, zoneStep, sigmoid, dist)
        <==> && r.item in AggregatedZones(items, zoneStep, sigmoid)
             && dist(lat, lng, r.item.lat, r.item.lng) <= radiusKm
             && r.distanceKm == RoundTo(dist(lat, lng, r.item.lat, r.item.lng), 3)
  {
    var zones := AggregatedZones(items, zoneStep, sigmoid);
    var w := WithinRadius(zones, ZonePosition, lat, lng, radiusKm, dist);
    assert r in NearbyZones(items, lat, lng, radiusKm, zoneStep, sigmoid, dist) <==> r in multiset(w);
    WithinRadiusMembers(zones, ZonePosition, lat, lng, radiusKm, dist, r);
    if r.item in zones && dist(lat, lng, r.item.lat, r.item.lng) <= radiusKm
       && r.distanceKm == RoundTo(dist(lat, lng, r.item.lat, r.item.lng), 3) {
      var i :| 0 <= i < |zones| && zones[i] == r.item;
      assert InRadius(zones[i], ZonePosition, lat, lng, radiusKm, dist);
    }
  }

  /** The zones come out nearest first, and at equal rounded distance the
      heavier zone first. */
  lemma NearbyZonesOrdered(items: seq<Record>, lat: real, lng: real, radiusKm: real, zoneStep: real,
                           sigmoid: real -> real, dist: Distance)
    requires zoneStep != 0.0
    ensures forall i, j :: 0 <= i < j < |NearbyZones(items, lat, lng, radiusKm, zoneStep, sigmoid, dist)| ==>
              var a := NearbyZones(items, lat, lng, radiusKm, zoneStep, sigmoid, dist)[i];
              var b := NearbyZones(items, lat, lng, radiusKm, zoneStep, sigmoid, dist)[j];
              a.distanceKm < b.distanceKm || (a.distanceKm == b.distanceKm && a.item.weight >= b.item.weight)
  {
    assert TotalPreorder(ByDistanceThenWeight);
    SortBySorted(WithinRadius(AggregatedZones(items, zoneStep, sigmoid), ZonePosition, lat, lng, radiusKm, dist), ByDistanceThenWeight);
  }
}
