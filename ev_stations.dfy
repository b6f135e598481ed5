/** The EV charging-station search (hooks/useEvStations.js): anchor
    points sampled along the route, a nearby search at each, the
    first-wins merge by place id, and the enrichment of the first 20
    places with details and their distance to the route, nearest first.

    The searches, the details lookup and the geocoder are inputs (their
    empty or failed outcomes give [] or None, as the hook resolves them);
    the distance between points is a function passed in. */
module EvStations {
  import opened Common
  import opened Directions
  import opened Places

  /** The anchor points of a path: every `step`-th point from the first,
      then the last point once more. */
  function RoutePoints(path: seq<LatLng>, step: nat): (pts: seq<LatLng>)
    requires step > 0
  {
    EveryNth(path, step, 0) + (if |path| > 0 then [path[|path| - 1]] else [])
  }

  /** sampleRoutePoints on `route?.overview_path || []`. */
  method SampleRoutePoints(route: Option<Route>, step: nat) returns (points: seq<LatLng>)
    requires step > 0
    ensures points == RoutePoints(OverviewPath(route), step)
  {
    points := [];
    var path := OverviewPath(route);
    var i := 0;
    assert Min(0, |path|) == 0;
    while i < |path|
      invariant SampledUpTo(path, step, i, points)
      decreases |path| - i
    {
      SampleStep(path, step, i, points);
      points := points + [path[i]];
      i := i + step;
    }
    SampleDone(path, step, i, points);
    if |path| > 0 {
      points := points + [path[|path| - 1]];
    }
  }

  /** The sampling loop's invariant: `i` is a multiple of the step, and the
      anchors taken so far followed by those from `i` on are all of them. */
  ghost predicate SampledUpTo(path: seq<LatLng>, step: nat, i: nat, points: seq<LatLng>)
    requires step > 0
  {
    i % step == 0 && points + EveryNth(path, step, Min(i, |path|)) == EveryNth(path, step, 0)
  }

  /** One turn of the sampling loop: taking the point at a multiple of the
      step leaves the anchors from the next multiple to be taken. */
  lemma SampleStep(path: seq<LatLng>, step: nat, i: nat, points: seq<LatLng>)
    requires step > 0 && i < |path| && SampledUpTo(path, step, i, points)
    ensures SampledUpTo(path, step, i + step, points + [path[i]])
  {
    EveryNthAtMultiple(path, step, i);
    var rest := EveryNth(path, step, Min(i + step, |path|));
    assert (points + [path[i]]) + rest == points + ([path[i]] + rest);
  }

  /** Past the end of the path, every anchor has been taken. */
  lemma SampleDone(path: seq<LatLng>, step: nat, i: nat, points: seq<LatLng>)
    requires step > 0 && i >= |path| && SampledUpTo(path, step, i, points)
    ensures points == EveryNth(path, step, 0)
  {
    assert EveryNth(path, step, Min(i, |path|)) == [];
    assert points + [] == points;
  }

  /** A non-empty path gives ceil(len / step) + 1 anchors: the points at the
      multiples of the step, from path[0], then path[len - 1]. */
  lemma RoutePointsShape(path: seq<LatLng>, step: nat)
    requires step > 0 && |path| > 0
    ensures |RoutePoints(path, step)| == (|path| + step - 1) / step + 1
    ensures RoutePoints(path, step)[0] == path[0]
    ensures RoutePoints(path, step)[|RoutePoints(path, step)| - 1] == path[|path| - 1]
    ensures forall k :: 0 <= k < |RoutePoints(path, step)| - 1 ==>
              k * step < |path| && RoutePoints(path, step)[k] == path[k * step]
  {
    EveryNthLength(path, step, 0);
    EveryNthAtMultiple(path, step, 0);
    forall k | 0 <= k < |RoutePoints(path, step)| - 1
      ensures k * step < |path| && RoutePoints(path, step)[k] == path[k * step]
    {
      EveryNthAt(path, step, 0, k);
    }
  }

  lemma RoutePointsOfEmpty(step: nat)
    requires step > 0
    ensures RoutePoints([], step) == []
  {
  }

  // ---------------------------------------------------------------------
  // The distance from a station to the route.

  /** d(p, a) + d(p, b) for the segment ending at vertex i. */
  function SegmentCost(p: LatLng, path: seq<LatLng>, i: nat, dist: Distance): real
    requires 1 <= i < |path|
  {
    dist(p, path[i - 1]) + dist(p, path[i])
  }

  /** The least segment cost over the segments ending at vertices 1..n-1;
      None (Infinity) when there are none. */
  function MinSegment(p: LatLng, path: seq<LatLng>, n: nat, dist: Distance): (m: Option<real>)
    requires n <= |path|
    ensures m.None? <==> n < 2
    ensures m.Some? ==> forall i :: 1 <= i < n ==> m.value <= SegmentCost(p, path, i, dist)
    ensures m.Some? ==> exists i :: 1 <= i < n && m.value == SegmentCost(p, path, i, dist)
  {
    if n < 2 then None
    else
      var m := MinSegment(p, path, n - 1, dist);
      var d := SegmentCost(p, path, n - 1, dist);
      if m.None? || d < m.value then Some(d) else m
  }

  /** The distance-to-route loop: Infinity is None, and a non-finite
      minimum becomes null. */
  method DistanceToRoute(p: LatLng, routePath: seq<LatLng>, dist: Distance) returns (distanceToRoute: Option<real>)
    ensures distanceToRoute == MinSegment(p, routePath, |routePath|, dist)
    ensures distanceToRoute.None? <==> |routePath| < 2
  {
    distanceToRoute := None;
    if |routePath| > 0 {
      var min: Option<real> := None;
      for i := 1 to |routePath|
        invariant min == MinSegment(p, routePath, i, dist)
      {
        var d := dist(p, routePath[i - 1]) + dist(p, routePath[i]);
        if min.None? || d < min.value {
          min := Some(d);
        }
      }
      distanceToRoute := min;
    }
  }

  // ---------------------------------------------------------------------
  // Enrichment, filtering and ordering.

  datatype Station = Station(
    id: Option<string>,
    name: string,
    address: string,
    location: LatLng,
    rating: real,
    totalRatings: nat,
    isOpen: Option<bool>,
    distanceToRoute: Option<real>)

  /** `a ?? b` on optional values. */
  function Coalesce<T>(a: Option<T>, b: T): (r: T)
  {
    if a.Some? then a.value else b
  }

  /** The enrichment of one merged place: null without a valid location;
      otherwise the details win over the search result, with fixed
      fallbacks. */
  function StationOf(place: Place, details: Option<Details>, routePath: seq<LatLng>, dist: Distance): (s: Option<Station>)
    ensures s.None? <==> place.location.None?
    ensures s.Some? ==> s.value.id == place.placeId && s.value.location == place.location.value
    ensures s.Some? ==> s.value.distanceToRoute == MinSegment(place.location.value, routePath, |routePath|, dist)
    // name: details?.name || place.name || 'EV Charging Station'
    ensures s.Some? && details.Some? && !Falsy(details.value.name) ==> s.value.name == details.value.name.value
    ensures s.Some? && (details.None? || Falsy(details.value.name)) && !Falsy(place.name) ==>
              s.value.name == place.name.value
    ensures s.Some? && (details.None? || Falsy(details.value.name)) && Falsy(place.name) ==>
              s.value.name == "EV Charging Station"
    // address: details?.formatted_address || place.vicinity || 'Address not available'
    ensures s.Some? && details.Some? && !Falsy(details.value.formattedAddress) ==>
              s.value.address == details.value.formattedAddress.value
    ensures s.Some? && (details.None? || Falsy(details.value.formattedAddress)) && !Falsy(place.vicinity) ==>
              s.value.address == place.vicinity.value
    ensures s.Some? && (details.None? || Falsy(details.value.formattedAddress)) && Falsy(place.vicinity) ==>
              s.value.address == "Address not available"
    // rating and totalRatings: `??`, so a zero from the details is kept
    ensures s.Some? && details.Some? && details.value.rating.Some? ==> s.value.rating == details.value.rating.value
    ensures s.Some? && (details.None? || details.value.rating.None?) ==>
              s.value.rating == (if place.rating.Some? then place.rating.value else 0.0)
    ensures s.Some? && details.Some? && details.value.userRatingsTotal.Some? ==>
              s.value.totalRatings == details.value.userRatingsTotal.value
    ensures s.Some? && (details.None? || details.value.userRatingsTotal.None?) ==>
              s.value.totalRatings == (if place.userRatingsTotal.Some? then place.userRatingsTotal.value else 0)
    // isOpen: only the details know it
    ensures s.Some? && details.None? ==> s.value.isOpen == None
    ensures s.Some? && details.Some? ==> s.value.isOpen == details.value.isOpen
  {
    if place.location.None? then None
    else
      var loc := place.location.value;
      var dName := if details.Some? then details.value.name else None;
      var dAddress := if details.Some? then details.value.formattedAddress else None;
      var dRating := if details.Some? then details.value.rating else None;
      var dTotal := if details.Some? then details.value.userRatingsTotal else None;
      Some(Station(
        place.placeId,
        OrElse(dName, OrElse(place.name, "EV Charging Station")),
        OrElse(dAddress, OrElse(place.vicinity, "Address not available")),
        loc,
        Coalesce(dRating, Coalesce(place.rating, 0.0)),
        Coalesce(dTotal, Coalesce(place.userRatingsTotal, 0)),
        if details.Some? then details.value.isOpen else None,
        MinSegment(loc, routePath, |routePath|, dist)))
  }

  /** The details of the place with this id, as getPlaceDetails resolves. */
  function DetailsFor(place: Place, details: string -> Option<Details>): Option<Details>
  {
    if place.placeId.Some? then details(place.placeId.value) else None
  }

  /** `basicPlaces.slice(0, 20).map(...)`. */
  function Enriched(merged: seq<Place>, details: string -> Option<Details>, routePath: seq<LatLng>, dist: Distance): (e: seq<Option<Station>>)
  {
    var first := Take(merged, 20);
    seq(|first|, i requires 0 <= i < |first| => StationOf(first[i], DetailsFor(first[i], details), routePath, dist))
  }

  function DistanceKey(s: Station): Option<real>
  {
    s.distanceToRoute
  }

  /** `detailed.filter(Boolean).sort(...)`. */
  function Stations(merged: seq<Place>, details: string -> Option<Details>, routePath: seq<LatLng>, dist: Distance): seq<Station>
  {
    SortByKey(Present(Enriched(merged, details, routePath, dist)), DistanceKey)
  }

  /** At most 20 stations, nearest to the route first with the unknown
      distances last, each the enrichment of one of the first 20 merged
      places, and every such enrichment with a location among them. */
  lemma StationsProperties(merged: seq<Place>, details: string -> Option<Details>, routePath: seq<LatLng>, dist: Distance)
    ensures |Stations(merged, details, routePath, dist)| <= 20
    ensures SortedBy(Stations(merged, details, routePath, dist), DistanceKey)
    ensures forall k :: 0 <= k < |Stations(merged, details, routePath, dist)| ==>
              Some(Stations(merged, details, routePath, dist)[k]) in Enriched(merged, details, routePath, dist)
    ensures forall i :: 0 <= i < Min(20, |merged|) && merged[i].location.Some? ==>
              StationOf(merged[i], DetailsFor(merged[i], details), routePath, dist).value
                in Stations(merged, details, routePath, dist)
  {
    var e := Enriched(merged, details, routePath, dist);
    SortedPresent(e, DistanceKey);
    forall i | 0 <= i < Min(20, |merged|) && merged[i].location.Some?
      ensures StationOf(merged[i], DetailsFor(merged[i], details), routePath, dist).value
                in Stations(merged, details, routePath, dist)
    {
      assert e[i].Some?;
    }
  }

  /** The anchors: samples of the route when there is one, otherwise the
      geocoded destination when there is a destination and it was found. */
  function Anchors(route: Option<Route>, destination: string, geocoded: Option<LatLng>): seq<LatLng>
  {
    if route.Some? then RoutePoints(OverviewPath(route), 15)
    else if destination != "" && geocoded.Some? then [geocoded.value]
    else []
  }

  class EvFinder {
    var evStations: seq<Station>
    var showEvInfo: bool
    var loadingEvInfo: bool
    var selectedEvStation: Option<Station>
    var evRadius: nat

    constructor ()
      ensures evStations == [] && !showEvInfo && !loadingEvInfo && selectedEvStation == None && evRadius == 1000
    {
      evStations := [];
      showEvInfo := false;
      loadingEvInfo := false;
      selectedEvStation := None;
      evRadius := 1000;
    }

    /** findEvStations. `apisLoaded` is whether the Places and geometry
        libraries are there, `geocoded` the destination's location (None
        when geocoding fails or has no location), `nearby(p)` the search
        around p with this radius and `details(id)` the details lookup. */
    method FindEvStations(route: Option<Route>, selectedDestination: string, apisLoaded: bool,
                          geocoded: Option<LatLng>, nearby: LatLng -> seq<Place>,
                          details: string -> Option<Details>, dist: Distance)
      modifies this
      ensures !apisLoaded ==> evStations == old(evStations) && showEvInfo == old(showEvInfo)
                              && loadingEvInfo == old(loadingEvInfo) && selectedEvStation == old(selectedEvStation)
      ensures apisLoaded ==> !loadingEvInfo && showEvInfo && selectedEvStation == None
      ensures apisLoaded ==>
                evStations == Stations(Merged(SearchAll(Anchors(route, selectedDestination, geocoded), nearby)),
                                       details, OverviewPath(route), dist)
      ensures evRadius == old(evRadius)
    {
      if !apisLoaded {
        return;
      }
      loadingEvInfo := true;
      evStations := [];
      selectedEvStation := None;

      var anchorLocations: seq<LatLng> := [];
      if route.Some? {
        anchorLocations := SampleRoutePoints(route, 15);
      } else if selectedDestination != "" {
        if geocoded.Some? {
          anchorLocations := [geocoded.value];
        }
      }
      if |anchorLocations| == 0 {
        showEvInfo := true;
        loadingEvInfo := false;
        return;
      }

      var results := SearchAll(anchorLocations, nearby);
      var basicPlaces := MergeById(results);
      if |basicPlaces| == 0 {
        evStations := [];
        showEvInfo := true;
        loadingEvInfo := false;
        return;
      }

      evStations := Stations(basicPlaces, details, OverviewPath(route), dist);
      showEvInfo := true;
      loadingEvInfo := false;
    }
  }
}
