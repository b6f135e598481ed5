/** The accident-zone search (hooks/useAccidentZones.js): readiness
    checks, every n-th path point as a search centre, the first-wins merge
    by place id, the zones with a location, and the warnings for the first
    five zones on the route. The nearby search and the on-route test
    (isLocationOnEdge with its tolerance) are inputs. */
module AccidentZones {
  import opened Common
  import opened Directions
  import opened Places

  const MapsLoadingError := "Google Maps is still loading"
  const MapNotReadyError := "Map is not ready yet"

  /** Math.max(1, Math.floor(len / 25)). */
  function SampleStep(len: nat): (step: nat)
    ensures step >= 1
    ensures len < 50 ==> step == 1
    ensures len >= 50 ==> step == len / 25
  {
    if len / 25 > 1 then len / 25 else 1
  }

  /** The search centres: the points whose index is a multiple of the step. */
  function Samples(path: seq<LatLng>): seq<LatLng>
  {
    EveryNth(path, SampleStep(|path|), 0)
  }

  lemma DivBelow(a: int, k: int, m: int)
    requires k > 0 && 0 <= a < m * k
    ensures a / k < m
  {
    var q := a / k;
    if q >= m {
      MulMonotone(k, m, q);
    }
  }

  lemma MulMonotone(k: int, m: int, q: int)
    requires k > 0 && m <= q
    ensures k * m <= k * q
  {
  }

  /** The samples are path[0], path[step], path[2 step], ...: ceil(len /
      step) of them, never more than 49. */
  lemma SamplesShape(path: seq<LatLng>)
    ensures |Samples(path)| == (|path| + SampleStep(|path|) - 1) / SampleStep(|path|)
    ensures |Samples(path)| <= 49
    ensures forall k :: 0 <= k < |Samples(path)| ==>
              k * SampleStep(|path|) < |path| && Samples(path)[k] == path[k * SampleStep(|path|)]
  {
    var n, step := |path|, SampleStep(|path|);
    EveryNthLength(path, step, 0);
    if n >= 50 {
      DivModUnique(n, 25, n / 25, n % 25);
      assert n < 25 * step + 25;
      DivBelow(n + step - 1, step, 50);
    }
    forall k | 0 <= k < |Samples(path)|
      ensures k * step < n && Samples(path)[k] == path[k * step]
    {
      EveryNthAt(path, step, 0, k);
    }
  }

  /** One zone: a merged place that has a location. */
  datatype Zone = Zone(
    id: string,
    name: Option<string>,
    address: string,
    location: LatLng,
    rating: real,
    totalRatings: nat,
    onRoute: bool)

  /** The zone of a place, None when it has no location; a rating or count
      that is not a number is 0. */
  function ZoneOf(p: Place, onEdge: LatLng -> bool): (z: Option<Zone>)
    requires HasId(p)
    ensures z.None? <==> p.location.None?
    ensures z.Some? ==> z.value.id == p.placeId.value && z.value.name == p.name && z.value.location == p.location.value
    ensures z.Some? ==> z.value.onRoute == onEdge(p.location.value)
    ensures z.Some? ==> z.value.rating == (if p.rating.Some? then p.rating.value else 0.0)
    ensures z.Some? ==> z.value.totalRatings == (if p.userRatingsTotal.Some? then p.userRatingsTotal.value else 0)
  {
    if p.location.None? then None
    else
      var loc := p.location.value;
      Some(Zone(
        p.placeId.value,
        p.name,
        OrElse(p.vicinity, OrElse(p.formattedAddress, "")),
        loc,
        if p.rating.Some? then p.rating.value else 0.0,
        if p.userRatingsTotal.Some? then p.userRatingsTotal.value else 0,
        onEdge(loc)))
  }

  /** `Array.from(uniqueById.values()).map(...).filter(z => z.location)`. */
  function Zones(unique: seq<Place>, onEdge: LatLng -> bool): (zs: seq<Zone>)
    requires forall i :: 0 <= i < |unique| ==> HasId(unique[i])
    ensures |zs| <= |unique|
  {
    if unique == [] then []
    else
      var z := ZoneOf(unique[0], onEdge);
      (if z.Some? then [z.value] else []) + Zones(unique[1..], onEdge)
  }

  /** The zones are the places with a location, one each, in order. */
  lemma {:induction false} ZonesKeepLocated(unique: seq<Place>, onEdge: LatLng -> bool)
    requires forall i :: 0 <= i < |unique| ==> HasId(unique[i])
    ensures forall k :: 0 <= k < |Zones(unique, onEdge)| ==>
              (Some(Zones(unique, onEdge)[k]) in seq(|unique|, i requires 0 <= i < |unique| => ZoneOf(unique[i], onEdge)))
    ensures forall i :: 0 <= i < |unique| && unique[i].location.Some? ==>
              ZoneOf(unique[i], onEdge).value in Zones(unique, onEdge)
    decreases |unique|
  {
    if unique != [] {
      var rest := unique[1..];
      ZonesKeepLocated(rest, onEdge);
      var all := seq(|unique|, i requires 0 <= i < |unique| => ZoneOf(unique[i], onEdge));
      var allRest := seq(|rest|, i requires 0 <= i < |rest| => ZoneOf(rest[i], onEdge));
      assert all == [ZoneOf(unique[0], onEdge)] + allRest;
    }
  }

  /** `${z.name}`: a missing name renders as "undefined". */
  function NameText(name: Option<string>): string
  {
    if name.Some? then name.value else "undefined"
  }

  /** The predicate `z => z.onRoute`. */
  function IsOnRoute(z: Zone): bool
  {
    z.onRoute
  }

  /** `zones.filter(z => z.onRoute)`. */
  function OnRoute(zs: seq<Zone>): (r: seq<Zone>)
    ensures |r| <= |zs|
    ensures forall z :: z in r <==> z in zs && z.onRoute
  {
    Filter(zs, IsOnRoute)
  }

  /** `zones.filter(z => z.onRoute).slice(0, 5).map(z => `${z.name}`)`. */
  function Warnings(zs: seq<Zone>): (w: seq<string>)
    ensures |w| <= 5 && |w| == Min(5, |OnRoute(zs)|)
    ensures forall k :: 0 <= k < |w| ==> w[k] == NameText(OnRoute(zs)[k].name)
  {
    var first := Take(OnRoute(zs), 5);
    seq(|first|, k requires 0 <= k < |first| => NameText(first[k].name))
  }

  /** Zones after the fifth on-route one never change the warnings. */
  lemma WarningsPrefix(zs: seq<Zone>, extra: seq<Zone>)
    requires |OnRoute(zs)| >= 5
    ensures Warnings(zs + extra) == Warnings(zs)
  {
    OnRouteAppend(zs, extra);
  }

  /** The on-route filter keeps zone order: a concatenation filters part
      by part, and a single zone stays exactly when it is on the route. */
  lemma OnRouteAppend(a: seq<Zone>, b: seq<Zone>)
    ensures OnRoute(a + b) == OnRoute(a) + OnRoute(b)
  {
    FilterAppend(a, b, IsOnRoute);
  }

  lemma OnRouteOne(z: Zone)
    ensures OnRoute([z]) == (if z.onRoute then [z] else [])
  {
    FilterCons(z, [], IsOnRoute);
    assert [z] + [] == [z];
  }

  /** How findAccidentZones ended: normally, or by one of its two throws. */
  datatype Outcome = Done | Thrown(message: string)

  class AccidentFinder {
    var accidentZones: seq<Zone>
    var showAccidentInfo: bool
    var loadingAccidents: bool
    var accidentWarnings: seq<string>

    constructor ()
      ensures accidentZones == [] && !showAccidentInfo && !loadingAccidents && accidentWarnings == []
    {
      accidentZones := [];
      showAccidentInfo := false;
      loadingAccidents := false;
      accidentWarnings := [];
    }

    /** findAccidentZones: `mapsReady` is isMapsReady, `mapReady` whether
        the map object and window.google.maps exist, `nearby(p)` the search
        around p and `onEdge` the on-route test against the path. */
    method FindAccidentZones(mapsReady: bool, mapReady: bool, route: Option<Route>,
                             nearby: LatLng -> seq<Place>, onEdge: LatLng -> bool)
      returns (outcome: Outcome)
      modifies this
      ensures !mapsReady ==> outcome == Thrown(MapsLoadingError)
      ensures mapsReady && !mapReady ==> outcome == Thrown(MapNotReadyError)
      ensures outcome.Thrown? ==> accidentZones == old(accidentZones) && showAccidentInfo == old(showAccidentInfo)
                                  && loadingAccidents == old(loadingAccidents) && accidentWarnings == old(accidentWarnings)
      ensures mapsReady && mapReady ==> outcome == Done && !loadingAccidents && showAccidentInfo
      ensures mapsReady && mapReady && |SearchPath(route)| == 0 ==>
                accidentZones == old(accidentZones) && accidentWarnings == []
      ensures mapsReady && mapReady && |SearchPath(route)| > 0 ==>
                var unique := Merged(SearchAll(Samples(SearchPath(route)), nearby));
                AllHaveIds(unique) &&
                accidentZones == Zones(unique, onEdge) && accidentWarnings == Warnings(accidentZones)
    {
      if !mapsReady {
        return Thrown(MapsLoadingError);
      }
      if !mapReady {
        return Thrown(MapNotReadyError);
      }
      loadingAccidents := true;
      showAccidentInfo := true;
      accidentWarnings := [];

      var path := SearchPath(route);
      if |path| == 0 {
        loadingAccidents := false;
        return Done;
      }
      var samples := Samples(path);
      var flat := SearchAll(samples, nearby);
      var uniqueById := MergeById(flat);
      MergedDistinct(flat);
      var zones := Zones(uniqueById, onEdge);
      accidentZones := zones;
      accidentWarnings := Warnings(zones);
      loadingAccidents := false;
      return Done;
    }
  }

  predicate AllHaveIds(unique: seq<Place>)
  {
    forall i :: 0 <= i < |unique| ==> HasId(unique[i])
  }

  /** `route?.overview_path || (route?.overviewPolyline && route.overviewPolyline.path) || []`. */
  function SearchPath(route: Option<Route>): (path: seq<LatLng>)
  {
    if route.None? then []
    else if route.value.overviewPath.Some? then route.value.overviewPath.value
    else if route.value.polylinePath.Some? then route.value.polylinePath.value
    else []
  }
}
