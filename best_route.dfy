/** The route planner view (components/BestRoute.js): the traffic label
    of each alternative route, the message for a failed directions
    request, and the handlers that edit the waypoint list, pick a
    suggestion and stop navigation. */
module BestRoute {
  import opened Common
  import opened Directions
  import opened LocationTracking

  datatype TrafficLevel = Low | Moderate | Heavy

  /** The delay-factor scheme: traffic / normal against 1.1 and 1.3, with
      the ratios cross-multiplied. A normal time of 0 makes the factor NaN
      or +Infinity, which passes neither test. */
  function ClassifyRatio(normal: nat, traffic: nat): (l: TrafficLevel)
    ensures normal == 0 ==> l == Heavy
    ensures normal > 0 ==> (l == Low <==> 10 * traffic <= 11 * normal)
    ensures normal > 0 ==> (l == Moderate <==> 11 * normal < 10 * traffic <= 13 * normal)
    ensures normal > 0 ==> (l == Heavy <==> 13 * normal < 10 * traffic)
  {
    if normal == 0 then Heavy
    else if 10 * traffic <= 11 * normal then Low
    else if 10 * traffic <= 13 * normal then Moderate
    else Heavy
  }

  function Severity(l: TrafficLevel): nat
  {
    match l
    case Low => 0
    case Moderate => 1
    case Heavy => 2
  }

  /** More time in traffic never gives a lighter level. */
  lemma ClassifyRatioMonotone(normal: nat, t: nat, t': nat)
    requires t <= t'
    ensures Severity(ClassifyRatio(normal, t)) <= Severity(ClassifyRatio(normal, t'))
  {
  }

  /** One entry of routeLabels / trafficInfo (the via-points text is not
      modelled). */
  datatype RouteInfo = RouteInfo(text: string, color: string, trafficLevel: TrafficLevel, delayMinutes: int)

  function RouteColor(index: nat): (c: string)
  {
    if index == 0 then "#4F46E5" else if index == 1 then "#059669" else "#DC2626"
  }

  /** The map callback for the route at `index`: None when its first leg has
      no numeric duration; a missing traffic duration means the normal one. */
  function RouteInfoOf(route: Route, index: nat): (r: Option<RouteInfo>)
    ensures r.None? <==> FirstLeg(route).None? || FirstLeg(route).value.duration.None?
    ensures r.Some? ==> r.value.text == "Route " + NatToString(index + 1) && r.value.color == RouteColor(index)
    ensures r.Some? ==>
              var n := FirstLeg(route).value.duration.value;
              var t := if FirstLeg(route).value.durationInTraffic.Some?
                       then FirstLeg(route).value.durationInTraffic.value else n;
              r.value.trafficLevel == ClassifyRatio(n, t)
              && 120 * r.value.delayMinutes - 60 <= 2 * (t - n) < 120 * r.value.delayMinutes + 60
  {
    var leg := FirstLeg(route);
    if leg.None? || leg.value.duration.None? then None
    else
      var normalTime := leg.value.duration.value;
      var trafficTime := if leg.value.durationInTraffic.Some? then leg.value.durationInTraffic.value else normalTime;
      Some(RouteInfo(
        "Route " + NatToString(index + 1),
        RouteColor(index),
        ClassifyRatio(normalTime, trafficTime),
        RoundDiv(trafficTime - normalTime, 60)))
  }

  /** Without a traffic duration a route with a positive normal time is Low
      with no delay. */
  lemma NoTrafficDurationIsLow(route: Route, index: nat)
    requires FirstLeg(route).Some? && FirstLeg(route).value.duration.Some?
    requires FirstLeg(route).value.duration.value > 0 && FirstLeg(route).value.durationInTraffic.None?
    ensures RouteInfoOf(route, index).Some?
    ensures RouteInfoOf(route, index).value.trafficLevel == Low
    ensures RouteInfoOf(route, index).value.delayMinutes == 0
  {
  }

  /** `routes.map(...)`: the callback's result for each route. */
  function Mapped(routes: seq<Route>): (os: seq<Option<RouteInfo>>)
  {
    seq(|routes|, i requires 0 <= i < |routes| => RouteInfoOf(routes[i], i))
  }

  /** `routes.map(...).filter(Boolean)`. */
  function ProcessRoutes(routes: seq<Route>): seq<RouteInfo>
  {
    Present(Mapped(routes))
  }

  /** The positions, counted from `off`, of the results that are not null. */
  function SomePositions(os: seq<Option<RouteInfo>>, off: nat): seq<nat>
  {
    if os == [] then []
    else (if os[0].Some? then [off] else []) + SomePositions(os[1..], off + 1)
  }

  /** Each position is in range and holds a result that is not null. */
  lemma {:induction false} SomePositionsBounds(os: seq<Option<RouteInfo>>, off: nat)
    ensures forall j :: 0 <= j < |SomePositions(os, off)| ==>
              off <= SomePositions(os, off)[j] < off + |os| && os[SomePositions(os, off)[j] - off].Some?
  {
    if os != [] {
      SomePositionsBounds(os[1..], off + 1);
      var head: seq<nat> := if os[0].Some? then [off] else [];
      var rest := SomePositions(os[1..], off + 1);
      var ks := head + rest;
      assert SomePositions(os, off) == ks;
      forall j | 0 <= j < |ks|
        ensures off <= ks[j] < off + |os| && os[ks[j] - off].Some?
      {
        if j >= |head| {
          assert ks[j] == rest[j - |head|];
          assert os[1..][ks[j] - (off + 1)] == os[ks[j] - off];
        }
      }
    }
  }

  /** The positions are strictly increasing. */
  lemma {:induction false} SomePositionsIncreasing(os: seq<Option<RouteInfo>>, off: nat)
    ensures forall j, j' :: 0 <= j < j' < |SomePositions(os, off)| ==> SomePositions(os, off)[j] < SomePositions(os, off)[j']
  {
    if os != [] {
      SomePositionsIncreasing(os[1..], off + 1);
      SomePositionsBounds(os[1..], off + 1);
      var head: seq<nat> := if os[0].Some? then [off] else [];
      var rest := SomePositions(os[1..], off + 1);
      var ks := head + rest;
      assert SomePositions(os, off) == ks;
      forall j, j' | 0 <= j < j' < |ks|
        ensures ks[j] < ks[j']
      {
        assert ks[j'] == rest[j' - |head|];
        if j >= |head| {
          assert ks[j] == rest[j - |head|];
        }
      }
    }
  }

  /** Every result that is not null has its position listed. */
  lemma {:induction false} SomePositionsComplete(os: seq<Option<RouteInfo>>, off: nat)
    ensures forall i :: 0 <= i < |os| && os[i].Some? ==> off + i in SomePositions(os, off)
  {
    if os != [] {
      SomePositionsComplete(os[1..], off + 1);
      var head: seq<nat> := if os[0].Some? then [off] else [];
      var rest := SomePositions(os[1..], off + 1);
      assert SomePositions(os, off) == head + rest;
      forall i | 0 <= i < |os| && os[i].Some?
        ensures off + i in head + rest
      {
        if i > 0 {
          assert os[1..][i - 1] == os[i];
          assert off + 1 + (i - 1) in rest;
        }
      }
    }
  }

  /** The j-th kept result is the one at the j-th position. */
  lemma {:induction false} PresentAtPositions(os: seq<Option<RouteInfo>>, off: nat)
    ensures |Present(os)| == |SomePositions(os, off)|
    ensures forall j :: 0 <= j < |Present(os)| ==>
              off <= SomePositions(os, off)[j] < off + |os| && Some(Present(os)[j]) == os[SomePositions(os, off)[j] - off]
  {
    if os != [] {
      PresentAtPositions(os[1..], off + 1);
      var head: seq<RouteInfo> := if os[0].Some? then [os[0].value] else [];
      var rest := Present(os[1..]);
      var hk: seq<nat> := if os[0].Some? then [off] else [];
      var rk := SomePositions(os[1..], off + 1);
      assert Present(os) == head + rest;
      assert SomePositions(os, off) == hk + rk;
      forall j | 0 <= j < |head + rest|
        ensures off <= (hk + rk)[j] < off + |os| && Some((head + rest)[j]) == os[(hk + rk)[j] - off]
      {
        if j >= |head| {
          assert (head + rest)[j] == rest[j - |head|];
          assert (hk + rk)[j] == rk[j - |head|];
          assert os[1..][rk[j - |head|] - (off + 1)] == os[(hk + rk)[j] - off];
        }
      }
    }
  }

  predicate Kept(routes: seq<Route>, i: nat)
    requires i < |routes|
  {
    RouteInfoOf(routes[i], i).Some?
  }

  /** The original positions of the routes that are kept. */
  function KeptIndices(routes: seq<Route>): seq<nat>
  {
    SomePositions(Mapped(routes), 0)
  }

  /** Every kept position is a route with a numeric duration. */
  lemma KeptIndicesKept(routes: seq<Route>)
    ensures forall j :: 0 <= j < |KeptIndices(routes)| ==> KeptIndices(routes)[j] < |routes| && Kept(routes, KeptIndices(routes)[j])
  {
    var os := Mapped(routes);
    SomePositionsBounds(os, 0);
    var ks := KeptIndices(routes);
    forall j | 0 <= j < |ks|
      ensures ks[j] < |routes| && Kept(routes, ks[j])
    {
      var i := ks[j];
      assert os[i - 0].Some?;
      assert os[i] == RouteInfoOf(routes[i], i);
    }
  }

  /** The kept positions keep the routes' order. */
  lemma KeptIndicesIncreasing(routes: seq<Route>)
    ensures forall j, j' :: 0 <= j < j' < |KeptIndices(routes)| ==> KeptIndices(routes)[j] < KeptIndices(routes)[j']
  {
    SomePositionsIncreasing(Mapped(routes), 0);
  }

  /** Every route with a numeric duration is kept. */
  lemma KeptIndicesComplete(routes: seq<Route>)
    ensures forall i :: 0 <= i < |routes| && Kept(routes, i) ==> i in KeptIndices(routes)
  {
    var os := Mapped(routes);
    SomePositionsComplete(os, 0);
    forall i | 0 <= i < |routes| && Kept(routes, i)
      ensures i in KeptIndices(routes)
    {
      assert os[i] == RouteInfoOf(routes[i], i);
      assert 0 + i in SomePositions(os, 0);
    }
  }

  /** The labelled routes are exactly the kept routes, in their original
      order, each labelled from its own original index. */
  lemma ProcessRoutesIsKept(routes: seq<Route>)
    ensures |ProcessRoutes(routes)| == |KeptIndices(routes)|
    ensures forall j :: 0 <= j < |ProcessRoutes(routes)| ==>
              KeptIndices(routes)[j] < |routes| && Kept(routes, KeptIndices(routes)[j])
              && ProcessRoutes(routes)[j] == RouteInfoOf(routes[KeptIndices(routes)[j]], KeptIndices(routes)[j]).value
  {
    var os := Mapped(routes);
    PresentAtPositions(os, 0);
    var ks := KeptIndices(routes);
    forall j | 0 <= j < |ProcessRoutes(routes)|
      ensures ks[j] < |routes| && Kept(routes, ks[j]) && ProcessRoutes(routes)[j] == RouteInfoOf(routes[ks[j]], ks[j]).value
    {
      assert Some(ProcessRoutes(routes)[j]) == os[ks[j] - 0];
    }
  }

  const ZeroResultsMessage := "No route found between these locations. Please check the addresses."
  const NotFoundMessage := "One or more locations could not be found. Please check the addresses."
  const OverQueryLimitMessage := "Too many requests. Please try again later."
  const RequestDeniedMessage := "Route request was denied. Please check your API key."
  const InvalidRequestMessage := "Invalid route request. Please check the addresses."
  const GenericMessage := "An unexpected error occurred. Please try again."

  /** The switch on the status of a failed directions request. */
  function ErrorMessage(status: string): string
  {
    match status
    case "ZERO_RESULTS" => ZeroResultsMessage
    case "NOT_FOUND" => NotFoundMessage
    case "OVER_QUERY_LIMIT" => OverQueryLimitMessage
    case "REQUEST_DENIED" => RequestDeniedMessage
    case "INVALID_REQUEST" => InvalidRequestMessage
    case _ => GenericMessage
  }

  /** Each of the five failure statuses gets its own message, and every
      other status the generic one. */
  lemma ErrorMessageCases(status: string)
    ensures status == "ZERO_RESULTS" <==> ErrorMessage(status) == ZeroResultsMessage
    ensures status == "NOT_FOUND" <==> ErrorMessage(status) == NotFoundMessage
    ensures status == "OVER_QUERY_LIMIT" <==> ErrorMessage(status) == OverQueryLimitMessage
    ensures status == "REQUEST_DENIED" <==> ErrorMessage(status) == RequestDeniedMessage
    ensures status == "INVALID_REQUEST" <==> ErrorMessage(status) == InvalidRequestMessage
    ensures status !in {"ZERO_RESULTS", "NOT_FOUND", "OVER_QUERY_LIMIT", "REQUEST_DENIED", "INVALID_REQUEST"}
            <==> ErrorMessage(status) == GenericMessage
  {
  }

  /** What getWeatherInfo stored: the forecast body, or null on failure. */
  datatype WeatherReport = WeatherReport(body: string)

  datatype Waypoint = Waypoint(location: string, stopover: bool)

  /** The suggestion picker's target field. */
  datatype Field = Source | Destination | WaypointField | OtherField

  class Planner {
    var directions: seq<Route>
    var loading: bool
    var error: string
    var routeLabels: seq<RouteInfo>
    var trafficInfo: seq<RouteInfo>
    var weatherInfo: Option<WeatherReport>
    var waypoints: seq<Waypoint>
    var waypointInput: string
    var selectedSource: string
    var selectedDestination: string
    var suggestions: seq<string>
    var navigating: bool
    var selectedRoute: Option<Route>
    const nav: Navigation
    const tracker: Tracker

    constructor ()
      ensures directions == [] && !loading && error == "" && routeLabels == [] && trafficInfo == []
      ensures weatherInfo == None && waypoints == [] && waypointInput == ""
      ensures selectedSource == "" && selectedDestination == "" && suggestions == []
      ensures !navigating && selectedRoute == None
      ensures fresh(nav) && fresh(tracker)
    {
      directions := [];
      loading := false;
      error := "";
      routeLabels := [];
      trafficInfo := [];
      weatherInfo := None;
      waypoints := [];
      waypointInput := "";
      selectedSource := "";
      selectedDestination := "";
      suggestions := [];
      navigating := false;
      selectedRoute := None;
      nav := new Navigation();
      tracker := new Tracker();
    }

    /** directionsCallback: `weatherAt` stands for getWeatherInfo at the
        first leg's end location. */
    method DirectionsCallback(routes: seq<Route>, status: string, weatherAt: LatLng -> Option<WeatherReport>)
      modifies this
      ensures !loading
      ensures status == "OK" && |routes| > 0 ==>
                directions == routes && error == ""
                && routeLabels == ProcessRoutes(routes) && trafficInfo == ProcessRoutes(routes)
                && weatherInfo == (if FirstLeg(routes[0]).Some? && FirstLeg(routes[0]).value.endLocation.Some?
                                   then weatherAt(FirstLeg(routes[0]).value.endLocation.value) else None)
      ensures !(status == "OK" && |routes| > 0) ==>
                error == ErrorMessage(status) && directions == [] && weatherInfo == None
                && routeLabels == old(routeLabels) && trafficInfo == old(trafficInfo)
      ensures waypoints == old(waypoints) && waypointInput == old(waypointInput)
      ensures selectedSource == old(selectedSource) && selectedDestination == old(selectedDestination)
      ensures suggestions == old(suggestions) && navigating == old(navigating) && selectedRoute == old(selectedRoute)
    {
      if status == "OK" && |routes| > 0 {
        directions := routes;
        var firstLeg := FirstLeg(routes[0]);
        if firstLeg.Some? && firstLeg.value.endLocation.Some? {
          weatherInfo := weatherAt(firstLeg.value.endLocation.value);
        } else {
          weatherInfo := None;
        }
        var routesInfo := ProcessRoutes(routes);
        routeLabels := routesInfo;
        trafficInfo := routesInfo;
        error := "";
      } else {
        error := ErrorMessage(status);
        directions := [];
        weatherInfo := None;
      }
      loading := false;
    }

    /** addWaypoint: one stop-over entry for the location in India, after
        the existing ones; the input box is cleared. */
    method AddWaypoint(location: string)
      modifies this
      ensures waypoints == old(waypoints) + [Waypoint(location + ", India", true)]
      ensures waypointInput == ""
      ensures directions == old(directions) && error == old(error) && loading == old(loading)
      ensures routeLabels == old(routeLabels) && trafficInfo == old(trafficInfo) && weatherInfo == old(weatherInfo)
      ensures selectedSource == old(selectedSource) && selectedDestination == old(selectedDestination)
      ensures suggestions == old(suggestions) && navigating == old(navigating) && selectedRoute == old(selectedRoute)
    {
      waypoints := waypoints + [Waypoint(location + ", India", true)];
      waypointInput := "";
    }

    /** handleStopNavigation. */
    method HandleStopNavigation()
      modifies this, nav, tracker
      ensures !navigating && selectedRoute == None
      ensures nav.currentStep == 0 && nav.nextInstruction == Some("") && nav.distanceToNext == Some("")
      ensures nav.estimatedTime == ""
      ensures tracker.Stopped()
      ensures directions == old(directions) && loading == old(loading) && error == old(error)
      ensures routeLabels == old(routeLabels) && trafficInfo == old(trafficInfo) && weatherInfo == old(weatherInfo)
      ensures waypoints == old(waypoints) && waypointInput == old(waypointInput)
      ensures selectedSource == old(selectedSource) && selectedDestination == old(selectedDestination)
      ensures suggestions == old(suggestions)
    {
      tracker.StopTracking();
      navigating := false;
      selectedRoute := None;
      nav.Reset();
    }

    /** handleSuggestionSelect: only the named field takes the description;
        the suggestion list is cleared in every case. */
    method HandleSuggestionSelect(description: string, field: Field)
      modifies this
      ensures selectedSource == (if field == Source then description else old(selectedSource))
      ensures selectedDestination == (if field == Destination then description else old(selectedDestination))
      ensures waypointInput == (if field == WaypointField then description else old(waypointInput))
      ensures suggestions == []
      ensures waypoints == old(waypoints) && directions == old(directions) && error == old(error)
      ensures navigating == old(navigating) && loading == old(loading) && selectedRoute == old(selectedRoute)
      ensures routeLabels == old(routeLabels) && trafficInfo == old(trafficInfo) && weatherInfo == old(weatherInfo)
    {
      if field == Source {
        selectedSource := description;
      } else if field == Destination {
        selectedDestination := description;
      } else if field == WaypointField {
        waypointInput := description;
      }
      suggestions := [];
    }
  }
}
