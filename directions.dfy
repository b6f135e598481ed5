/** The parts of a Google Directions result that the app reads, each
    optional field as an Option; travel modes and vehicle types are the
    service's strings ("TRANSIT", "WALKING", "BUS", ...). */
module Directions {
  import opened Common

  datatype TransitLine = TransitLine(
    name: Option<string>,
    shortName: Option<string>,
    vehicleType: Option<string>,
    color: Option<string>,
    textColor: Option<string>)

  datatype TransitDetails = TransitDetails(
    line: Option<TransitLine>,
    departureStop: Option<string>,
    arrivalStop: Option<string>,
    departureTime: Option<string>,
    arrivalTime: Option<string>,
    headsign: Option<string>,
    numStops: Option<nat>)

  datatype Step = Step(
    travelMode: string,
    instructions: Option<string>,
    distanceText: Option<string>,
    durationText: Option<string>,
    durationSeconds: nat,
    startLocation: LatLng,
    transit: Option<TransitDetails>)

  /** `step.travel_mode === 'TRANSIT' && step.transit_details`. */
  predicate IsTransit(step: Step)
  {
    step.travelMode == "TRANSIT" && step.transit.Some?
  }

  /** A leg; `duration` and `durationInTraffic` are the `value` fields in
      seconds, None when absent or not a number. */
  datatype Leg = Leg(
    steps: Option<seq<Step>>,
    duration: Option<nat>,
    durationInTraffic: Option<nat>,
    durationText: Option<string>,
    distanceText: Option<string>,
    endLocation: Option<LatLng>)

  /** A route; `overviewPath` is `overview_path` and `polylinePath` the
      path of an `overviewPolyline` object, each None when absent. */
  datatype Route = Route(
    legs: Option<seq<Leg>>,
    overviewPath: Option<seq<LatLng>>,
    polylinePath: Option<seq<LatLng>>)

  /** `route?.overview_path || []`; an array, even an empty one, is truthy. */
  function OverviewPath(route: Option<Route>): (path: seq<LatLng>)
  {
    if route.Some? && route.value.overviewPath.Some? then route.value.overviewPath.value else []
  }

  /** `route.legs && route.legs[0]`. */
  function FirstLeg(route: Route): (leg: Option<Leg>)
  {
    if route.legs.Some? && |route.legs.value| > 0 then Some(route.legs.value[0]) else None
  }
}
