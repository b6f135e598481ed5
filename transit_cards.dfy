/** The bus and train cards (components/TransitCards.js): the transit
    details of a route's first leg with their fixed defaults, the routes
    that have at least one bus, subway, rail, train, tram or light-rail
    detail, and the vehicle names and icons.

    `transitDetails.line` is read without a guard, so a transit step
    without a line makes the component throw a TypeError; the model
    returns None for that. */
module TransitCards {
  import opened Common
  import opened Directions

  /** One entry of getTransitDetails; `kind` is the vehicle type. */
  datatype Detail = Detail(
    kind: string,
    name: string,
    shortName: string,
    color: string,
    textColor: string,
    departureStop: string,
    arrivalStop: string,
    departureTime: string,
    arrivalTime: string,
    headsign: string,
    duration: string,
    distance: string,
    numStops: nat,
    instructions: string)

  /** `steps.filter(step => step.travel_mode === 'TRANSIT' && step.transit_details)`. */
  function TransitSteps(steps: seq<Step>): (r: seq<Step>)
    ensures |r| <= |steps|
  {
    if steps == [] then []
    else (if IsTransit(steps[0]) then [steps[0]] else []) + TransitSteps(steps[1..])
  }

  /** Exactly the transit steps with details are kept. */
  lemma {:induction false} TransitStepsKept(steps: seq<Step>)
    ensures (forall k :: 0 <= k < |TransitSteps(steps)| ==> IsTransit(TransitSteps(steps)[k]))
            && (forall s :: s in TransitSteps(steps) <==> s in steps && IsTransit(s))
  {
    if steps != [] {
      TransitStepsKept(steps[1..]);
      var head: seq<Step> := if IsTransit(steps[0]) then [steps[0]] else [];
      var rest := TransitSteps(steps[1..]);
      assert TransitSteps(steps) == head + rest;
      assert steps == [steps[0]] + steps[1..];
      forall k | 0 <= k < |head + rest|
        ensures IsTransit((head + rest)[k])
      {
        if k >= |head| {
          assert (head + rest)[k] == rest[k - |head|];
        }
      }
    }
  }

  /** The filter keeps the relative order of the steps. */
  lemma {:induction false} TransitStepsAppend(a: seq<Step>, b: seq<Step>)
    ensures TransitSteps(a + b) == TransitSteps(a) + TransitSteps(b)
    decreases |a|
  {
    if a == [] {
      assert a + b == b;
    } else {
      var ab := a + b;
      assert ab[0] == a[0];
      assert ab[1..] == a[1..] + b;
      var head: seq<Step> := if IsTransit(a[0]) then [a[0]] else [];
      assert TransitSteps(ab) == head + TransitSteps(a[1..] + b);
      assert TransitSteps(a) == head + TransitSteps(a[1..]);
      TransitStepsAppend(a[1..], b);
      assert head + (TransitSteps(a[1..]) + TransitSteps(b)) == (head + TransitSteps(a[1..])) + TransitSteps(b);
    }
  }

  /** The detail of one transit step, with the fixed defaults; None when
      the step has no transit details or no line (the TypeError). */
  function DetailOf(step: Step): (d: Option<Detail>)
    ensures d.None? <==> step.transit.None? || step.transit.value.line.None?
    ensures d.Some? ==> var line := step.transit.value.line.value;
              d.value.kind == OrElse(line.vehicleType, "UNKNOWN")
              && d.value.name == OrElse(line.name, OrElse(line.shortName, "Unknown Line"))
              && d.value.color == OrElse(line.color, "#666666")
              && d.value.textColor == OrElse(line.textColor, "#FFFFFF")
    ensures d.Some? ==> d.value.departureStop == OrElse(step.transit.value.departureStop, "Unknown")
                        && d.value.arrivalStop == OrElse(step.transit.value.arrivalStop, "Unknown")
    ensures d.Some? && step.transit.value.numStops.None? ==> d.value.numStops == 0
  {
    if step.transit.None? || step.transit.value.line.None? then None
    else
      var t := step.transit.value;
      var line := t.line.value;
      Some(Detail(
        OrElse(line.vehicleType, "UNKNOWN"),
        OrElse(line.name, OrElse(line.shortName, "Unknown Line")),
        OrElse(line.shortName, ""),
        OrElse(line.color, "#666666"),
        OrElse(line.textColor, "#FFFFFF"),
        OrElse(t.departureStop, "Unknown"),
        OrElse(t.arrivalStop, "Unknown"),
        OrElse(t.departureTime, ""),
        OrElse(t.arrivalTime, ""),
        OrElse(t.headsign, ""),
        OrElse(step.durationText, ""),
        OrElse(step.distanceText, ""),
        if t.numStops.Some? then t.numStops.value else 0,
        OrElse(step.instructions, "")))
  }

  /** `transitSteps.map(...)`: one detail per step, in order, or None as
      soon as one step has no line. */
  function AllDetails(steps: seq<Step>): (r: Option<seq<Detail>>)
    ensures r.Some? ==> |r.value| == |steps|
  {
    if steps == [] then Some([])
    else
      var d := DetailOf(steps[0]);
      var rest := AllDetails(steps[1..]);
      if d.None? || rest.None? then None else Some([d.value] + rest.value)
  }

  /** The map throws exactly when some step has no line, and otherwise
      gives each step's detail at its position. */
  lemma {:induction false} AllDetailsShape(steps: seq<Step>)
    ensures AllDetails(steps).None? <==> exists k :: 0 <= k < |steps| && DetailOf(steps[k]).None?
    ensures AllDetails(steps).Some? ==> forall k :: 0 <= k < |steps| ==> Some(AllDetails(steps).value[k]) == DetailOf(steps[k])
  {
    if steps != [] {
      AllDetailsShape(steps[1..]);
      var d := DetailOf(steps[0]);
      var rest := AllDetails(steps[1..]);
      if d.Some? && rest.None? {
        var k :| 0 <= k < |steps[1..]| && DetailOf(steps[1..][k]).None?;
        assert steps[1..][k] == steps[k + 1];
      } else if d.Some? && rest.Some? {
        var r := [d.value] + rest.value;
        forall k | 0 <= k < |steps|
          ensures Some(r[k]) == DetailOf(steps[k])
        {
          if k > 0 {
            assert r[k] == rest.value[k - 1];
            assert steps[k] == steps[1..][k - 1];
          }
        }
      }
    }
  }

  /** getTransitDetails: [] without legs, a first leg or its steps. */
  function TransitDetailsOf(route: Route): Option<seq<Detail>>
  {
    var leg := FirstLeg(route);
    if leg.None? || leg.value.steps.None? then Some([])
    else AllDetails(TransitSteps(leg.value.steps.value))
  }

  lemma TransitDetailsOfMissing(route: Route)
    requires FirstLeg(route).None? || FirstLeg(route).value.steps.None?
    ensures TransitDetailsOf(route) == Some([])
  {
  }

  /** The details are those of the route's transit steps, one each, in
      order, and the card throws exactly when one of them has no line. */
  lemma TransitDetailsOfShape(route: Route)
    requires FirstLeg(route).Some? && FirstLeg(route).value.steps.Some?
    ensures var ts := TransitSteps(FirstLeg(route).value.steps.value);
            (TransitDetailsOf(route).None? <==> exists k :: 0 <= k < |ts| && ts[k].transit.Some? && ts[k].transit.value.line.None?)
            && (TransitDetailsOf(route).Some? ==>
                  |TransitDetailsOf(route).value| == |ts|
                  && forall k :: 0 <= k < |ts| ==> Some(TransitDetailsOf(route).value[k]) == DetailOf(ts[k]))
  {
    TransitStepsKept(FirstLeg(route).value.steps.value);
    AllDetailsShape(TransitSteps(FirstLeg(route).value.steps.value));
  }

  const BusTrainKinds: set<string> := {"BUS", "SUBWAY", "RAIL", "TRAIN", "TRAM", "LIGHT_RAIL"}

  /** `transitDetails.filter(detail => detail.type === 'BUS' || ...)`. */
  function BusTrain(details: seq<Detail>): (r: seq<Detail>)
    ensures |r| <= |details|
  {
    if details == [] then []
    else (if details[0].kind in BusTrainKinds then [details[0]] else []) + BusTrain(details[1..])
  }

  /** Exactly the bus and train details are kept. */
  lemma {:induction false} BusTrainKept(details: seq<Detail>)
    ensures (forall k :: 0 <= k < |BusTrain(details)| ==> BusTrain(details)[k].kind in BusTrainKinds)
            && (forall d :: d in BusTrain(details) <==> d in details && d.kind in BusTrainKinds)
  {
    if details != [] {
      BusTrainKept(details[1..]);
      var head: seq<Detail> := if details[0].kind in BusTrainKinds then [details[0]] else [];
      var rest := BusTrain(details[1..]);
      assert BusTrain(details) == head + rest;
      assert details == [details[0]] + details[1..];
      forall k | 0 <= k < |head + rest|
        ensures (head + rest)[k].kind in BusTrainKinds
      {
        if k >= |head| {
          assert (head + rest)[k] == rest[k - |head|];
        }
      }
    }
  }

  /** One entry of getFilteredTransitRoutes. */
  datatype TransitRoute = TransitRoute(
    routeIndex: nat,
    route: Route,
    transitDetails: seq<Detail>,
    totalDuration: string,
    totalDistance: string)

  /** The entry for the route at `index`, None when it has no bus or train
      detail. */
  function EntryOf(route: Route, index: nat, details: seq<Detail>): (e: Option<TransitRoute>)
    ensures e.Some? <==> BusTrain(details) != []
    ensures e.Some? ==> e.value.routeIndex == index && e.value.route == route && e.value.transitDetails == BusTrain(details)
  {
    var busTrain := BusTrain(details);
    if |busTrain| > 0 then
      var leg := FirstLeg(route);
      Some(TransitRoute(index, route, busTrain,
                        if leg.Some? then OrElse(leg.value.durationText, "") else "",
                        if leg.Some? then OrElse(leg.value.distanceText, "") else ""))
    else None
  }

  /** Whether the route at i gets an entry. */
  predicate Included(routes: seq<Route>, i: nat)
    requires i < |routes|
  {
    TransitDetailsOf(routes[i]).Some? && BusTrain(TransitDetailsOf(routes[i]).value) != []
  }

  /** The entry `e` is for the included route at its index, with that
      route and its bus and train details. */
  predicate GoodEntry(routes: seq<Route>, e: TransitRoute)
  {
    e.routeIndex < |routes| && Included(routes, e.routeIndex) && e.route == routes[e.routeIndex]
    && e.transitDetails == BusTrain(TransitDetailsOf(routes[e.routeIndex]).value)
  }

  /** The map callback for the route at i: its entry or null, and None
      when its details throw. */
  function RouteEntry(routes: seq<Route>, i: nat): (e: Option<Option<TransitRoute>>)
    requires i < |routes|
    ensures e.None? <==> TransitDetailsOf(routes[i]).None?
    ensures e.Some? ==> (e.value.Some? <==> Included(routes, i))
    ensures e.Some? && e.value.Some? ==> e.value.value.routeIndex == i && GoodEntry(routes, e.value.value)
  {
    var details := TransitDetailsOf(routes[i]);
    if details.None? then None else Some(EntryOf(routes[i], i, details.value))
  }

  /** The callback's result for every route, in order. */
  function Callbacks(routes: seq<Route>): (cs: seq<Option<Option<TransitRoute>>>)
    ensures |cs| == |routes|
    ensures forall i :: 0 <= i < |routes| ==> cs[i] == RouteEntry(routes, i)
  {
    seq(|routes|, i requires 0 <= i < |routes| => RouteEntry(routes, i))
  }

  /** `directions.map(...)`: the callbacks' results in order, None as soon
      as one of them throws. */
  function Collect(cs: seq<Option<Option<TransitRoute>>>): Option<seq<Option<TransitRoute>>>
  {
    if cs == [] then Some([])
    else if cs[0].None? then None
    else
      var rest := Collect(cs[1..]);
      if rest.None? then None else Some([cs[0].value] + rest.value)
  }

  /** The map throws exactly when some callback throws, and otherwise holds
      each callback's result at its position. */
  lemma {:induction false} CollectShape(cs: seq<Option<Option<TransitRoute>>>)
    ensures Collect(cs).None? <==> exists i :: 0 <= i < |cs| && cs[i].None?
    ensures Collect(cs).Some? ==>
              |Collect(cs).value| == |cs| && forall k :: 0 <= k < |cs| ==> Some(Collect(cs).value[k]) == cs[k]
  {
    if cs != [] {
      CollectShape(cs[1..]);
      var rest := Collect(cs[1..]);
      if cs[0].Some? && rest.None? {
        var i :| 0 <= i < |cs[1..]| && cs[1..][i].None?;
        assert cs[i + 1] == cs[1..][i];
      } else if cs[0].Some? && rest.Some? {
        var es := [cs[0].value] + rest.value;
        forall k | 0 <= k < |cs|
          ensures Some(es[k]) == cs[k]
        {
          if k > 0 {
            assert es[k] == rest.value[k - 1];
            assert cs[k] == cs[1..][k - 1];
          }
        }
      }
    }
  }

  /** Each present entry of `es` carries `off` plus its position. */
  predicate IndexedFrom(es: seq<Option<TransitRoute>>, off: nat)
  {
    forall i :: 0 <= i < |es| && es[i].Some? ==> es[i].value.routeIndex == off + i
  }

  lemma IndexedFromTail(es: seq<Option<TransitRoute>>, off: nat)
    requires es != [] && IndexedFrom(es, off)
    ensures IndexedFrom(es[1..], off + 1)
  {
    forall i | 0 <= i < |es[1..]| && es[1..][i].Some?
      ensures es[1..][i].value.routeIndex == off + 1 + i
    {
      assert es[1..][i] == es[i + 1];
    }
  }

  /** Every kept entry is the one at its own index. */
  lemma {:induction false} PresentEntries(es: seq<Option<TransitRoute>>, off: nat)
    requires IndexedFrom(es, off)
    ensures forall k :: 0 <= k < |Present(es)| ==>
              off <= Present(es)[k].routeIndex < off + |es| && es[Present(es)[k].routeIndex - off] == Some(Present(es)[k])
  {
    if es != [] {
      IndexedFromTail(es, off);
      PresentEntries(es[1..], off + 1);
      var head: seq<TransitRoute> := if es[0].Some? then [es[0].value] else [];
      var rest := Present(es[1..]);
      var r := head + rest;
      assert Present(es) == r;
      forall k | 0 <= k < |r|
        ensures off <= r[k].routeIndex < off + |es| && es[r[k].routeIndex - off] == Some(r[k])
      {
        if k < |head| {
          assert r[k] == es[0].value;
        } else {
          var x := rest[k - |head|];
          assert r[k] == x;
          assert es[1..][x.routeIndex - (off + 1)] == Some(x);
          assert es[x.routeIndex - off] == es[1..][x.routeIndex - (off + 1)];
        }
      }
    }
  }

  /** The kept entries are in increasing index order. */
  lemma {:induction false} PresentOrdered(es: seq<Option<TransitRoute>>, off: nat)
    requires IndexedFrom(es, off)
    ensures forall k, k' :: 0 <= k < k' < |Present(es)| ==> Present(es)[k].routeIndex < Present(es)[k'].routeIndex
  {
    if es != [] {
      IndexedFromTail(es, off);
      PresentOrdered(es[1..], off + 1);
      PresentEntries(es[1..], off + 1);
      var head: seq<TransitRoute> := if es[0].Some? then [es[0].value] else [];
      var rest := Present(es[1..]);
      var r := head + rest;
      assert Present(es) == r;
      forall k, k' | 0 <= k < k' < |r|
        ensures r[k].routeIndex < r[k'].routeIndex
      {
        assert r[k'] == rest[k' - |head|];
        if k < |head| {
          assert r[k] == es[0].value;
        } else {
          assert r[k] == rest[k - |head|];
        }
      }
    }
  }

  /** Some entry of `r` is for the route at i. */
  predicate HasEntry(r: seq<TransitRoute>, i: nat)
  {
    exists k :: 0 <= k < |r| && r[k].routeIndex == i
  }

  lemma HasEntryAppend(head: seq<TransitRoute>, rest: seq<TransitRoute>, i: nat)
    requires HasEntry(head, i) || HasEntry(rest, i)
    ensures HasEntry(head + rest, i)
  {
    if HasEntry(head, i) {
      var k :| 0 <= k < |head| && head[k].routeIndex == i;
      assert (head + rest)[k] == head[k];
    } else {
      var k :| 0 <= k < |rest| && rest[k].routeIndex == i;
      assert (head + rest)[|head| + k] == rest[k];
    }
  }

  /** No entry that is not null is dropped. */
  lemma {:induction false} PresentComplete(es: seq<Option<TransitRoute>>, off: nat)
    requires IndexedFrom(es, off)
    ensures forall i :: 0 <= i < |es| && es[i].Some? ==> HasEntry(Present(es), off + i)
  {
    if es != [] {
      IndexedFromTail(es, off);
      PresentComplete(es[1..], off + 1);
      var head: seq<TransitRoute> := if es[0].Some? then [es[0].value] else [];
      var rest := Present(es[1..]);
      assert Present(es) == head + rest;
      forall i | 0 <= i < |es| && es[i].Some?
        ensures HasEntry(head + rest, off + i)
      {
        if i == 0 {
          assert head[0].routeIndex == off;
          assert HasEntry(head, off);
        } else {
          assert es[1..][i - 1] == es[i];
          assert HasEntry(rest, off + 1 + (i - 1));
        }
        HasEntryAppend(head, rest, off + i);
      }
    }
  }

  /** getFilteredTransitRoutes: [] for missing or empty directions;
      otherwise the map then the filter, None when a route throws. */
  function FilteredTransitRoutes(directions: Option<seq<Route>>): (r: Option<seq<TransitRoute>>)
    ensures directions.None? || directions.value == [] ==> r == Some([])
  {
    if directions.None? || directions.value == [] then Some([])
    else
      var es := Collect(Callbacks(directions.value));
      if es.None? then None else Some(Present(es.value))
  }

  /** The mapped list of every route is indexed from 0. */
  lemma MapIndexed(routes: seq<Route>)
    requires Collect(Callbacks(routes)).Some?
    ensures |Collect(Callbacks(routes)).value| == |routes|
    ensures forall i :: 0 <= i < |routes| ==> Some(Collect(Callbacks(routes)).value[i]) == RouteEntry(routes, i)
    ensures IndexedFrom(Collect(Callbacks(routes)).value, 0)
  {
    CollectShape(Callbacks(routes));
  }

  /** The list throws exactly when some route's details throw. */
  lemma FilteredTransitRoutesThrows(routes: seq<Route>)
    ensures FilteredTransitRoutes(Some(routes)).None? <==> exists i :: 0 <= i < |routes| && TransitDetailsOf(routes[i]).None?
  {
    var cs := Callbacks(routes);
    CollectShape(cs);
    if exists i :: 0 <= i < |routes| && TransitDetailsOf(routes[i]).None? {
      var i :| 0 <= i < |routes| && TransitDetailsOf(routes[i]).None?;
      assert cs[i].None?;
    }
  }

  /** Each entry is an included route at its original index, with that
      route and its bus and train details. */
  lemma FilteredTransitRoutesEntries(routes: seq<Route>)
    requires FilteredTransitRoutes(Some(routes)).Some?
    ensures forall k :: 0 <= k < |FilteredTransitRoutes(Some(routes)).value| ==>
              GoodEntry(routes, FilteredTransitRoutes(Some(routes)).value[k])
  {
    if routes != [] {
      MapIndexed(routes);
      var es := Collect(Callbacks(routes)).value;
      PresentEntries(es, 0);
      var r := Present(es);
      forall k | 0 <= k < |r|
        ensures GoodEntry(routes, r[k])
      {
        var i := r[k].routeIndex;
        assert 0 <= i < |es| && es[i] == Some(r[k]);
        assert RouteEntry(routes, i) == Some(Some(r[k]));
      }
    }
  }

  /** The entries keep the routes' original order. */
  lemma FilteredTransitRoutesOrdered(routes: seq<Route>)
    requires FilteredTransitRoutes(Some(routes)).Some?
    ensures forall k, k' :: 0 <= k < k' < |FilteredTransitRoutes(Some(routes)).value| ==>
              FilteredTransitRoutes(Some(routes)).value[k].routeIndex < FilteredTransitRoutes(Some(routes)).value[k'].routeIndex
  {
    if routes != [] {
      MapIndexed(routes);
      PresentOrdered(Collect(Callbacks(routes)).value, 0);
    }
  }

  /** Every included route has an entry. */
  lemma FilteredTransitRoutesComplete(routes: seq<Route>)
    requires FilteredTransitRoutes(Some(routes)).Some?
    ensures forall i :: 0 <= i < |routes| && Included(routes, i) ==> HasEntry(FilteredTransitRoutes(Some(routes)).value, i)
  {
    if routes != [] {
      MapIndexed(routes);
      var es := Collect(Callbacks(routes)).value;
      PresentComplete(es, 0);
      forall i | 0 <= i < |routes| && Included(routes, i)
        ensures HasEntry(Present(es), i)
      {
        assert RouteEntry(routes, i) == Some(es[i]);
        assert HasEntry(Present(es), 0 + i);
      }
    }
  }

  /** getVehicleTypeName. */
  function VehicleTypeName(kind: string): (name: string)
    ensures name == "Train" <==> kind == "RAIL" || kind == "TRAIN"
    ensures name == "Transit" <==> kind !in BusTrainKinds
    ensures kind == "BUS" <==> name == "Bus"
    ensures kind == "SUBWAY" <==> name == "Subway"
    ensures kind == "TRAM" <==> name == "Tram"
    ensures kind == "LIGHT_RAIL" <==> name == "Light Rail"
  {
    match kind
    case "BUS" => "Bus"
    case "SUBWAY" => "Subway"
    case "RAIL" => "Train"
    case "TRAIN" => "Train"
    case "TRAM" => "Tram"
    case "LIGHT_RAIL" => "Light Rail"
    case _ => "Transit"
  }

  /** getVehicleIcon: bus, metro, train, tram and light-rail emoji; the bus
      for any other type. */
  function VehicleIcon(kind: string): string
  {
    match kind
    case "BUS" => "\U{1F68C}"
    case "SUBWAY" => "\U{1F687}"
    case "RAIL" => "\U{1F686}"
    case "TRAIN" => "\U{1F686}"
    case "TRAM" => "\U{1F68A}"
    case "LIGHT_RAIL" => "\U{1F688}"
    case _ => "\U{1F68C}"
  }

  /** Two types with the same name get the same icon, and every unknown
      type gets the bus icon. */
  lemma IconFollowsName(kind: string, kind': string)
    ensures VehicleTypeName(kind) == VehicleTypeName(kind') ==> VehicleIcon(kind) == VehicleIcon(kind')
    ensures kind !in BusTrainKinds ==> VehicleIcon(kind) == VehicleIcon("BUS")
  {
  }
}
