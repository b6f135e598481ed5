/** The transit results card (components/TransitResultsCard.js): the
    bus / train / walking categorisation of a leg's steps, the tab filter,
    the rule that hides a route with nothing but walking, the expand
    toggle, and the vehicle colour and icon. */
module TransitResults {
  import opened Common
  import opened Directions

  /** The tabs; activeTab only ever holds one of these three. */
  datatype Tab = All | Buses | Trains

  /** Where categorizeTransitSteps puts a step; Dropped steps go nowhere. */
  datatype Category = BusStep | TrainStep | WalkStep | Dropped

  function LineOf(step: Step): Option<TransitLine>
  {
    if step.transit.Some? then step.transit.value.line else None
  }

  /** `line?.vehicle?.type || ''`. */
  function VehicleType(step: Step): string
  {
    var line := LineOf(step);
    if line.Some? then OrElse(line.value.vehicleType, "") else ""
  }

  /** `line?.name || line?.short_name || ''`. */
  function LineName(step: Step): string
  {
    var line := LineOf(step);
    if line.Some? then OrElse(line.value.name, OrElse(line.value.shortName, "")) else ""
  }

  predicate BusLike(step: Step)
  {
    Contains(VehicleType(step), "BUS")
    || Contains(ToLower(LineName(step)), "bus") || Contains(ToLower(LineName(step)), "ksrtc")
  }

  predicate TrainLike(step: Step)
  {
    var t := VehicleType(step);
    Contains(t, "TRAIN") || Contains(t, "RAIL") || Contains(t, "SUBWAY") || Contains(t, "METRO")
  }

  /** The category of one step: the bus test first, trains next, and an
      unclear transit step is a bus. */
  function CategoryOf(step: Step): (c: Category)
    ensures IsTransit(step) <==> c == BusStep || c == TrainStep
    ensures c == TrainStep <==> IsTransit(step) && !BusLike(step) && TrainLike(step)
    ensures c == WalkStep <==> !IsTransit(step) && step.travelMode == "WALKING"
    ensures IsTransit(step) && BusLike(step) ==> c == BusStep
  {
    if IsTransit(step) then
      if BusLike(step) then BusStep
      else if TrainLike(step) then TrainStep
      else BusStep
    else if step.travelMode == "WALKING" then WalkStep
    else Dropped
  }

  /** The elements of `s` whose category is `c`, in their original order. */
  function Select<T>(s: seq<T>, cat: T -> Category, c: Category): seq<T>
    decreases |s|
  {
    if s == [] then []
    else Select(s[..|s| - 1], cat, c) + (if cat(s[|s| - 1]) == c then [s[|s| - 1]] else [])
  }

  /** The steps of one category, in their original order. */
  function InCategory(steps: seq<Step>, c: Category): seq<Step>
  {
    Select(steps, CategoryOf, c)
  }

  /** An element is selected exactly when it is in `s` and has category `c`. */
  lemma {:induction false} SelectMembers<T>(s: seq<T>, cat: T -> Category, c: Category)
    ensures forall k :: 0 <= k < |Select(s, cat, c)| ==> cat(Select(s, cat, c)[k]) == c
    ensures forall x :: x in Select(s, cat, c) <==> x in s && cat(x) == c
    decreases |s|
  {
    if s != [] {
      var init := s[..|s| - 1];
      SelectMembers(init, cat, c);
      assert s == init + [s[|s| - 1]];
    }
  }

  lemma InCategoryMembers(steps: seq<Step>, c: Category)
    ensures forall k :: 0 <= k < |InCategory(steps, c)| ==> CategoryOf(InCategory(steps, c)[k]) == c
    ensures forall s :: s in InCategory(steps, c) <==> s in steps && CategoryOf(s) == c
  {
    SelectMembers(steps, CategoryOf, c);
  }

  /** Selecting from a concatenation selects from each part: the relative
      order of the elements survives in every category. */
  lemma {:induction false} SelectAppend<T>(a: seq<T>, b: seq<T>, cat: T -> Category, c: Category)
    ensures Select(a + b, cat, c) == Select(a, cat, c) + Select(b, cat, c)
    decreases |b|
  {
    if b == [] {
      assert a + b == a;
    } else {
      var init := b[..|b| - 1];
      assert (a + b)[..|a + b| - 1] == a + init;
      SelectAppend(a, init, cat, c);
    }
  }

  lemma InCategoryAppend(a: seq<Step>, b: seq<Step>, c: Category)
    ensures InCategory(a + b, c) == InCategory(a, c) + InCategory(b, c)
  {
    SelectAppend(a, b, CategoryOf, c);
  }

  /** The selected elements of one category, counted with multiplicity. */
  ghost function Bag<T>(s: seq<T>, cat: T -> Category, c: Category): multiset<T>
  {
    multiset(Select(s, cat, c))
  }

  lemma SelectLast<T>(s: seq<T>, cat: T -> Category, c: Category)
    requires s != []
    ensures Bag(s, cat, c) == Bag(s[..|s| - 1], cat, c) + (if cat(s[|s| - 1]) == c then multiset{s[|s| - 1]} else multiset{})
  {
  }

  /** One more element in any one of four bags is one more in their sum. */
  lemma AddToOneOfFour<T>(b: multiset<T>, t: multiset<T>, w: multiset<T>, d: multiset<T>, x: T)
    ensures (b + multiset{x}) + t + w + d == (b + t + w + d) + multiset{x}
    ensures b + (t + multiset{x}) + w + d == (b + t + w + d) + multiset{x}
    ensures b + t + (w + multiset{x}) + d == (b + t + w + d) + multiset{x}
    ensures b + t + w + (d + multiset{x}) == (b + t + w + d) + multiset{x}
  {
  }

  /** The four categories split `s`: every element is selected once. */
  lemma {:induction false} SelectPartition<T>(s: seq<T>, cat: T -> Category)
    ensures Bag(s, cat, BusStep) + Bag(s, cat, TrainStep) + Bag(s, cat, WalkStep) + Bag(s, cat, Dropped) == multiset(s)
    decreases |s|
  {
    if s != [] {
      var init, last := s[..|s| - 1], s[|s| - 1];
      SelectPartition(init, cat);
      assert multiset(s) == multiset(init) + multiset{last} by {
        assert s == init + [last];
      }
      SelectLast(s, cat, BusStep);
      SelectLast(s, cat, TrainStep);
      SelectLast(s, cat, WalkStep);
      SelectLast(s, cat, Dropped);
      var b, t, w, d := Bag(init, cat, BusStep), Bag(init, cat, TrainStep), Bag(init, cat, WalkStep), Bag(init, cat, Dropped);
      assert multiset(init) == b + t + w + d;
      AddToOneOfFour(b, t, w, d, last);
      match cat(last)
      case BusStep =>
        assert Bag(s, cat, BusStep) == b + multiset{last};
        assert Bag(s, cat, TrainStep) == t && Bag(s, cat, WalkStep) == w && Bag(s, cat, Dropped) == d;
      case TrainStep =>
        assert Bag(s, cat, TrainStep) == t + multiset{last};
        assert Bag(s, cat, BusStep) == b && Bag(s, cat, WalkStep) == w && Bag(s, cat, Dropped) == d;
      case WalkStep =>
        assert Bag(s, cat, WalkStep) == w + multiset{last};
        assert Bag(s, cat, BusStep) == b && Bag(s, cat, TrainStep) == t && Bag(s, cat, Dropped) == d;
      case Dropped =>
        assert Bag(s, cat, Dropped) == d + multiset{last};
        assert Bag(s, cat, BusStep) == b && Bag(s, cat, TrainStep) == t && Bag(s, cat, WalkStep) == w;
    }
  }

  /** Every step lands in exactly one of the four categories, so the
      categories' sizes add up to the number of steps. */
  lemma CategoriesPartition(steps: seq<Step>)
    ensures multiset(InCategory(steps, BusStep)) + multiset(InCategory(steps, TrainStep))
            + multiset(InCategory(steps, WalkStep)) + multiset(InCategory(steps, Dropped)) == multiset(steps)
    ensures |InCategory(steps, BusStep)| + |InCategory(steps, TrainStep)| + |InCategory(steps, WalkStep)|
            + |InCategory(steps, Dropped)| == |steps|
  {
    SelectPartition(steps, CategoryOf);
    assert |multiset(steps)| == |steps|;
  }

  /** categorizeTransitSteps: one pass that pushes each step onto its
      category's list. */
  method CategorizeTransitSteps(steps: seq<Step>) returns (buses: seq<Step>, trains: seq<Step>, walking: seq<Step>)
    ensures buses == InCategory(steps, BusStep)
    ensures trains == InCategory(steps, TrainStep)
    ensures walking == InCategory(steps, WalkStep)
  {
    buses, trains, walking := [], [], [];
    for i := 0 to |steps|
      invariant buses == InCategory(steps[..i], BusStep)
      invariant trains == InCategory(steps[..i], TrainStep)
      invariant walking == InCategory(steps[..i], WalkStep)
    {
      var step := steps[i];
      assert steps[..i + 1][..i] == steps[..i];
      if IsTransit(step) {
        if BusLike(step) {
          buses := buses + [step];
        } else if TrainLike(step) {
          trains := trains + [step];
        } else {
          buses := buses + [step];
        }
      } else if step.travelMode == "WALKING" {
        walking := walking + [step];
      }
    }
    assert steps[..|steps|] == steps;
  }

  /** getFilteredSteps. */
  function FilteredSteps(steps: seq<Step>, tab: Tab): (r: seq<Step>)
  {
    match tab
    case All => steps
    case Buses => InCategory(steps, BusStep) + InCategory(steps, WalkStep)
    case Trains => InCategory(steps, TrainStep) + InCategory(steps, WalkStep)
  }

  /** On the bus tab only buses and walks are listed, on the train tab only
      trains and walks, and no step is listed twice. */
  lemma FilteredStepsContents(steps: seq<Step>, tab: Tab)
    ensures tab == Buses ==> forall s :: s in FilteredSteps(steps, tab) <==> s in steps && CategoryOf(s) in {BusStep, WalkStep}
    ensures tab == Trains ==> forall s :: s in FilteredSteps(steps, tab) <==> s in steps && CategoryOf(s) in {TrainStep, WalkStep}
    ensures |FilteredSteps(steps, tab)| <= |steps|
  {
    InCategoryMembers(steps, BusStep);
    InCategoryMembers(steps, TrainStep);
    InCategoryMembers(steps, WalkStep);
    CategoriesPartition(steps);
  }

  /** A route is skipped on a bus or train tab when every listed step is a
      walk, the empty list included. */
  predicate Hidden(steps: seq<Step>, tab: Tab)
  {
    tab != All && forall k :: 0 <= k < |FilteredSteps(steps, tab)| ==> FilteredSteps(steps, tab)[k].travelMode == "WALKING"
  }

  /** A route is hidden on the bus tab exactly when it has no bus step, and
      on the train tab exactly when it has no train step. */
  lemma HiddenIff(steps: seq<Step>, tab: Tab)
    ensures tab == Buses ==> (Hidden(steps, tab) <==> InCategory(steps, BusStep) == [])
    ensures tab == Trains ==> (Hidden(steps, tab) <==> InCategory(steps, TrainStep) == [])
    ensures !Hidden(steps, All)
  {
    InCategoryMembers(steps, BusStep);
    InCategoryMembers(steps, TrainStep);
    InCategoryMembers(steps, WalkStep);
    var f := FilteredSteps(steps, tab);
    if tab == Buses && InCategory(steps, BusStep) != [] {
      assert f[0] == InCategory(steps, BusStep)[0];
      assert IsTransit(f[0]);
    }
    if tab == Trains && InCategory(steps, TrainStep) != [] {
      assert f[0] == InCategory(steps, TrainStep)[0];
      assert IsTransit(f[0]);
    }
    if tab != All {
      var walks := InCategory(steps, WalkStep);
      forall k | 0 <= k < |walks|
        ensures walks[k].travelMode == "WALKING"
      {
        assert CategoryOf(walks[k]) == WalkStep;
      }
    }
  }

  /** `leg.steps || []`. */
  function LegSteps(leg: Leg): seq<Step>
  {
    if leg.steps.Some? then leg.steps.value else []
  }

  /** Whether a route gets a card: it needs a first leg and must not be
      hidden on the current tab. */
  predicate RouteShown(route: Route, tab: Tab)
  {
    FirstLeg(route).Some? && !Hidden(LegSteps(FirstLeg(route).value), tab)
  }

  /** On the 'all' tab every route with a first leg gets a card; on the bus
      tab exactly the routes whose first leg has a bus step. */
  lemma RouteShownIff(route: Route)
    ensures RouteShown(route, All) <==> FirstLeg(route).Some?
    ensures RouteShown(route, Buses) <==>
              FirstLeg(route).Some? && InCategory(LegSteps(FirstLeg(route).value), BusStep) != []
    ensures RouteShown(route, Trains) <==>
              FirstLeg(route).Some? && InCategory(LegSteps(FirstLeg(route).value), TrainStep) != []
  {
    if FirstLeg(route).Some? {
      HiddenIff(LegSteps(FirstLeg(route).value), All);
      HiddenIff(LegSteps(FirstLeg(route).value), Buses);
      HiddenIff(LegSteps(FirstLeg(route).value), Trains);
    }
  }

  /** What the card shows before any route: the spinner, the error, or
      the prompt when there is no route list or it is empty. */
  datatype View = LoadingView | ErrorView(message: string) | PromptView | RoutesView(routes: seq<Route>)

  function CardView(loadingTransit: bool, transitError: Option<string>, routes: Option<seq<Route>>): (v: View)
    ensures loadingTransit ==> v == LoadingView
    ensures !loadingTransit && transitError.Some? && transitError.value != "" ==> v == ErrorView(transitError.value)
    ensures v.PromptView? <==> !loadingTransit && OrElse(transitError, "") == "" && (routes.None? || routes.value == [])
    ensures v.RoutesView? ==> routes.Some? && v.routes == routes.value && v.routes != []
  {
    if loadingTransit then LoadingView
    else if transitError.Some? && transitError.value != "" then ErrorView(transitError.value)
    else if routes.None? || routes.value == [] then PromptView
    else RoutesView(routes.value)
  }

  /** The header click: collapse the route when it is the expanded one,
      otherwise expand it. -1 means none. */
  function Toggled(expandedRoute: int, routeIndex: nat): (e: int)
    ensures e == routeIndex as int <==> expandedRoute != routeIndex as int
    ensures e != routeIndex as int ==> e == -1
  {
    if expandedRoute == routeIndex as int then -1 else routeIndex as int
  }

  class TransitCard {
    var expandedRoute: int
    var activeTab: Tab

    constructor ()
      ensures expandedRoute == 0 && activeTab == All
    {
      expandedRoute := 0;
      activeTab := All;
    }

    method SetActiveTab(tab: Tab)
      modifies this
      ensures activeTab == tab && expandedRoute == old(expandedRoute)
    {
      activeTab := tab;
    }

    /** The header's onClick for the route at `routeIndex`. */
    method ToggleRoute(routeIndex: nat)
      modifies this
      ensures expandedRoute == Toggled(old(expandedRoute), routeIndex)
      ensures activeTab == old(activeTab)
    {
      var isExpanded := expandedRoute == routeIndex as int;
      expandedRoute := if isExpanded then -1 else routeIndex as int;
    }
  }

  /** getVehicleColor's and getVehicleIcon's train test, after upper-casing. */
  predicate TrainType(vehicleType: string)
  {
    var t := ToUpper(vehicleType);
    Contains(t, "TRAIN") || Contains(t, "RAIL") || Contains(t, "SUBWAY") || Contains(t, "METRO")
  }

  function VehicleColor(vehicleType: Option<string>): (color: string)
    ensures color == "bg-purple-600" <==> vehicleType.Some? && vehicleType.value != "" && TrainType(vehicleType.value)
    ensures color != "bg-purple-600" ==> color == "bg-blue-500"
  {
    if vehicleType.None? || vehicleType.value == "" then "bg-blue-500"
    else if TrainType(vehicleType.value) then "bg-purple-600"
    else "bg-blue-500"
  }

  datatype Icon = BusIcon | TrainIcon

  function VehicleIcon(vehicleType: Option<string>): (icon: Icon)
    ensures icon == TrainIcon <==> vehicleType.Some? && vehicleType.value != "" && TrainType(vehicleType.value)
  {
    if vehicleType.None? || vehicleType.value == "" then BusIcon
    else if TrainType(vehicleType.value) then TrainIcon
    else BusIcon
  }

  /** Colour and icon agree, and neither depends on letter case. */
  lemma VehicleStyleCaseInsensitive(vehicleType: string)
    ensures VehicleIcon(Some(vehicleType)) == TrainIcon <==> VehicleColor(Some(vehicleType)) == "bg-purple-600"
    ensures VehicleColor(Some(ToLower(vehicleType))) == VehicleColor(Some(vehicleType))
    ensures VehicleIcon(Some(ToLower(vehicleType))) == VehicleIcon(Some(vehicleType))
  {
    CaseInsensitive(vehicleType);
  }
}
