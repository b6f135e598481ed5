/** The location-tracking hook (hooks/useLocationTracking.js) and the
    navigation state it drives: the step cursor that advances when the
    device comes within 50 m of the next step, the refs holding the watch
    and simulation handles, and the simulated walk along a path.

    The geolocation service, the interval timer and the spherical
    geometry (distance and heading) are inputs: a position event is a
    call of `OnPosition`, a timer tick a call of `Tick`, and distance and
    heading are functions passed in. */
module LocationTracking {
  import opened Common
  import opened Directions

  /** Degrees, as computeHeading returns them. */
  type Heading = (LatLng, LatLng) -> real

  const AdvanceRadius: real := 50.0

  /** The step reducer passed to setCurrentStep: move to the next step when
      it exists and the new position is strictly within 50 m of its start. */
  function NextStep(steps: seq<Step>, cur: nat, pos: LatLng, dist: Distance): (next: nat)
    ensures next == cur || next == cur + 1
    ensures next == cur + 1 <==> cur + 1 < |steps| && dist(pos, steps[cur + 1].startLocation) < AdvanceRadius
  {
    if cur + 1 < |steps| && dist(pos, steps[cur + 1].startLocation) < AdvanceRadius then cur + 1 else cur
  }

  /** The cursor never passes the last step. */
  lemma NextStepBounded(steps: seq<Step>, cur: nat, pos: LatLng, dist: Distance)
    requires cur < |steps|
    ensures NextStep(steps, cur, pos, dist) < |steps|
  {
  }

  /** From any starting step, any run of position events leaves the cursor
      between that step and the last one. */
  function StepAfter(steps: seq<Step>, cur: nat, events: seq<LatLng>, dist: Distance): nat
    decreases |events|
  {
    if events == [] then cur
    else StepAfter(steps, NextStep(steps, cur, events[0], dist), events[1..], dist)
  }

  lemma {:induction false} StepAfterBounds(steps: seq<Step>, cur: nat, events: seq<LatLng>, dist: Distance)
    requires cur < |steps|
    ensures cur <= StepAfter(steps, cur, events, dist) < |steps|
    ensures StepAfter(steps, cur, events, dist) <= cur + |events|
    decreases |events|
  {
    if events != [] {
      StepAfterBounds(steps, NextStep(steps, cur, events[0], dist), events[1..], dist);
    }
  }

  /** `steps.slice(from).reduce((acc, s) => acc + s.duration.value, 0)`. */
  function RemainingSeconds(steps: seq<Step>, from: nat): nat
    decreases |steps| - from
  {
    if from >= |steps| then 0 else steps[from].durationSeconds + RemainingSeconds(steps, from + 1)
  }

  /** The remaining time only shrinks as the cursor moves on. */
  lemma {:induction false} RemainingSecondsAntitone(steps: seq<Step>, i: nat, j: nat)
    requires i <= j
    ensures RemainingSeconds(steps, j) <= RemainingSeconds(steps, i)
    decreases j - i
  {
    if i < j {
      RemainingSecondsAntitone(steps, i + 1, j);
    }
  }

  /** The remaining time from a step is that step's duration plus the
      remaining time from the next. */
  lemma RemainingSecondsSplit(steps: seq<Step>, i: nat)
    requires i < |steps|
    ensures RemainingSeconds(steps, i) == steps[i].durationSeconds + RemainingSeconds(steps, i + 1)
  {
  }

  /** `Math.round(seconds / 60) + ' mins'`. */
  function MinutesText(seconds: nat): (t: string)
    ensures exists m: nat :: t == NatToString(m) + " mins" && 2 * 60 * m - 60 <= 2 * seconds < 2 * 60 * m + 60
  {
    var m := RoundDiv(seconds, 60);
    assert m >= 0;
    NatToString(m) + " mins"
  }

  /** The navigation fields of the route view; None stands for undefined. */
  class Navigation {
    var currentStep: nat
    var nextInstruction: Option<string>
    var distanceToNext: Option<string>
    var estimatedTime: string

    constructor ()
      ensures currentStep == 0 && nextInstruction == Some("") && distanceToNext == Some("") && estimatedTime == ""
    {
      currentStep := 0;
      nextInstruction := Some("");
      distanceToNext := Some("");
      estimatedTime := "";
    }

    /** What the reducer does for one position event: on an advance the
        instruction, distance and remaining time come from the new step;
        otherwise nothing changes. */
    method Reduce(steps: seq<Step>, pos: LatLng, dist: Distance)
      modifies this
      ensures currentStep == NextStep(steps, old(currentStep), pos, dist)
      ensures currentStep == old(currentStep) ==>
                nextInstruction == old(nextInstruction) && distanceToNext == old(distanceToNext)
                && estimatedTime == old(estimatedTime)
      ensures currentStep == old(currentStep) + 1 ==>
                nextInstruction == steps[currentStep].instructions
                && distanceToNext == steps[currentStep].distanceText
                && estimatedTime == MinutesText(RemainingSeconds(steps, currentStep))
    {
      var cur := currentStep;
      if cur + 1 < |steps| {
        var d := dist(pos, steps[cur + 1].startLocation);
        if d < AdvanceRadius {
          nextInstruction := steps[cur + 1].instructions;
          distanceToNext := steps[cur + 1].distanceText;
          estimatedTime := MinutesText(RemainingSeconds(steps, cur + 1));
          currentStep := cur + 1;
        }
      }
    }

    /** The reset of handleStopNavigation (BestRoute.js). */
    method Reset()
      modifies this
      ensures currentStep == 0 && nextInstruction == Some("") && distanceToNext == Some("") && estimatedTime == ""
    {
      currentStep := 0;
      nextInstruction := Some("");
      distanceToNext := Some("");
      estimatedTime := "";
    }
  }

  /** What navigator.permissions.query gave: a state or an exception. */
  datatype PermissionQuery = State(state: string) | QueryFailed

  class Tracker {
    var isTracking: bool
    var currentPosition: Option<LatLng>
    var locationPermission: string
    var heading: real
    /** watchIdRef.current; None is null. */
    var watchId: Option<nat>
    /** simulationIntervalRef.current; None is null. */
    var simulationId: Option<nat>
    /** The steps of the route being tracked. */
    var steps: seq<Step>
    /** The simulated path and the closure's `currentIdx`. */
    var simPath: seq<LatLng>
    var simIndex: nat
    /** The handles handed to clearWatch and clearInterval, in order. */
    var clearedWatches: seq<nat>
    var clearedIntervals: seq<nat>
    /** How many times getCurrentPosition was called. */
    var positionRequests: nat

    constructor ()
      ensures !isTracking && currentPosition == None && locationPermission == "prompt" && heading == 0.0
      ensures watchId == None && simulationId == None && steps == [] && simPath == [] && simIndex == 0
      ensures clearedWatches == [] && clearedIntervals == [] && positionRequests == 0
    {
      isTracking := false;
      currentPosition := None;
      locationPermission := "prompt";
      heading := 0.0;
      watchId := None;
      simulationId := None;
      steps := [];
      simPath := [];
      simIndex := 0;
      clearedWatches := [];
      clearedIntervals := [];
      positionRequests := 0;
    }

    /** requestLocationPermission: `positionGranted` is the outcome of the
        getCurrentPosition request, which is made only when the permission
        is not 'denied'. */
    method RequestLocationPermission(query: PermissionQuery, positionGranted: bool) returns (granted: bool)
      modifies this
      ensures query.QueryFailed? ==> !granted && locationPermission == old(locationPermission)
                                     && positionRequests == old(positionRequests)
      ensures query.State? ==> locationPermission == query.state
      ensures query.State? && query.state == "denied" ==> !granted && positionRequests == old(positionRequests)
      ensures query.State? && query.state != "denied" ==> granted == positionGranted
                                                           && positionRequests == old(positionRequests) + 1
      ensures isTracking == old(isTracking) && currentPosition == old(currentPosition)
      ensures watchId == old(watchId) && simulationId == old(simulationId)
      ensures steps == old(steps) && simPath == old(simPath) && simIndex == old(simIndex) && heading == old(heading)
      ensures clearedWatches == old(clearedWatches) && clearedIntervals == old(clearedIntervals)
    {
      if query.QueryFailed? {
        return false;
      }
      locationPermission := query.state;
      if query.state == "denied" {
        return false;
      }
      positionRequests := positionRequests + 1;
      granted := positionGranted;
    }

    /** startTracking: `hasGeolocation` is `'geolocation' in navigator` and
        `handle` what watchPosition returns. */
    method StartTracking(routeSteps: seq<Step>, hasGeolocation: bool, handle: nat)
      modifies this
      ensures isTracking && steps == routeSteps
      ensures watchId == (if hasGeolocation then Some(handle) else old(watchId))
      ensures currentPosition == old(currentPosition) && simulationId == old(simulationId)
      ensures simPath == old(simPath) && simIndex == old(simIndex) && heading == old(heading)
      ensures locationPermission == old(locationPermission) && positionRequests == old(positionRequests)
      ensures clearedWatches == old(clearedWatches) && clearedIntervals == old(clearedIntervals)
    {
      isTracking := true;
      steps := routeSteps;
      if hasGeolocation {
        watchId := Some(handle);
      }
    }

    /** The watchPosition success callback: the heading is recomputed only
        when there was a previous position, then the position is stored and
        the step reducer runs. */
    method OnPosition(nav: Navigation, pos: LatLng, dist: Distance, headingOf: Heading)
      modifies this, nav
      ensures currentPosition == Some(pos)
      ensures old(currentPosition).Some? ==> heading == headingOf(old(currentPosition).value, pos)
      ensures old(currentPosition).None? ==> heading == old(heading)
      ensures nav.currentStep == NextStep(steps, old(nav.currentStep), pos, dist)
      ensures nav.currentStep == old(nav.currentStep) ==>
                nav.nextInstruction == old(nav.nextInstruction) && nav.distanceToNext == old(nav.distanceToNext)
                && nav.estimatedTime == old(nav.estimatedTime)
      ensures nav.currentStep == old(nav.currentStep) + 1 ==>
                nav.nextInstruction == steps[nav.currentStep].instructions
                && nav.distanceToNext == steps[nav.currentStep].distanceText
                && nav.estimatedTime == MinutesText(RemainingSeconds(steps, nav.currentStep))
      ensures isTracking == old(isTracking) && watchId == old(watchId) && simulationId == old(simulationId)
      ensures steps == old(steps) && simPath == old(simPath) && simIndex == old(simIndex)
      ensures locationPermission == old(locationPermission) && positionRequests == old(positionRequests)
      ensures clearedWatches == old(clearedWatches) && clearedIntervals == old(clearedIntervals)
    {
      if currentPosition.Some? {
        heading := headingOf(currentPosition.value, pos);
      }
      currentPosition := Some(pos);
      nav.Reduce(steps, pos, dist);
    }

    /** What stopTracking leaves behind: tracking is off and the position
        gone; a handle is cleared (and logged) only when it is truthy, so a
        handle of 0 stays in place; nothing else changes. */
    twostate predicate Stopped()
      reads this
    {
      && !isTracking && currentPosition == None
      && (if old(watchId).Some? && old(watchId).value != 0
          then watchId == None && clearedWatches == old(clearedWatches) + [old(watchId).value]
          else watchId == old(watchId) && clearedWatches == old(clearedWatches))
      && (if old(simulationId).Some? && old(simulationId).value != 0
          then simulationId == None && clearedIntervals == old(clearedIntervals) + [old(simulationId).value]
          else simulationId == old(simulationId) && clearedIntervals == old(clearedIntervals))
      && steps == old(steps) && simPath == old(simPath) && simIndex == old(simIndex) && heading == old(heading)
      && locationPermission == old(locationPermission) && positionRequests == old(positionRequests)
    }

    /** stopTracking. */
    method StopTracking()
      modifies this
      ensures Stopped()
    {
      isTracking := false;
      currentPosition := None;
      if watchId.Some? && watchId.value != 0 {
        clearedWatches := clearedWatches + [watchId.value];
        watchId := None;
      }
      if simulationId.Some? && simulationId.value != 0 {
        clearedIntervals := clearedIntervals + [simulationId.value];
        simulationId := None;
      }
    }

    /** The watchPosition error callback: it stops tracking. */
    method OnPositionError()
      modifies this
      ensures Stopped()
    {
      StopTracking();
    }

    /** simulateMovement: `path` is the route's decoded step polylines, one
        after the other, and `handle` what setInterval returns. */
    method SimulateMovement(path: seq<LatLng>, handle: nat)
      modifies this
      ensures simPath == path && simIndex == 0 && simulationId == Some(handle)
      ensures isTracking == old(isTracking) && currentPosition == old(currentPosition) && heading == old(heading)
      ensures watchId == old(watchId) && steps == old(steps)
      ensures clearedWatches == old(clearedWatches) && clearedIntervals == old(clearedIntervals)
      ensures locationPermission == old(locationPermission) && positionRequests == old(positionRequests)
    {
      simPath := path;
      simIndex := 0;
      simulationId := Some(handle);
    }

    /** The simulation's position never runs past the path. */
    ghost predicate SimInBounds()
      reads this
    {
      simIndex == 0 || simIndex < |simPath|
    }

    /** One interval tick: while a next point exists the position moves to
        the current point, the heading points at the next one and the index
        goes up by one; at the end tracking stops. */
    method Tick(headingOf: Heading)
      requires SimInBounds()
      modifies this
      ensures SimInBounds()
      ensures simPath == old(simPath)
      ensures old(simIndex) + 1 < |simPath| ==>
                simIndex == old(simIndex) + 1 && currentPosition == Some(simPath[old(simIndex)])
                && heading == headingOf(simPath[old(simIndex)], simPath[old(simIndex) + 1])
                && isTracking == old(isTracking) && simulationId == old(simulationId) && watchId == old(watchId)
                && steps == old(steps) && clearedWatches == old(clearedWatches) && clearedIntervals == old(clearedIntervals)
                && locationPermission == old(locationPermission) && positionRequests == old(positionRequests)
      ensures old(simIndex) + 1 >= |simPath| ==> Stopped()
    {
      if simIndex + 1 < |simPath| {
        var current := simPath[simIndex];
        var next := simPath[simIndex + 1];
        heading := headingOf(current, next);
        currentPosition := Some(current);
        simIndex := simIndex + 1;
      } else {
        StopTracking();
      }
    }
  }
}
