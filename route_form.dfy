/** The route form (components/RouteForm.js): typing into the source,
    destination or stop box, picking a suggestion, removing a stop, the
    rules that disable its buttons, and the stop chips' labels. The form's
    setters and callbacks are those of the planner it belongs to; the
    suggestion search itself is recorded, not run. */
module RouteForm {
  import opened Common
  import opened BestRoute

  /** The input box a change comes from. */
  predicate IsInputField(field: Field)
  {
    field == Source || field == Destination || field == WaypointField
  }

  /** `activeSuggestionField` as handleSuggestionSelect sees it: null is none
      of the three fields. */
  function FieldOrOther(field: Option<Field>): Field
  {
    if field.Some? then field.value else OtherField
  }

  class Form {
    var activeSuggestionField: Option<Field>
    var showSuggestions: bool
    /** The texts passed to onSuggestionSearch, oldest first. */
    var suggestionSearches: seq<string>
    const planner: Planner

    constructor (planner: Planner)
      ensures this.planner == planner
      ensures activeSuggestionField == None && !showSuggestions && suggestionSearches == []
    {
      this.planner := planner;
      activeSuggestionField := None;
      showSuggestions := false;
      suggestionSearches := [];
    }

    /** handleInputChange: the value is always stored; more than two
        characters start a search and show the list, otherwise the list is
        hidden and cleared. */
    method HandleInputChange(value: string, field: Field)
      requires IsInputField(field)
      modifies this, planner
      ensures planner.selectedSource == (if field == Source then value else old(planner.selectedSource))
      ensures planner.selectedDestination == (if field == Destination then value else old(planner.selectedDestination))
      ensures planner.waypointInput == (if field == WaypointField then value else old(planner.waypointInput))
      ensures |value| > 2 ==> activeSuggestionField == Some(field) && showSuggestions
                              && suggestionSearches == old(suggestionSearches) + [value]
                              && planner.suggestions == old(planner.suggestions)
      ensures |value| <= 2 ==> !showSuggestions && planner.suggestions == []
                               && activeSuggestionField == old(activeSuggestionField)
                               && suggestionSearches == old(suggestionSearches)
      ensures planner.waypoints == old(planner.waypoints) && planner.directions == old(planner.directions)
      ensures planner.loading == old(planner.loading) && planner.error == old(planner.error)
      ensures planner.routeLabels == old(planner.routeLabels) && planner.trafficInfo == old(planner.trafficInfo)
      ensures planner.weatherInfo == old(planner.weatherInfo)
      ensures planner.navigating == old(planner.navigating) && planner.selectedRoute == old(planner.selectedRoute)
    {
      if field == Source {
        planner.selectedSource := value;
      } else if field == Destination {
        planner.selectedDestination := value;
      } else {
        planner.waypointInput := value;
      }
      if |value| > 2 {
        activeSuggestionField := Some(field);
        showSuggestions := true;
        suggestionSearches := suggestionSearches + [value];
      } else {
        showSuggestions := false;
        planner.suggestions := [];
      }
    }

    /** handleSuggestionClick: the description goes to the active field,
        then the list is hidden and no field is active. */
    method HandleSuggestionClick(description: string)
      modifies this, planner
      ensures var field := FieldOrOther(old(activeSuggestionField));
              planner.selectedSource == (if field == Source then description else old(planner.selectedSource))
              && planner.selectedDestination == (if field == Destination then description else old(planner.selectedDestination))
              && planner.waypointInput == (if field == WaypointField then description else old(planner.waypointInput))
      ensures planner.suggestions == []
      ensures !showSuggestions && activeSuggestionField == None
      ensures suggestionSearches == old(suggestionSearches) && planner.waypoints == old(planner.waypoints)
      ensures planner.directions == old(planner.directions) && planner.error == old(planner.error)
      ensures planner.loading == old(planner.loading) && planner.navigating == old(planner.navigating)
      ensures planner.routeLabels == old(planner.routeLabels) && planner.trafficInfo == old(planner.trafficInfo)
      ensures planner.weatherInfo == old(planner.weatherInfo) && planner.selectedRoute == old(planner.selectedRoute)
    {
      planner.HandleSuggestionSelect(description, FieldOrOther(activeSuggestionField));
      showSuggestions := false;
      activeSuggestionField := None;
    }

    /** removeWaypoint. */
    method RemoveWaypoint(index: int)
      modifies planner
      ensures planner.waypoints == RemoveAt(old(planner.waypoints), index)
      ensures planner.waypointInput == old(planner.waypointInput) && planner.directions == old(planner.directions)
      ensures planner.loading == old(planner.loading) && planner.error == old(planner.error)
      ensures planner.routeLabels == old(planner.routeLabels) && planner.trafficInfo == old(planner.trafficInfo)
      ensures planner.weatherInfo == old(planner.weatherInfo) && planner.suggestions == old(planner.suggestions)
      ensures planner.selectedSource == old(planner.selectedSource)
      ensures planner.selectedDestination == old(planner.selectedDestination)
      ensures planner.navigating == old(planner.navigating) && planner.selectedRoute == old(planner.selectedRoute)
    {
      planner.waypoints := RemoveAt(planner.waypoints, index);
    }
  }

  /** `ws.filter((_, i) => i !== index)` on the positions from `from` on. */
  function KeepOthers(ws: seq<Waypoint>, index: int, from: nat): seq<Waypoint>
    requires from <= |ws|
    decreases |ws| - from
  {
    if from == |ws| then []
    else (if from as int != index then [ws[from]] else []) + KeepOthers(ws, index, from + 1)
  }

  function RemoveAt(ws: seq<Waypoint>, index: int): seq<Waypoint>
  {
    KeepOthers(ws, index, 0)
  }

  lemma {:induction false} KeepOthersIs(ws: seq<Waypoint>, index: int, from: nat)
    requires from <= |ws|
    ensures from <= index < |ws| ==> KeepOthers(ws, index, from) == ws[from..index] + ws[index + 1..]
    ensures !(from <= index < |ws|) ==> KeepOthers(ws, index, from) == ws[from..]
    decreases |ws| - from
  {
    if from < |ws| {
      var rest := KeepOthers(ws, index, from + 1);
      KeepOthersIs(ws, index, from + 1);
      if from as int == index {
        assert KeepOthers(ws, index, from) == rest;
        assert rest == ws[from + 1..];
        assert ws[from..index] == [];
      } else if from < index < |ws| {
        assert KeepOthers(ws, index, from) == [ws[from]] + rest;
        assert rest == ws[from + 1..index] + ws[index + 1..];
        assert ws[from..index] == [ws[from]] + ws[from + 1..index];
      } else {
        assert KeepOthers(ws, index, from) == [ws[from]] + rest;
        assert rest == ws[from + 1..];
        assert ws[from..] == [ws[from]] + ws[from + 1..];
      }
    }
  }

  /** Removing position i drops exactly that stop and keeps the others in
      order; an index outside the list changes nothing. */
  lemma RemoveAtIs(ws: seq<Waypoint>, index: int)
    ensures 0 <= index < |ws| ==> RemoveAt(ws, index) == ws[..index] + ws[index + 1..]
    ensures 0 <= index < |ws| ==> |RemoveAt(ws, index)| == |ws| - 1
    ensures !(0 <= index < |ws|) ==> RemoveAt(ws, index) == ws
  {
    KeepOthersIs(ws, index, 0);
    assert ws[0..] == ws;
  }

  /** Removing the stop just added restores the list. */
  lemma RemoveLastUndoesAdd(ws: seq<Waypoint>, w: Waypoint)
    ensures RemoveAt(ws + [w], |ws|) == ws
  {
    RemoveAtIs(ws + [w], |ws|);
    assert (ws + [w])[..|ws|] == ws;
  }

  /** The "Find Route" button. */
  predicate SubmitDisabled(loading: bool, selectedSource: string, selectedDestination: string)
  {
    loading || selectedSource == "" || selectedDestination == ""
  }

  /** The "Add Stop" button. */
  predicate AddStopDisabled(waypointInput: string)
  {
    Trim(waypointInput) == ""
  }

  /** "Find Parking". */
  predicate ParkingDisabled(selectedDestination: string, loadingParkingInfo: bool)
  {
    selectedDestination == "" || loadingParkingInfo
  }

  /** "Find EV Stations": enabled with a destination or at least one stop. */
  predicate EvDisabled(selectedDestination: string, waypoints: seq<Waypoint>, loadingEvInfo: bool)
  {
    (selectedDestination == "" && |waypoints| == 0) || loadingEvInfo
  }

  /** How the search buttons relate: a destination that lets "Find Route"
      run also enables an idle parking search; an enabled parking search
      means an idle EV search is enabled too; stops without a destination
      enable only the EV search. */
  lemma SearchButtonsAgree(loading: bool, selectedSource: string, selectedDestination: string,
                           waypoints: seq<Waypoint>, loadingParkingInfo: bool, loadingEvInfo: bool)
    ensures !SubmitDisabled(loading, selectedSource, selectedDestination) && !loadingParkingInfo ==>
              !ParkingDisabled(selectedDestination, loadingParkingInfo)
    ensures !ParkingDisabled(selectedDestination, loadingParkingInfo) && !loadingEvInfo ==>
              !EvDisabled(selectedDestination, waypoints, loadingEvInfo)
    ensures selectedDestination == "" && |waypoints| > 0 && !loadingEvInfo ==>
              !EvDisabled(selectedDestination, waypoints, loadingEvInfo)
              && ParkingDisabled(selectedDestination, loadingParkingInfo)
              && SubmitDisabled(loading, selectedSource, selectedDestination)
  {
  }

  /** "Add Stop" is disabled exactly for an input of nothing but white
      space, and an enabled click always adds the untrimmed input. */
  lemma AddStopDisabledIff(waypointInput: string)
    ensures AddStopDisabled(waypointInput) <==> forall i :: 0 <= i < |waypointInput| ==> IsJsWhitespace(waypointInput[i])
    ensures !AddStopDisabled(waypointInput) ==> waypointInput != ""
  {
    TrimEmptyIff(waypointInput);
  }

  const IndiaSuffix := ", India"

  /** The first position at or after `from` where `pat` occurs in `s`. */
  function FirstOccurrence(s: string, pat: string, from: nat): (k: Option<nat>)
    ensures k.Some? ==> from <= k.value && OccursAt(s, pat, k.value)
    ensures k.Some? ==> forall j :: from <= j < k.value ==> !OccursAt(s, pat, j)
    ensures k.None? ==> forall j :: from <= j ==> !OccursAt(s, pat, j)
    decreases |s| - from
  {
    if from + |pat| > |s| then None
    else if s[from..from + |pat|] == pat then Some(from)
    else FirstOccurrence(s, pat, from + 1)
  }

  /** `s.replace(pat, '')`: a string pattern replaces its first occurrence
      only. */
  function ReplaceFirst(s: string, pat: string): (r: string)
  {
    match FirstOccurrence(s, pat, 0)
    case None => s
    case Some(k) => s[..k] + s[k + |pat|..]
  }

  /** The chip label of a stop. */
  function ChipLabel(location: string): string
  {
    ReplaceFirst(location, IndiaSuffix)
  }

  /** No occurrence of ", India" can start inside `x` and run into an
      appended ", India": only its first character is a comma. */
  lemma NoStraddle(x: string, i: nat)
    requires i < |x| && !Contains(x, IndiaSuffix)
    ensures !OccursAt(x + IndiaSuffix, IndiaSuffix, i)
  {
    var s := x + IndiaSuffix;
    if i + |IndiaSuffix| <= |x| {
      ContainsIff(x, IndiaSuffix);
      assert !OccursAt(x, IndiaSuffix, i);
      assert x[i..i + |IndiaSuffix|] == s[i..i + |IndiaSuffix|];
    } else {
      var j := |x| - i;
      assert s[|x|] == ',';
      assert s[i..i + |IndiaSuffix|][j] == s[|x|];
      assert IndiaSuffix[j] != ',';
    }
  }

  /** A stop added as x, with x free of ", India", is shown as x. */
  lemma ChipLabelOfAdded(x: string)
    requires !Contains(x, IndiaSuffix)
    ensures ChipLabel(Waypoint(x + IndiaSuffix, true).location) == x
  {
    var s := x + IndiaSuffix;
    forall i | 0 <= i < |x|
      ensures !OccursAt(s, IndiaSuffix, i)
    {
      NoStraddle(x, i);
    }
    assert s[|x|..|x| + |IndiaSuffix|] == IndiaSuffix;
    assert OccursAt(s, IndiaSuffix, |x|);
    assert FirstOccurrence(s, IndiaSuffix, 0) == Some(|x|);
    assert s[..|x|] == x;
  }

  /** The label drops at most the seven characters of one ", India", and a
      location without it is shown unchanged. */
  lemma ChipLabelShape(location: string)
    ensures !Contains(location, IndiaSuffix) ==> ChipLabel(location) == location
    ensures Contains(location, IndiaSuffix) ==> |ChipLabel(location)| == |location| - |IndiaSuffix|
  {
    ContainsIff(location, IndiaSuffix);
    if FirstOccurrence(location, IndiaSuffix, 0).Some? {
      assert Contains(location, IndiaSuffix);
    } else {
      assert forall j :: 0 <= j ==> !OccursAt(location, IndiaSuffix, j);
    }
  }
}
