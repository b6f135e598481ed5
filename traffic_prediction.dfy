/** The traffic prediction page (components/TrafficPrediction.js): the
    area and road pickers, the guarded predict and history requests, the
    level colour, and the header's counts. Each request's reply is an
    input; the page records the requests it sends. */
module TrafficPrediction {
  import opened Common

  /** What axios resolves or rejects with: `success` with its data, a
      failure with its message, or a thrown error. */
  datatype Reply<T> = Success(data: T) | Failure(error: string) | NetworkError

  /** A prediction or history payload; the page only displays it. */
  datatype Payload = Payload(body: string)

  /** The requests the page sends. */
  datatype Request = LocationsRequest | PredictRequest(area: string, road: string)
                   | HistoryRequest(area: string, road: string, days: nat)

  /** The locations object, area by area in its key order. */
  type Locations = seq<(string, seq<string>)>

  const SelectBothMessage := "Please select both area and road"
  const PredictFailedMessage := "Failed to get traffic prediction"
  const HistoryFailedMessage := "Failed to fetch historical data"
  const LocationsFailedMessage := "Failed to fetch locations"

  class Page {
    var locations: Locations
    var selectedArea: string
    var selectedRoad: string
    var prediction: Option<Payload>
    var historicalData: Option<Payload>
    var loading: bool
    var error: string
    var requests: seq<Request>

    constructor ()
      ensures locations == [] && selectedArea == "" && selectedRoad == ""
      ensures prediction == None && historicalData == None && !loading && error == "" && requests == []
    {
      locations := [];
      selectedArea := "";
      selectedRoad := "";
      prediction := None;
      historicalData := None;
      loading := false;
      error := "";
      requests := [];
    }

    /** fetchLocations: a reply without success changes nothing. */
    method FetchLocations(reply: Reply<Locations>)
      modifies this
      ensures requests == old(requests) + [LocationsRequest]
      ensures reply.Success? ==> locations == reply.data && error == old(error)
      ensures reply.Failure? ==> locations == old(locations) && error == old(error)
      ensures reply.NetworkError? ==> locations == old(locations) && error == LocationsFailedMessage
      ensures selectedArea == old(selectedArea) && selectedRoad == old(selectedRoad) && loading == old(loading)
      ensures prediction == old(prediction) && historicalData == old(historicalData)
    {
      requests := requests + [LocationsRequest];
      match reply {
        case Success(data) => locations := data;
        case Failure(_) =>
        case NetworkError => error := LocationsFailedMessage;
      }
    }

    /** handleAreaChange: a new area clears the road and both results. */
    method HandleAreaChange(area: string)
      modifies this
      ensures selectedArea == area && selectedRoad == ""
      ensures prediction == None && historicalData == None
      ensures locations == old(locations) && loading == old(loading) && error == old(error) && requests == old(requests)
    {
      selectedArea := area;
      selectedRoad := "";
      prediction := None;
      historicalData := None;
    }

    /** handleRoadChange: a new road clears both results but keeps the area. */
    method HandleRoadChange(road: string)
      modifies this
      ensures selectedRoad == road && selectedArea == old(selectedArea)
      ensures prediction == None && historicalData == None
      ensures locations == old(locations) && loading == old(loading) && error == old(error) && requests == old(requests)
    {
      selectedRoad := road;
      prediction := None;
      historicalData := None;
    }

    /** predictTraffic: without both selections nothing is sent; otherwise
        one request, and loading is off again afterwards. */
    method PredictTraffic(reply: Reply<Payload>)
      modifies this
      ensures selectedArea == "" || selectedRoad == "" ==>
                error == SelectBothMessage && requests == old(requests) && loading == old(loading)
                && prediction == old(prediction)
      ensures selectedArea != "" && selectedRoad != "" ==>
                requests == old(requests) + [PredictRequest(selectedArea, selectedRoad)] && !loading
                && (reply.Success? ==> prediction == Some(reply.data) && error == "")
                && (reply.Failure? ==> prediction == old(prediction) && error == reply.error)
                && (reply.NetworkError? ==> prediction == old(prediction) && error == PredictFailedMessage)
      ensures selectedArea == old(selectedArea) && selectedRoad == old(selectedRoad)
      ensures historicalData == old(historicalData) && locations == old(locations)
    {
      if selectedArea == "" || selectedRoad == "" {
        error := SelectBothMessage;
        return;
      }
      loading := true;
      error := "";
      requests := requests + [PredictRequest(selectedArea, selectedRoad)];
      match reply {
        case Success(data) => prediction := Some(data);
        case Failure(message) => error := message;
        case NetworkError => error := PredictFailedMessage;
      }
      loading := false;
    }

    /** fetchHistoricalData: the same guard; the request asks for 15 days. */
    method FetchHistoricalData(reply: Reply<Payload>)
      modifies this
      ensures selectedArea == "" || selectedRoad == "" ==>
                error == SelectBothMessage && requests == old(requests) && loading == old(loading)
                && historicalData == old(historicalData)
      ensures selectedArea != "" && selectedRoad != "" ==>
                requests == old(requests) + [HistoryRequest(selectedArea, selectedRoad, 15)] && !loading
                && (reply.Success? ==> historicalData == Some(reply.data) && error == "")
                && (reply.Failure? ==> historicalData == old(historicalData) && error == reply.error)
                && (reply.NetworkError? ==> historicalData == old(historicalData) && error == HistoryFailedMessage)
      ensures selectedArea == old(selectedArea) && selectedRoad == old(selectedRoad)
      ensures prediction == old(prediction) && locations == old(locations)
    {
      if selectedArea == "" || selectedRoad == "" {
        error := SelectBothMessage;
        return;
      }
      loading := true;
      error := "";
      requests := requests + [HistoryRequest(selectedArea, selectedRoad, 15)];
      match reply {
        case Success(data) => historicalData := Some(data);
        case Failure(message) => error := message;
        case NetworkError => error := HistoryFailedMessage;
      }
      loading := false;
    }
  }

  /** getTrafficLevelColor; None is a null or undefined level. */
  function TrafficLevelColor(level: Option<string>): (color: string)
    ensures level.Some? && ToLower(level.value) == "low" <==> color == "#4CAF50"
    ensures level.Some? && ToLower(level.value) == "moderate" <==> color == "#FF9800"
    ensures level.Some? && ToLower(level.value) == "high" <==> color == "#F44336"
    ensures level.Some? && ToLower(level.value) == "very high" <==> color == "#8B0000"
    ensures color == "#666" <==> level.None? || ToLower(level.value) !in {"low", "moderate", "high", "very high"}
  {
    if level.None? then "#666"
    else
      match ToLower(level.value)
      case "low" => "#4CAF50"
      case "moderate" => "#FF9800"
      case "high" => "#F44336"
      case "very high" => "#8B0000"
      case _ => "#666"
  }

  /** The colour ignores letter case: "Low", "LOW" and "low" agree. */
  lemma TrafficLevelColorCaseInsensitive(level: string)
    ensures TrafficLevelColor(Some(ToUpper(level))) == TrafficLevelColor(Some(level))
  {
    CaseInsensitive(level);
  }

  /** `Object.values(locations)`. */
  function RoadLists(locations: Locations): (vs: seq<seq<string>>)
  {
    seq(|locations|, i requires 0 <= i < |locations| => locations[i].1)
  }

  /** `.flat()`: the lists one after the other. */
  function Flatten(vs: seq<seq<string>>): seq<string>
  {
    if vs == [] then [] else vs[0] + Flatten(vs[1..])
  }

  /** `.reduce((total, roads) => total + roads.length, total)`. */
  function SumLengths(vs: seq<seq<string>>, total: nat): nat
  {
    if vs == [] then total else SumLengths(vs[1..], total + |vs[0]|)
  }

  /** The header's "Roads" is `flat().length` and "Combinations" the reduce
      over the list lengths: the two counts are always equal. */
  lemma {:induction false} RoadCountIsCombinations(vs: seq<seq<string>>, total: nat)
    ensures SumLengths(vs, total) == total + |Flatten(vs)|
  {
    if vs != [] {
      RoadCountIsCombinations(vs[1..], total + |vs[0]|);
    }
  }

  /** The header's three counts. */
  datatype Stats = Stats(areas: nat, roads: nat, combinations: nat)

  function StatsOf(locations: Locations): (s: Stats)
    ensures s.areas == |locations|
    ensures s.roads == s.combinations
  {
    RoadCountIsCombinations(RoadLists(locations), 0);
    Stats(|locations|, |Flatten(RoadLists(locations))|, SumLengths(RoadLists(locations), 0))
  }
}
