/** The hourly traffic chart (components/TrafficChart.js): the hour
    labels of the x axis, the delay-seconds classifier, and the run of
    getTrafficData that fills a 24-slot table one hour at a time. */
module TrafficChart {
  import opened Common

  /** formatXAxis: the 12-hour clock label of an hour of the day. */
  function FormatXAxis(hour: nat): (text: string)
    ensures hour == 0 ==> text == "12AM"
    ensures hour == 12 ==> text == "12PM"
    ensures 13 <= hour ==> text == NatToString(hour - 12) + "PM"
    ensures 1 <= hour <= 11 ==> text == NatToString(hour) + "AM"
  {
    var ampm := if hour >= 12 then "PM" else "AM";
    var hour12 := if hour == 0 then 12 else if hour > 12 then hour - 12 else hour;
    NatToString(hour12) + ampm
  }

  /** Every hour of the day gets a clock number in 1..12 and the right
      half of the day. */
  lemma FormatXAxisShape(hour: nat)
    requires hour < 24
    ensures exists h12: nat :: 1 <= h12 <= 12
              && FormatXAxis(hour) == NatToString(h12) + (if hour < 12 then "AM" else "PM")
  {
    var h12 := if hour == 0 then 12 else if hour > 12 then hour - 12 else hour;
    assert FormatXAxis(hour) == NatToString(h12) + (if hour < 12 then "AM" else "PM");
  }

  /** No two hours of one day share a label. */
  lemma FormatXAxisInjective(h: nat, h': nat)
    requires h < 24 && h' < 24 && FormatXAxis(h) == FormatXAxis(h')
    ensures h == h'
  {
    var a := if h == 0 then 12 else if h > 12 then h - 12 else h;
    var a' := if h' == 0 then 12 else if h' > 12 then h' - 12 else h';
    var s, s' := NatToString(a), NatToString(a');
    var x, x' := FormatXAxis(h), FormatXAxis(h');
    assert x[|x| - 2] == (if h < 12 then 'A' else 'P');
    assert x'[|x'| - 2] == (if h' < 12 then 'A' else 'P');
    assert s == x[..|x| - 2] && s' == x'[..|x'| - 2];
    NatToStringInjective(a, a');
  }

  datatype Level = Low | Medium | High

  /** getTrafficLevel, on a delay in seconds. */
  function GetTrafficLevel(delay: int): (l: Level)
    ensures l == Low <==> delay < 300
    ensures l == Medium <==> 300 <= delay < 600
    ensures l == High <==> delay >= 600
  {
    if delay < 300 then Low else if delay < 600 then Medium else High
  }

  function LevelName(l: Level): string
  {
    match l
    case Low => "Low"
    case Medium => "Medium"
    case High => "High"
  }

  function Rank(l: Level): nat
  {
    match l
    case Low => 0
    case Medium => 1
    case High => 2
  }

  /** A longer delay never gets a lower level. */
  lemma GetTrafficLevelMonotone(d: int, d': int)
    requires d <= d'
    ensures Rank(GetTrafficLevel(d)) <= Rank(GetTrafficLevel(d'))
  {
  }

  datatype Temperature = NotAvailable | Degrees(celsius: int)

  /** One slot of the chart table. */
  datatype HourData = HourData(
    hour: nat,
    travelTime: int,
    trafficDelay: int,
    trafficLength: int,
    totalDistance: int,
    departureTime: string,
    arrivalTime: string,
    weather: string,
    temperature: Temperature,
    trafficLevel: string)

  /** The summary of the routing response for one hour; the departure and
      arrival times come already formatted as local time text. */
  datatype RouteSummary = RouteSummary(
    travelTimeInSeconds: int,
    trafficDelayInSeconds: int,
    trafficLengthInMeters: int,
    lengthInMeters: int,
    departureTime: string,
    arrivalTime: string)

  /** One forecast entry: the local hour of its time stamp, its condition
      and its temperature in tenths of a degree Celsius. */
  datatype WeatherItem = WeatherItem(hour: nat, main: string, tempTenths: int)

  /** The result of an external request. */
  datatype Fetched<T> = Fetched(value: T) | FetchFailed(message: string)

  const Fetching := "Fetching..."
  const GeocodeError := "Could not find coordinates for the specified locations"

  function Placeholder(hour: nat): (d: HourData)
  {
    HourData(hour, 0, 0, 0, 0, Fetching, Fetching, Fetching, NotAvailable, Fetching)
  }

  /** The table published before the first request. */
  function Placeholders(): (t: seq<HourData>)
    ensures |t| == 24
    ensures forall i :: 0 <= i < 24 ==> t[i] == Placeholder(i)
  {
    seq(24, i requires 0 <= i < 24 => Placeholder(i))
  }

  /** The position of the first forecast entry for `hour` at or after `from`. */
  function FirstForHour(list: seq<WeatherItem>, hour: nat, from: nat): (k: Option<nat>)
    requires from <= |list|
    ensures k.Some? ==> from <= k.value < |list| && list[k.value].hour == hour
                        && forall j :: from <= j < k.value ==> list[j].hour != hour
    ensures k.None? <==> forall j :: from <= j < |list| ==> list[j].hour != hour
    decreases |list| - from
  {
    if from == |list| then None
    else if list[from].hour == hour then Some(from)
    else FirstForHour(list, hour, from + 1)
  }

  /** `list.find(item => hour of item === i)`: the first entry for the hour. */
  function FindWeather(list: seq<WeatherItem>, hour: nat): (w: Option<WeatherItem>)
    ensures w.None? <==> forall k :: 0 <= k < |list| ==> list[k].hour != hour
    ensures w.Some? ==> exists k :: 0 <= k < |list| && list[k] == w.value && list[k].hour == hour
                                    && forall j :: 0 <= j < k ==> list[j].hour != hour
  {
    var k := FirstForHour(list, hour, 0);
    if k.Some? then Some(list[k.value]) else None
  }

  /** The slot that a successful request for hour i writes. */
  function HourFromSummary(i: nat, summary: RouteSummary, forecast: seq<WeatherItem>): (d: HourData)
    ensures d.hour == i
    ensures d.trafficLevel == LevelName(GetTrafficLevel(summary.trafficDelayInSeconds))
    ensures 120 * d.travelTime - 60 <= 2 * summary.travelTimeInSeconds < 120 * d.travelTime + 60
    ensures 120 * d.trafficDelay - 60 <= 2 * summary.trafficDelayInSeconds < 120 * d.trafficDelay + 60
    ensures d.trafficLength == summary.trafficLengthInMeters && d.totalDistance == summary.lengthInMeters
    ensures FindWeather(forecast, i).None? ==> d.weather == "N/A" && d.temperature == NotAvailable
    ensures FindWeather(forecast, i).Some? ==> d.weather == FindWeather(forecast, i).value.main
  {
    var w := FindWeather(forecast, i);
    HourData(
      i,
      RoundDiv(summary.travelTimeInSeconds, 60),
      RoundDiv(summary.trafficDelayInSeconds, 60),
      summary.trafficLengthInMeters,
      summary.lengthInMeters,
      summary.departureTime,
      summary.arrivalTime,
      if w.Some? then w.value.main else "N/A",
      if w.Some? then Degrees(RoundDiv(w.value.tempTenths, 10)) else NotAvailable,
      LevelName(GetTrafficLevel(summary.trafficDelayInSeconds)))
  }

  /** Math.round((n / 24) * 100): the progress once n hours are done. */
  function Progress(n: nat): (p: int)
    requires n <= 24
    ensures 0 <= p <= 100
    ensures n == 24 ==> p == 100
    ensures n > 0 ==> p > 0
  {
    RoundDiv(n * 100, 24)
  }

  lemma ProgressMonotone(m: nat, n: nat)
    requires m <= n <= 24
    ensures Progress(m) <= Progress(n)
  {
    RoundDivMonotone(m * 100, n * 100, 24);
  }

  /** Slot i after its request: hour i's data when the request succeeded,
      its placeholder otherwise. */
  function Slot(routeFor: nat -> Option<RouteSummary>, forecast: seq<WeatherItem>, i: nat): HourData
  {
    if routeFor(i).Some? then HourFromSummary(i, routeFor(i).value, forecast) else Placeholder(i)
  }

  /** The table after all 24 requests. */
  function FinalTable(routeFor: nat -> Option<RouteSummary>, forecast: seq<WeatherItem>): (t: seq<HourData>)
    ensures |t| == 24
    ensures forall i :: 0 <= i < 24 ==> t[i] == Slot(routeFor, forecast, i)
  {
    seq(24, i requires 0 <= i < 24 => Slot(routeFor, forecast, i))
  }

  /** Every slot of the final table holds its own hour, and it is filled
      in exactly when that hour's request succeeded. */
  lemma FinalTableSlots(routeFor: nat -> Option<RouteSummary>, forecast: seq<WeatherItem>, i: nat)
    requires i < 24
    ensures FinalTable(routeFor, forecast)[i].hour == i
    ensures routeFor(i).None? <==> FinalTable(routeFor, forecast)[i] == Placeholder(i)
    ensures routeFor(i).Some? ==>
              FinalTable(routeFor, forecast)[i] == HourFromSummary(i, routeFor(i).value, forecast)
  {
    if routeFor(i).Some? {
      var d := HourFromSummary(i, routeFor(i).value, forecast);
      assert d.trafficLevel != Fetching by {
        assert |LevelName(GetTrafficLevel(routeFor(i).value.trafficDelayInSeconds))| < |Fetching|;
      }
    }
  }

  /** The hours after which the run pauses: the successful ones before 23. */
  function PausesBefore(routeFor: nat -> Option<RouteSummary>, n: nat): (ps: seq<nat>)
    requires n <= 24
    ensures |ps| <= n && |ps| <= 23
    ensures forall k :: 0 <= k < |ps| ==> ps[k] < n && ps[k] < 23 && routeFor(ps[k]).Some?
    ensures forall i :: 0 <= i < n && i < 23 && routeFor(i).Some? ==> i in ps
  {
    if n == 0 then []
    else
      var ps := PausesBefore(routeFor, n - 1);
      if n - 1 < 23 && routeFor(n - 1).Some? then ps + [n - 1] else ps
  }

  ghost predicate NonDecreasing(s: seq<int>)
  {
    forall j, k :: 0 <= j < k < |s| ==> s[j] <= s[k]
  }

  /** The table during the hour loop: hours before i are done, the others
      still hold their placeholders. */
  ghost predicate FilledUpTo(t: seq<HourData>, routeFor: nat -> Option<RouteSummary>,
                             forecast: seq<WeatherItem>, i: nat)
  {
    |t| == 24
    && (forall j :: 0 <= j < i && j < 24 ==> t[j] == Slot(routeFor, forecast, j))
    && (forall j :: i <= j < 24 ==> t[j] == Placeholder(j))
  }

  lemma FilledStep(t: seq<HourData>, t': seq<HourData>, routeFor: nat -> Option<RouteSummary>,
                   forecast: seq<WeatherItem>, i: nat)
    requires i < 24 && FilledUpTo(t, routeFor, forecast, i)
    requires routeFor(i).None? ==> t' == t
    requires routeFor(i).Some? ==> t' == t[i := HourFromSummary(i, routeFor(i).value, forecast)]
    ensures FilledUpTo(t', routeFor, forecast, i + 1)
  {
  }

  lemma FilledAll(t: seq<HourData>, routeFor: nat -> Option<RouteSummary>, forecast: seq<WeatherItem>)
    requires FilledUpTo(t, routeFor, forecast, 24)
    ensures t == FinalTable(routeFor, forecast)
  {
  }

  /** The progress log: starts at 0, never goes down, never above `bound`. */
  ghost predicate LogUpTo(log: seq<int>, bound: int)
  {
    log != [] && log[0] == 0 && NonDecreasing(log)
    && forall k :: 0 <= k < |log| ==> log[k] <= bound
  }

  lemma LogStep(log: seq<int>, p: int, q: int)
    requires LogUpTo(log, p) && p <= q
    ensures LogUpTo(log + [q], q)
  {
    var l := log + [q];
    forall j, k | 0 <= j < k < |l|
      ensures l[j] <= l[k]
    {
      if k < |log| {
        assert l[j] == log[j] && l[k] == log[k];
      }
    }
  }

  class Chart {
    var chartData: seq<HourData>
    var loading: bool
    var error: string
    var progress: int
    /** The hours after which a one-second pause was taken, in order. */
    var pausedAfter: seq<nat>
    /** Every value progress has been set to during the current run. */
    ghost var progressLog: seq<int>

    constructor ()
      ensures chartData == [] && !loading && error == "" && progress == 0 && pausedAfter == []
    {
      chartData := [];
      loading := false;
      error := "";
      progress := 0;
      pausedAfter := [];
      progressLog := [];
    }

    /** One iteration of the hour loop: a success overwrites slot i only,
        reports progress and pauses unless i is the last hour; a failure
        leaves everything as it was. */
    method FetchHour(i: nat, response: Option<RouteSummary>, forecast: seq<WeatherItem>)
      requires i < 24 && |chartData| == 24
      modifies this
      ensures |chartData| == 24
      ensures loading == old(loading) && error == old(error)
      ensures response.None? ==> chartData == old(chartData) && progress == old(progress)
                                 && pausedAfter == old(pausedAfter) && progressLog == old(progressLog)
      ensures response.Some? ==> chartData == old(chartData)[i := HourFromSummary(i, response.value, forecast)]
      ensures response.Some? ==> progress == Progress(i + 1) && progressLog == old(progressLog) + [progress]
      ensures response.Some? ==> pausedAfter == old(pausedAfter) + (if i < 23 then [i] else [])
    {
      if response.Some? {
        var newData := chartData;
        newData := newData[i := HourFromSummary(i, response.value, forecast)];
        chartData := newData;
        progress := Progress(i + 1);
        progressLog := progressLog + [progress];
        if i < 23 {
          pausedAfter := pausedAfter + [i];
        }
      }
    }

    /** The hour loop of getTrafficData, from a table of placeholders. */
    method FetchAllHours(forecast: seq<WeatherItem>, routeFor: nat -> Option<RouteSummary>)
      requires chartData == Placeholders() && pausedAfter == []
      requires progressLog == [0] && error == "" && loading
      modifies this
      ensures chartData == FinalTable(routeFor, forecast)
      ensures pausedAfter == PausesBefore(routeFor, 24)
      ensures error == "" && loading
      ensures progressLog != [] && progressLog[0] == 0 && NonDecreasing(progressLog)
      ensures forall k :: 0 <= k < |progressLog| ==> progressLog[k] <= 100
    {
      for i := 0 to 24
        invariant FilledUpTo(chartData, routeFor, forecast, i)
        invariant error == "" && loading
        invariant pausedAfter == PausesBefore(routeFor, i)
        invariant LogUpTo(progressLog, Progress(i))
      {
        ghost var table, log := chartData, progressLog;
        FetchHour(i, routeFor(i), forecast);
        FilledStep(table, chartData, routeFor, forecast, i);
        ProgressMonotone(i, i + 1);
        if routeFor(i).Some? {
          LogStep(log, Progress(i), Progress(i + 1));
        }
      }
      FilledAll(chartData, routeFor, forecast);
    }

    /** getTrafficData: `sourceResults` and `destResults` are the geocoder's
        matches, `forecast` the weather request and `routeFor(i)` the routing
        request for hour i (None when it or reading its summary failed). */
    method GetTrafficData(sourceResults: seq<LatLng>, destResults: seq<LatLng>,
                          forecast: Fetched<seq<WeatherItem>>,
                          routeFor: nat -> Option<RouteSummary>)
      modifies this
      ensures !loading && progress == 100
      ensures progressLog != [] && progressLog[0] == 0 && progressLog[|progressLog| - 1] == 100
      ensures NonDecreasing(progressLog)
      ensures sourceResults == [] || destResults == [] ==>
                error == GeocodeError && chartData == [] && pausedAfter == []
      ensures sourceResults != [] && destResults != [] && forecast.FetchFailed? ==>
                error == forecast.message && chartData == [] && pausedAfter == []
      ensures sourceResults != [] && destResults != [] && forecast.Fetched? ==>
                error == "" && chartData == FinalTable(routeFor, forecast.value)
                && pausedAfter == PausesBefore(routeFor, 24)
    {
      loading := true;
      error := "";
      progress := 0;
      progressLog := [0];
      chartData := [];
      pausedAfter := [];
      if sourceResults == [] || destResults == [] {
        error := GeocodeError;
      } else if forecast.FetchFailed? {
        error := forecast.message;
      } else {
        chartData := Placeholders();
        FetchAllHours(forecast.value, routeFor);
      }
      assert LogUpTo(progressLog, 100);
      LogStep(progressLog, 100, 100);
      loading := false;
      progress := 100;
      progressLog := progressLog + [100];
    }
  }
}
