/** The traffic prediction API (backend/src/traffic_api.py): the volume
    classifier, the validation and row selection of the predict and
    history endpoints, and the area-to-roads table of the locations
    endpoint. The data set is a list of rows already cleaned of missing
    values; the trained regressor is a parameter. */
module TrafficApi {
  import opened Common
  import opened Places

  /** One record of the data set; `date` is a day number, so later days
      are larger. */
  datatype Row = Row(date: int, area: string, road: string, volume: real, averageSpeed: real,
                     congestionLevel: real, weather: string, construction: string)

  /** A JSON reply: the data of a success, or an HTTP status with the
      error text. */
  datatype Response<T> = Ok(data: T) | Error(status: nat, message: string)

  /** The `days` key of a history request: missing, JSON null, or a whole
      number. */
  datatype DaysField = Absent | Null | Given(n: int)

  /** The fields of a request body that the endpoints read; for `area` and
      `road`, None is a key that is absent or null. */
  datatype Body = Body(area: Option<string>, road: Option<string>, days: DaysField)

  const RequiredMessage := "Area and road are required"
  const PredictNotFoundMessage := "Area or road not found in training data"
  const HistoryNotFoundMessage := "No data found for this location"
  /** The text of the AttributeError raised by `.get` on a null body. */
  const NullBodyMessage := "'NoneType' object has no attribute 'get'"

  // ---------------------------------------------------------------------
  // get_traffic_level

  function TrafficLevel(volume: real): (level: string)
    ensures level == "Low" <==> volume < 20000.0
    ensures level == "Moderate" <==> 20000.0 <= volume < 40000.0
    ensures level == "High" <==> 40000.0 <= volume < 60000.0
    ensures level == "Very High" <==> 60000.0 <= volume
  {
    if volume < 20000.0 then "Low"
    else if volume < 40000.0 then "Moderate"
    else if volume < 60000.0 then "High"
    else "Very High"
  }

  /** The position of a level in the order Low < Moderate < High < Very High. */
  function LevelRank(level: string): nat
  {
    if level == "Low" then 0 else if level == "Moderate" then 1 else if level == "High" then 2 else 3
  }

  /** More traffic never gives a lower level. */
  lemma TrafficLevelMonotone(v: real, w: real)
    requires v <= w
    ensures LevelRank(TrafficLevel(v)) <= LevelRank(TrafficLevel(w))
  {
  }

  /** The reply reports `int(predicted_volume)` but classifies the
      untruncated value; since the limits are whole numbers, the level of
      the reported volume is the same. */
  lemma LevelOfReportedVolume(v: real)
    ensures TrafficLevel(Trunc(v) as real) == TrafficLevel(v)
  {
    if v >= 0.0 {
      assert Trunc(v) as real <= v < Trunc(v) as real + 1.0;
    } else {
      assert Trunc(v) <= 0;
    }
  }

  // ---------------------------------------------------------------------
  // Row selection shared by predict and history

  /** The mask `(Area Name == area) & (Road/Intersection Name == road)`. */
  function OnPair(area: string, road: string): Row -> bool
  {
    (row: Row) => row.area == area && row.road == road
  }

  /** `data[(Area Name == area) & (Road/Intersection Name == road)]`, in
      the data set's order. */
  function Matching(rows: seq<Row>, area: string, road: string): (r: seq<Row>)
    ensures |r| <= |rows|
    ensures forall x :: x in r <==> x in rows && x.area == area && x.road == road
  {
    Filter(rows, OnPair(area, road))
  }

  /** The checks both POST endpoints make before using the rows: a null
      body fails in `.get`, a missing area or road is a 400, and no
      matching row is a 404 with the endpoint's own text. */
  function Selected(body: Option<Body>, rows: seq<Row>, notFound: string): (r: Response<seq<Row>>)
    ensures r == Error(500, NullBodyMessage) <==> body.None?
    ensures r == Error(400, RequiredMessage) <==> body.Some? && (Falsy(body.value.area) || Falsy(body.value.road))
    ensures r == Error(404, notFound) <==>
              body.Some? && !Falsy(body.value.area) && !Falsy(body.value.road)
              && Matching(rows, body.value.area.value, body.value.road.value) == []
    ensures r.Ok? ==>
              body.Some? && !Falsy(body.value.area) && !Falsy(body.value.road)
              && r.data == Matching(rows, body.value.area.value, body.value.road.value) && r.data != []
  {
    if body.None? then Error(500, NullBodyMessage)
    else if Falsy(body.value.area) || Falsy(body.value.road) then Error(400, RequiredMessage)
    else
      var filtered := Matching(rows, body.value.area.value, body.value.road.value);
      if filtered == [] then Error(404, notFound) else Ok(filtered)
  }

  /** The sort key of `sort_values('Date', ascending=False)`. */
  function NegatedDate(row: Row): Option<real>
  {
    Some(-(row.date as real))
  }

  function NewestFirst(rows: seq<Row>): seq<Row>
  {
    SortByKey(rows, NegatedDate)
  }

  /** Sorting by date, latest first, keeps every row and puts the dates in
      descending order. */
  lemma NewestFirstOrdered(rows: seq<Row>)
    ensures multiset(NewestFirst(rows)) == multiset(rows)
    ensures |NewestFirst(rows)| == |rows|
    ensures forall i, j :: 0 <= i < j < |NewestFirst(rows)| ==> NewestFirst(rows)[i].date >= NewestFirst(rows)[j].date
  {
    var s := NewestFirst(rows);
    assert |s| == |multiset(s)| == |multiset(rows)| == |rows|;
    forall i, j | 0 <= i < j < |s|
      ensures s[i].date >= s[j].date
    {
      assert KeyLe(NegatedDate(s[i]), NegatedDate(s[j]));
    }
  }

  /** `.iloc[0]` of the rows sorted latest first: a matching row no other
      row is later than. */
  function Recent(filtered: seq<Row>): (r: Row)
    requires filtered != []
    ensures r in filtered
    ensures forall x :: x in filtered ==> x.date <= r.date
  {
    NewestFirstOrdered(filtered);
    var s := NewestFirst(filtered);
    assert s[0] in multiset(filtered);
    forall x | x in filtered
      ensures x.date <= s[0].date
    {
      assert x in multiset(s);
      var k :| 0 <= k < |s| && s[k] == x;
    }
    s[0]
  }

  /** `df.tail(n)` for n >= 0. */
  function Tail<T>(s: seq<T>, n: nat): (r: seq<T>)
    ensures |r| == Min(n, |s|) && r == s[|s| - |r|..]
  {
    if |s| <= n then s else s[|s| - n..]
  }

  // ---------------------------------------------------------------------
  // predict_traffic

  /** The prediction reply, without the chart image and the date. */
  datatype Prediction = Prediction(predictedVolume: int, trafficLevel: string, area: string, road: string,
                                   averageSpeed: real, congestionLevel: real, weatherCondition: string,
                                   constructionActivity: string, historicalData: seq<Row>)

  /** The regressor's volume for an area, a road and the most recent
      record of that pair. */
  type Regressor = (string, string, Row) -> real

  function PredictTraffic(body: Option<Body>, rows: seq<Row>, model: Regressor): (r: Response<Prediction>)
  {
    match Selected(body, rows, PredictNotFoundMessage)
    case Error(status, message) => Error(status, message)
    case Ok(filtered) =>
      var area := body.value.area.value;
      var road := body.value.road.value;
      var recent := Recent(filtered);
      var predicted := model(area, road, recent);
      Ok(Prediction(Trunc(predicted), TrafficLevel(predicted), area, road, recent.averageSpeed,
                    recent.congestionLevel, recent.weather, recent.construction, Tail(filtered, 7)))
  }

  /** Predict fails exactly as the selection does. A reply carries the
      requested pair, the truncated volume with its level, the conditions
      of the pair's latest record, and the pair's last seven records. */
  lemma PredictTrafficReply(body: Option<Body>, rows: seq<Row>, model: Regressor)
    ensures var sel := Selected(body, rows, PredictNotFoundMessage);
            var r := PredictTraffic(body, rows, model);
            (sel.Error? <==> r.Error?)
            && (sel.Error? ==> r.status == sel.status && r.message == sel.message)
    ensures var sel := Selected(body, rows, PredictNotFoundMessage);
            var r := PredictTraffic(body, rows, model);
            sel.Ok? ==>
              var p := r.data;
              var recent := Recent(sel.data);
              p.area == body.value.area.value && p.road == body.value.road.value
              && p.predictedVolume == Trunc(model(p.area, p.road, recent))
              && p.trafficLevel == TrafficLevel(p.predictedVolume as real)
              && p.averageSpeed == recent.averageSpeed && p.congestionLevel == recent.congestionLevel
              && p.weatherCondition == recent.weather && p.constructionActivity == recent.construction
              && (forall x :: x in sel.data ==> x.date <= recent.date)
              && |p.historicalData| == Min(7, |sel.data|)
              && p.historicalData == sel.data[|sel.data| - |p.historicalData|..]
  {
    var sel := Selected(body, rows, PredictNotFoundMessage);
    if sel.Ok? {
      LevelOfReportedVolume(model(body.value.area.value, body.value.road.value, Recent(sel.data)));
    }
  }

  // ---------------------------------------------------------------------
  // get_historical_data

  /** `df.head(n)`: the first n rows, or for a negative n all but the last
      -n rows; `head(None)` is every row. */
  function Head<T>(s: seq<T>, n: Option<int>): (r: seq<T>)
    ensures n == None ==> r == s
    ensures n.Some? && n.value >= 0 ==> |r| == Min(n.value, |s|)
    ensures n.Some? && n.value < 0 ==> |r| == (if |s| + n.value >= 0 then |s| + n.value else 0)
    ensures r == s[..|r|]
  {
    if n == None then s
    else if n.value >= 0 then (if |s| <= n.value then s else s[..n.value])
    else if |s| + n.value >= 0 then s[..|s| + n.value] else []
  }

  /** `req_data.get('days', 30)`: 30 for a missing key, None for null. */
  function Days(body: Body): Option<int>
  {
    match body.days
    case Absent => Some(30)
    case Null => None
    case Given(n) => Some(n)
  }

  /** The rows the history endpoint reports, latest first. */
  function RecentRows(body: Option<Body>, rows: seq<Row>): Response<seq<Row>>
  {
    match Selected(body, rows, HistoryNotFoundMessage)
    case Error(status, message) => Error(status, message)
    case Ok(filtered) => Ok(Head(NewestFirst(filtered), Days(body.value)))
  }

  /** The history endpoint fails exactly as the selection does; otherwise it
      reports the requested pair's rows latest first, as many as `days`
      asks (30 when the key is missing, every row when it is null). */
  lemma RecentRowsProperties(body: Option<Body>, rows: seq<Row>)
    ensures var sel := Selected(body, rows, HistoryNotFoundMessage);
            (sel.Error? <==> RecentRows(body, rows).Error?)
            && (sel.Error? ==> RecentRows(body, rows) == Error(sel.status, sel.message))
    ensures RecentRows(body, rows).Ok? ==>
              var recent := RecentRows(body, rows).data;
              var b := body.value;
              var matching := Matching(rows, b.area.value, b.road.value);
              (b.days == Absent ==> |recent| == Min(30, |matching|))
              && (b.days == Null ==> recent == NewestFirst(matching))
              && (b.days.Given? && b.days.n >= 0 ==> |recent| == Min(b.days.n, |matching|))
              && (b.days.Given? && b.days.n < 0 ==> |recent| == (if |matching| + b.days.n >= 0 then |matching| + b.days.n else 0))
              && recent == NewestFirst(matching)[..|recent|]
              && (forall x :: x in recent ==> x in rows && x.area == b.area.value && x.road == b.road.value)
              && (forall i, j :: 0 <= i < j < |recent| ==> recent[i].date >= recent[j].date)
  {
    var sel := Selected(body, rows, HistoryNotFoundMessage);
    if sel.Ok? {
      var b := body.value;
      var sorted := NewestFirst(sel.data);
      NewestFirstOrdered(sel.data);
      var recent := Head(sorted, Days(b));
      assert recent == sorted[..|recent|];
      forall x | x in recent
        ensures x in rows && x.area == b.area.value && x.road == b.road.value
      {
        assert x in sorted;
        assert x in multiset(sorted);
        assert x in sel.data;
      }
      forall i, j | 0 <= i < j < |recent|
        ensures recent[i].date >= recent[j].date
      {
        assert recent[i] == sorted[i] && recent[j] == sorted[j];
      }
    }
  }

  /** One entry of `chart_data`. */
  datatype ChartRow = ChartRow(date: int, trafficVolume: int, averageSpeed: real, congestionLevel: real, weather: string)

  function ChartRowOf(row: Row): (c: ChartRow)
    ensures c.date == row.date && c.trafficVolume == Trunc(row.volume)
    ensures c.averageSpeed == row.averageSpeed && c.congestionLevel == row.congestionLevel && c.weather == row.weather
  {
    ChartRow(row.date, Trunc(row.volume), row.averageSpeed, row.congestionLevel, row.weather)
  }

  datatype History = History(area: string, road: string, historicalData: seq<ChartRow>)

  /** get_historical_data: the selection, then one chart entry per reported
      row, in the same order. */
  method GetHistoricalData(body: Option<Body>, rows: seq<Row>) returns (r: Response<History>)
    ensures RecentRows(body, rows).Error? ==>
              r == Error(RecentRows(body, rows).status, RecentRows(body, rows).message)
    ensures RecentRows(body, rows).Ok? ==>
              var recent := RecentRows(body, rows).data;
              r.Ok? && r.data.area == body.value.area.value && r.data.road == body.value.road.value
              && |r.data.historicalData| == |recent|
              && forall i :: 0 <= i < |recent| ==> r.data.historicalData[i] == ChartRowOf(recent[i])
  {
    var selected := RecentRows(body, rows);
    if selected.Error? {
      return Error(selected.status, selected.message);
    }
    var recent := selected.data;
    var chartData: seq<ChartRow> := [];
    for i := 0 to |recent|
      invariant |chartData| == i
      invariant forall k :: 0 <= k < i ==> chartData[k] == ChartRowOf(recent[k])
    {
      chartData := chartData + [ChartRowOf(recent[i])];
    }
    r := Ok(History(body.value.area.value, body.value.road.value, chartData));
  }

  // ---------------------------------------------------------------------
  // get_locations

  /** `.unique()`: each value once, in the order of first appearance. */
  function Distinct(s: seq<string>): (u: seq<string>)
    ensures forall i, j :: 0 <= i < j < |u| ==> u[i] != u[j]
    ensures forall x :: x in u <==> x in s
    ensures |u| <= |s|
  {
    if s == [] then []
    else
      var init := Distinct(s[..|s| - 1]);
      var last := s[|s| - 1];
      assert s == s[..|s| - 1] + [last];
      if last in init then init else init + [last]
  }

  /** The Area Name column. */
  function AreaNames(rows: seq<Row>): (names: seq<string>)
  {
    seq(|rows|, k requires 0 <= k < |rows| => rows[k].area)
  }

  /** The Road/Intersection Name column of the rows of one area. */
  function RoadsOf(rows: seq<Row>, area: string): (roads: seq<string>)
    ensures forall x :: x in roads <==> exists k :: 0 <= k < |rows| && rows[k].area == area && rows[k].road == x
  {
    if rows == [] then []
    else
      var init := RoadsOf(rows[..|rows| - 1], area);
      var last := rows[|rows| - 1];
      assert forall k :: 0 <= k < |rows| - 1 ==> rows[..|rows| - 1][k] == rows[k];
      if last.area == area then init + [last.road] else init
  }

  type Locations = seq<(string, seq<string>)>

  /** The `areas_data` dictionary in its key order. */
  function LocationsOf(rows: seq<Row>): Locations
  {
    var areas := Distinct(AreaNames(rows));
    seq(|areas|, i requires 0 <= i < |areas| => (areas[i], Distinct(RoadsOf(rows, areas[i]))))
  }

  /** get_locations: one dictionary entry per distinct area. */
  method GetLocations(rows: seq<Row>) returns (areasData: Locations)
    ensures areasData == LocationsOf(rows)
  {
    var areas := Distinct(AreaNames(rows));
    areasData := [];
    for i := 0 to |areas|
      invariant areasData == seq(i, k requires 0 <= k < i => (areas[k], Distinct(RoadsOf(rows, areas[k]))))
    {
      areasData := areasData + [(areas[i], Distinct(RoadsOf(rows, areas[i])))];
    }
  }

  /** The keys of the dictionary, in order. */
  function Keys(locs: Locations): (keys: seq<string>)
  {
    seq(|locs|, i requires 0 <= i < |locs| => locs[i].0)
  }

  /** Each area appears once, exactly the areas of the data set appear,
      and an area's list holds each of its roads once and no other road. */
  lemma LocationsOfMeaning(rows: seq<Row>)
    ensures var locs := LocationsOf(rows);
            forall i, j :: 0 <= i < j < |locs| ==> locs[i].0 != locs[j].0
    ensures forall a :: a in Keys(LocationsOf(rows)) <==> a in AreaNames(rows)
    ensures var locs := LocationsOf(rows);
            forall i, road :: 0 <= i < |locs| ==>
              (road in locs[i].1 <==> exists k :: 0 <= k < |rows| && rows[k].area == locs[i].0 && rows[k].road == road)
    ensures var locs := LocationsOf(rows);
            forall i, m, n :: 0 <= i < |locs| && 0 <= m < n < |locs[i].1| ==> locs[i].1[m] != locs[i].1[n]
  {
    assert Keys(LocationsOf(rows)) == Distinct(AreaNames(rows));
  }
}
