/** The hourly route statistics endpoint (backend/src/app.py,
    get_traffic_data): the request checks, then one statistics entry per
    hour of the day for the rows of the requested route, with a
    placeholder for an hour without rows. */
module HourlyStats {
  import opened Common

  /** An hour of the day, as `Date/Time.dt.hour` gives it. */
  type Hour = h: int | 0 <= h < 24

  /** One record of the data set. */
  datatype Row = Row(source: string, destination: string, hour: Hour, travelTime: real,
                     trafficLevel: string, weather: string, routeId: string)

  /** The statistics of one hour. */
  datatype Stats = Stats(hour: nat, travelTime: real, minTime: real, maxTime: real,
                         trafficLevel: string, weather: string, sampleSize: nat, routeId: string)

  /** A JSON reply: the entries of a success, or an HTTP status with the
      error text. */
  datatype Response = Ok(stats: seq<Stats>) | Error(status: nat, message: string)

  const NoJsonMessage := "No JSON data provided"
  const RequiredMessage := "Source and destination are required"
  const NotFoundMessage := "No data found for given route"
  const NoData := "No Data"

  // ---------------------------------------------------------------------
  // Aggregates over a column

  function Sum(s: seq<real>): real
  {
    if s == [] then 0.0 else Sum(s[..|s| - 1]) + s[|s| - 1]
  }

  function MinOf(s: seq<real>): (m: real)
    requires s != []
    ensures m in s && forall i :: 0 <= i < |s| ==> m <= s[i]
  {
    if |s| == 1 then s[0]
    else
      var init := MinOf(s[..|s| - 1]);
      assert forall i :: 0 <= i < |s| - 1 ==> s[..|s| - 1][i] == s[i];
      if s[|s| - 1] < init then s[|s| - 1] else init
  }

  function MaxOf(s: seq<real>): (m: real)
    requires s != []
    ensures m in s && forall i :: 0 <= i < |s| ==> s[i] <= m
  {
    if |s| == 1 then s[0]
    else
      var init := MaxOf(s[..|s| - 1]);
      assert forall i :: 0 <= i < |s| - 1 ==> s[..|s| - 1][i] == s[i];
      if s[|s| - 1] > init then s[|s| - 1] else init
  }

  function Mean(s: seq<real>): real
    requires s != []
  {
    Sum(s) / (|s| as real)
  }

  /** A sum lies between |s| times the least and |s| times the greatest
      term. */
  lemma {:induction false} SumBounds(s: seq<real>, lo: real, hi: real)
    requires forall i :: 0 <= i < |s| ==> lo <= s[i] <= hi
    ensures (|s| as real) * lo <= Sum(s) <= (|s| as real) * hi
  {
    if s != [] {
      SumBounds(s[..|s| - 1], lo, hi);
      assert forall i :: 0 <= i < |s| - 1 ==> s[..|s| - 1][i] == s[i];
    }
  }

  /** The mean travel time lies between the least and the greatest. */
  lemma MeanBetween(s: seq<real>)
    requires s != []
    ensures MinOf(s) <= Mean(s) <= MaxOf(s)
  {
    var lo, hi, n := MinOf(s), MaxOf(s), |s| as real;
    SumBounds(s, lo, hi);
    QuotientBetween(Sum(s), n, lo, hi);
    assert Mean(s) == Sum(s) / n;
  }

  lemma QuotientBetween(a: real, n: real, lo: real, hi: real)
    requires n > 0.0 && n * lo <= a <= n * hi
    ensures lo <= a / n <= hi
  {
    var q := a / n;
    assert n * (q - lo) == a - n * lo >= 0.0;
    assert n * (hi - q) == n * hi - a >= 0.0;
  }

  // ---------------------------------------------------------------------
  // mode().iloc[0]: the most frequent value, the least of them in
  // Python's string order when several are equally frequent.

  /** Python's `<` on strings: code point by code point, a proper prefix
      first. */
  predicate StrLess(a: string, b: string)
  {
    if a == [] then b != []
    else if b == [] then false
    else a[0] < b[0] || (a[0] == b[0] && StrLess(a[1..], b[1..]))
  }

  lemma {:induction false} StrLessIrreflexive(a: string)
    ensures !StrLess(a, a)
  {
    if a != [] {
      StrLessIrreflexive(a[1..]);
    }
  }

  lemma {:induction false} StrLessTransitive(a: string, b: string, c: string)
    requires StrLess(a, b) && StrLess(b, c)
    ensures StrLess(a, c)
  {
    if a != [] && a[0] == b[0] && b[0] == c[0] {
      StrLessTransitive(a[1..], b[1..], c[1..]);
    }
  }

  function Count(s: seq<string>, x: string): nat
  {
    multiset(s)[x]
  }

  /** x comes before y in `mode()`'s result, or only y is a mode. */
  predicate Better(s: seq<string>, x: string, y: string)
  {
    Count(s, x) > Count(s, y) || (Count(s, x) == Count(s, y) && StrLess(x, y))
  }

  lemma BetterTransitive(s: seq<string>, x: string, y: string, z: string)
    requires Better(s, x, y) && Better(s, y, z)
    ensures Better(s, x, z)
  {
    if Count(s, x) == Count(s, y) == Count(s, z) {
      StrLessTransitive(x, y, z);
    }
  }

  /** The candidate of `cands` that no other candidate beats. */
  function Best(s: seq<string>, cands: seq<string>): (b: string)
    requires cands != []
    ensures b in cands
    ensures forall i :: 0 <= i < |cands| ==> !Better(s, cands[i], b)
  {
    if |cands| == 1 then
      StrLessIrreflexive(cands[0]);
      cands[0]
    else
      var rest := Best(s, cands[1..]);
      assert forall i :: 1 <= i < |cands| ==> cands[i] == cands[1..][i - 1];
      if Better(s, cands[0], rest) then
        StrLessIrreflexive(cands[0]);
        forall i | 1 <= i < |cands|
          ensures !Better(s, cands[i], cands[0])
        {
          if Better(s, cands[i], cands[0]) {
            BetterTransitive(s, cands[i], cands[0], rest);
          }
        }
        cands[0]
      else
        rest
  }

  /** `column.mode().iloc[0]`. */
  function Mode(s: seq<string>): (m: string)
    requires s != []
    ensures m in s
    ensures forall i :: 0 <= i < |s| ==> Count(s, s[i]) <= Count(s, m)
    ensures forall i :: 0 <= i < |s| && Count(s, s[i]) == Count(s, m) ==> !StrLess(s[i], m)
  {
    Best(s, s)
  }

  // ---------------------------------------------------------------------
  // Request checks and the route's rows

  /** `data.get(key)` on the JSON object. */
  function Get(data: map<string, string>, key: string): Option<string>
  {
    if key in data then Some(data[key]) else None
  }

  /** The mask `(Source == source) & (Destination == destination)`. */
  function OnRoute(source: string, destination: string): Row -> bool
  {
    (row: Row) => row.source == source && row.destination == destination
  }

  /** `df[(Source == source) & (Destination == destination)]`, in the data
      set's order. */
  function RouteRows(rows: seq<Row>, source: string, destination: string): (r: seq<Row>)
    ensures |r| <= |rows|
    ensures forall x :: x in r <==> x in rows && x.source == source && x.destination == destination
  {
    Filter(rows, OnRoute(source, destination))
  }

  /** The mask `filtered["hour"] == hour` (the column app.py adds from `Date/Time`). */
  function AtHour(hour: int): Row -> bool
  {
    (row: Row) => row.hour == hour
  }

  /** `filtered[filtered["hour"] == hour]`, in order. */
  function RowsAt(rows: seq<Row>, hour: int): (r: seq<Row>)
    ensures |r| <= |rows|
    ensures forall x :: x in r <==> x in rows && x.hour == hour
  {
    Filter(rows, AtHour(hour))
  }

  function TravelTimes(rows: seq<Row>): (times: seq<real>)
    ensures |times| == |rows| && forall k :: 0 <= k < |rows| ==> times[k] == rows[k].travelTime
  {
    seq(|rows|, k requires 0 <= k < |rows| => rows[k].travelTime)
  }

  function TrafficLevels(rows: seq<Row>): (levels: seq<string>)
    ensures |levels| == |rows| && forall k :: 0 <= k < |rows| ==> levels[k] == rows[k].trafficLevel
  {
    seq(|rows|, k requires 0 <= k < |rows| => rows[k].trafficLevel)
  }

  function Weathers(rows: seq<Row>): (weathers: seq<string>)
    ensures |weathers| == |rows| && forall k :: 0 <= k < |rows| ==> weathers[k] == rows[k].weather
  {
    seq(|rows|, k requires 0 <= k < |rows| => rows[k].weather)
  }

  /** The statistics entry of one hour of the route's rows. */
  function StatsAt(filtered: seq<Row>, hour: Hour): Stats
  {
    var hourData := RowsAt(filtered, hour);
    if hourData != [] then
      Stats(hour, Mean(TravelTimes(hourData)), MinOf(TravelTimes(hourData)), MaxOf(TravelTimes(hourData)),
            Mode(TrafficLevels(hourData)), Mode(Weathers(hourData)), |hourData|, hourData[0].routeId)
    else
      Stats(hour, 0.0, 0.0, 0.0, NoData, NoData, 0, if filtered != [] then filtered[0].routeId else "N/A")
  }

  /** The 24 entries, hour by hour. */
  function HourlyTable(filtered: seq<Row>): (table: seq<Stats>)
    ensures |table| == 24
  {
    seq(24, h requires 0 <= h < 24 => StatsAt(filtered, h))
  }

  /** The checks of get_traffic_data: a null or empty JSON object, then a
      missing source or destination, are a 400; a route without rows is a
      404. */
  function Checked(data: Option<map<string, string>>, rows: seq<Row>): (r: Option<Response>)
    ensures r == Some(Error(400, NoJsonMessage)) <==> data.None? || data.value == map[]
    ensures r == Some(Error(400, RequiredMessage)) <==>
              data.Some? && data.value != map[]
              && (Falsy(Get(data.value, "source")) || Falsy(Get(data.value, "destination")))
    ensures r == Some(Error(404, NotFoundMessage)) <==>
              data.Some? && data.value != map[]
              && !Falsy(Get(data.value, "source")) && !Falsy(Get(data.value, "destination"))
              && RouteRows(rows, data.value["source"], data.value["destination"]) == []
    ensures r.None? ==>
              data.Some? && RouteRows(rows, data.value["source"], data.value["destination"]) != []
  {
    if data.None? || data.value == map[] then Some(Error(400, NoJsonMessage))
    else if Falsy(Get(data.value, "source")) || Falsy(Get(data.value, "destination")) then
      Some(Error(400, RequiredMessage))
    else if RouteRows(rows, data.value["source"], data.value["destination"]) == [] then
      Some(Error(404, NotFoundMessage))
    else None
  }

  /** get_traffic_data: after the checks, the loop over the 24 hours appends
      one entry per hour. */
  method GetTrafficData(data: Option<map<string, string>>, rows: seq<Row>) returns (r: Response)
    ensures Checked(data, rows).Some? ==> r == Checked(data, rows).value
    ensures Checked(data, rows).None? ==>
              r == Ok(HourlyTable(RouteRows(rows, data.value["source"], data.value["destination"])))
  {
    if data.None? || data.value == map[] {
      return Error(400, NoJsonMessage);
    }
    var source := Get(data.value, "source");
    var destination := Get(data.value, "destination");
    if Falsy(source) || Falsy(destination) {
      return Error(400, RequiredMessage);
    }
    var filtered := RouteRows(rows, source.value, destination.value);
    if filtered == [] {
      return Error(404, NotFoundMessage);
    }
    var hourlyStats := HourlyStatsOf(filtered);
    return Ok(hourlyStats);
  }

  /** The `for hour in range(24)` loop of get_traffic_data. */
  method HourlyStatsOf(filtered: seq<Row>) returns (hourlyStats: seq<Stats>)
    ensures hourlyStats == HourlyTable(filtered)
  {
    hourlyStats := [];
    for hour := 0 to 24
      invariant |hourlyStats| == hour
      invariant forall h :: 0 <= h < hour ==> hourlyStats[h] == StatsAt(filtered, h)
    {
      hourlyStats := hourlyStats + [StatsAt(filtered, hour)];
    }
  }

  // ---------------------------------------------------------------------
  // What the table promises

  /** Entry h is the hour h; an hour without rows gets the placeholder with
      the route's first row's id, and one with rows reports their count,
      their least, mean and greatest travel time in order, and modes drawn
      from them. */
  lemma {:induction false} HourlyTableEntries(filtered: seq<Row>, h: Hour)
    requires filtered != []
    ensures HourlyTable(filtered)[h].hour == h
    ensures RowsAt(filtered, h) == [] ==>
              HourlyTable(filtered)[h] == Stats(h, 0.0, 0.0, 0.0, NoData, NoData, 0, filtered[0].routeId)
    ensures RowsAt(filtered, h) != [] ==>
              var e := HourlyTable(filtered)[h];
              e.sampleSize == |RowsAt(filtered, h)| > 0
              && e.minTime <= e.travelTime <= e.maxTime
              && (exists x :: x in filtered && x.hour == h && x.trafficLevel == e.trafficLevel)
              && (exists x :: x in filtered && x.hour == h && x.weather == e.weather)
              && (exists x :: x in filtered && x.hour == h && x.routeId == e.routeId)
  {
    var hourData := RowsAt(filtered, h);
    if hourData != [] {
      MeanBetween(TravelTimes(hourData));
      var e := HourlyTable(filtered)[h];
      var levels := TrafficLevels(hourData);
      var i :| 0 <= i < |levels| && levels[i] == e.trafficLevel;
      assert hourData[i] in filtered && hourData[i].trafficLevel == e.trafficLevel;
      var weathers := Weathers(hourData);
      var j :| 0 <= j < |weathers| && weathers[j] == e.weather;
      assert hourData[j] in filtered && hourData[j].weather == e.weather;
      assert hourData[0] in hourData;
    }
  }

  /** The sample sizes of the hours below `n`. */
  function SizesBelow(filtered: seq<Row>, n: nat): nat
    requires n <= 24
  {
    if n == 0 then 0 else SizesBelow(filtered, n - 1) + |RowsAt(filtered, n - 1)|
  }

  /** The rows whose hour is below `n`. */
  function CountBelow(rows: seq<Row>, n: int): nat
  {
    if rows == [] then 0
    else CountBelow(rows[..|rows| - 1], n) + (if rows[|rows| - 1].hour < n then 1 else 0)
  }

  /** Appending a row adds one to the hours above its own. */
  lemma {:induction false} SizesBelowAppend(init: seq<Row>, last: Row, n: nat)
    requires n <= 24
    ensures SizesBelow(init + [last], n) == SizesBelow(init, n) + (if last.hour < n then 1 else 0)
  {
    if n > 0 {
      SizesBelowAppend(init, last, n - 1);
      var rows := init + [last];
      assert rows[..|rows| - 1] == init;
      assert |RowsAt(rows, n - 1)| == |RowsAt(init, n - 1)| + (if last.hour == n - 1 then 1 else 0);
    }
  }

  lemma {:induction false} SizesBelowIsCount(rows: seq<Row>, n: nat)
    requires n <= 24
    ensures SizesBelow(rows, n) == CountBelow(rows, n)
  {
    if rows != [] {
      var init := rows[..|rows| - 1];
      assert rows == init + [rows[|rows| - 1]];
      SizesBelowIsCount(init, n);
      SizesBelowAppend(init, rows[|rows| - 1], n);
    } else {
      SizesBelowEmpty(n);
    }
  }

  lemma {:induction false} SizesBelowEmpty(n: nat)
    requires n <= 24
    ensures SizesBelow([], n) == 0
  {
    if n > 0 {
      SizesBelowEmpty(n - 1);
    }
  }

  /** Every row's hour is below 24. */
  lemma {:induction false} CountBelowAll(rows: seq<Row>)
    ensures CountBelow(rows, 24) == |rows|
  {
    if rows != [] {
      CountBelowAll(rows[..|rows| - 1]);
    }
  }

  /** The sum of the sample sizes of the table's entries. */
  function TotalSamples(table: seq<Stats>): nat
  {
    if table == [] then 0 else TotalSamples(table[..|table| - 1]) + table[|table| - 1].sampleSize
  }

  lemma {:induction false} TotalSamplesIsSizes(filtered: seq<Row>, n: nat)
    requires n <= 24
    ensures TotalSamples(HourlyTable(filtered)[..n]) == SizesBelow(filtered, n)
  {
    if n > 0 {
      TotalSamplesIsSizes(filtered, n - 1);
      assert HourlyTable(filtered)[..n][..n - 1] == HourlyTable(filtered)[..n - 1];
    }
  }

  /** Every row of the route is counted in exactly one hour: the sample
      sizes add up to the number of the route's rows. */
  lemma SampleSizesSum(filtered: seq<Row>)
    ensures TotalSamples(HourlyTable(filtered)) == |filtered|
  {
    TotalSamplesIsSizes(filtered, 24);
    assert HourlyTable(filtered)[..24] == HourlyTable(filtered);
    SizesBelowIsCount(filtered, 24);
    CountBelowAll(filtered);
  }
}
