/** What the three place searches (hooks/useEvStations.js,
    hooks/useAccidentZones.js, hooks/useParkingSpots.js) share: the
    Places result record, the first-wins merge by place id, sampling of
    every n-th path point, ordering by a distance that may be missing,
    and the distance label. */
module Places {
  import opened Common

  /** A Places search result; each field is None when absent, and
      `location` is also None when it is not a LatLng object, `rating`
      when it is not a number. */
  datatype Place = Place(
    placeId: Option<string>,
    name: Option<string>,
    vicinity: Option<string>,
    formattedAddress: Option<string>,
    location: Option<LatLng>,
    rating: Option<real>,
    userRatingsTotal: Option<nat>,
    priceLevel: Option<int>)

  /** A Places details response (getDetails). */
  datatype Details = Details(
    name: Option<string>,
    formattedAddress: Option<string>,
    rating: Option<real>,
    userRatingsTotal: Option<nat>,
    isOpen: Option<bool>,
    weekdayText: Option<seq<string>>,
    priceLevel: Option<int>)

  /** `place.place_id` is truthy. */
  predicate HasId(p: Place)
  {
    p.placeId.Some? && p.placeId.value != ""
  }

  function IdsOf(ps: seq<Place>): set<string>
  {
    set p | p in ps && HasId(p) :: p.placeId.value
  }

  // ---------------------------------------------------------------------
  // First-wins merge by place id.

  /** The values of the Map that the merge loops fill, in insertion order:
      a place is added when its id is truthy and not yet a key. */
  function Merged(places: seq<Place>): (m: seq<Place>)
    decreases |places|
  {
    if places == [] then []
    else
      var m := Merged(places[..|places| - 1]);
      var p := places[|places| - 1];
      if HasId(p) && p.placeId.value !in IdsOf(m) then m + [p] else m
  }

  /** The loop of the merge, over a Map from id to place (the keys are the
      set `seen`, the values in insertion order the list `merged`). */
  method MergeById(places: seq<Place>) returns (merged: seq<Place>)
    ensures merged == Merged(places)
  {
    merged := [];
    var seen: set<string> := {};
    for i := 0 to |places|
      invariant merged == Merged(places[..i])
      invariant seen == IdsOf(merged)
    {
      var place := places[i];
      assert places[..i + 1][..i] == places[..i];
      if HasId(place) && place.placeId.value !in seen {
        seen := seen + {place.placeId.value};
        merged := merged + [place];
      }
    }
    assert places[..|places|] == places;
  }

  /** The position of the first place carrying `id`. */
  function FirstWithId(ps: seq<Place>, id: string): (k: Option<nat>)
    ensures k.Some? ==> k.value < |ps| && ps[k.value].placeId == Some(id)
                        && forall j :: 0 <= j < k.value ==> ps[j].placeId != Some(id)
    ensures k.None? <==> forall j :: 0 <= j < |ps| ==> ps[j].placeId != Some(id)
    decreases |ps|
  {
    if ps == [] then None
    else
      var k := FirstWithId(ps[..|ps| - 1], id);
      if k.Some? then k
      else if ps[|ps| - 1].placeId == Some(id) then Some(|ps| - 1)
      else None
  }

  /** Every merged place has a truthy id, and no id occurs twice. */
  lemma {:induction false} MergedDistinct(places: seq<Place>)
    ensures forall j :: 0 <= j < |Merged(places)| ==> HasId(Merged(places)[j])
    ensures forall j, k :: 0 <= j < k < |Merged(places)| ==>
              Merged(places)[j].placeId != Merged(places)[k].placeId
    decreases |places|
  {
    if places != [] {
      var init := places[..|places| - 1];
      MergedDistinct(init);
      var m := Merged(init);
      forall j | 0 <= j < |m|
        ensures m[j].placeId.value in IdsOf(m)
      {
        assert m[j] in m;
      }
    }
  }

  /** Every truthy id of the input is an id of the merge. */
  lemma {:induction false} MergedComplete(places: seq<Place>)
    ensures forall i :: 0 <= i < |places| && HasId(places[i]) ==> places[i].placeId.value in IdsOf(Merged(places))
    ensures forall p :: p in Merged(places) ==> p in places
    decreases |places|
  {
    if places != [] {
      var init := places[..|places| - 1];
      MergedComplete(init);
      var m := Merged(init);
      var last := places[|places| - 1];
      forall i | 0 <= i < |places| && HasId(places[i])
        ensures places[i].placeId.value in IdsOf(Merged(places))
      {
        if i < |places| - 1 {
          assert places[i] == init[i];
          var p :| p in m && HasId(p) && p.placeId.value == places[i].placeId.value;
          assert p in Merged(places);
        } else if last.placeId.value !in IdsOf(m) {
          assert last in Merged(places);
        } else {
          var p :| p in m && HasId(p) && p.placeId.value == last.placeId.value;
          assert p in Merged(places);
        }
      }
      forall p | p in Merged(places)
        ensures p in places
      {
        if p in m {
          assert p in init;
        }
      }
    }
  }

  /** Each merged place is the first input place with its id, and the
      merge lists them in the order of those first occurrences. */
  lemma {:induction false} MergedFirstWins(places: seq<Place>)
    ensures forall j :: 0 <= j < |Merged(places)| ==>
              HasId(Merged(places)[j]) &&
              FirstWithId(places, Merged(places)[j].placeId.value).Some?
              && places[FirstWithId(places, Merged(places)[j].placeId.value).value] == Merged(places)[j]
    ensures forall j, k :: 0 <= j < k < |Merged(places)| ==>
              HasId(Merged(places)[j]) && HasId(Merged(places)[k]) &&
              var a := FirstWithId(places, Merged(places)[j].placeId.value);
              var b := FirstWithId(places, Merged(places)[k].placeId.value);
              a.Some? && b.Some? && a.value < b.value
    decreases |places|
  {
    MergedDistinct(places);
    if places != [] {
      var init := places[..|places| - 1];
      MergedFirstWins(init);
      MergedDistinct(init);
      MergedComplete(init);
      var m := Merged(init);
      var last := places[|places| - 1];
      forall j | 0 <= j < |m|
        ensures FirstWithId(places, m[j].placeId.value) == FirstWithId(init, m[j].placeId.value)
        ensures FirstWithId(init, m[j].placeId.value).Some?
        ensures places[FirstWithId(places, m[j].placeId.value).value] == m[j]
      {
      }
      if HasId(last) && last.placeId.value !in IdsOf(m) {
        var id := last.placeId.value;
        forall i | 0 <= i < |init|
          ensures init[i].placeId != Some(id)
        {
          if init[i].placeId == Some(id) {
            assert HasId(init[i]);
          }
        }
        assert FirstWithId(init, id).None?;
        assert FirstWithId(places, id) == Some(|places| - 1);
      }
    }
  }

  /** The results of one nearby search per centre, one list after the other
      (`(await Promise.all(centres.map(search))).flat()`). */
  function SearchAll(centres: seq<LatLng>, nearby: LatLng -> seq<Place>): seq<Place>
  {
    if centres == [] then [] else nearby(centres[0]) + SearchAll(centres[1..], nearby)
  }

  // ---------------------------------------------------------------------
  // Every n-th point of a path.

  /** `path.filter((_, idx) => idx % step === 0)` on the positions from
      `from` on. */
  function EveryNth(path: seq<LatLng>, step: nat, from: nat): (r: seq<LatLng>)
    requires step > 0 && from <= |path|
    ensures |r| <= |path| - from
    decreases |path| - from
  {
    if from == |path| then []
    else (if from % step == 0 then [path[from]] else []) + EveryNth(path, step, from + 1)
  }

  /** Division with remainder has one answer. */
  lemma DivModUnique(x: int, s: int, q: int, r: int)
    requires s > 0 && 0 <= r < s && x == s * q + r
    ensures x / s == q && x % s == r
  {
    var q', r' := x / s, x % s;
    assert s * (q - q') == r' - r;
    if q > q' {
      MulAtLeast(s, q - q');
    } else if q < q' {
      MulAtLeast(s, q' - q);
    }
  }

  lemma MulAtLeast(s: int, k: int)
    requires s > 0 && k >= 1
    ensures s * k >= s
  {
  }

  lemma {:induction false} EveryNthSkip(path: seq<LatLng>, step: nat, from: nat, upto: nat)
    requires step > 0 && from <= upto <= |path|
    requires forall x :: from <= x < upto ==> x % step != 0
    ensures EveryNth(path, step, from) == EveryNth(path, step, upto)
    decreases upto - from
  {
    if from < upto {
      EveryNthSkip(path, step, from + 1, upto);
    }
  }

  /** From a multiple of the step the filter takes that point and then
      resumes at the next multiple. */
  lemma EveryNthAtMultiple(path: seq<LatLng>, step: nat, i: nat)
    requires step > 0 && i < |path| && i % step == 0
    ensures (i + step) % step == 0
    ensures EveryNth(path, step, i) == [path[i]] + EveryNth(path, step, Min(i + step, |path|))
  {
    var q := i / step;
    DivModUnique(i, step, q, 0);
    DivModUnique(i + step, step, q + 1, 0);
    forall x | i + 1 <= x < Min(i + step, |path|)
      ensures x % step != 0
    {
      DivModUnique(x, step, q, x - i);
    }
    EveryNthSkip(path, step, i + 1, Min(i + step, |path|));
  }

  /** One step less of path is one sample less, rounded up. */
  lemma CeilSteps(n: nat, step: nat)
    requires step > 0 && n > 0
    ensures n < step ==> (n + step - 1) / step == 1
    ensures n >= step ==> (n + step - 1) / step == (n - step + step - 1) / step + 1
  {
    var x := n - 1;
    if n < step {
      DivModUnique(n + step - 1, step, 1, n - 1);
    } else {
      DivModUnique(x, step, x / step, x % step);
      DivModUnique(x + step, step, x / step + 1, x % step);
    }
  }

  /** The filter keeps ceil((|path| - i) / step) points from a multiple i. */
  lemma {:induction false} EveryNthLength(path: seq<LatLng>, step: nat, i: nat)
    requires step > 0 && i <= |path| && i % step == 0
    ensures |EveryNth(path, step, i)| == (|path| - i + step - 1) / step
    decreases |path| - i
  {
    if i == |path| {
      DivModUnique(step - 1, step, 0, step - 1);
    } else {
      EveryNthAtMultiple(path, step, i);
      CeilSteps(|path| - i, step);
      if i + step <= |path| {
        EveryNthLength(path, step, i + step);
      }
    }
  }

  /** Sample k is the point at position i + k * step. */
  lemma {:induction false} EveryNthAt(path: seq<LatLng>, step: nat, i: nat, k: nat)
    requires step > 0 && i <= |path| && i % step == 0 && k < |EveryNth(path, step, i)|
    ensures i + k * step < |path| && EveryNth(path, step, i)[k] == path[i + k * step]
    decreases k
  {
    EveryNthAtMultiple(path, step, i);
    if k > 0 {
      EveryNthAt(path, step, Min(i + step, |path|), k - 1);
      assert i + step + (k - 1) * step == i + k * step;
    }
  }

  // ---------------------------------------------------------------------
  // Ordering by a distance that may be missing.

  /** `(a ?? Infinity) - (b ?? Infinity) <= 0` read as an order: a missing
      key sorts after every present one. */
  predicate KeyLe(a: Option<real>, b: Option<real>)
  {
    b.None? || (a.Some? && a.value <= b.value)
  }

  ghost predicate SortedBy<T>(s: seq<T>, key: T -> Option<real>)
  {
    forall i, j :: 0 <= i < j < |s| ==> KeyLe(key(s[i]), key(s[j]))
  }

  /** `x` placed before the first element it does not exceed. */
  function Insert<T(==)>(x: T, s: seq<T>, key: T -> Option<real>): (r: seq<T>)
    ensures |r| == |s| + 1 && multiset(r) == multiset(s) + multiset{x}
  {
    if s == [] || KeyLe(key(x), key(s[0])) then [x] + s
    else
      assert s == [s[0]] + s[1..];
      [s[0]] + Insert(x, s[1..], key)
  }

  /** A head no greater than any element of a sorted tail keeps it sorted. */
  lemma SortedCons<T>(h: T, rest: seq<T>, key: T -> Option<real>)
    requires SortedBy(rest, key)
    requires forall k :: 0 <= k < |rest| ==> KeyLe(key(h), key(rest[k]))
    ensures SortedBy([h] + rest, key)
  {
    var r := [h] + rest;
    forall i, j | 0 <= i < j < |r|
      ensures KeyLe(key(r[i]), key(r[j]))
    {
      assert r[j] == rest[j - 1];
      if i > 0 {
        assert r[i] == rest[i - 1];
      }
    }
  }

  lemma {:induction false} InsertSorted<T>(x: T, s: seq<T>, key: T -> Option<real>)
    requires SortedBy(s, key)
    ensures SortedBy(Insert(x, s, key), key)
    decreases |s|
  {
    if s != [] && !KeyLe(key(x), key(s[0])) {
      var tail := s[1..];
      var rest := Insert(x, tail, key);
      InsertSorted(x, tail, key);
      assert SortedBy(tail, key);
      forall k | 0 <= k < |rest|
        ensures KeyLe(key(s[0]), key(rest[k]))
      {
        var y := rest[k];
        assert y in multiset(rest);
        if y != x {
          assert y in multiset(tail);
          var m :| 0 <= m < |tail| && tail[m] == y;
          assert s[m + 1] == y;
        }
      }
      SortedCons(s[0], rest, key);
      assert Insert(x, s, key) == [s[0]] + rest;
    }
  }

  /** Array.prototype.sort with the comparator of a key that may be missing. */
  function SortByKey<T(==)>(s: seq<T>, key: T -> Option<real>): (r: seq<T>)
    ensures |r| == |s| && multiset(r) == multiset(s)
    ensures SortedBy(r, key)
  {
    if s == [] then []
    else
      assert s == [s[0]] + s[1..];
      InsertSorted(s[0], SortByKey(s[1..], key), key);
      Insert(s[0], SortByKey(s[1..], key), key)
  }

  /** The test "the key is v". */
  function HasKey<T>(key: T -> Option<real>, v: Option<real>): T -> bool
  {
    y => key(y) == v
  }

  /** Insertion puts `x` in front of every element with the same key. */
  lemma {:induction false} InsertBeforeEqualKeys<T(!new)>(x: T, t: seq<T>, key: T -> Option<real>, v: Option<real>)
    ensures Filter(Insert(x, t, key), HasKey(key, v)) == Filter([x] + t, HasKey(key, v))
    decreases |t|
  {
    var p := HasKey(key, v);
    if t != [] && !KeyLe(key(x), key(t[0])) {
      var rest := t[1..];
      assert t == [t[0]] + rest;
      InsertBeforeEqualKeys(x, rest, key, v);
      FilterCons(t[0], Insert(x, rest, key), p);
      FilterCons(x, rest, p);
      FilterCons(x, t, p);
      FilterCons(t[0], rest, p);
      // x is strictly after t[0], so their keys differ: at most one is kept.
      assert key(x) != key(t[0]);
      assert Insert(x, t, key) == [t[0]] + Insert(x, rest, key);
    }
  }

  /** The sort is stable: the elements of any one key keep their order. */
  lemma {:induction false} SortByKeyStable<T(!new)>(s: seq<T>, key: T -> Option<real>, v: Option<real>)
    ensures Filter(SortByKey(s, key), HasKey(key, v)) == Filter(s, HasKey(key, v))
  {
    if s != [] {
      var p := HasKey(key, v);
      var rest := s[1..];
      assert s == [s[0]] + rest;
      SortByKeyStable(rest, key, v);
      InsertBeforeEqualKeys(s[0], SortByKey(rest, key), key, v);
      FilterCons(s[0], SortByKey(rest, key), p);
      FilterCons(s[0], rest, p);
    }
  }

  /** Sorting the present values: nothing is invented, nothing present is
      lost, and the result is in key order. */
  lemma SortedPresent<T>(e: seq<Option<T>>, key: T -> Option<real>)
    ensures |SortByKey(Present(e), key)| <= |e|
    ensures SortedBy(SortByKey(Present(e), key), key)
    ensures forall k :: 0 <= k < |SortByKey(Present(e), key)| ==> Some(SortByKey(Present(e), key)[k]) in e
    ensures forall i :: 0 <= i < |e| && e[i].Some? ==> e[i].value in SortByKey(Present(e), key)
  {
    var p := Present(e);
    PresentMembers(e);
    var r := SortByKey(p, key);
    forall k | 0 <= k < |r|
      ensures Some(r[k]) in e
    {
      assert r[k] in multiset(p);
      var j :| 0 <= j < |p| && p[j] == r[k];
    }
    forall i | 0 <= i < |e| && e[i].Some?
      ensures e[i].value in r
    {
      assert e[i].value in multiset(r);
    }
  }

  /** `list.slice(0, n)`. */
  function Take<T>(s: seq<T>, n: nat): (r: seq<T>)
    ensures |r| == Min(n, |s|) && r == s[..|r|]
  {
    if |s| <= n then s else s[..n]
  }

  // ---------------------------------------------------------------------
  // The distance label (formatDistance, written out identically in both
  // the EV and the parking hook).

  /** `distance.toFixed(1)` for a value given in tenths. */
  function TenthsText(t: nat): string
  {
    NatToString(t / 10) + "." + [DigitChar(t % 10)]
  }

  /** formatDistance on a distance in metres; None stands for a missing
      value or NaN. Kilometres are shown with one decimal. */
  function FormatDistance(distance: Option<real>): (text: string)
  {
    if distance.None? || distance.value == 0.0 then "Distance unavailable"
    else if distance.value < 1000.0 then IntToString(Round(distance.value)) + "m"
    else
      var tenths := Round(distance.value / 100.0);
      TenthsText(tenths) + "km"
  }

  predicate EndsWith(s: string, suffix: string)
  {
    |suffix| <= |s| && s[|s| - |suffix|..] == suffix
  }

  /** The unit of the label tells the case apart: "km" exactly from 1000 m
      on, a bare "m" for other non-zero distances, and the fixed text for
      zero and missing distances. */
  lemma FormatDistanceUnit(distance: Option<real>)
    ensures FormatDistance(distance) == "Distance unavailable" <==> distance.None? || distance.value == 0.0
    ensures EndsWith(FormatDistance(distance), "km") <==> distance.Some? && distance.value >= 1000.0
    ensures EndsWith(FormatDistance(distance), "m") && !EndsWith(FormatDistance(distance), "km")
            <==> distance.Some? && distance.value != 0.0 && distance.value < 1000.0
  {
    var text := FormatDistance(distance);
    if distance.Some? && distance.value != 0.0 {
      if distance.value < 1000.0 {
        var digits := IntToString(Round(distance.value));
        assert text == digits + "m";
        var n := NatToString(if Round(distance.value) >= 0 then Round(distance.value) else -Round(distance.value));
        assert digits[|digits| - 1] == n[|n| - 1];
        assert text[|text| - 2] == digits[|digits| - 1];
        assert text[|text| - 2..] != "km";
        assert text != "Distance unavailable";
      } else {
        var digits := TenthsText(Round(distance.value / 100.0));
        assert text == digits + "km";
        assert text[|text| - 2..] == "km";
        assert text != "Distance unavailable";
      }
    }
  }

  /** Below 1000 m the label is the distance rounded to whole metres. */
  lemma FormatDistanceMetres(d: real)
    requires d != 0.0 && d < 1000.0
    ensures exists m: int :: FormatDistance(Some(d)) == IntToString(m) + "m"
                             && m as real - 0.5 <= d < m as real + 0.5
  {
    var m := Round(d);
    assert FormatDistance(Some(d)) == IntToString(m) + "m";
  }

  /** From 1000 m on the label is the distance in kilometres rounded to
      one decimal: t tenths of a kilometre, with t at least 10. */
  lemma FormatDistanceKilometres(d: real)
    requires d >= 1000.0
    ensures exists t: nat :: 10 <= t && FormatDistance(Some(d)) == TenthsText(t) + "km"
                             && t as real - 0.5 <= d / 100.0 < t as real + 0.5
  {
    var t := Round(d / 100.0);
    assert FormatDistance(Some(d)) == TenthsText(t) + "km";
  }
}
