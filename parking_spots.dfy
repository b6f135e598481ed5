/** The parking search (hooks/useParkingSpots.js): the price-level text,
    the guards and fallbacks of findParkingSpots, and its take-10 /
    filter / nearest-first pipeline. The geocoder, the two Places searches
    and the details lookup are inputs, as is the distance function. */
module ParkingSpots {
  import opened Common
  import opened Places

  /** getPriceLevelText: None is null or undefined. */
  function PriceLevelText(priceLevel: Option<int>): (text: string)
    ensures priceLevel == Some(0) <==> text == "Free"
    ensures priceLevel == Some(1) <==> text == "Inexpensive"
    ensures priceLevel == Some(2) <==> text == "Moderate"
    ensures priceLevel == Some(3) <==> text == "Expensive"
    ensures priceLevel == Some(4) <==> text == "Very Expensive"
    ensures priceLevel.None? || priceLevel.value < 0 || priceLevel.value > 4 <==> text == "Price not available"
  {
    if priceLevel.None? then "Price not available"
    else
      var levels := ["Free", "Inexpensive", "Moderate", "Expensive", "Very Expensive"];
      if 0 <= priceLevel.value < |levels| then levels[priceLevel.value] else "Price not available"
  }

  /** The distance label of the parking cards: the same rules as the EV
      station cards. */
  lemma ParkingDistanceLabel(distance: Option<real>)
    ensures FormatDistance(distance) == "Distance unavailable" <==> distance.None? || distance.value == 0.0
    ensures EndsWith(FormatDistance(distance), "km") <==> distance.Some? && distance.value >= 1000.0
    ensures distance.Some? && distance.value != 0.0 && distance.value < 1000.0 ==>
              exists m: int :: FormatDistance(distance) == IntToString(m) + "m"
                               && m as real - 0.5 <= distance.value < m as real + 0.5
  {
    FormatDistanceUnit(distance);
    if distance.Some? && distance.value != 0.0 && distance.value < 1000.0 {
      FormatDistanceMetres(distance.value);
    }
  }

  datatype Spot = Spot(
    id: Option<string>,
    name: string,
    address: string,
    location: LatLng,
    rating: real,
    totalRatings: nat,
    priceLevel: Option<int>,
    openingHours: seq<string>,
    isOpen: Option<bool>,
    distance: real)

  /** `a || b` on an optional number: a missing or zero value is falsy. */
  function OrElseReal(a: Option<real>, b: real): (r: real)
  {
    if a.Some? && a.value != 0.0 then a.value else b
  }

  function OrElseNat(a: Option<nat>, b: nat): (r: nat)
  {
    if a.Some? && a.value != 0 then a.value else b
  }

  /** The card of one search result: null without a valid location;
      otherwise the search result wins over the details. */
  function SpotOf(place: Place, details: Option<Details>, destination: LatLng, dist: Distance): (s: Option<Spot>)
    ensures s.None? <==> place.location.None?
    ensures s.Some? ==> s.value.id == place.placeId && s.value.location == place.location.value
    ensures s.Some? ==> s.value.distance == dist(destination, place.location.value)
    // name: place.name || 'Parking Area'
    ensures s.Some? && !Falsy(place.name) ==> s.value.name == place.name.value
    ensures s.Some? && Falsy(place.name) ==> s.value.name == "Parking Area"
    // address: place.vicinity || place.formatted_address || details?.formatted_address || 'Address not available'
    ensures s.Some? && !Falsy(place.vicinity) ==> s.value.address == place.vicinity.value
    ensures s.Some? && Falsy(place.vicinity) && !Falsy(place.formattedAddress) ==>
              s.value.address == place.formattedAddress.value
    ensures s.Some? && Falsy(place.vicinity) && Falsy(place.formattedAddress)
            && details.Some? && !Falsy(details.value.formattedAddress) ==>
              s.value.address == details.value.formattedAddress.value
    ensures s.Some? && Falsy(place.vicinity) && Falsy(place.formattedAddress)
            && (details.None? || Falsy(details.value.formattedAddress)) ==>
              s.value.address == "Address not available"
    // rating and totalRatings: `||`, so a zero falls through to the next source
    ensures s.Some? && place.rating.Some? && place.rating.value != 0.0 ==> s.value.rating == place.rating.value
    ensures s.Some? && (place.rating.None? || place.rating.value == 0.0) ==>
              s.value.rating == (if details.Some? && details.value.rating.Some? then details.value.rating.value else 0.0)
    ensures s.Some? && place.userRatingsTotal.Some? && place.userRatingsTotal.value != 0 ==>
              s.value.totalRatings == place.userRatingsTotal.value
    ensures s.Some? && (place.userRatingsTotal.None? || place.userRatingsTotal.value == 0) ==>
              s.value.totalRatings ==
                (if details.Some? && details.value.userRatingsTotal.Some? then details.value.userRatingsTotal.value else 0)
    // priceLevel: place.price_level ?? details?.price_level
    ensures s.Some? && place.priceLevel.Some? ==> s.value.priceLevel == place.priceLevel
    ensures s.Some? && place.priceLevel.None? ==>
              s.value.priceLevel == (if details.Some? then details.value.priceLevel else None)
    // openingHours and isOpen: only the details know them
    ensures s.Some? && details.Some? && details.value.weekdayText.Some? ==>
              s.value.openingHours == details.value.weekdayText.value
    ensures s.Some? && (details.None? || details.value.weekdayText.None?) ==> s.value.openingHours == []
    ensures s.Some? && details.None? ==> s.value.isOpen == None
    ensures s.Some? && details.Some? ==> s.value.isOpen == details.value.isOpen
  {
    if place.location.None? then None
    else
      var loc := place.location.value;
      var dAddress := if details.Some? then details.value.formattedAddress else None;
      var dRating := if details.Some? then details.value.rating else None;
      var dTotal := if details.Some? then details.value.userRatingsTotal else None;
      var dPrice := if details.Some? then details.value.priceLevel else None;
      var dHours := if details.Some? then details.value.weekdayText else None;
      Some(Spot(
        place.placeId,
        OrElse(place.name, "Parking Area"),
        OrElse(place.vicinity, OrElse(place.formattedAddress, OrElse(dAddress, "Address not available"))),
        loc,
        OrElseReal(place.rating, OrElseReal(dRating, 0.0)),
        OrElseNat(place.userRatingsTotal, OrElseNat(dTotal, 0)),
        if place.priceLevel.Some? then place.priceLevel else dPrice,
        if dHours.Some? then dHours.value else [],
        if details.Some? then details.value.isOpen else None,
        dist(destination, loc)))
  }

  function DetailsOf(place: Place, details: string -> Option<Details>): Option<Details>
  {
    if place.placeId.Some? then details(place.placeId.value) else None
  }

  /** `searchResults.slice(0, 10).map(...)`. */
  function Cards(results: seq<Place>, details: string -> Option<Details>, destination: LatLng, dist: Distance): (c: seq<Option<Spot>>)
  {
    var first := Take(results, 10);
    seq(|first|, i requires 0 <= i < |first| => SpotOf(first[i], DetailsOf(first[i], details), destination, dist))
  }

  function DistanceOf(s: Spot): Option<real>
  {
    Some(s.distance)
  }

  /** `.filter(spot => spot !== null).sort((a, b) => a.distance - b.distance)`. */
  function Spots(results: seq<Place>, details: string -> Option<Details>, destination: LatLng, dist: Distance): seq<Spot>
  {
    SortByKey(Present(Cards(results, details, destination, dist)), DistanceOf)
  }

  /** At most 10 spots, nearest first, each the card of one of the first 10
      results, and every such card with a valid location among them. */
  lemma SpotsProperties(results: seq<Place>, details: string -> Option<Details>, destination: LatLng, dist: Distance)
    ensures |Spots(results, details, destination, dist)| <= 10
    ensures forall i, j :: 0 <= i < j < |Spots(results, details, destination, dist)| ==>
              Spots(results, details, destination, dist)[i].distance <= Spots(results, details, destination, dist)[j].distance
    ensures forall k :: 0 <= k < |Spots(results, details, destination, dist)| ==>
              Some(Spots(results, details, destination, dist)[k]) in Cards(results, details, destination, dist)
    ensures forall i :: 0 <= i < Min(10, |results|) && results[i].location.Some? ==>
              SpotOf(results[i], DetailsOf(results[i], details), destination, dist).value
                in Spots(results, details, destination, dist)
  {
    var c := Cards(results, details, destination, dist);
    SortedPresent(c, DistanceOf);
    var r := Spots(results, details, destination, dist);
    forall i, j | 0 <= i < j < |r|
      ensures r[i].distance <= r[j].distance
    {
      assert KeyLe(DistanceOf(r[i]), DistanceOf(r[j]));
    }
    forall i | 0 <= i < Min(10, |results|) && results[i].location.Some?
      ensures SpotOf(results[i], DetailsOf(results[i], details), destination, dist).value in r
    {
      assert c[i].Some?;
    }
  }

  /** No search results give no spots. */
  lemma SpotsOfNothing(details: string -> Option<Details>, destination: LatLng, dist: Distance)
    ensures Spots([], details, destination, dist) == []
  {
    assert Cards([], details, destination, dist) == [];
    assert Present<Spot>([]) == [];
  }

  /** The geocoder's answer for the destination. */
  datatype GeocodeOutcome = GeocodeFailed | Geocoded(location: Option<LatLng>)

  /** The nearby search's answer: OK with its results, ZERO_RESULTS, or any
      other status. */
  datatype NearbyOutcome = NearbyOk(results: seq<Place>) | NearbyZero | NearbyFailed

  /** The searches made, with their radius. */
  datatype Search = NearbySearch(radius: nat) | TextSearch(radius: nat)

  /** The results the pipeline works on: a failed nearby search falls back
      to the text search, which gives [] on any non-OK status. */
  function SearchResults(nearby: NearbyOutcome, textResults: seq<Place>): seq<Place>
  {
    match nearby
    case NearbyOk(rs) => rs
    case NearbyZero => []
    case NearbyFailed => textResults
  }

  class ParkingFinder {
    var parkingSpots: seq<Spot>
    var showParkingInfo: bool
    var loadingParkingInfo: bool
    var selectedParkingSpot: Option<Spot>
    var parkingRadius: nat
    /** Whether placesService.current holds a service. */
    var serviceReady: bool
    var searches: seq<Search>

    constructor ()
      ensures parkingSpots == [] && !showParkingInfo && !loadingParkingInfo && selectedParkingSpot == None
      ensures parkingRadius == 500 && !serviceReady && searches == []
    {
      parkingSpots := [];
      showParkingInfo := false;
      loadingParkingInfo := false;
      selectedParkingSpot := None;
      parkingRadius := 500;
      serviceReady := false;
      searches := [];
    }

    /** findParkingSpots. `mapReadyNow` and `mapReadyLater` say whether the
        map exists before and after the half-second wait; `textResults` is
        what the fallback text search resolves. */
    method FindParkingSpots(selectedDestination: string, placesLoaded: bool, geocode: GeocodeOutcome,
                            mapReadyNow: bool, mapReadyLater: bool,
                            nearby: NearbyOutcome, textResults: seq<Place>,
                            details: string -> Option<Details>, dist: Distance)
      modifies this
      ensures parkingRadius == old(parkingRadius)
      ensures selectedDestination == "" || !placesLoaded ==>
                parkingSpots == old(parkingSpots) && showParkingInfo == old(showParkingInfo)
                && loadingParkingInfo == old(loadingParkingInfo) && selectedParkingSpot == old(selectedParkingSpot)
                && serviceReady == old(serviceReady) && searches == old(searches)
      ensures selectedDestination != "" && placesLoaded ==> !loadingParkingInfo && selectedParkingSpot == None
      ensures selectedDestination != "" && placesLoaded && (geocode.GeocodeFailed? || geocode.location.None?) ==>
                parkingSpots == [] && showParkingInfo == old(showParkingInfo) && searches == old(searches)
                && serviceReady == old(serviceReady)
      ensures selectedDestination != "" && placesLoaded && geocode.Geocoded? && geocode.location.Some? ==>
                serviceReady == (old(serviceReady) || mapReadyNow || mapReadyLater)
      ensures selectedDestination != "" && placesLoaded && geocode.Geocoded? && geocode.location.Some? && !serviceReady ==>
                parkingSpots == [] && showParkingInfo == old(showParkingInfo) && searches == old(searches)
      ensures selectedDestination != "" && placesLoaded && geocode.Geocoded? && geocode.location.Some? && serviceReady ==>
                showParkingInfo
                && searches == old(searches) + [NearbySearch(parkingRadius)]
                               + (if nearby.NearbyFailed? then [TextSearch(2 * parkingRadius)] else [])
                && parkingSpots == Spots(SearchResults(nearby, textResults), details, geocode.location.value, dist)
    {
      if selectedDestination == "" || !placesLoaded {
        return;
      }
      loadingParkingInfo := true;
      parkingSpots := [];
      selectedParkingSpot := None;

      if geocode.GeocodeFailed? {
        loadingParkingInfo := false;
        return;
      }
      if geocode.location.None? {
        loadingParkingInfo := false;
        return;
      }
      var destinationLocation := geocode.location.value;

      if !serviceReady && mapReadyNow {
        serviceReady := true;
      }
      if !serviceReady {
        if mapReadyLater {
          serviceReady := true;
        }
      }
      if !serviceReady {
        loadingParkingInfo := false;
        return;
      }

      ghost var before := searches;
      var fallback: seq<Search> := if nearby.NearbyFailed? then [TextSearch(2 * parkingRadius)] else [];
      searches := searches + [NearbySearch(parkingRadius)];
      var searchResults: seq<Place>;
      match nearby {
        case NearbyOk(rs) => searchResults := rs;
        case NearbyZero => searchResults := [];
        case NearbyFailed =>
          searches := searches + [TextSearch(parkingRadius * 2)];
          searchResults := textResults;
      }
      assert searches == before + [NearbySearch(parkingRadius)] + fallback;
      assert searchResults == SearchResults(nearby, textResults);

      if |searchResults| == 0 {
        SpotsOfNothing(details, destinationLocation, dist);
        parkingSpots := [];
        showParkingInfo := true;
        loadingParkingInfo := false;
        return;
      }

      parkingSpots := Spots(searchResults, details, destinationLocation, dist);
      showParkingInfo := true;
      loadingParkingInfo := false;
    }
  }
}
