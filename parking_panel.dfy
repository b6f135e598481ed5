/** The parking panel (components/ParkingPanel.js): whether it renders,
    the price colour, the rating stars, which card is marked selected, and
    the opening-hours preview. */
module ParkingPanel {
  import opened Common
  import opened ParkingSpots

  /** What the panel renders: nothing, the no-results message, or one card
      per spot. */
  datatype Panel = NoPanel | NoResults | Cards(cards: seq<Spot>)

  function PanelOf(showParkingInfo: bool, parkingSpots: seq<Spot>): (p: Panel)
    ensures !showParkingInfo <==> p == NoPanel
    ensures showParkingInfo && parkingSpots == [] <==> p == NoResults
    ensures p.Cards? ==> p.cards == parkingSpots && |p.cards| > 0
  {
    if !showParkingInfo then NoPanel
    else if parkingSpots == [] then NoResults
    else Cards(parkingSpots)
  }

  /** getPriceLevelColor: `priceLevel <= 2` also takes negative levels. */
  function PriceLevelColor(priceLevel: Option<int>): (color: string)
    ensures priceLevel.None? <==> color == "text-gray-500"
    ensures priceLevel == Some(0) <==> color == "text-green-600"
    ensures color == "text-yellow-600" <==> priceLevel.Some? && priceLevel.value != 0 && priceLevel.value <= 2
    ensures color == "text-red-600" <==> priceLevel.Some? && priceLevel.value >= 3
  {
    if priceLevel.None? then "text-gray-500"
    else if priceLevel.value == 0 then "text-green-600"
    else if priceLevel.value <= 2 then "text-yellow-600"
    else "text-red-600"
  }

  /** The colour and the text agree: green exactly for "Free", gray exactly
      for a missing level, and a level the text cannot name is red or,
      when negative, yellow. */
  lemma PriceColorMatchesText(priceLevel: Option<int>)
    ensures PriceLevelColor(priceLevel) == "text-green-600" <==> PriceLevelText(priceLevel) == "Free"
    ensures PriceLevelColor(priceLevel) == "text-gray-500" ==> PriceLevelText(priceLevel) == "Price not available"
    ensures priceLevel.Some? && priceLevel.value > 4 ==>
              PriceLevelText(priceLevel) == "Price not available" && PriceLevelColor(priceLevel) == "text-red-600"
    ensures priceLevel.Some? && priceLevel.value < 0 ==>
              PriceLevelText(priceLevel) == "Price not available" && PriceLevelColor(priceLevel) == "text-yellow-600"
  {
  }

  /** `x % 1` on a number: JavaScript's remainder takes the dividend's
      sign. */
  function Mod1(x: real): (r: real)
    ensures x >= 0.0 ==> 0.0 <= r < 1.0
    ensures x < 0.0 ==> -1.0 < r <= 0.0
  {
    x - Trunc(x) as real
  }

  /** The star counts of getRatingStars. */
  datatype Stars = Stars(full: int, half: bool, empty: int)

  function StarCounts(rating: real): (s: Stars)
    ensures s.full == rating.Floor
    ensures s.half <==> Mod1(rating) >= 0.5
    ensures s.full + (if s.half then 1 else 0) + s.empty == 5
  {
    var fullStars := rating.Floor;
    var hasHalfStar := Mod1(rating) >= 0.5;
    Stars(fullStars, hasHalfStar, 5 - fullStars - (if hasHalfStar then 1 else 0))
  }

  /** `c.repeat(n)`; None is the RangeError of a negative count. */
  function Repeat(c: char, n: int): (s: Option<string>)
    ensures s.None? <==> n < 0
    ensures s.Some? ==> |s.value| == n && forall i :: 0 <= i < n ==> s.value[i] == c
  {
    if n < 0 then None else Some(seq(n, i => c))
  }

  const FullStar: char := '★'
  const OpenStar: char := '☆'

  /** The rendered stars: full stars, the half star (drawn with the same
      open star as the empty ones), then the empty stars. */
  function RatingStars(rating: real): (text: Option<string>)
  {
    var s := StarCounts(rating);
    var full := Repeat(FullStar, s.full);
    var empty := Repeat(OpenStar, s.empty);
    if full.None? || empty.None? then None
    else Some(full.value + (if s.half then [OpenStar] else []) + empty.value)
  }

  /** For a rating between 0 and 5 there are always five stars: floor(rating)
      full ones, then a half star exactly when the fraction is at least 0.5,
      then the empty ones. A rating of 5.5 or more makes repeat throw. */
  lemma RatingStarsShape(rating: real)
    ensures 0.0 <= rating <= 5.0 ==>
              var s := StarCounts(rating);
              s.full >= 0 && s.empty >= 0 && RatingStars(rating).Some? && |RatingStars(rating).value| == 5
              && (forall i :: 0 <= i < s.full ==> RatingStars(rating).value[i] == FullStar)
              && (forall i :: s.full <= i < 5 ==> RatingStars(rating).value[i] == OpenStar)
    ensures rating >= 0.0 ==> (StarCounts(rating).half <==> rating - rating.Floor as real >= 0.5)
    ensures rating >= 5.5 ==> RatingStars(rating).None?
  {
    if 0.0 <= rating <= 5.0 {
      var s := StarCounts(rating);
      if rating == 5.0 {
        assert s.full == 5 && !s.half;
      } else {
        assert rating.Floor <= 4;
        assert s.empty >= 0;
      }
    }
    if rating >= 5.5 {
      var s := StarCounts(rating);
      assert s.full >= 5;
      assert Mod1(rating) == rating - rating.Floor as real;
      if s.full == 5 {
        assert s.half;
      }
      assert s.empty < 0;
    }
  }

  /** `selectedParkingSpot?.id === spot.id`: with nothing selected the
      left side is undefined, which equals a missing id. */
  predicate MarkedSelected(selected: Option<Spot>, spot: Spot)
  {
    if selected.None? then spot.id.None? else selected.value.id == spot.id
  }

  /** A spot is marked exactly when it has the selected spot's id; with
      nothing selected, exactly the spots without an id are marked. */
  lemma MarkedSelectedIff(selected: Option<Spot>, spots: seq<Spot>)
    ensures selected.Some? ==> forall k :: 0 <= k < |spots| ==>
              (MarkedSelected(selected, spots[k]) <==> spots[k].id == selected.value.id)
    ensures selected.None? ==> forall k :: 0 <= k < |spots| ==>
              (MarkedSelected(selected, spots[k]) <==> spots[k].id.None?)
    ensures selected.Some? && selected.value in spots ==> exists k :: 0 <= k < |spots| && MarkedSelected(selected, spots[k])
  {
    if selected.Some? && selected.value in spots {
      var k :| 0 <= k < |spots| && spots[k] == selected.value;
      assert MarkedSelected(selected, spots[k]);
    }
  }

  /** The opening-hours preview: the first two entries and, for more than
      two, the "+ n more days" line; nothing for an empty list. */
  datatype Hours = NoHours | HoursPreview(shown: seq<string>, more: Option<string>)

  function HoursOf(openingHours: seq<string>): (h: Hours)
    ensures h.NoHours? <==> openingHours == []
    ensures h.HoursPreview? ==> |h.shown| == Min(2, |openingHours|) && h.shown == openingHours[..|h.shown|]
    ensures h.HoursPreview? ==> (h.more.Some? <==> |openingHours| > 2)
    ensures h.HoursPreview? && h.more.Some? ==> h.more.value == "+ " + NatToString(|openingHours| - 2) + " more days"
  {
    if openingHours == [] then NoHours
    else
      var n := |openingHours|;
      HoursPreview(openingHours[..Min(2, n)], if n > 2 then Some("+ " + NatToString(n - 2) + " more days") else None)
  }

  /** The preview accounts for every entry: the ones shown plus the number
      in the "more" line make up the list. */
  lemma HoursAccounted(openingHours: seq<string>)
    requires openingHours != []
    ensures var h := HoursOf(openingHours);
            |h.shown| + (if h.more.Some? then DigitsValue(NatToString(|openingHours| - 2)) else 0) == |openingHours|
  {
    if |openingHours| > 2 {
      DigitsValueOfNatToString(|openingHours| - 2);
    }
  }

  /** The status line: shown unless isOpen is null. */
  function StatusText(isOpen: Option<bool>): (text: Option<string>)
    ensures text.None? <==> isOpen.None?
    ensures isOpen == Some(true) <==> text == Some("Open Now")
    ensures isOpen == Some(false) <==> text == Some("Closed Now")
  {
    if isOpen.None? then None else if isOpen.value then Some("Open Now") else Some("Closed Now")
  }

  /** The rating row appears only for a positive rating. */
  predicate ShowsRating(spot: Spot)
  {
    spot.rating > 0.0
  }
}
