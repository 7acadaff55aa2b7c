/** The trip optimizer: measures every candidate place from the user's
    location, orders the places best score first and keeps, in that order,
    each place that still fits in the user's time budget. */
module Optimizer {
  import opened Places
  import opened ScoreSort
  import opened Greedy

  /** What `GenerateItinerary` returns for `places`, seen from `from` with
      `budget` minutes: metrics, stable best-first sort, greedy pass. */
  function Itinerary(places: seq<Place>, from: Location, distance: (Location, Location) -> real, budget: real): (trip: seq<ScoredPlace>)
  {
    Select(SortByScore(EnrichAll(places, from, distance)), budget)
  }

  /** Every place in `a` also occurs in `b`. */
  lemma SubMultisetNonNegativeCosts(a: seq<ScoredPlace>, b: seq<ScoredPlace>)
    requires multiset(a) <= multiset(b) && NonNegativeCosts(b)
    ensures NonNegativeCosts(a)
  {
    forall k | 0 <= k < |a| ensures 0.0 <= Cost(a[k]) {
      assert a[k] in multiset(b);
      var m :| 0 <= m < |b| && b[m] == a[k];
    }
  }

  lemma SubMultisetWellScored(a: seq<ScoredPlace>, b: seq<ScoredPlace>)
    requires multiset(a) <= multiset(b) && WellScored(b)
    ensures WellScored(a)
  {
    forall k | 0 <= k < |a| ensures a[k] == Enrich(a[k].place, a[k].distanceFromUser) {
      assert a[k] in multiset(b);
      var m :| 0 <= m < |b| && b[m] == a[k];
    }
  }

  /** The returned trip is best score first, no longer than the input, within
      a non-negative budget, and made only of the enriched input places. */
  lemma ItineraryShape(places: seq<Place>, from: Location, distance: (Location, Location) -> real, budget: real)
    ensures SortedByScore(Itinerary(places, from, distance, budget))
    ensures |Itinerary(places, from, distance, budget)| <= |places|
    ensures 0.0 <= budget ==> TotalCost(Itinerary(places, from, distance, budget)) <= budget
    ensures multiset(Itinerary(places, from, distance, budget)) <= multiset(EnrichAll(places, from, distance))
  {
    var sorted := SortByScore(EnrichAll(places, from, distance));
    SortByScoreSorted(EnrichAll(places, from, distance));
    SortByScorePermutation(EnrichAll(places, from, distance));
    SelectIsSubsequence(sorted, budget);
    SubsequenceSorted(Select(sorted, budget), sorted);
    SubsequenceLength(Select(sorted, budget), sorted);
    SelectWithinBudget(sorted, budget);
  }

  /** Of two places in the trip, the later one is never both better rated and
      no farther away than the earlier one. */
  lemma HigherRatedCloserFirst(places: seq<Place>, from: Location, distance: (Location, Location) -> real, budget: real, i: nat, j: nat)
    requires i < j < |Itinerary(places, from, distance, budget)|
    ensures var trip := Itinerary(places, from, distance, budget);
      !(trip[j].place.rating > trip[i].place.rating && trip[j].distanceFromUser <= trip[i].distanceFromUser)
  {
    var trip := Itinerary(places, from, distance, budget);
    ItineraryShape(places, from, distance, budget);
    SubMultisetWellScored(trip, EnrichAll(places, from, distance));
    assert trip[i] == Enrich(trip[i].place, trip[i].distanceFromUser);
    assert trip[j] == Enrich(trip[j].place, trip[j].distanceFromUser);
  }

  /** No candidates, no trip. */
  lemma ItineraryEmptyInput(from: Location, distance: (Location, Location) -> real, budget: real)
    ensures Itinerary([], from, distance, budget) == []
  {
  }

  /** A negative budget keeps nothing when distances and visit durations are
      not negative. */
  lemma ItineraryNegativeBudget(places: seq<Place>, from: Location, distance: (Location, Location) -> real, budget: real)
    requires budget < 0.0
    requires forall k :: 0 <= k < |places| ==>
      0.0 <= distance(from, places[k].Coords()) && 0.0 <= places[k].visitDurationMinutes
    ensures Itinerary(places, from, distance, budget) == []
  {
    var enriched := EnrichAll(places, from, distance);
    forall k | 0 <= k < |enriched| ensures 0.0 <= Cost(enriched[k]) {
      CostOfEnriched(places[k], distance(from, places[k].Coords()));
    }
    SortByScorePermutation(enriched);
    SubMultisetNonNegativeCosts(SortByScore(enriched), enriched);
    SelectNegativeBudget(SortByScore(enriched), budget);
  }

  /** The optimizer for one user: where they are and how many minutes they have. */
  class TripOptimizer {
    var currentLocation: Location
    var availableTime: real

    constructor (currentLocation: Location, totalAvailableMinutes: real)
      ensures this.currentLocation == currentLocation
      ensures availableTime == totalAvailableMinutes
    {
      this.currentLocation := currentLocation;
      availableTime := totalAvailableMinutes;
    }

    /** Builds the trip for `potentialPlaces`; `distance` measures the way
        from the user's location to a place. */
    method GenerateItinerary(potentialPlaces: seq<Place>, distance: (Location, Location) -> real)
      returns (finalTrip: seq<ScoredPlace>)
      ensures finalTrip == Itinerary(potentialPlaces, currentLocation, distance, availableTime)
      ensures SortedByScore(finalTrip)
      ensures |finalTrip| <= |potentialPlaces|
      ensures 0.0 <= availableTime ==> TotalCost(finalTrip) <= availableTime
      ensures multiset(finalTrip) <= multiset(EnrichAll(potentialPlaces, currentLocation, distance))
    {
      // 1. metrics for every place
      var scoredPlaces: seq<ScoredPlace> := [];
      for i := 0 to |potentialPlaces|
        invariant |scoredPlaces| == i
        invariant forall k :: 0 <= k < i ==>
          scoredPlaces[k] == Enrich(potentialPlaces[k], distance(currentLocation, potentialPlaces[k].Coords()))
      {
        var place := potentialPlaces[i];
        var dist := distance(currentLocation, place.Coords());
        var travelTime := EstimateTravelTime(dist);
        var score := ScorePlace(place, dist);
        scoredPlaces := scoredPlaces + [ScoredPlace(place, dist, travelTime, score)];
      }
      assert scoredPlaces == EnrichAll(potentialPlaces, currentLocation, distance);

      // 2. best score first, ties in input order
      scoredPlaces := SortByScore(scoredPlaces);

      // 3. keep each place that still fits
      var currentTimeUsed := 0.0;
      finalTrip := [];
      for i := 0 to |scoredPlaces|
        invariant finalTrip == Select(scoredPlaces[..i], availableTime)
        invariant currentTimeUsed == TotalCost(finalTrip)
        invariant 0.0 <= availableTime ==> currentTimeUsed <= availableTime
      {
        SelectWithinBudget(scoredPlaces[..i + 1], availableTime);
        var place := scoredPlaces[i];
        var totalCost := place.travelTimeFromUser + place.place.visitDurationMinutes;
        assert scoredPlaces[..i + 1][..i] == scoredPlaces[..i];
        if currentTimeUsed + totalCost <= availableTime {
          TotalCostAppend(finalTrip, place);
          finalTrip := finalTrip + [place];
          currentTimeUsed := currentTimeUsed + totalCost;
        }
      }
      assert scoredPlaces[..|scoredPlaces|] == scoredPlaces;
      ItineraryShape(potentialPlaces, currentLocation, distance, availableTime);
    }
  }
}
