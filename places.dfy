/** Candidate places and the three metrics the trip optimizer attaches to each
    of them: distance from the user, travel time and score. */
module Places {

  /** A point on the map in degrees, as the optimizer's `current_location`. */
  datatype Location = Location(lat: real, lng: real)

  /** One candidate place, with the keys a caller hands to the optimizer. */
  datatype Place = Place(
    id: string,
    name: string,
    lat: real,
    lng: real,
    rating: real,
    visitDurationMinutes: real)
  {
    /** Where the place is; the distance computation reads only these two keys. */
    function Coords(): Location { Location(lat, lng) }
  }

  /** A place with every original field kept, plus the three metrics. */
  datatype ScoredPlace = ScoredPlace(
    place: Place,
    distanceFromUser: real,
    travelTimeFromUser: real,
    score: real)

  /** Assumed average city travel speed. */
  const SpeedKmh: real := 30.0
  const RatingWeight: real := 10.0
  const DistanceWeight: real := 2.0

  /** Minutes to cover `distanceKm` at the assumed city speed. */
  function EstimateTravelTime(distanceKm: real): (minutes: real)
    ensures minutes == 2.0 * distanceKm
    ensures 0.0 <= distanceKm ==> 0.0 <= minutes
  {
    (distanceKm / SpeedKmh) * 60.0
  }

  /** A farther place never takes less time to reach. */
  lemma TravelTimeMonotone(d1: real, d2: real)
    requires d1 <= d2
    ensures EstimateTravelTime(d1) <= EstimateTravelTime(d2)
    ensures d1 < d2 ==> EstimateTravelTime(d1) < EstimateTravelTime(d2)
  {
  }

  /** Higher rating raises the score, larger distance lowers it. */
  function ScorePlace(place: Place, distance: real): (score: real)
  {
    place.rating * RatingWeight - distance * DistanceWeight
  }

  lemma ScoreIncreasesWithRating(p: Place, q: Place, distance: real)
    requires p.rating < q.rating
    ensures ScorePlace(p, distance) < ScorePlace(q, distance)
  {
  }

  lemma ScoreDecreasesWithDistance(p: Place, d1: real, d2: real)
    requires d1 < d2
    ensures ScorePlace(p, d2) < ScorePlace(p, d1)
  {
  }

  /** The enriched record for `place` at `distance` from the user. */
  function Enrich(place: Place, distance: real): (enriched: ScoredPlace)
  {
    ScoredPlace(place, distance, EstimateTravelTime(distance), ScorePlace(place, distance))
  }

  /** Minutes a place takes out of the budget: getting there plus the visit. */
  function Cost(p: ScoredPlace): (minutes: real)
  {
    p.travelTimeFromUser + p.place.visitDurationMinutes
  }

  /** A place at a non-negative distance with a non-negative visit never costs
      negative time. */
  lemma CostOfEnriched(place: Place, distance: real)
    ensures Cost(Enrich(place, distance)) == 2.0 * distance + place.visitDurationMinutes
    ensures 0.0 <= distance && 0.0 <= place.visitDurationMinutes ==> 0.0 <= Cost(Enrich(place, distance))
  {
  }

  /** Every place of `s` carries the metrics of its own distance. */
  ghost predicate WellScored(s: seq<ScoredPlace>)
  {
    forall k :: 0 <= k < |s| ==> s[k] == Enrich(s[k].place, s[k].distanceFromUser)
  }

  /** The metrics pass: one enriched record per candidate, in candidate order,
      with the distance measured from `from`. */
  function EnrichAll(places: seq<Place>, from: Location, distance: (Location, Location) -> real): (r: seq<ScoredPlace>)
    ensures |r| == |places|
    ensures forall k :: 0 <= k < |r| ==>
      r[k].place == places[k] &&
      r[k].distanceFromUser == distance(from, places[k].Coords()) &&
      r[k].travelTimeFromUser == 2.0 * r[k].distanceFromUser &&
      r[k].score == places[k].rating * 10.0 - 2.0 * r[k].distanceFromUser
    ensures WellScored(r)
  {
    var r := seq(|places|, k requires 0 <= k < |places| => Enrich(places[k], distance(from, places[k].Coords())));
    assert forall k :: 0 <= k < |r| ==> r[k] == Enrich(places[k], distance(from, places[k].Coords()));
    r
  }
}
