# Trip optimizer itinerary selector, in Dafny

This project models the itinerary selector of the trip planner: the
`TripOptimizer` class in `src/utils/tripOptimizer.py`. Given the user's
location, a time budget in minutes and a list of candidate places, the
optimizer does three things:

1. **Metrics.** For every place it works out the distance from the user, the
   travel time at 30 km/h (`distance / 30 * 60` minutes) and a score
   (`rating * 10 - distance * 2`). It then builds an enriched record that
   keeps the place and adds the three values.
2. **Sort.** It sorts the records by score, best first. The library sort is
   stable, so places with equal scores keep their input order.
3. **Greedy pass.** It walks the sorted list once and keeps a running total
   of minutes used. A place is kept when the total plus its travel time plus
   its visit duration is at most the budget. Otherwise the place is dropped
   and never looked at again.

Files:

- `places.dfy` (module `Places`): the `Location`, `Place` and `ScoredPlace`
  datatypes, `EstimateTravelTime`, `ScorePlace`, the enrichment (`Enrich`,
  `EnrichAll`) and the cost of a place.
- `score_sort.dfy` (module `ScoreSort`): `SortByScore`, a stable insertion
  sort on descending score, and proofs that it orders, permutes and is
  stable. It also proves that a stable descending sort has only one possible
  result. So `SortByScore` gives exactly the order the library sort gives,
  whatever algorithm that sort uses internally.
- `greedy.dfy` (module `Greedy`): `Select`, the greedy pass as a function
  over a prefix of the sorted list, and its properties. These cover the
  budget bound, the decision rule, subsequence and order, irrevocability,
  maximality, a negative budget and idempotence.
- `trip_optimizer.dfy` (module `Optimizer`): the class `TripOptimizer` and
  its fields `currentLocation` and `availableTime`. `GenerateItinerary` is
  written imperatively, with the source's two loops and the sort between
  them. It is proved equal to `Itinerary`, the composition of the three
  steps. End-to-end lemmas about `Itinerary` sit beside it.

The distance between two locations is a parameter of `GenerateItinerary`
(`distance: (Location, Location) -> real`), because the Haversine computation
is not part of this model. All numbers are `real`.

The optimizer has no return leg home and does not drop closed places. It
returns only the kept trip, with no skipped list or summary. The score is the
linear `rating * 10 - distance * 2`, and the budget test counts only travel to
the place plus the visit. The model follows this code.

## Model

| member | source | states |
|---|---|---|
| `Places.EstimateTravelTime` | src/utils/tripOptimizer.py:22-25 | travel time in minutes is exactly twice the distance in km, and is non-negative for a non-negative distance |
| `Places.TravelTimeMonotone` | src/utils/tripOptimizer.py:22-25 | a farther place never takes less time to reach; a strictly farther one takes strictly longer |
| `Places.ScoreIncreasesWithRating` | src/utils/tripOptimizer.py:31-35 | at the same distance, a higher rating gives a strictly higher score |
| `Places.ScoreDecreasesWithDistance` | src/utils/tripOptimizer.py:31-35 | for the same place, a larger distance gives a strictly lower score |
| `Places.CostOfEnriched` | src/utils/tripOptimizer.py:68 | the budget cost of an enriched place is twice its distance plus its visit duration, and is non-negative when both are |
| `Places.EnrichAll` | src/utils/tripOptimizer.py:44-57 | one record per input place, in input order; each keeps the place and carries its distance from the user, travel time 2*distance and score rating*10 - 2*distance |
| `ScoreSort.SortByScoreSorted` | src/utils/tripOptimizer.py:61 | the sorted list has non-increasing scores |
| `ScoreSort.SortByScorePermutation` | src/utils/tripOptimizer.py:61 | the sorted list is a permutation of its input (same multiset, same length) |
| `ScoreSort.SortByScoreStable` | src/utils/tripOptimizer.py:61 | for every score value, the places with that score appear in the same relative order as in the input |
| `ScoreSort.StableSortUnique` | src/utils/tripOptimizer.py:61 | two score-sorted lists that agree on the order of every group of equal-score places are equal |
| `ScoreSort.StableSortIsSortByScore` | src/utils/tripOptimizer.py:61 | any list that is sorted by descending score and keeps every tie group in input order is exactly `SortByScore` of the input, so the model's sort is the library's |
| `Greedy.SelectWithinBudget` | src/utils/tripOptimizer.py:64-73 | the time used by the kept trip never exceeds a non-negative budget; whenever anything is kept, the time used is within the budget |
| `Greedy.SelectDecision` | src/utils/tripOptimizer.py:67-76 | the i-th place is appended if and only if the time used by the places kept before it plus its cost is at most the budget (so an exact fill is accepted); otherwise the trip is unchanged |
| `Greedy.SelectPrefix` | src/utils/tripOptimizer.py:67-76 | decisions are irrevocable: the trip kept after the first i places is a prefix of the final trip |
| `Greedy.UsedGrows` | src/utils/tripOptimizer.py:71-73 | with non-negative costs, the time used after any prefix is at most the final time used |
| `Greedy.SelectMaximal` | src/utils/tripOptimizer.py:71-76 | with non-negative costs, a place that was dropped still does not fit on top of the final trip |
| `Greedy.SelectIsSubsequence` | src/utils/tripOptimizer.py:67-72 | the kept trip is a subsequence of the sorted list |
| `Greedy.SubsequenceLength` | src/utils/tripOptimizer.py:67-72 | a subsequence is no longer than the list it comes from, and its places are a sub-multiset of that list |
| `Greedy.SubsequenceSorted` | src/utils/tripOptimizer.py:67-72 | a subsequence of a list ordered by non-increasing score is itself so ordered |
| `Greedy.SelectNegativeBudget` | src/utils/tripOptimizer.py:64-78 | with a negative budget and non-negative costs, nothing is kept |
| `Greedy.SelectIdempotent` | src/utils/tripOptimizer.py:64-78 | running the greedy pass on its own result returns that result unchanged |
| `Optimizer.ItineraryShape` | src/utils/tripOptimizer.py:38-78 | the returned trip is sorted by non-increasing score, is no longer than the input, fits a non-negative budget, and contains only enriched input places |
| `Optimizer.HigherRatedCloserFirst` | src/utils/tripOptimizer.py:59-61 | in the returned trip, a later place is never both better rated and no farther away than an earlier one |
| `Optimizer.ItineraryEmptyInput` | src/utils/tripOptimizer.py:44-78 | no candidate places give an empty trip |
| `Optimizer.ItineraryNegativeBudget` | src/utils/tripOptimizer.py:64-78 | a negative budget, with non-negative distances and visit durations, gives an empty trip |
| `Optimizer.TripOptimizer.constructor` | src/utils/tripOptimizer.py:4-7 | the optimizer holds the given location and available minutes |
| `Optimizer.TripOptimizer.GenerateItinerary` | src/utils/tripOptimizer.py:38-78 | the metrics loop, the sort and the greedy loop return exactly `Itinerary` of the inputs; the greedy loop keeps the running total equal to the total cost of the kept places and, for a non-negative budget, within the budget at every step; the result is score-sorted, no longer than the input, within a non-negative budget, and made of enriched input places |

## Left out

- `calculate_distance` (src/utils/tripOptimizer.py:10-20): the Haversine formula uses floating-point trigonometry. The distance is a function parameter of `GenerateItinerary`. Lemmas that need non-negative distances state that as a precondition.
- Floating-point behaviour: travel time, score, costs and the budget are `real`. Rounding, NaN scores and infinities are not modelled.
- Python's dictionary spreading keeps every key of a place, including keys the optimizer does not know about. `Place` has only the documented keys: id, name, lat, lng, rating and visit duration in minutes.
- The sort is a library call, and the model gives its result, not its internal steps. `SortByScore` is a function, and the method assigns its value to the list. `StableSortIsSortByScore` shows that every stable descending sort gives this same result.
- `ScorePlace`: has no contract of its own. Its meaning is given by the two monotonicity lemmas and by `EnrichAll`'s contract.
- The `itinerary` field (src/utils/tripOptimizer.py:8) is set to an empty list and never used. The usage example in comments (src/utils/tripOptimizer.py:80-83) is not modelled either.
