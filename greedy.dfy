/** The elimination pass: one walk over the best-first list that keeps a place
    when it still fits in the time budget and drops it for good otherwise. */
module Greedy {
  import opened Places
  import opened ScoreSort

  /** Minutes used by a trip: travel plus visit, summed over its places. */
  function TotalCost(trip: seq<ScoredPlace>): (minutes: real)
  {
    if trip == [] then 0.0 else TotalCost(trip[..|trip| - 1]) + Cost(trip[|trip| - 1])
  }

  /** The trip kept after examining `candidates` in order against `budget`:
      the last candidate is appended when the time already used plus its cost
      is at most the budget, and dropped otherwise. */
  function Select(candidates: seq<ScoredPlace>, budget: real): (trip: seq<ScoredPlace>)
  {
    if candidates == [] then []
    else
      var kept := Select(candidates[..|candidates| - 1], budget);
      var next := candidates[|candidates| - 1];
      if TotalCost(kept) + Cost(next) <= budget then kept + [next] else kept
  }

  /** `a` is `b` with some places left out and the rest in the same order. */
  ghost predicate IsSubsequence(a: seq<ScoredPlace>, b: seq<ScoredPlace>)
    decreases |b|
  {
    if a == [] then true
    else if b == [] then false
    else (a[|a| - 1] == b[|b| - 1] && IsSubsequence(a[..|a| - 1], b[..|b| - 1]))
         || IsSubsequence(a, b[..|b| - 1])
  }

  /** No place of `s` scores below `m`. */
  ghost predicate AllAtLeast(s: seq<ScoredPlace>, m: real)
  {
    forall k :: 0 <= k < |s| ==> m <= s[k].score
  }

  /** Every place of `s` has a cost of at least zero. */
  ghost predicate NonNegativeCosts(s: seq<ScoredPlace>)
  {
    forall k :: 0 <= k < |s| ==> 0.0 <= Cost(s[k])
  }

  lemma TotalCostAppend(trip: seq<ScoredPlace>, p: ScoredPlace)
    ensures TotalCost(trip + [p]) == TotalCost(trip) + Cost(p)
  {
    assert (trip + [p])[..|trip|] == trip;
  }

  /** The kept trip is the candidate list with some places left out. */
  lemma {:induction false} SelectIsSubsequence(candidates: seq<ScoredPlace>, budget: real)
    ensures IsSubsequence(Select(candidates, budget), candidates)
  {
    if candidates != [] {
      var init := candidates[..|candidates| - 1];
      SelectIsSubsequence(init, budget);
      var kept := Select(init, budget);
      if Select(candidates, budget) == kept + [candidates[|candidates| - 1]] {
        assert (kept + [candidates[|candidates| - 1]])[..|kept|] == kept;
      }
    }
  }

  lemma {:induction false} SubsequenceLength(a: seq<ScoredPlace>, b: seq<ScoredPlace>)
    requires IsSubsequence(a, b)
    ensures |a| <= |b|
    ensures multiset(a) <= multiset(b)
    decreases |b|
  {
    if a != [] {
      var b' := b[..|b| - 1];
      assert b == b' + [b[|b| - 1]];
      if a[|a| - 1] == b[|b| - 1] && IsSubsequence(a[..|a| - 1], b') {
        SubsequenceLength(a[..|a| - 1], b');
        assert a == a[..|a| - 1] + [a[|a| - 1]];
      } else {
        SubsequenceLength(a, b');
      }
    }
  }

  lemma {:induction false} SubsequenceAtLeast(a: seq<ScoredPlace>, b: seq<ScoredPlace>, m: real)
    requires IsSubsequence(a, b) && AllAtLeast(b, m)
    ensures AllAtLeast(a, m)
    decreases |b|
  {
    if a != [] {
      var b' := b[..|b| - 1];
      if a[|a| - 1] == b[|b| - 1] && IsSubsequence(a[..|a| - 1], b') {
        SubsequenceAtLeast(a[..|a| - 1], b', m);
      } else {
        SubsequenceAtLeast(a, b', m);
      }
    }
  }

  /** Leaving places out of a best-first list keeps it best first. */
  lemma {:induction false} SubsequenceSorted(a: seq<ScoredPlace>, b: seq<ScoredPlace>)
    requires IsSubsequence(a, b) && SortedByScore(b)
    ensures SortedByScore(a)
    decreases |b|
  {
    if a != [] {
      var a', b' := a[..|a| - 1], b[..|b| - 1];
      if a[|a| - 1] == b[|b| - 1] && IsSubsequence(a', b') {
        SubsequenceSorted(a', b');
        SubsequenceAtLeast(a', b', b[|b| - 1].score);
        assert a == a' + [a[|a| - 1]];
      } else {
        SubsequenceSorted(a, b');
      }
    }
  }

  /** Started from nothing used, the kept trip never uses more than a
      non-negative budget; in general, a non-empty trip fits the budget. */
  lemma {:induction false} SelectWithinBudget(candidates: seq<ScoredPlace>, budget: real)
    ensures Select(candidates, budget) == [] || TotalCost(Select(candidates, budget)) <= budget
    ensures 0.0 <= budget ==> TotalCost(Select(candidates, budget)) <= budget
  {
    if candidates != [] {
      var init := candidates[..|candidates| - 1];
      SelectWithinBudget(init, budget);
      TotalCostAppend(Select(init, budget), candidates[|candidates| - 1]);
    }
  }

  /** The decision at the `i`-th place: it is appended exactly when the time
      used by the places kept before it plus its own cost is at most the
      budget (so a place that fills the budget exactly is kept); otherwise the
      trip is left as it was. */
  lemma SelectDecision(candidates: seq<ScoredPlace>, budget: real, i: nat)
    requires i < |candidates|
    ensures Select(candidates[..i + 1], budget) == Select(candidates[..i], budget) + [candidates[i]]
      <==> TotalCost(Select(candidates[..i], budget)) + Cost(candidates[i]) <= budget
    ensures TotalCost(Select(candidates[..i], budget)) + Cost(candidates[i]) > budget
      ==> Select(candidates[..i + 1], budget) == Select(candidates[..i], budget)
  {
    assert candidates[..i + 1][..i] == candidates[..i];
    var before := Select(candidates[..i], budget);
    assert |before + [candidates[i]]| != |before|;
  }

  /** Decisions are never revisited: what was kept after the first `i`
      places is the beginning of the final trip. */
  lemma {:induction false} SelectPrefix(candidates: seq<ScoredPlace>, budget: real, i: nat)
    requires i <= |candidates|
    ensures Select(candidates[..i], budget) <= Select(candidates, budget)
    decreases |candidates|
  {
    if i < |candidates| {
      var init := candidates[..|candidates| - 1];
      assert init[..i] == candidates[..i];
      SelectPrefix(init, budget, i);
    } else {
      assert candidates[..i] == candidates;
    }
  }

  /** With no negative costs, the time used only grows along the walk. */
  lemma {:induction false} UsedGrows(candidates: seq<ScoredPlace>, budget: real, i: nat)
    requires i <= |candidates| && NonNegativeCosts(candidates)
    ensures TotalCost(Select(candidates[..i], budget)) <= TotalCost(Select(candidates, budget))
    decreases |candidates|
  {
    if i < |candidates| {
      var init := candidates[..|candidates| - 1];
      assert init[..i] == candidates[..i];
      UsedGrows(init, budget, i);
      TotalCostAppend(Select(init, budget), candidates[|candidates| - 1]);
    } else {
      assert candidates[..i] == candidates;
    }
  }

  /** With no negative costs, a place that was dropped would not fit at the
      end either: the trip cannot be extended by any place it left out. */
  lemma SelectMaximal(candidates: seq<ScoredPlace>, budget: real, i: nat)
    requires i < |candidates| && NonNegativeCosts(candidates)
    requires Select(candidates[..i + 1], budget) == Select(candidates[..i], budget)
    ensures TotalCost(Select(candidates, budget)) + Cost(candidates[i]) > budget
  {
    SelectDecision(candidates, budget, i);
    UsedGrows(candidates, budget, i);
  }

  /** With a negative budget and no negative costs nothing is kept. */
  lemma {:induction false} SelectNegativeBudget(candidates: seq<ScoredPlace>, budget: real)
    requires budget < 0.0 && NonNegativeCosts(candidates)
    ensures Select(candidates, budget) == []
  {
    if candidates != [] {
      SelectNegativeBudget(candidates[..|candidates| - 1], budget);
    }
  }

  /** Running the pass again on the trip it produced keeps the whole trip. */
  lemma {:induction false} SelectIdempotent(candidates: seq<ScoredPlace>, budget: real)
    ensures Select(Select(candidates, budget), budget) == Select(candidates, budget)
  {
    if candidates != [] {
      var init := candidates[..|candidates| - 1];
      var kept := Select(init, budget);
      SelectIdempotent(init, budget);
      var next := candidates[|candidates| - 1];
      if TotalCost(kept) + Cost(next) <= budget {
        assert (kept + [next])[..|kept|] == kept;
      }
    }
  }
}
