/** Ordering the enriched places best first. The optimizer sorts its list in
    place with a stable library sort keyed on the score, reversed; a stable
    descending sort has exactly one possible outcome, and `SortByScore` is it. */
module ScoreSort {
  import opened Places

  /** Non-increasing score from front to back. */
  ghost predicate SortedByScore(s: seq<ScoredPlace>)
  {
    forall i, j :: 0 <= i < j < |s| ==> s[i].score >= s[j].score
  }

  /** No place of `s` scores above `m`. */
  ghost predicate AllAtMost(s: seq<ScoredPlace>, m: real)
  {
    forall k :: 0 <= k < |s| ==> s[k].score <= m
  }

  /** The places of `s` whose score is exactly `v`, in the order of `s`.
      A sort is stable when it leaves every one of these unchanged. */
  ghost function WithScore(s: seq<ScoredPlace>, v: real): seq<ScoredPlace>
  {
    if s == [] then [] else (if s[0].score == v then [s[0]] else []) + WithScore(s[1..], v)
  }

  /** Puts `x` in front of the first place that does not score above it, so
      that `x` stays ahead of the places it tied with that came after it. */
  function InsertByScore(x: ScoredPlace, s: seq<ScoredPlace>): (r: seq<ScoredPlace>)
  {
    if s == [] then [x]
    else if s[0].score > x.score then [s[0]] + InsertByScore(x, s[1..])
    else [x] + s
  }

  /** The list ordered best score first, ties in their original order. */
  function SortByScore(s: seq<ScoredPlace>): (sorted: seq<ScoredPlace>)
  {
    if s == [] then [] else InsertByScore(s[0], SortByScore(s[1..]))
  }

  lemma SortedCons(x: ScoredPlace, s: seq<ScoredPlace>)
    requires SortedByScore(s) && AllAtMost(s, x.score)
    ensures SortedByScore([x] + s)
  {
    var t := [x] + s;
    forall i, j | 0 <= i < j < |t| ensures t[i].score >= t[j].score {
      if i > 0 {
        assert t[i] == s[i - 1] && t[j] == s[j - 1];
      } else {
        assert t[j] == s[j - 1];
      }
    }
  }

  lemma {:induction false} InsertByScoreMultiset(x: ScoredPlace, s: seq<ScoredPlace>)
    ensures multiset(InsertByScore(x, s)) == multiset(s) + multiset{x}
    ensures |InsertByScore(x, s)| == |s| + 1
  {
    if s != [] && s[0].score > x.score {
      InsertByScoreMultiset(x, s[1..]);
      assert s == [s[0]] + s[1..];
    }
  }

  lemma {:induction false} InsertByScoreAtMost(x: ScoredPlace, s: seq<ScoredPlace>, m: real)
    requires AllAtMost(s, m) && x.score <= m
    ensures AllAtMost(InsertByScore(x, s), m)
  {
    if s != [] && s[0].score > x.score {
      InsertByScoreAtMost(x, s[1..], m);
    }
  }

  lemma {:induction false} InsertByScoreSorted(x: ScoredPlace, s: seq<ScoredPlace>)
    requires SortedByScore(s)
    ensures SortedByScore(InsertByScore(x, s))
  {
    if s == [] {
    } else if s[0].score > x.score {
      InsertByScoreSorted(x, s[1..]);
      InsertByScoreAtMost(x, s[1..], s[0].score);
      SortedCons(s[0], InsertByScore(x, s[1..]));
    } else {
      SortedCons(x, s);
    }
  }

  lemma WithScoreCons(x: ScoredPlace, s: seq<ScoredPlace>, v: real)
    ensures WithScore([x] + s, v) == (if x.score == v then [x] else []) + WithScore(s, v)
  {
    assert ([x] + s)[1..] == s;
  }

  lemma {:induction false} InsertByScoreWithScore(x: ScoredPlace, s: seq<ScoredPlace>, v: real)
    ensures WithScore(InsertByScore(x, s), v) == (if x.score == v then [x] else []) + WithScore(s, v)
  {
    if s == [] {
      WithScoreCons(x, [], v);
    } else if s[0].score > x.score {
      InsertByScoreWithScore(x, s[1..], v);
      WithScoreCons(s[0], InsertByScore(x, s[1..]), v);
    } else {
      WithScoreCons(x, s, v);
    }
  }

  /** The sorted list is in non-increasing score order. */
  lemma {:induction false} SortByScoreSorted(s: seq<ScoredPlace>)
    ensures SortedByScore(SortByScore(s))
  {
    if s != [] {
      SortByScoreSorted(s[1..]);
      InsertByScoreSorted(s[0], SortByScore(s[1..]));
    }
  }

  /** The sorted list holds exactly the places of the input. */
  lemma {:induction false} SortByScorePermutation(s: seq<ScoredPlace>)
    ensures multiset(SortByScore(s)) == multiset(s)
    ensures |SortByScore(s)| == |s|
  {
    if s != [] {
      SortByScorePermutation(s[1..]);
      InsertByScoreMultiset(s[0], SortByScore(s[1..]));
      assert s == [s[0]] + s[1..];
    }
  }

  /** Places with equal scores keep their original relative order. */
  lemma {:induction false} SortByScoreStable(s: seq<ScoredPlace>, v: real)
    ensures WithScore(SortByScore(s), v) == WithScore(s, v)
  {
    if s != [] {
      SortByScoreStable(s[1..], v);
      InsertByScoreWithScore(s[0], SortByScore(s[1..]), v);
    }
  }

  /** A place that occurs in `WithScore(s, v)` occurs in `s`, with score `v`. */
  lemma {:induction false} WithScoreHead(s: seq<ScoredPlace>, v: real) returns (k: nat)
    requires WithScore(s, v) != []
    ensures k < |s| && s[k] == WithScore(s, v)[0] && s[k].score == v
  {
    if s[0].score == v {
      k := 0;
    } else {
      var k' := WithScoreHead(s[1..], v);
      k := k' + 1;
    }
  }

  lemma HeadScoresHighest(s: seq<ScoredPlace>, v: real)
    requires SortedByScore(s) && WithScore(s, v) != []
    ensures v <= s[0].score
  {
    var k := WithScoreHead(s, v);
    assert k == 0 || s[0].score >= s[k].score;
  }

  lemma HeadGroupNonEmpty(s: seq<ScoredPlace>)
    requires s != []
    ensures WithScore(s, s[0].score) != []
  {
  }

  /** Sorting stably by descending score has a single possible result: two
      sorted lists that agree on the order of every group of tied places are
      the same list. */
  lemma {:induction false} StableSortUnique(a: seq<ScoredPlace>, b: seq<ScoredPlace>)
    requires SortedByScore(a) && SortedByScore(b)
    requires forall v :: WithScore(a, v) == WithScore(b, v)
    ensures a == b
    decreases |a|
  {
    if a == [] || b == [] {
      // the non-empty one has a non-empty group for its own head's score
      if a != [] {
        HeadGroupNonEmpty(a);
      } else if b != [] {
        HeadGroupNonEmpty(b);
      }
    } else {
      var m := a[0].score;
      HeadGroupNonEmpty(a);
      HeadScoresHighest(b, m);
      HeadGroupNonEmpty(b);
      HeadScoresHighest(a, b[0].score);
      assert b[0].score == m;
      assert a[0] == WithScore(a, m)[0] == WithScore(b, m)[0] == b[0];
      forall v ensures WithScore(a[1..], v) == WithScore(b[1..], v) {
        assert WithScore(a, v) == WithScore(b, v);
        assert a == [a[0]] + a[1..] && b == [b[0]] + b[1..];
        WithScoreCons(a[0], a[1..], v);
        WithScoreCons(b[0], b[1..], v);
        var head := if m == v then [a[0]] else [];
        assert head + WithScore(a[1..], v) == head + WithScore(b[1..], v);
        assert WithScore(a[1..], v) == (head + WithScore(a[1..], v))[|head|..];
        assert WithScore(b[1..], v) == (head + WithScore(b[1..], v))[|head|..];
      }
      StableSortUnique(a[1..], b[1..]);
      assert a == [a[0]] + a[1..] && b == [b[0]] + b[1..];
    }
  }

  /** Whatever stable sort produced `r`, it produced `SortByScore(s)`. */
  lemma StableSortIsSortByScore(s: seq<ScoredPlace>, r: seq<ScoredPlace>)
    requires SortedByScore(r)
    requires forall v :: WithScore(r, v) == WithScore(s, v)
    ensures r == SortByScore(s)
  {
    SortByScoreSorted(s);
    forall v ensures WithScore(r, v) == WithScore(SortByScore(s), v) {
      SortByScoreStable(s, v);
    }
    StableSortUnique(r, SortByScore(s));
  }
}
