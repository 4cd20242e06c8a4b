/** The derived rating of a title (Title.rating): the average of its review
    scores, computed on read and never stored. */
module Rating {
  import opened Wrappers

  function Sum(s: seq<int>): int
  {
    if s == [] then 0 else s[0] + Sum(s[1..])
  }

  /** The value of the aggregate Avg('score'): none over no rows, otherwise
      the arithmetic mean as an exact rational. */
  function Average(s: seq<int>): (r: Option<real>)
    ensures r.None? <==> s == []
    ensures r.Some? ==> r.value * (|s| as real) == Sum(s) as real
  {
    if s == [] then None else Some(Sum(s) as real / |s| as real)
  }

  /** Title.rating as written: the average is returned only when it is
      truthy (present and non-zero), otherwise the rating is none. */
  function RatingOf(scores: seq<int>): Option<real>
  {
    match Average(scores)
    case None => None
    case Some(avg) => if avg != 0.0 then Some(avg) else None
  }

  predicate AllWithin(s: seq<int>, lo: int, hi: int)
  {
    forall i :: 0 <= i < |s| ==> lo <= s[i] <= hi
  }

  lemma {:induction false} SumBounds(s: seq<int>, lo: int, hi: int)
    requires AllWithin(s, lo, hi)
    ensures lo * |s| <= Sum(s) <= hi * |s|
  {
    if s != [] {
      assert AllWithin(s[1..], lo, hi) by {
        forall i | 0 <= i < |s[1..]| ensures lo <= s[1..][i] <= hi {
          assert s[1..][i] == s[i + 1];
        }
      }
      SumBounds(s[1..], lo, hi);
      assert lo * |s| == lo + lo * |s[1..]|;
      assert hi * |s| == hi + hi * |s[1..]|;
    }
  }

  /** A mean of values in [lo, hi] lies in [lo, hi]. */
  lemma MeanWithin(total: real, n: real, avg: real, lo: real, hi: real)
    requires n > 0.0 && avg * n == total
    requires lo * n <= total <= hi * n
    ensures lo <= avg <= hi
  {
  }

  /** Over scores that all lie in 1..10 the mean is never zero, so the rating
      is none exactly when there are no scores, and otherwise it is the
      average, which lies in [1, 10]. */
  lemma RatingOfScores(scores: seq<int>)
    requires AllWithin(scores, 1, 10)
    ensures RatingOf(scores).None? <==> scores == []
    ensures scores != [] ==> RatingOf(scores) == Average(scores)
    ensures RatingOf(scores).Some? ==> 1.0 <= RatingOf(scores).value <= 10.0
  {
    if scores != [] {
      SumBounds(scores, 1, 10);
      var n := |scores| as real;
      var total := Sum(scores) as real;
      var avg := Average(scores).value;
      assert avg * n == total;
      MeanWithin(total, n, avg, 1.0, 10.0);
      assert RatingOf(scores) == Some(avg);
    }
  }
}
