/** The running average with its repeated rounding: how far it drifts, and when it stops moving. */
module Ratings {
  import opened Documents
  import opened Rounding
  import opened ReviewLogic

  /** The rating after a sequence of reviews. */
  function FoldRating(stars: seq<int>): Rating {
    if stars == [] then Rating(0.0, 0)
    else RecomputeRating(FoldRating(stars[..|stars| - 1]), stars[|stars| - 1])
  }

  function SumStars(stars: seq<int>): int {
    if stars == [] then 0 else SumStars(stars[..|stars| - 1]) + stars[|stars| - 1]
  }

  predicate AreStars(stars: seq<int>) {
    forall i :: 0 <= i < |stars| ==> 1 <= stars[i] <= 5
  }

  // ----- arithmetic of one step

  lemma CentsAreClose(x: real)
    ensures -0.005 <= RoundCents(x) - x <= 0.005
  {
  }

  lemma ScaleUpper(x: real, bound: real, n: real)
    requires n > 0.0
    ensures x <= bound <==> x * n <= bound * n
  {
    assert (bound - x) * n == bound * n - x * n;
  }

  lemma DivideBack(x: real, n: real)
    requires n > 0.0
    ensures x / n * n == x
  {
  }

  /** A value whose multiple is within half a hundredth per unit of a weight. */
  predicate Close(y: real, c: real, w: real) {
    -0.005 * c <= y * c - w <= 0.005 * c
  }

  lemma ScaleGap(d: real, c: real)
    requires c > 0.0 && -0.005 <= d <= 0.005
    ensures -0.005 * c <= d * c <= 0.005 * c
  {
    ScaleUpper(d, 0.005, c);
    ScaleUpper(-0.005, d, c);
  }

  lemma Distribute(y: real, x: real, c: real)
    ensures (y - x) * c == y * c - x * c
  {
  }

  lemma CloseWeights(x: real, y: real, c: real, w: real)
    requires c > 0.0 && x * c == w && -0.005 <= y - x <= 0.005
    ensures Close(y, c, w)
  {
    var d := y - x;
    ScaleGap(d, c);
    Distribute(y, x, c);
    assert d * c == y * c - w;
  }

  lemma RoundedQuotientIsClose(w: real, c: real)
    requires c > 0.0
    ensures Close(RoundCents(w / c), c, w)
  {
    DivideBack(w, c);
    CentsAreClose(w / c);
    CloseWeights(w / c, RoundCents(w / c), c, w);
  }

  lemma WeightGap(r: Rating, w: real)
    requires Close(r.avg, r.count as real, w)
    ensures -0.005 * r.count as real <= Weight(r) - w <= 0.005 * r.count as real
  {
  }

  /** One review moves the weight by its stars, and by at most half a hundredth per review. */
  lemma WeightStep(current: Rating, stars: int)
    ensures var c := (current.count + 1) as real;
      var gap := Weight(RecomputeRating(current, stars)) - (Weight(current) + stars as real);
      -0.005 * c <= gap <= 0.005 * c
  {
    var w := Weight(current) + stars as real;
    RoundedQuotientIsClose(w, (current.count + 1) as real);
    WeightGap(RecomputeRating(current, stars), w);
  }

  /** The new average is the exact one to the nearest hundredth, and to the even one at a tie. */
  lemma RecomputeRounds(current: Rating, stars: int) returns (exact: real, cents: int)
    ensures exact * (current.count + 1) as real == current.avg * current.count as real + stars as real
    ensures -0.5 <= cents as real - 100.0 * exact <= 0.5
    ensures cents as real - 100.0 * exact == 0.5 || cents as real - 100.0 * exact == -0.5 ==> cents % 2 == 0
    ensures RecomputeRating(current, stars) == Rating(cents as real / 100.0, current.count + 1)
  {
    exact := (Weight(current) + stars as real) / (current.count + 1) as real;
    DivideBack(Weight(current) + stars as real, (current.count + 1) as real);
    cents := RoundHalfEven(100.0 * exact);
  }

  // ----- drift

  /** Half a hundredth per review, summed over the reviews. */
  function Slack(n: nat): real {
    if n == 0 then 0.0 else Slack(n - 1) + 0.005 * n as real
  }

  lemma {:induction false} SlackClosedForm(n: nat)
    ensures Slack(n) == 0.0025 * (n as real + 1.0) * n as real
  {
    if n > 0 {
      SlackClosedForm(n - 1);
      var m := n as real;
      assert 0.0025 * m * (m - 1.0) + 0.005 * m == 0.0025 * (m + 1.0) * m;
    }
  }

  lemma {:induction false} DriftBound(stars: seq<int>)
    ensures FoldRating(stars).count == |stars|
    ensures -Slack(|stars|) <= Weight(FoldRating(stars)) - SumStars(stars) as real <= Slack(|stars|)
  {
    if stars != [] {
      var front := stars[..|stars| - 1];
      DriftBound(front);
      WeightStep(FoldRating(front), stars[|stars| - 1]);
    }
  }

  /** After any n reviews the stored average is within 0.0025 (n + 1) of the true mean. */
  lemma MeanDrift(stars: seq<int>)
    requires stars != []
    ensures var n, mean := |stars| as real, SumStars(stars) as real / |stars| as real;
      -0.0025 * (n + 1.0) <= FoldRating(stars).avg - mean <= 0.0025 * (n + 1.0)
  {
    DriftBound(stars);
    MeanOfRating(FoldRating(stars), SumStars(stars));
  }

  lemma MeanOfRating(r: Rating, sum: int)
    requires r.count > 0 && -Slack(r.count) <= Weight(r) - sum as real <= Slack(r.count)
    ensures var n := r.count as real;
      -0.0025 * (n + 1.0) <= r.avg - sum as real / n <= 0.0025 * (n + 1.0)
  {
    SlackClosedForm(r.count);
    GapFromWeights(r.avg, sum as real, r.count as real, 0.0025 * (r.count as real + 1.0));
  }

  lemma GapFromWeights(avg: real, sum: real, n: real, bound: real)
    requires n > 0.0 && -(bound * n) <= avg * n - sum <= bound * n
    ensures -bound <= avg - sum / n <= bound
  {
    DivideBack(sum, n);
    GapOfMeans(avg, sum / n, bound, n);
  }

  lemma GapOfMeans(a: real, b: real, bound: real, n: real)
    requires n > 0.0 && -(bound * n) <= a * n - b * n <= bound * n
    ensures -bound <= a - b <= bound
  {
    assert (a - b) * n == a * n - b * n;
    ScaleUpper(a - b, bound, n);
    ScaleUpper(-bound, a - b, n);
  }

  // ----- range

  lemma QuotientRange(w: real, c: real)
    requires c > 0.0 && c <= w <= 5.0 * c
    ensures 1.0 <= w / c <= 5.0
  {
    DivideBack(w, c);
    ScaleUpper(1.0, w / c, c);
    ScaleUpper(w / c, 5.0, c);
  }

  lemma RoundedRange(x: real)
    requires 1.0 <= x <= 5.0
    ensures 1.0 <= RoundCents(x) <= 5.0
  {
    RoundStaysBetween(100, 100.0 * x, 500);
  }

  predicate InRange(w: real, c: real) {
    c <= w <= 5.0 * c
  }

  lemma RoundedQuotientRange(w: real, c: real)
    requires c > 0.0 && InRange(w, c)
    ensures 1.0 <= RoundCents(w / c) <= 5.0
  {
    QuotientRange(w, c);
    RoundedRange(w / c);
  }

  /** An average between 1 and 5 and one more star count: still between 1 and 5. */
  lemma RangeStep(current: Rating, stars: int)
    requires InRange(Weight(current), current.count as real) && 1 <= stars <= 5
    ensures 1.0 <= RecomputeRating(current, stars).avg <= 5.0
  {
    RoundedQuotientRange(Weight(current) + stars as real, (current.count + 1) as real);
  }

  lemma WeightRange(r: Rating)
    requires r.count == 0 || 1.0 <= r.avg <= 5.0
    ensures InRange(Weight(r), r.count as real)
  {
    if r.count > 0 {
      ScaleUpper(1.0, r.avg, r.count as real);
      ScaleUpper(r.avg, 5.0, r.count as real);
    }
  }

  lemma {:induction false} StaysInRange(stars: seq<int>)
    requires AreStars(stars) && stars != []
    ensures 1.0 <= FoldRating(stars).avg <= 5.0
  {
    var n := |stars| - 1;
    var front := stars[..n];
    DriftBound(front);
    assert AreStars(front);
    if front != [] {
      StaysInRange(front);
    }
    WeightRange(FoldRating(front));
    RangeStep(FoldRating(front), stars[n]);
  }

  // ----- freezing

  predicate IsProduct(x: real, y: real, xy: real) {
    x * y == xy
  }

  /** A scaled gap of at most 400 at a scale of at least 800. */
  lemma HalfGap(delta: real, c: real, gap: real)
    requires c >= 800.0 && IsProduct(delta, c, gap) && -400.0 <= gap <= 400.0
    ensures -0.5 <= delta <= 0.5
    ensures delta == 0.5 ==> gap == 400.0
    ensures delta == -0.5 ==> gap == -400.0
  {
    ScaleUpper(delta, 0.5, c);
    ScaleUpper(-0.5, delta, c);
  }

  lemma CloseToCents(cents: int, x: real, gap: int)
    requires -0.5 <= cents as real - 100.0 * x <= 0.5 && 100 <= cents <= 500
    requires cents as real - 100.0 * x == 0.5 ==> gap == 400
    requires cents as real - 100.0 * x == -0.5 ==> gap == -400
    requires -400 <= gap <= 400 && (gap == 400 ==> cents == 500) && (gap == -400 ==> cents == 100)
    ensures RoundHalfEven(100.0 * x) == cents
  {
    RoundIsUnique(100.0 * x, cents);
  }

  /** A value too close to a number of hundredths to round to anything else. */
  lemma StaysPut(cents: int, x: real, c: real, stars: int)
    requires 100 <= cents <= 500 && c >= 800.0 && 1 <= stars <= 5
    requires IsProduct(cents as real - 100.0 * x, c, (cents - 100 * stars) as real)
    ensures RoundHalfEven(100.0 * x) == cents
  {
    HalfGap(cents as real - 100.0 * x, c, (cents - 100 * stars) as real);
    CloseToCents(cents, x, cents - 100 * stars);
  }

  lemma Spread(cents: real, x: real, c: real, w: real, stars: real)
    requires x * c == w && w == cents / 100.0 * (c - 1.0) + stars
    ensures IsProduct(cents - 100.0 * x, c, cents - 100.0 * stars)
  {
    assert (cents - 100.0 * x) * c == cents * c - 100.0 * (x * c);
  }

  /** With 799 reviews or more, no number of stars moves an average that is a number of hundredths. */
  lemma NoStarsMoveIt(cents: int, n: nat, stars: int)
    requires 100 <= cents <= 500 && n >= 799 && 1 <= stars <= 5
    ensures RecomputeRating(Rating(cents as real / 100.0, n), stars).avg == cents as real / 100.0
  {
    var c, w := (n + 1) as real, Weight(Rating(cents as real / 100.0, n)) + stars as real;
    DivideBack(w, c);
    Spread(cents as real, w / c, c, w, stars as real);
    StaysPut(cents, w / c, c, stars);
  }

  /** From 799 reviews on the stored average is frozen, whatever reviews follow. */
  lemma {:induction false} RatingFreezes(stars: seq<int>, more: seq<int>)
    requires AreStars(stars) && AreStars(more) && |stars| >= 799
    ensures FoldRating(stars + more).avg == FoldRating(stars).avg
    decreases |more|
  {
    if more == [] {
      assert stars + more == stars;
    } else {
      var n := |more| - 1;
      var front := stars + more[..n];
      assert (stars + more)[..|stars| + n] == front;
      assert AreStars(front) && AreStars(more[..n]);
      RatingFreezes(stars, more[..n]);
      DriftBound(front);
      StaysInRange(front);
      var cents := HundredthsOf(front);
      NoStarsMoveIt(cents, |front|, more[n]);
      assert FoldRating(front) == Rating(cents as real / 100.0, |front|);
    }
  }

  lemma HundredthsOf(stars: seq<int>) returns (cents: int)
    requires stars != [] && 1.0 <= FoldRating(stars).avg <= 5.0
    ensures FoldRating(stars).avg == cents as real / 100.0 && 100 <= cents <= 500
  {
    var front := FoldRating(stars[..|stars| - 1]);
    cents := RoundHalfEven(100.0 * ((Weight(front) + stars[|stars| - 1] as real) / (front.count + 1) as real));
  }

  function Ones(n: nat): seq<int> {
    seq(n, _ => 1)
  }

  lemma {:induction false} AllOnes(n: nat)
    requires n > 0
    ensures FoldRating(Ones(n)) == Rating(1.0, n)
  {
    assert Ones(n)[..n - 1] == Ones(n - 1);
    if n > 1 {
      AllOnes(n - 1);
    }
    assert (1.0 * (n - 1) as real + 1.0) / n as real == 1.0;
    assert RoundHalfEven(100.0) == 100 by { RoundIsUnique(100.0, 100); }
  }

  /** One review fewer is not enough: after 798 ones a five still moves the average. */
  lemma FrozenNoSooner()
    ensures FoldRating(Ones(798)).avg == 1.0
    ensures FoldRating(Ones(798) + [5]).avg == 1.01
  {
    AllOnes(798);
    assert (Ones(798) + [5])[..798] == Ones(798);
    RoundIsUnique(100.0 * (803.0 / 799.0), 101);
  }
}
