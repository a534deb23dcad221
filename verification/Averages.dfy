/**
  The average of a product's scores: a decimal division to 28 significant digits followed by a
  rounding to one decimal, both half to even.
 */
module Averages {

  /** 28 significant digits of a mean between 1 and 9 leave 27 after the point. */
  const DIVISION_UNIT: nat := 1000000000000000000000000000
  /** How many units of the division make a tenth. */
  const TENTH: nat := 100000000000000000000000000

  type Score = x: int | 1 <= x <= 5 witness 1

  /** `num / den` to the nearest integer, a tie going to the even one. */
  function RoundHalfEven(num: nat, den: nat): nat
    requires den > 0
  {
    var q, r := num / den, num % den;
    if 2 * r < den then q
    else if 2 * r > den then q + 1
    else if q % 2 == 0 then q
    else q + 1
  }

  function Sum(scores: seq<Score>): (total: nat)
    ensures |scores| <= total <= 5 * |scores|
  {
    if scores == [] then 0 else scores[0] + Sum(scores[1..])
  }

  /** The average in tenths, as the code computes it. */
  function AverageOf(scores: seq<Score>): nat
    requires scores != []
  {
    RoundHalfEven(RoundHalfEven(DIVISION_UNIT * Sum(scores), |scores|), TENTH)
  }

  /** The mean in tenths, rounded once. */
  function RoundedMean(scores: seq<Score>): nat
    requires scores != []
  {
    RoundHalfEven(10 * Sum(scores), |scores|)
  }

  // ------------------------------------------------------------------- rounding

  /** `n` is a rounding of `num / den` when it is nearest and, on a tie, even. */
  predicate Rounds(num: int, den: int, n: int) {
    IsNear(num - n * den, den, n)
  }

  /** What is left over by `n` is at most half of `den`, and exactly half only if `n` is even. */
  predicate IsNear(left: int, den: int, n: int) {
    && -den <= 2 * left <= den
    && (2 * left == den || 2 * left == -den ==> n % 2 == 0)
  }

  lemma RoundHalfEvenRounds(num: nat, den: nat)
    requires den > 0
    ensures Rounds(num, den, RoundHalfEven(num, den))
  {
    var q, r := num / den, num % den;
    assert num == q * den + r;
    assert (q + 1) * den == q * den + den;
  }

  /** Different integers are at least `den` apart. */
  lemma Apart(m: int, n: int, den: int)
    requires den > 0
    ensures m < n ==> m * den + den <= n * den
    ensures m + 1 < n ==> m * den + 2 * den <= n * den
    ensures m + 1 == n ==> m * den + den == n * den
  {
    var gap := n - m;
    assert gap * den == n * den - m * den;
    if gap > 1 {
      assert gap * den >= 2 * den;
    } else if gap == 1 {
      assert gap * den == den;
    }
  }

  /** Rounding is monotone, and there is only one rounding. */
  lemma RoundingsAreOrdered(a: int, b: int, den: int, m: int, n: int)
    requires den > 0 && a <= b && Rounds(a, den, m) && Rounds(b, den, n)
    ensures m <= n
  {
    Apart(n, m, den);
    var mden, nden := m * den, n * den;
    assert IsNear(a - mden, den, m) && IsNear(b - nden, den, n);
  }

  lemma RoundingIs(num: nat, den: nat, n: nat)
    requires den > 0 && Rounds(num, den, n)
    ensures RoundHalfEven(num, den) == n
  {
    RoundHalfEvenRounds(num, den);
    RoundingsAreOrdered(num, num, den, n, RoundHalfEven(num, den));
    RoundingsAreOrdered(num, num, den, RoundHalfEven(num, den), n);
  }

  lemma RoundingIsMonotone(a: nat, b: nat, den: nat)
    requires den > 0 && a <= b
    ensures RoundHalfEven(a, den) <= RoundHalfEven(b, den)
  {
    RoundHalfEvenRounds(a, den);
    RoundHalfEvenRounds(b, den);
    RoundingsAreOrdered(a, b, den, RoundHalfEven(a, den), RoundHalfEven(b, den));
  }

  lemma WholeIsKept(k: nat, den: nat)
    requires den > 0
    ensures RoundHalfEven(k * den, den) == k
  {
    RoundingIs(k * den, den, k);
  }

  // ------------------------------------------------------------------- rounding twice

  /**
    Rounding first to `1/unit` and then to a whole goes wrong exactly when the first rounding
    lands on a half that the value was not on, and the half goes to even the other way.
   */
  predicate LandsOnWrongHalf(num: int, den: int, unit: int)
    requires den > 0
  {
    var overHalf := unit * (2 * (num % den) - den);
    IsWrongHalf(num / den, overHalf, den)
  }

  /** `overHalf` is how far the remainder is over one half, in the finer unit. */
  predicate IsWrongHalf(whole: int, overHalf: int, den: int) {
    if whole % 2 == 0 then 0 < overHalf <= den else 0 < -overHalf <= den
  }

  /** A rounding against an even `half`. */
  lemma RoundingAgainst(x: int, den: int, d: int, half: int)
    requires den > 0 && half % 2 == 0 && Rounds(x, den, d)
    ensures d == half <==> -den <= 2 * (x - half * den) <= den
    ensures d < half <==> 2 * (x - half * den) < -den
  {
    var excess := x - half * den;
    if -den <= 2 * excess <= den {
      assert Rounds(x, den, half);
      RoundingsAreOrdered(x, x, den, d, half);
      RoundingsAreOrdered(x, x, den, half, d);
    } else {
      Apart(d, half, den);
      Apart(half, d, den);
    }
  }

  /** The second rounding looks only at the rounded fraction `d` beside the whole `j`. */
  lemma SecondRounding(j: int, d: int, unit: int, second: int)
    requires unit > 0 && 0 <= d <= unit && Rounds(unit * j + d, unit, second)
    ensures second == if 2 * d < unit || (2 * d == unit && j % 2 == 0) then j else j + 1
  {
    var n := if 2 * d < unit || (2 * d == unit && j % 2 == 0) then j else j + 1;
    var num := unit * j + d;
    assert (j + 1) * unit == j * unit + unit;
    assert num == j * unit + d;
    assert Rounds(num, unit, n);
    RoundingsAreOrdered(num, num, unit, n, second);
    RoundingsAreOrdered(num, num, unit, second, n);
  }

  /** The first rounding is the whole in the finer unit plus a rounding of the fraction. */
  lemma FirstRounding(j: int, r: int, den: int, unit: int, first: int)
    requires den > 0 && unit % 2 == 0 && Rounds(unit * (j * den + r), den, first)
    ensures Rounds(unit * r, den, first - unit * j)
  {
    EvenMultiple(unit, j);
    WholeAndRest(j, r, den, unit);
    ShiftedRounding(unit * j, unit * r, den, first);
  }

  /** Taking an even whole off a value takes it off its rounding. */
  lemma ShiftedRounding(whole: int, rest: int, den: int, first: int)
    requires whole % 2 == 0 && Rounds(whole * den + rest, den, first)
    ensures Rounds(rest, den, first - whole)
  {
    assert (first - whole) * den == first * den - whole * den;
  }

  lemma EvenMultiple(unit: int, j: int)
    requires unit % 2 == 0
    ensures (unit * j) % 2 == 0
  {
    assert unit * j == 2 * (unit / 2 * j);
  }

  lemma WholeAndRest(j: int, r: int, den: int, unit: int)
    ensures unit * (j * den + r) == (unit * j) * den + unit * r
  {
    assert unit * (j * den + r) == unit * (j * den) + unit * r;
    assert unit * (j * den) == (unit * j) * den;
  }

  lemma GapAgainstHalf(r: int, den: int, unit: int)
    requires 0 <= r < den && unit % 2 == 0 && unit >= 0
    ensures 2 * (unit * r - unit / 2 * den) == unit * (2 * r - den)
    ensures unit * r <= unit * den
  {
    assert unit * (2 * r - den) == unit * (2 * r) - unit * den;
    assert unit * (2 * r) == 2 * (unit * r);
    assert unit * den == 2 * (unit / 2 * den);
    assert unit * (den - r) == unit * den - unit * r;
    assert unit * (den - r) >= 0;
  }

  /** The rounded fraction is below, on or above one half. */
  lemma RoundedFraction(r: int, den: int, unit: int, d: int)
    requires 0 <= r < den && unit >= 0 && unit % 4 == 0 && Rounds(unit * r, den, d)
    ensures 0 <= d <= unit
    ensures 2 * d == unit <==> -den <= unit * (2 * r - den) <= den
    ensures 2 * d < unit <==> unit * (2 * r - den) < -den
  {
    var x, half, overHalf := unit * r, unit / 2, unit * (2 * r - den);
    GapAgainstHalf(r, den, unit);
    assert 2 * (x - half * den) == overHalf;
    RoundingAgainst(x, den, d, half);
    assert Rounds(unit * den, den, unit) && Rounds(0, den, 0);
    RoundingsAreOrdered(x, unit * den, den, d, unit);
    RoundingsAreOrdered(0, x, den, 0, d);
  }

  /** Rounding twice, against rounding once, for the value `j + r / den`. */
  lemma RoundingTwice(j: int, r: int, den: int, unit: int, first: int, second: int, once: int)
    requires 0 <= r < den && unit > 0 && unit % 4 == 0
    requires Rounds(unit * (j * den + r), den, first) && Rounds(first, unit, second)
    requires Rounds(j * den + r, den, once)
    ensures second == once <==> !IsWrongHalf(j, unit * (2 * r - den), den)
  {
    var d, overHalf := FirstFraction(j, r, den, unit, first);
    SecondRounding(j, d, unit, second);
    OneRounding(j, r, den, once);
    CompareRoundings(j, 2 * r - den, overHalf, den, 2 * d, unit);
  }

  lemma FirstFraction(j: int, r: int, den: int, unit: int, first: int) returns (d: int, overHalf: int)
    requires 0 <= r < den && unit > 0 && unit % 4 == 0 && Rounds(unit * (j * den + r), den, first)
    ensures first == unit * j + d && 0 <= d <= unit
    ensures overHalf == unit * (2 * r - den) && (2 * r > den <==> overHalf > 0) && (2 * r < den <==> overHalf < 0)
    ensures 2 * d == unit <==> -den <= overHalf <= den
    ensures 2 * d < unit <==> overHalf < -den
  {
    d, overHalf := first - unit * j, unit * (2 * r - den);
    FirstRounding(j, r, den, unit, first);
    RoundedFraction(r, den, unit, d);
    SignOfProduct(unit, 2 * r - den);
  }

  lemma OneRounding(j: int, r: int, den: int, once: int)
    requires 0 <= r < den && Rounds(j * den + r, den, once)
    ensures once == if 2 * r < den || (2 * r == den && j % 2 == 0) then j else j + 1
  {
    assert den * j + r == j * den + r;
    SecondRounding(j, r, den, once);
  }

  /** Both roundings decide between `j` and `j + 1`; they differ on a wrong half only. */
  lemma CompareRoundings(j: int, gap: int, overHalf: int, den: int, twice: int, unit: int)
    requires den > 0
    requires gap > 0 <==> overHalf > 0
    requires gap < 0 <==> overHalf < 0
    requires twice == unit <==> -den <= overHalf <= den
    requires twice < unit <==> overHalf < -den
    ensures (twice < unit || (twice == unit && j % 2 == 0)) == (gap < 0 || (gap == 0 && j % 2 == 0))
            <==> !IsWrongHalf(j, overHalf, den)
  {
  }

  lemma SignOfProduct(unit: int, gap: int)
    requires unit > 0
    ensures gap > 0 ==> unit * gap >= unit
    ensures gap < 0 ==> unit * gap <= -unit
    ensures gap == 0 ==> unit * gap == 0
  {
  }

  // ------------------------------------------------------------------- the average

  /** The average is the mean rounded once exactly when the division does not land on a wrong half. */
  lemma AverageIsRoundedMeanIff(scores: seq<Score>)
    requires scores != []
    ensures AverageOf(scores) == RoundedMean(scores) <==> !LandsOnWrongHalf(10 * Sum(scores), |scores|, TENTH)
  {
    var first := AverageRounds(scores);
    RoundingTwiceOf(10 * Sum(scores), |scores|, TENTH, first, AverageOf(scores), RoundedMean(scores));
  }

  lemma AverageRounds(scores: seq<Score>) returns (first: int)
    requires scores != []
    ensures Rounds(TENTH * (10 * Sum(scores)), |scores|, first) && Rounds(first, TENTH, AverageOf(scores))
    ensures Rounds(10 * Sum(scores), |scores|, RoundedMean(scores))
  {
    RoundHalfEvenRounds(DIVISION_UNIT * Sum(scores), |scores|);
    first := RoundHalfEven(DIVISION_UNIT * Sum(scores), |scores|);
    RoundHalfEvenRounds(first, TENTH);
    RoundHalfEvenRounds(10 * Sum(scores), |scores|);
  }

  lemma RoundingTwiceOf(num: nat, den: int, unit: int, first: int, second: int, once: int)
    requires den > 0 && unit > 0 && unit % 4 == 0
    requires Rounds(unit * num, den, first) && Rounds(first, unit, second) && Rounds(num, den, once)
    ensures second == once <==> !LandsOnWrongHalf(num, den, unit)
  {
    var j, r := num / den, num % den;
    assert num == j * den + r;
    RoundingTwice(j, r, den, unit, first, second, once);
  }

  /** A list shorter than 10^26 cannot land there. */
  lemma AverageIsRoundedMean(scores: seq<Score>)
    requires 0 < |scores| < TENTH
    ensures AverageOf(scores) == RoundedMean(scores)
  {
    AverageIsRoundedMeanIff(scores);
    var r := (10 * Sum(scores)) % |scores|;
    SignOfProduct(TENTH, 2 * r - |scores|);
  }

  /** What two roundings together can be off by: half the coarse unit and half the fine one. */
  lemma NearTwice(num: int, den: int, unit: int, first: int, second: int)
    requires den > 0 && unit > 0
    requires Rounds(unit * num, den, first) && Rounds(first, unit, second)
    ensures -((unit + 1) * den) <= 2 * (unit * (num - second * den)) <= (unit + 1) * den
  {
    var e1, e2 := unit * num - first * den, first - second * unit;
    TwoErrors(num, den, unit, first, second);
    ScaleBounds(2 * e2, unit, den);
    assert 2 * e2 * den == 2 * (e2 * den);
    assert (unit + 1) * den == unit * den + den;
  }

  lemma TwoErrors(num: int, den: int, unit: int, first: int, second: int)
    ensures unit * (num - second * den) == (unit * num - first * den) + (first - second * unit) * den
  {
    assert unit * (num - second * den) == unit * num - unit * (second * den);
    assert unit * (second * den) == (second * unit) * den;
    assert (first - second * unit) * den == first * den - (second * unit) * den;
  }

  lemma ScaleBounds(x: int, bound: int, factor: int)
    requires -bound <= x <= bound && factor > 0
    ensures -(bound * factor) <= x * factor <= bound * factor
  {
    assert (bound - x) * factor == bound * factor - x * factor;
    assert (bound + x) * factor == bound * factor + x * factor;
  }

  /**
    The average of any list is within half a tenth of the mean and half a unit of the division's
    last digit; of a list shorter than 10^26, within half a tenth.
   */
  lemma AverageIsNearMean(scores: seq<Score>)
    requires scores != []
    ensures var n, off := |scores|, 10 * Sum(scores) - AverageOf(scores) * |scores|;
            && -(TENTH + 1) * n <= 2 * (TENTH * off) <= (TENTH + 1) * n
            && (n < TENTH ==> -n <= 2 * off <= n)
  {
    var first := AverageRounds(scores);
    NearTwice(10 * Sum(scores), |scores|, TENTH, first, AverageOf(scores));
    if |scores| < TENTH {
      AverageIsRoundedMean(scores);
    }
  }

  function Repeat(x: Score, n: nat): (s: seq<Score>)
    ensures |s| == n
  {
    seq(n, _ => x)
  }

  lemma {:induction false} SumOfRepeat(x: Score, n: nat)
    ensures Sum(Repeat(x, n)) == x * n
  {
    if n > 0 {
      assert Repeat(x, n)[1..] == Repeat(x, n - 1);
      SumOfRepeat(x, n - 1);
    }
  }

  lemma {:induction false} SumOfConcat(a: seq<Score>, b: seq<Score>)
    ensures Sum(a + b) == Sum(a) + Sum(b)
  {
    if a == [] {
      assert a + b == b;
    } else {
      assert (a + b)[1..] == a[1..] + b;
      SumOfConcat(a[1..], b);
    }
  }

  const LONG: nat := TENTH + 3
  /** A hair under 1.35 times the length. */
  const LONG_SUM: nat := 135000000000000000000000004

  lemma LongDivision()
    ensures RoundHalfEven(DIVISION_UNIT * LONG_SUM, LONG) == 1350000000000000000000000000
  {
    var num := 135000000000000000000000004000000000000000000000000000;
    assert DIVISION_UNIT * LONG_SUM == num;
    var left := num - 1350000000000000000000000000 * LONG;
    assert IsNear(left, LONG, 1350000000000000000000000000);
    RoundingIs(num, LONG, 1350000000000000000000000000);
  }

  /** The bound cannot be dropped: 10^26 + 3 ones and twos with a mean under 1.35 average to 1.4. */
  lemma LongListRoundsWrong()
    ensures exists scores: seq<Score> :: |scores| == LONG && AverageOf(scores) == 14 && RoundedMean(scores) == 13
  {
    var twos := LONG_SUM - LONG;
    var scores := Repeat(2, twos) + Repeat(1, LONG - twos);
    SumOfRepeat(2, twos);
    SumOfRepeat(1, LONG - twos);
    SumOfConcat(Repeat(2, twos), Repeat(1, LONG - twos));
    assert Sum(scores) == LONG_SUM;
    RoundingIs(10 * LONG_SUM, LONG, 13);
    LongDivision();
  }

  /** The column's check: an average of scores is between 1.0 and 5.0. */
  lemma AverageInRange(scores: seq<Score>)
    requires scores != []
    ensures 10 <= AverageOf(scores) <= 50
  {
    var n := |scores|;
    WholeIsKept(DIVISION_UNIT, n);
    WholeIsKept(5 * DIVISION_UNIT, n);
    RoundingIsMonotone(DIVISION_UNIT * n, DIVISION_UNIT * Sum(scores), n);
    RoundingIsMonotone(DIVISION_UNIT * Sum(scores), 5 * DIVISION_UNIT * n, n);
    var d := RoundHalfEven(DIVISION_UNIT * Sum(scores), n);
    RoundingIsMonotone(DIVISION_UNIT, d, TENTH);
    RoundingIsMonotone(d, 5 * DIVISION_UNIT, TENTH);
  }

  lemma LargerSumLargerAverage(a: seq<Score>, b: seq<Score>)
    requires 0 < |a| == |b| && Sum(a) <= Sum(b)
    ensures AverageOf(a) <= AverageOf(b)
  {
    RoundingIsMonotone(DIVISION_UNIT * Sum(a), DIVISION_UNIT * Sum(b), |a|);
    RoundingIsMonotone(RoundHalfEven(DIVISION_UNIT * Sum(a), |a|), RoundHalfEven(DIVISION_UNIT * Sum(b), |a|), TENTH);
  }

  lemma {:induction false} SumOfUpdate(scores: seq<Score>, i: nat, x: Score)
    requires i < |scores|
    ensures Sum(scores[i := x]) == Sum(scores) - scores[i] + x
  {
    var updated := scores[i := x];
    if i == 0 {
      assert updated[1..] == scores[1..];
    } else {
      assert updated[1..] == scores[1..][i - 1 := x];
      SumOfUpdate(scores[1..], i - 1, x);
    }
  }

  /** Raising one score never lowers the average. */
  lemma RaisingAScore(scores: seq<Score>, i: nat, x: Score)
    requires i < |scores| && scores[i] <= x
    ensures AverageOf(scores) <= AverageOf(scores[i := x])
  {
    SumOfUpdate(scores, i, x);
    LargerSumLargerAverage(scores, scores[i := x]);
  }

  // ------------------------------------------------------------------- distribution

  type Distribution = map<Score, nat>

  const EMPTY_DISTRIBUTION: Distribution := map[1 := 0, 2 := 0, 3 := 0, 4 := 0, 5 := 0]

  function Count(scores: seq<Score>, star: Score): nat {
    if scores == [] then 0 else (if scores[0] == star then 1 else 0) + Count(scores[1..], star)
  }

  function DistributionOf(scores: seq<Score>): Distribution {
    map star: Score | 1 <= star <= 5 :: Count(scores, star)
  }

  lemma {:induction false} CountOfConcat(a: seq<Score>, b: seq<Score>, star: Score)
    ensures Count(a + b, star) == Count(a, star) + Count(b, star)
  {
    if a == [] {
      assert a + b == b;
    } else {
      assert (a + b)[1..] == a[1..] + b;
      CountOfConcat(a[1..], b, star);
    }
  }

  lemma CountOneMore(scores: seq<Score>, i: nat, star: Score)
    requires i < |scores|
    ensures Count(scores[..i + 1], star) == Count(scores[..i], star) + if scores[i] == star then 1 else 0
  {
    assert scores[..i + 1] == scores[..i] + [scores[i]];
    CountOfConcat(scores[..i], [scores[i]], star);
    assert [scores[i]][1..] == [];
  }

  lemma OneMore(scores: seq<Score>, i: nat)
    requires i < |scores|
    ensures DistributionOf(scores[..i + 1]) ==
            DistributionOf(scores[..i])[scores[i] := Count(scores[..i], scores[i]) + 1]
  {
    forall star: Score
      ensures Count(scores[..i + 1], star) == Count(scores[..i], star) + if scores[i] == star then 1 else 0
    {
      CountOneMore(scores, i, star);
    }
  }

  /** Counts score by score into a zeroed distribution. */
  method BuildDistribution(scores: seq<Score>) returns (dist: Distribution)
    ensures dist == DistributionOf(scores)
  {
    dist := EMPTY_DISTRIBUTION;
    for i := 0 to |scores|
      invariant dist == DistributionOf(scores[..i])
    {
      OneMore(scores, i);
      dist := dist[scores[i] := dist[scores[i]] + 1];
    }
    assert scores[..|scores|] == scores;
  }

  /** The stars of a distribution recover the number of scores and their sum. */
  lemma {:induction false} DistributionTotals(scores: seq<Score>)
    ensures var d := DistributionOf(scores);
            && d[1] + d[2] + d[3] + d[4] + d[5] == |scores|
            && d[1] + 2 * d[2] + 3 * d[3] + 4 * d[4] + 5 * d[5] == Sum(scores)
  {
    if scores != [] {
      DistributionTotals(scores[1..]);
      var d, rest := DistributionOf(scores), DistributionOf(scores[1..]);
      assert forall star: Score :: d[star] == rest[star] + if scores[0] == star then 1 else 0;
    }
  }

  /** So whatever order the rows come in, lists with one distribution have one average. */
  lemma AverageDependsOnDistribution(a: seq<Score>, b: seq<Score>)
    requires a != [] && DistributionOf(a) == DistributionOf(b)
    ensures |a| == |b| && AverageOf(a) == AverageOf(b)
  {
    DistributionTotals(a);
    DistributionTotals(b);
  }

  /** A distribution is the multiset of the scores. */
  lemma {:induction false} CountIsMultiplicity(scores: seq<Score>, star: Score)
    ensures Count(scores, star) == multiset(scores)[star]
  {
    if scores != [] {
      assert scores == [scores[0]] + scores[1..];
      CountIsMultiplicity(scores[1..], star);
    }
  }
}
