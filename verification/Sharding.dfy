/** Splitting a job's inputs over the workers in proportion to their measured throughput, by the
    largest-remainder method. Reals stand for the source's floating point numbers. */
module Sharding {
  import opened Smoothing
  import opened Wrappers

  function Sum(s: seq<real>): real {
    if s == [] then 0.0 else Sum(s[..|s| - 1]) + s[|s| - 1]
  }

  function Count(s: seq<int>): int {
    if s == [] then 0 else Count(s[..|s| - 1]) + s[|s| - 1]
  }

  predicate Positive(weights: seq<real>) {
    forall i | 0 <= i < |weights| :: weights[i] > 0.0
  }

  lemma {:induction false} SumPositive(weights: seq<real>)
    requires Positive(weights) && weights != []
    ensures Sum(weights) > 0.0
  {
    if |weights| > 1 {
      SumPositive(weights[..|weights| - 1]);
    }
  }

  lemma PrefixSum(s: seq<real>, k: nat)
    requires 0 < k <= |s|
    ensures Sum(s[..k]) == Sum(s[..k - 1]) + s[k - 1]
  {
    assert s[..k][..k - 1] == s[..k - 1];
  }

  lemma PrefixCount(s: seq<int>, k: nat)
    requires 0 < k <= |s|
    ensures Count(s[..k]) == Count(s[..k - 1]) + s[k - 1]
  {
    assert s[..k][..k - 1] == s[..k - 1];
  }

  // ---- exact shares ----

  /** `share` is the exact proportional share, in `n` inputs, of a worker that weighs `weight` in `total`. */
  predicate IsShare(n: nat, weight: real, total: real, share: real) {
    share * total == n as real * weight
  }

  ghost predicate AreShares(n: nat, weights: seq<real>, shares: seq<real>) {
    && Positive(weights)
    && |shares| == |weights|
    && forall i {:trigger IsShare(n, weights[i], Sum(weights), shares[i])} | 0 <= i < |shares| ::
         IsShare(n, weights[i], Sum(weights), shares[i])
  }

  function Exact(n: nat, weight: real, total: real): (share: real)
    requires total > 0.0
    ensures IsShare(n, weight, total, share)
  {
    DivideBack(n as real * weight, total);
    n as real * weight / total
  }

  lemma DivideBack(a: real, t: real)
    requires t > 0.0
    ensures a / t * t == a
  {
  }

  lemma Distribute(a: real, b: real, t: real)
    ensures (a + b) * t == a * t + b * t
  {
  }

  lemma {:induction false} SharesScale(n: nat, weights: seq<real>, shares: seq<real>, k: nat)
    requires AreShares(n, weights, shares) && k <= |shares|
    ensures IsShare(n, Sum(weights[..k]), Sum(weights), Sum(shares[..k]))
  {
    if k > 0 {
      SharesScale(n, weights, shares, k - 1);
      PrefixSum(shares, k);
      PrefixSum(weights, k);
      ShareSum(n, Sum(weights), Sum(weights[..k - 1]), Sum(shares[..k - 1]), weights[k - 1], shares[k - 1]);
    }
  }

  lemma ShareSum(n: nat, total: real, w: real, s: real, w': real, s': real)
    requires IsShare(n, w, total, s) && IsShare(n, w', total, s')
    ensures IsShare(n, w + w', total, s + s')
  {
    Distribute(s, s', total);
    Distribute(w, w', n as real);
  }

  lemma ShareOfAll(n: nat, total: real, share: real)
    requires total > 0.0 && IsShare(n, total, total, share)
    ensures share == n as real
  {
    Distribute(share, -(n as real), total);
  }

  /** The exact shares add up to the number of inputs. */
  lemma SharesAddUp(n: nat, weights: seq<real>, shares: seq<real>)
    requires AreShares(n, weights, shares) && shares != []
    ensures Sum(shares) == n as real
  {
    SharesScale(n, weights, shares, |shares|);
    assert shares[..|shares|] == shares && weights[..|weights|] == weights;
    SumPositive(weights);
    ShareOfAll(n, Sum(weights), Sum(shares));
  }

  lemma ProductMonotone(k: real, a: real, b: real)
    requires k >= 0.0 && a <= b
    ensures k * a <= k * b
  {
  }

  lemma CancelOrder(a: real, b: real, t: real)
    requires t > 0.0 && a * t > b * t
    ensures a > b
  {
  }

  lemma ScaleOrder(a: real, b: real, t: real)
    requires t > 0.0 && a > b
    ensures a * t > b * t
  {
  }

  lemma ShareOrder(n: nat, total: real, w: real, s: real, w': real, s': real)
    requires total > 0.0 && n > 0 && w > w'
    requires IsShare(n, w, total, s) && IsShare(n, w', total, s')
    ensures s > s'
  {
    ScaleOrder(w, w', n as real);
    CancelOrder(s, s', total);
  }

  lemma ShareNonnegative(n: nat, total: real, w: real, s: real)
    requires total > 0.0 && w > 0.0 && IsShare(n, w, total, s)
    ensures s >= 0.0
  {
    if s < 0.0 {
      ScaleOrder(0.0, s, total);
    }
  }

  /** Shares are never negative, and a faster worker's share is larger. */
  lemma SharesFollowWeights(n: nat, weights: seq<real>, shares: seq<real>, i: nat, j: nat)
    requires AreShares(n, weights, shares) && i < |shares| && j < |shares|
    ensures shares[i] >= 0.0
    ensures n > 0 && weights[i] > weights[j] ==> shares[i] > shares[j]
  {
    var t := Sum(weights);
    SumPositive(weights);
    assert IsShare(n, weights[i], t, shares[i]) && IsShare(n, weights[j], t, shares[j]);
    ShareNonnegative(n, t, weights[i], shares[i]);
    if n > 0 && weights[i] > weights[j] {
      ShareOrder(n, t, weights[i], shares[i], weights[j], shares[j]);
    }
  }

  // ---- rounding ----

  function Whole(share: real): int {
    share.Floor
  }

  function Frac(share: real): (f: real)
    ensures 0.0 <= f < 1.0
  {
    share - Whole(share) as real
  }

  /** Worker i's claim to a spare input precedes worker j's: larger fraction, then position. */
  predicate Precedes(shares: seq<real>, i: nat, j: nat)
    requires i < |shares| && j < |shares|
  {
    Frac(shares[i]) > Frac(shares[j]) || (Frac(shares[i]) == Frac(shares[j]) && i < j)
  }

  /** Every count is the share rounded down or up, and the rounded up ones have the first claims. */
  ghost predicate RoundsByRemainder(shares: seq<real>, counts: seq<int>) {
    && |counts| == |shares|
    && (forall i | 0 <= i < |counts| :: counts[i] == Whole(shares[i]) || counts[i] == Whole(shares[i]) + 1)
    && (forall i, j | 0 <= i < |counts| && 0 <= j < |counts| &&
          counts[i] == Whole(shares[i]) + 1 && counts[j] == Whole(shares[j]) :: Precedes(shares, i, j))
  }

  /** The counts the source computes: rounded by largest remainder and adding up to all inputs. */
  ghost predicate LargestRemainder(n: nat, shares: seq<real>, counts: seq<int>) {
    RoundsByRemainder(shares, counts) && Count(counts) == n
  }

  ghost function WholeSum(shares: seq<real>): int {
    if shares == [] then 0 else WholeSum(shares[..|shares| - 1]) + Whole(shares[|shares| - 1])
  }

  /** Rounding every share down loses at least 0 and less than one input per worker. */
  lemma {:induction false} LeftoverBound(shares: seq<real>)
    ensures WholeSum(shares) as real <= Sum(shares) <= (WholeSum(shares) + |shares|) as real
    ensures shares != [] ==> Sum(shares) < (WholeSum(shares) + |shares|) as real
  {
    if shares != [] {
      LeftoverBound(shares[..|shares| - 1]);
    }
  }

  lemma {:induction false} CountUpdate(s: seq<int>, i: nat, v: int)
    requires i < |s|
    ensures Count(s[i := v]) == Count(s) - s[i] + v
  {
    var t := s[i := v];
    if i < |s| - 1 {
      CountUpdate(s[..|s| - 1], i, v);
      assert t[..|s| - 1] == s[..|s| - 1][i := v];
    } else {
      assert t[..|s| - 1] == s[..|s| - 1];
    }
  }

  lemma {:induction false} CountOfWholes(shares: seq<real>, counts: seq<int>, up: int)
    requires |counts| == |shares|
    requires forall i | 0 <= i < |counts| :: counts[i] == Whole(shares[i]) + up
    ensures Count(counts) == WholeSum(shares) + up * |shares|
  {
    if counts != [] {
      CountOfWholes(shares[..|shares| - 1], counts[..|counts| - 1], up);
    }
  }

  /** While inputs are left over, some worker has not been rounded up yet. */
  lemma SomeoneNotRoundedUp(n: nat, shares: seq<real>, counts: seq<int>) returns (i: nat)
    requires shares != [] && RoundsByRemainder(shares, counts)
    requires Sum(shares) == n as real && Count(counts) < n
    ensures i < |counts| && counts[i] == Whole(shares[i])
  {
    assert !forall x | 0 <= x < |counts| :: counts[x] == Whole(shares[x]) + 1 by {
      if forall x | 0 <= x < |counts| :: counts[x] == Whole(shares[x]) + 1 {
        CountOfWholes(shares, counts, 1);
        LeftoverBound(shares);
      }
    }
    i :| 0 <= i < |counts| && counts[i] != Whole(shares[i]) + 1;
  }

  // ---- optimality: no other integer split is closer to the exact shares ----

  /** Sum of squared deviations of the first `k` counts from the exact shares. */
  ghost function Deviation(shares: seq<real>, counts: seq<int>, k: nat): real
    requires |counts| == |shares| && k <= |shares|
  {
    if k == 0 then 0.0
    else
      var d := counts[k - 1] as real - shares[k - 1];
      Deviation(shares, counts, k - 1) + d * d
  }

  /** The largest fraction among the first `k` workers that were not rounded up (0 if all were). */
  ghost function Threshold(shares: seq<real>, counts: seq<int>, k: nat): real
    requires |counts| == |shares| && k <= |shares|
  {
    if k == 0 then 0.0
    else
      var t := Threshold(shares, counts, k - 1);
      if counts[k - 1] == Whole(shares[k - 1]) && Frac(shares[k - 1]) > t then Frac(shares[k - 1]) else t
  }

  lemma {:induction false} ThresholdSeparates(shares: seq<real>, counts: seq<int>, k: nat)
    requires RoundsByRemainder(shares, counts) && k <= |shares|
    ensures 0.0 <= Threshold(shares, counts, k) <= 1.0
    ensures forall j | 0 <= j < k && counts[j] == Whole(shares[j]) :: Frac(shares[j]) <= Threshold(shares, counts, k)
    ensures forall i | 0 <= i < |counts| && counts[i] == Whole(shares[i]) + 1 ::
              Frac(shares[i]) >= Threshold(shares, counts, k)
  {
    if k > 0 {
      ThresholdSeparates(shares, counts, k - 1);
      if counts[k - 1] == Whole(shares[k - 1]) {
        forall i | 0 <= i < |counts| && counts[i] == Whole(shares[i]) + 1
          ensures Frac(shares[i]) >= Frac(shares[k - 1])
        {
          assert Precedes(shares, i, k - 1);
        }
      }
    }
  }

  lemma SquareDifference(a: real, e: real, k: real, m: real)
    requires a == e + k && m == a + e
    ensures a * a - e * e == k * m
  {
  }

  lemma ProductAntitone(k: real, a: real, b: real)
    requires k <= 0.0 && a <= b
    ensures k * a >= k * b
  {
  }

  lemma ProductOrder(k: real, m: real, slope: real)
    requires k == 0.0 || (k > 0.0 && slope <= m) || (k < 0.0 && m <= slope)
    ensures k * slope <= k * m
  {
    if k > 0.0 {
      ProductMonotone(k, slope, m);
    } else if k < 0.0 {
      ProductAntitone(k, m, slope);
    }
  }

  /** `gap` and `cost` stand for the two products, so that the solver compares plain numbers. */
  lemma MovingCostsReal(a: real, e: real, k: real, m: real, slope: real, gap: real, cost: real)
    requires a == e + k && m == a + e && (k == 0.0 || k >= 1.0 || k <= -1.0)
    requires 2.0 * e - 1.0 <= slope <= 2.0 * e + 1.0
    requires gap == a * a - e * e && cost == k * slope
    ensures gap >= cost
  {
    assert gap == k * m by { SquareDifference(a, e, k, m); }
    assert cost <= k * m by { ProductOrder(k, m, slope); }
  }

  /** Moving one count away from `c` costs at least the common slope per unit moved. */
  lemma MovingCosts(c: int, d: int, x: real, slope: real)
    requires 2.0 * (c as real - x) - 1.0 <= slope <= 2.0 * (c as real - x) + 1.0
    ensures (d as real - x) * (d as real - x) - (c as real - x) * (c as real - x) >= slope * (d - c) as real
  {
    var a, e, k := d as real - x, c as real - x, (d - c) as real;
    assert k == d as real - c as real;
    MovingCostsReal(a, e, k, a + e, slope, a * a - e * e, k * slope);
  }

  lemma ScaleSum(slope: real, a: int, b: int)
    ensures slope * (a + b) as real == slope * a as real + slope * b as real
  {
    assert (a + b) as real == a as real + b as real;
  }

  lemma {:induction false} DeviationGap(shares: seq<real>, counts: seq<int>, other: seq<int>, slope: real, k: nat)
    requires |counts| == |other| == |shares| && k <= |shares|
    requires forall i | 0 <= i < |shares| ::
               2.0 * (counts[i] as real - shares[i]) - 1.0 <= slope <= 2.0 * (counts[i] as real - shares[i]) + 1.0
    ensures Deviation(shares, other, k) - Deviation(shares, counts, k) >=
            slope * (Count(other[..k]) - Count(counts[..k])) as real
  {
    if k > 0 {
      DeviationGap(shares, counts, other, slope, k - 1);
      PrefixCount(counts, k);
      PrefixCount(other, k);
      MovingCosts(counts[k - 1], other[k - 1], shares[k - 1], slope);
      ScaleSum(slope, Count(other[..k - 1]) - Count(counts[..k - 1]), other[k - 1] - counts[k - 1]);
    }
  }

  /** Among all integer vectors that add up to the number of inputs, the computed counts minimise the
      sum of squared deviations from the exact proportional shares. */
  lemma LargestRemainderIsOptimal(n: nat, shares: seq<real>, counts: seq<int>, other: seq<int>)
    requires LargestRemainder(n, shares, counts)
    requires |other| == |shares| && Count(other) == n
    ensures Deviation(shares, counts, |shares|) <= Deviation(shares, other, |shares|)
  {
    ThresholdSeparates(shares, counts, |shares|);
    var slope := 1.0 - 2.0 * Threshold(shares, counts, |shares|);
    forall i | 0 <= i < |shares|
      ensures 2.0 * (counts[i] as real - shares[i]) - 1.0 <= slope <= 2.0 * (counts[i] as real - shares[i]) + 1.0
    {
      assert shares[i] == Whole(shares[i]) as real + Frac(shares[i]);
    }
    DeviationGap(shares, counts, other, slope, |shares|);
    assert counts[..|counts|] == counts && other[..|other|] == other;
  }

  lemma {:induction false} CountAboveSum(counts: seq<int>, shares: seq<real>, i: nat)
    requires |counts| == |shares| && forall j | 0 <= j < |counts| :: counts[j] as real >= shares[j]
    ensures Count(counts) as real >= Sum(shares)
    ensures i < |counts| && counts[i] as real > shares[i] ==> Count(counts) as real > Sum(shares)
  {
    if counts != [] {
      CountAboveSum(counts[..|counts| - 1], shares[..|shares| - 1], i);
    }
  }

  /** Every count is the floor or the ceiling of its share: only a share with a fraction is rounded up. */
  lemma CountsMeetQuota(n: nat, shares: seq<real>, counts: seq<int>, i: nat)
    requires LargestRemainder(n, shares, counts) && Sum(shares) == n as real && i < |shares|
    ensures Whole(shares[i]) <= counts[i]
    ensures counts[i] as real < shares[i] + 1.0
  {
    if counts[i] == Whole(shares[i]) + 1 && Frac(shares[i]) == 0.0 {
      forall j | 0 <= j < |counts| ensures counts[j] as real >= shares[j] {
        assert counts[j] == Whole(shares[j]) ==> Precedes(shares, i, j);
      }
      CountAboveSum(counts, shares, i);
    }
  }

  /** A worker with a larger share never gets fewer inputs. */
  lemma FasterNeverGetsFewer(n: nat, shares: seq<real>, counts: seq<int>, i: nat, j: nat)
    requires LargestRemainder(n, shares, counts)
    requires i < |shares| && j < |shares| && shares[i] > shares[j]
    ensures counts[i] >= counts[j]
  {
    assert counts[i] < counts[j] ==> Precedes(shares, j, i);
  }

  /** The remainder rule leaves no choice: two vectors that follow it are equal. */
  lemma LargestRemainderIsUnique(n: nat, shares: seq<real>, a: seq<int>, b: seq<int>)
    requires LargestRemainder(n, shares, a) && LargestRemainder(n, shares, b)
    ensures a == b
  {
    if a != b {
      var i :| 0 <= i < |a| && a[i] != b[i];
      if a[i] > b[i] {
        RoundedUpMore(shares, a, b, i);
      } else {
        RoundedUpMore(shares, b, a, i);
      }
    }
  }

  /** If the rule rounds i up in `a` but not in `b`, everything `b` rounds up is rounded up in `a`. */
  lemma RoundedUpMore(shares: seq<real>, a: seq<int>, b: seq<int>, i: nat)
    requires RoundsByRemainder(shares, a) && RoundsByRemainder(shares, b)
    requires i < |a| && a[i] > b[i]
    ensures Count(a) > Count(b)
  {
    forall j | 0 <= j < |a| ensures a[j] >= b[j] {
      assert a[j] == Whole(shares[j]) ==> Precedes(shares, i, j);
      assert b[j] == Whole(shares[j]) + 1 ==> Precedes(shares, j, i);
    }
    CountDominates(a, b, i);
  }

  lemma {:induction false} CountDominates(a: seq<int>, b: seq<int>, i: nat)
    requires |a| == |b| && forall j | 0 <= j < |a| :: a[j] >= b[j]
    ensures Count(a) >= Count(b)
    ensures i < |a| && a[i] > b[i] ==> Count(a) > Count(b)
  {
    if a != [] {
      CountDominates(a[..|a| - 1], b[..|a| - 1], i);
    }
  }

  // ---- the shards ----

  lemma {:induction false} PrefixFits(counts: seq<int>, k: nat)
    requires k <= |counts| && forall i | 0 <= i < |counts| :: counts[i] >= 0
    ensures 0 <= Count(counts[..k]) <= Count(counts)
    decreases |counts|
  {
    if k < |counts| {
      PrefixFits(counts[..|counts| - 1], k);
      assert counts[..|counts| - 1][..k] == counts[..k];
    } else if k > 0 {
      PrefixFits(counts[..k - 1], k - 1);
      assert counts[..k] == counts && counts[..k - 1][..k - 1] == counts[..k - 1];
    }
  }

  function Flatten<T>(shards: seq<seq<T>>): seq<T> {
    if shards == [] then [] else Flatten(shards[..|shards| - 1]) + shards[|shards| - 1]
  }

  function Sizes<T>(shards: seq<seq<T>>): (sizes: seq<int>)
    ensures |sizes| == |shards|
    ensures forall i | 0 <= i < |shards| :: sizes[i] == |shards[i]|
  {
    seq(|shards|, i requires 0 <= i < |shards| => |shards[i]|)
  }

  /** `shards` cuts `inputs` into consecutive pieces of the largest-remainder sizes. */
  ghost predicate IsWeightedSplit<T>(inputs: seq<T>, weights: seq<real>, shards: seq<seq<T>>) {
    && |shards| == |weights|
    && Flatten(shards) == inputs
    && exists shares :: AreShares(|inputs|, weights, shares) && LargestRemainder(|inputs|, shares, Sizes(shards))
  }

  // ---- the shards against the measured throughput ----

  /** `a` is to `ra` as `b` is to `rb`. */
  predicate InRatio(a: real, ra: real, b: real, rb: real) {
    a * rb == b * ra
  }

  /** The shares of two workers are in the ratio of their measured rates; a worker that was never measured
      counts as one frame per second. */
  predicate SharesLikeRates(tp: map<string, real>, a: string, shareA: real, b: string, shareB: real) {
    && (a in tp && b in tp ==> InRatio(shareA, tp[a], shareB, tp[b]))
    && (a in tp && b !in tp ==> InRatio(shareA, tp[a], shareB, 1.0))
    && (a !in tp && b !in tp ==> shareA == shareB)
  }

  /** The throughput table alone decides the shards: exact shares like the measured rates that add up to all
      inputs, and of every share the floor or the ceiling. */
  ghost predicate SharesByThroughput(n: nat, tp: map<string, real>, workers: seq<string>, sizes: seq<int>,
                                     shares: seq<real>) {
    && |shares| == |workers| == |sizes| && Sum(shares) == n as real
    && (forall i, j {:trigger shares[i], shares[j]} | 0 <= i < |shares| && 0 <= j < |shares| ::
          SharesLikeRates(tp, workers[i], shares[i], workers[j], shares[j]))
    && (forall i | 0 <= i < |shares| :: shares[i] - 1.0 < sizes[i] as real < shares[i] + 1.0)
  }

  /** A worker measured strictly faster than another never gets fewer inputs. */
  ghost predicate FasterGetsMore(tp: map<string, real>, workers: seq<string>, sizes: seq<int>)
    requires |sizes| == |workers|
  {
    forall i, j | 0 <= i < |workers| && 0 <= j < |workers|
                  && workers[i] in tp && workers[j] in tp && tp[workers[i]] > tp[workers[j]] :: sizes[i] >= sizes[j]
  }

  lemma SharesInRatio(n: nat, ra: real, rb: real, total: real, a: real, b: real)
    requires total > 0.0 && IsShare(n, ra, total, a) && IsShare(n, rb, total, b)
    ensures InRatio(a, ra, b, rb)
  {
    CrossProducts(a, ra, b, rb, n as real, total, a * rb, b * ra);
  }

  lemma CrossProducts(a: real, ra: real, b: real, rb: real, n: real, total: real, x: real, y: real)
    requires total > 0.0 && a * total == n * ra && b * total == n * rb && x == a * rb && y == b * ra
    ensures x == y
  {
    calc {
      x * total;
      a * total * rb;
      n * ra * rb;
      n * rb * ra;
      b * total * ra;
      y * total;
    }
    CancelFactor(x, y, total);
  }

  lemma CancelFactor(x: real, y: real, t: real)
    requires t > 0.0 && x * t == y * t
    ensures x == y
  {
    if x > y {
      ScaleOrder(x, y, t);
    } else if x < y {
      ScaleOrder(y, x, t);
    }
  }

  /** Every worker weighs its measured rate, or one frame per second. */
  ghost predicate WeighsAsMeasured(tp: map<string, real>, workers: seq<string>, weights: seq<real>) {
    && |weights| == |workers|
    && forall i | 0 <= i < |workers| :: (workers[i] in tp ==> weights[i] == tp[workers[i]])
                                        && (workers[i] !in tp ==> weights[i] == 1.0)
  }

  lemma SharesFollowThroughput(n: nat, tp: map<string, real>, workers: seq<string>, weights: seq<real>,
                               shares: seq<real>, sizes: seq<int>)
    requires workers != [] && WeighsAsMeasured(tp, workers, weights)
    requires AreShares(n, weights, shares) && LargestRemainder(n, shares, sizes)
    ensures SharesByThroughput(n, tp, workers, sizes, shares)
  {
    SumPositive(weights);
    SharesAddUp(n, weights, shares);
    forall i, j | 0 <= i < |shares| && 0 <= j < |shares|
      ensures SharesLikeRates(tp, workers[i], shares[i], workers[j], shares[j])
    {
      assert IsShare(n, weights[i], Sum(weights), shares[i]) && IsShare(n, weights[j], Sum(weights), shares[j]);
      SharesInRatio(n, weights[i], weights[j], Sum(weights), shares[i], shares[j]);
    }
    forall i | 0 <= i < |shares| ensures shares[i] - 1.0 < sizes[i] as real < shares[i] + 1.0 {
      CountsMeetQuota(n, shares, sizes, i);
    }
  }

  lemma FasterWorkersGetMore(n: nat, tp: map<string, real>, workers: seq<string>, weights: seq<real>,
                             shares: seq<real>, sizes: seq<int>)
    requires n > 0 && WeighsAsMeasured(tp, workers, weights)
    requires AreShares(n, weights, shares) && LargestRemainder(n, shares, sizes)
    ensures FasterGetsMore(tp, workers, sizes)
  {
    forall i, j | 0 <= i < |workers| && 0 <= j < |workers|
                  && workers[i] in tp && workers[j] in tp && tp[workers[i]] > tp[workers[j]]
      ensures sizes[i] >= sizes[j]
    {
      SharesFollowWeights(n, weights, shares, i, j);
      FasterNeverGetsFewer(n, shares, sizes, i, j);
    }
  }

  /** Between workers with equal shares, the one earlier in the list gets the spare input. */
  lemma EarlierGetsTheSpare(n: nat, shares: seq<real>, counts: seq<int>, i: nat, j: nat)
    requires LargestRemainder(n, shares, counts) && i < j < |shares| && shares[i] == shares[j]
    ensures counts[j] <= counts[i] <= counts[j] + 1
  {
    assert counts[i] < counts[j] ==> Precedes(shares, j, i);
  }

  /** Nine inputs for workers measured at two frames and one frame per second: six and three. */
  lemma TwiceAsFastGetsTwiceAsMany(sizes: seq<int>, shares: seq<real>)
    requires SharesByThroughput(9, map["a" := 2.0, "b" := 1.0], ["a", "b"], sizes, shares)
    ensures sizes == [6, 3]
  {
    assert SharesLikeRates(map["a" := 2.0, "b" := 1.0], "a", shares[0], "b", shares[1]);
    assert shares[..2] == shares && shares[..1][..0] == [] && shares[..2][..1] == shares[..1];
    assert Sum(shares[..1]) == shares[0] && Sum(shares) == shares[0] + shares[1];
  }

  /** The worker throughput table (frames per second, smoothed), keyed by node id. */
  class Throughput {
    var tp: map<string, real>

    ghost predicate Valid()
      reads this
    {
      forall id | id in tp :: tp[id] > 0.0
    }

    constructor ()
      ensures Valid() && tp == map[]
    {
      tp := map[];
    }

    /** Feed one job's measurement; a job without frames or without duration is ignored. */
    method Record(id: string, frames: int, elapsed: real)
      requires Valid()
      modifies this
      ensures Valid()
      ensures frames <= 0 || elapsed <= 0.0 ==> tp == old(tp)
      ensures frames > 0 && elapsed > 0.0 ==>
                tp == old(tp)[id := Ema(if id in old(tp) then Some(old(tp)[id]) else None, frames as real / elapsed)]
    {
      if frames <= 0 || elapsed <= 0.0 {
        return;
      }
      var t := frames as real / elapsed;
      if id in tp {
        t := 0.6 * tp[id] + 0.4 * t;
      }
      tp := tp[id := t];
    }

    /** 0 means unknown. */
    function Weight(id: string): real
      reads this
    {
      if id in tp then tp[id] else 0.0
    }

    /** A worker's weight in the split; an unknown worker gets an equal share. */
    function EffectiveWeight(id: string): (w: real)
      requires Valid()
      reads this
      ensures w > 0.0
    {
      if Weight(id) <= 0.0 then 1.0 else Weight(id)
    }

    function Weights(workers: seq<string>): (ws: seq<real>)
      requires Valid()
      reads this
      ensures |ws| == |workers| && Positive(ws)
      ensures forall i | 0 <= i < |ws| :: ws[i] == EffectiveWeight(workers[i])
    {
      if workers == [] then []
      else Weights(workers[..|workers| - 1]) + [EffectiveWeight(workers[|workers| - 1])]
    }

    method TotalWeight(weights: array<real>) returns (total: real)
      ensures total == Sum(weights[..])
    {
      total := 0.0;
      for i := 0 to weights.Length
        invariant total == Sum(weights[..i])
      {
        total := total + weights[i];
        PrefixSum(weights[..], i + 1);
        assert weights[..][..i + 1] == weights[..i + 1] && weights[..][..i] == weights[..i];
      }
      assert weights[..weights.Length] == weights[..];
    }

    /** Whole parts and fractions of every worker's exact share. */
    method RoundDown(n: nat, weights: array<real>)
      returns (counts: array<int>, frac: array<real>, given: int, ghost shares: seq<real>)
      requires weights.Length > 0 && Positive(weights[..])
      ensures fresh(counts) && fresh(frac)
      ensures AreShares(n, weights[..], shares)
      ensures counts.Length == frac.Length == weights.Length
      ensures forall i | 0 <= i < weights.Length :: counts[i] == Whole(shares[i]) && frac[i] == Frac(shares[i])
      ensures given == WholeSum(shares)
    {
      var total := TotalWeight(weights);
      SumPositive(weights[..]);
      counts, frac, given, shares := new int[weights.Length], new real[weights.Length], 0, [];
      for i := 0 to weights.Length
        invariant |shares| == i
        invariant forall j {:trigger IsShare(n, weights[j], total, shares[j])} | 0 <= j < i ::
                    IsShare(n, weights[j], total, shares[j])
        invariant forall j | 0 <= j < i :: counts[j] == Whole(shares[j]) && frac[j] == Frac(shares[j])
        invariant given == WholeSum(shares)
      {
        var exact := Exact(n, weights[i], total);
        counts[i] := exact.Floor;
        frac[i] := exact - counts[i] as real;
        given := given + counts[i];
        assert (shares + [exact])[..i] == shares;
        shares := shares + [exact];
      }
      forall i | 0 <= i < |shares| ensures IsShare(n, weights[..][i], total, shares[i]) {
        assert IsShare(n, weights[i], total, shares[i]);
      }
    }

    /** The first worker with the largest remaining fraction. */
    method LargestFraction(frac: array<real>) returns (best: nat)
      requires frac.Length > 0
      ensures best < frac.Length
      ensures forall i | 0 <= i < frac.Length :: frac[i] <= frac[best] && (i < best ==> frac[i] < frac[best])
    {
      best := 0;
      for i := 1 to frac.Length
        invariant best < i
        invariant forall j | 0 <= j < i :: frac[j] <= frac[best] && (j < best ==> frac[j] < frac[best])
      {
        if frac[i] > frac[best] {
          best := i;
        }
      }
    }

    /** The remainder loop's bookkeeping: a worker's fraction is spent once it is rounded up. */
    ghost predicate Spending(shares: seq<real>, counts: seq<int>, frac: seq<real>) {
      && RoundsByRemainder(shares, counts)
      && |frac| == |shares|
      && forall i | 0 <= i < |shares| :: frac[i] == if counts[i] == Whole(shares[i]) then Frac(shares[i]) else -1.0
    }

    lemma StartSpending(n: nat, shares: seq<real>, counts: seq<int>, frac: seq<real>)
      requires Sum(shares) == n as real && |counts| == |frac| == |shares|
      requires forall i | 0 <= i < |shares| :: counts[i] == Whole(shares[i]) && frac[i] == Frac(shares[i])
      ensures Spending(shares, counts, frac) && Count(counts) == WholeSum(shares) <= n
    {
      CountOfWholes(shares, counts, 0);
      LeftoverBound(shares);
    }

    /** Giving a spare input to the first largest fraction keeps the remainder rule. The worker was
        not rounded up before, so no worker is picked twice. */
    lemma SpendLargest(n: nat, shares: seq<real>, counts: seq<int>, frac: seq<real>, best: nat)
      requires Spending(shares, counts, frac)
      requires Sum(shares) == n as real && Count(counts) < n && best < |shares|
      requires forall i | 0 <= i < |frac| :: frac[i] <= frac[best] && (i < best ==> frac[i] < frac[best])
      ensures counts[best] == Whole(shares[best])
      ensures Spending(shares, counts[best := counts[best] + 1], frac[best := -1.0])
      ensures Count(counts[best := counts[best] + 1]) == Count(counts) + 1
    {
      var spare := SomeoneNotRoundedUp(n, shares, counts);
      assert frac[spare] <= frac[best];
      CountUpdate(counts, best, counts[best] + 1);
      var now := counts[best := counts[best] + 1];
      forall i, j | 0 <= i < |now| && 0 <= j < |now| && now[i] == Whole(shares[i]) + 1 && now[j] == Whole(shares[j])
        ensures Precedes(shares, i, j)
      {
        assert frac[j] == Frac(shares[j]);
        if i == best {
          assert frac[j] <= frac[best] && (j < best ==> frac[j] < frac[best]);
        } else {
          assert counts[i] == Whole(shares[i]) + 1 && counts[j] == Whole(shares[j]);
        }
      }
    }

    /** One round of the remainder loop. */
    method GiveSpare(n: nat, counts: array<int>, frac: array<real>, ghost shares: seq<real>)
      requires counts != frac as object && Spending(shares, counts[..], frac[..])
      requires Sum(shares) == n as real && Count(counts[..]) < n && frac.Length > 0
      modifies counts, frac
      ensures Spending(shares, counts[..], frac[..])
      ensures Count(counts[..]) == old(Count(counts[..])) + 1
    {
      var best := LargestFraction(frac);
      SpendLargest(n, shares, counts[..], frac[..], best);
      ghost var nextCounts, nextFrac := counts[..][best := counts[best] + 1], frac[..][best := -1.0];
      counts[best] := counts[best] + 1;
      frac[best] := -1.0;
      assert counts[..] == nextCounts && frac[..] == nextFrac;
    }

    /** Round down, then hand the remainder to the largest fractional parts. */
    method Counts(n: nat, weights: array<real>) returns (counts: array<int>, ghost shares: seq<real>)
      requires weights.Length > 0 && Positive(weights[..])
      ensures fresh(counts) && AreShares(n, weights[..], shares) && LargestRemainder(n, shares, counts[..])
    {
      var frac: array<real>, given: int;
      counts, frac, given, shares := RoundDown(n, weights);
      SharesAddUp(n, weights[..], shares);
      StartSpending(n, shares, counts[..], frac[..]);
      while given < n
        invariant Spending(shares, counts[..], frac[..])
        invariant given == Count(counts[..]) <= n
        decreases n - given
      {
        GiveSpare(n, counts, frac, shares);
        given := given + 1;
      }
    }

    /** Cut the inputs into consecutive pieces of the given sizes. */
    method Cut<T>(inputs: seq<T>, counts: array<int>) returns (shards: seq<seq<T>>)
      requires forall i | 0 <= i < counts.Length :: counts[i] >= 0
      requires Count(counts[..]) == |inputs|
      ensures Sizes(shards) == counts[..] && Flatten(shards) == inputs
    {
      ghost var cs := counts[..];
      var idx := 0;
      shards := [];
      for i := 0 to counts.Length
        invariant |shards| == i && idx == Count(cs[..i])
        invariant forall j | 0 <= j < i :: |shards[j]| == cs[j]
        invariant 0 <= idx <= |inputs| && Flatten(shards) == inputs[..idx]
      {
        assert cs[..i + 1][..i] == cs[..i];
        PrefixFits(cs, i + 1);
        var shard := inputs[idx..idx + counts[i]];
        assert inputs[..idx + counts[i]] == inputs[..idx] + shard;
        assert (shards + [shard])[..i] == shards;
        shards := shards + [shard];
        idx := idx + counts[i];
      }
      assert cs[..|cs|] == cs;
      assert inputs[..|inputs|] == inputs;
    }

    /** The split itself. Without workers or inputs every shard is empty. */
    method WeightedShard<T>(inputs: seq<T>, workers: seq<string>) returns (shards: seq<seq<T>>)
      requires Valid()
      ensures |shards| == |workers|
      ensures workers == [] || inputs == [] ==> forall s | s in shards :: s == []
      ensures workers != [] && inputs != [] ==>
                && IsWeightedSplit(inputs, Weights(workers), shards)
                && FasterGetsMore(tp, workers, Sizes(shards))
                && exists shares :: SharesByThroughput(|inputs|, tp, workers, Sizes(shards), shares)
    {
      if workers == [] || inputs == [] {
        return seq(|workers|, _ => []);
      }
      var weights := new real[|workers|];
      ghost var ws := Weights(workers);
      for i := 0 to |workers|
        invariant forall j | 0 <= j < i :: weights[j] == ws[j]
      {
        weights[i] := if Weight(workers[i]) <= 0.0 then 1.0 else Weight(workers[i]);
      }
      assert weights[..] == ws;
      var counts, shares := Counts(|inputs|, weights);
      forall i | 0 <= i < counts.Length ensures counts[..][i] >= 0 {
        SharesFollowWeights(|inputs|, ws, shares, i, i);
      }
      shards := Cut(inputs, counts);
      assert WeighsAsMeasured(tp, workers, ws);
      SharesFollowThroughput(|inputs|, tp, workers, ws, shares, Sizes(shards));
      FasterWorkersGetMore(|inputs|, tp, workers, ws, shares, Sizes(shards));
    }
  }
}
