/** The adaptive split of a group's frames between the server and the cluster, and the cost learning
    that drives it. Reals stand for the source's floating point numbers. */
module AdaptiveSplit {
  import opened Smoothing
  import opened Wrappers

  /** The language's rounding: to the nearest integer, halves upwards. */
  function Round(x: real): int {
    (x + 0.5).Floor
  }

  function Lookup(costs: map<string, real>, op: string): Option<real> {
    if op in costs then Some(costs[op]) else None
  }

  /** One group's measurements: seconds and frames of the server lane, milliseconds, frames and
      collected outputs of the cluster lane. */
  datatype Group = Group(op: string, serverSecs: real, serverN: nat, clusterMs: real, clusterN: nat, collected: nat)
  {
    function ServerSample(): Option<real> {
      if serverN > 0 && serverSecs > 0.0 then Some(serverSecs / serverN as real) else None
    }

    function ClusterSample(): Option<real> {
      if clusterN > 0 && clusterMs > 0.0 && collected > 0 then Some(clusterMs / 1000.0 / clusterN as real) else None
    }
  }

  /** What has been learned: cost per frame of each lane by operation, and the server's overall share. */
  datatype Costs = Costs(server: map<string, real>, cluster: map<string, real>, share: Option<real>)
  {
    ghost predicate Valid() {
      && (forall l | l in server :: server[l] > 0.0)
      && (forall l | l in cluster :: cluster[l] > 0.0)
      && (share.Some? ==> 0.0 < share.value < 1.0)
    }
  }

  const NOTHING_LEARNED := Costs(map[], map[], None)

  function Feed(costs: map<string, real>, op: string, sample: Option<real>): map<string, real> {
    if sample.Some? then costs[op := Ema(Lookup(costs, op), sample.value)] else costs
  }

  /** The server's share of frames that would balance the two lanes of an operation. */
  function BalancedShare(sc: real, cc: real): (f: real)
    requires sc > 0.0 && cc > 0.0
    ensures 0.0 < f < 1.0
    ensures f * (sc + cc) == cc
  {
    QuotientBelowOne(cc, sc + cc);
    cc / (sc + cc)
  }

  lemma QuotientBelowOne(a: real, t: real)
    requires 0.0 < a < t
    ensures 0.0 < a / t < 1.0
    ensures a / t * t == a
  {
    var q := a / t;
    assert q * t == a;
    if q <= 0.0 {
      Scale(t, 0.0, -q);
    }
    if q >= 1.0 {
      Scale(t, 1.0, q);
    }
  }

  lemma Scale(k: real, a: real, b: real)
    requires k >= 0.0 && 0.0 <= a <= b
    ensures 0.0 <= k * a <= k * b
  {
  }

  lemma QuotientPositive(a: real, n: nat)
    requires a > 0.0 && n > 0
    ensures a / n as real > 0.0
  {
  }

  lemma SamplesArePositive(g: Group)
    ensures g.ServerSample().Some? ==> g.ServerSample().value > 0.0
    ensures g.ClusterSample().Some? ==> g.ClusterSample().value > 0.0
  {
    if g.ServerSample().Some? {
      QuotientPositive(g.serverSecs, g.serverN);
    }
    if g.ClusterSample().Some? {
      QuotientPositive(g.clusterMs / 1000.0, g.clusterN);
    }
  }

  /** One learning step. */
  function Learn(c: Costs, g: Group): (c': Costs)
    requires c.Valid()
    ensures c'.Valid()
  {
    SamplesArePositive(g);
    var server := Feed(c.server, g.op, g.ServerSample());
    var cluster := Feed(c.cluster, g.op, g.ClusterSample());
    var share :=
      if g.op in server && g.op in cluster
      then Some(Ema(c.share, BalancedShare(server[g.op], cluster[g.op])))
      else c.share;
    Costs(server, cluster, share)
  }

  function LearnAll(groups: seq<Group>): (c: Costs)
    ensures c.Valid()
  {
    if groups == [] then NOTHING_LEARNED else Learn(LearnAll(groups[..|groups| - 1]), groups[|groups| - 1])
  }

  // ---- what is learned over a whole run ----

  /** The server lane's usable samples of one operation, in order. */
  function ServerSamples(groups: seq<Group>, op: string): (s: seq<real>)
    ensures forall k | 0 <= k < |s| :: s[k] > 0.0
  {
    if groups == [] then []
    else
      var g := groups[|groups| - 1];
      SamplesArePositive(g);
      var rest := ServerSamples(groups[..|groups| - 1], op);
      if g.op == op && g.ServerSample().Some? then rest + [g.ServerSample().value] else rest
  }

  function ClusterSamples(groups: seq<Group>, op: string): (s: seq<real>)
    ensures forall k | 0 <= k < |s| :: s[k] > 0.0
  {
    if groups == [] then []
    else
      var g := groups[|groups| - 1];
      SamplesArePositive(g);
      var rest := ClusterSamples(groups[..|groups| - 1], op);
      if g.op == op && g.ClusterSample().Some? then rest + [g.ClusterSample().value] else rest
  }

  /** After any run of groups, the cost learned for an operation is the smoothed value of exactly that
      operation's usable samples; other operations and unusable measurements leave it alone. */
  lemma {:induction false} CostsAreSmoothedSamples(groups: seq<Group>, op: string)
    ensures Lookup(LearnAll(groups).server, op) == EmaAll(None, ServerSamples(groups, op))
    ensures Lookup(LearnAll(groups).cluster, op) == EmaAll(None, ClusterSamples(groups, op))
  {
    if groups != [] {
      var g, before := groups[|groups| - 1], groups[..|groups| - 1];
      CostsAreSmoothedSamples(before, op);
      if g.op == op && g.ServerSample().Some? {
        EmaSnoc(ServerSamples(before, op), g.ServerSample().value);
      }
      if g.op == op && g.ClusterSample().Some? {
        EmaSnoc(ClusterSamples(before, op), g.ClusterSample().value);
      }
    }
  }

  lemma EmaSnoc(samples: seq<real>, x: real)
    ensures EmaAll(None, samples + [x]) == Some(Ema(EmaAll(None, samples), x))
  {
    assert (samples + [x])[..|samples|] == samples;
  }

  ghost predicate AllWithin(samples: seq<real>, lo: real, hi: real) {
    forall k | 0 <= k < |samples| :: lo <= samples[k] <= hi
  }

  /** Each learned cost is positive and lies within the range of its own samples; the carried share of
      the server stays strictly between none and all of the frames. */
  lemma LearnedCostsStayInRange(groups: seq<Group>, op: string, lo: real, hi: real)
    ensures var costs := LearnAll(groups);
            && (op in costs.server && AllWithin(ServerSamples(groups, op), lo, hi) ==>
                  0.0 < costs.server[op] && lo <= costs.server[op] <= hi)
            && (op in costs.cluster && AllWithin(ClusterSamples(groups, op), lo, hi) ==>
                  0.0 < costs.cluster[op] && lo <= costs.cluster[op] <= hi)
            && (costs.share.Some? ==> 0.0 < costs.share.value < 1.0)
  {
    CostsAreSmoothedSamples(groups, op);
    if AllWithin(ServerSamples(groups, op), lo, hi) {
      EmaStaysInRange(None, ServerSamples(groups, op), lo, hi);
    }
    if AllWithin(ClusterSamples(groups, op), lo, hi) {
      EmaStaysInRange(None, ClusterSamples(groups, op), lo, hi);
    }
  }

  // ---- the carried share ----

  /** When the server takes this share of the frames, both lanes of the operation take the same time. */
  predicate SharesEvenly(f: real, sc: real, cc: real) {
    0.0 < f < 1.0 && f * sc == (1.0 - f) * cc
  }

  lemma BalancedSharesEvenly(sc: real, cc: real)
    requires sc > 0.0 && cc > 0.0
    ensures SharesEvenly(BalancedShare(sc, cc), sc, cc)
  {
    var f := BalancedShare(sc, cc);
    Expand(f, 0.0, sc);
    SplitProducts(f, sc, cc, f * sc, f * cc);
  }

  lemma SplitProducts(f: real, sc: real, cc: real, x: real, y: real)
    requires f * (sc + cc) == cc && x == f * sc && y == f * cc
    ensures x == (1.0 - f) * cc
  {
    assert f * (sc + cc) == x + y;
    assert (1.0 - f) * cc == cc - y;
  }

  /** After group `k`, both costs of its operation are known. */
  ghost predicate BothKnown(groups: seq<Group>, k: nat)
    requires k < |groups|
  {
    var c := LearnAll(groups[..k + 1]);
    groups[k].op in c.server && groups[k].op in c.cluster
  }

  /** `samples` lists, for the groups `at`, the shares that balance their operations as learned by then. */
  ghost predicate BalancingSamples(groups: seq<Group>, at: seq<nat>, samples: seq<real>) {
    && |samples| == |at| && (forall i, j | 0 <= i < j < |at| :: at[i] < at[j])
    && (forall i | 0 <= i < |at| :: at[i] < |groups| && BothKnown(groups, at[i]))
    && (forall k: nat | k < |groups| && BothKnown(groups, k) :: k in at)
    && (forall i | 0 <= i < |at| :: SampleAt(groups, at[i], samples[i]))
  }

  /** `f` balances the lanes of group `k` at the server and cluster costs learned by then. */
  ghost predicate SampleAt(groups: seq<Group>, k: nat, f: real) {
    k < |groups| && BothKnown(groups, k)
    && SharesEvenly(f, LearnAll(groups[..k + 1]).server[groups[k].op], LearnAll(groups[..k + 1]).cluster[groups[k].op])
  }

  lemma SameInPrefix(groups: seq<Group>, k: nat)
    requires k < |groups| - 1
    ensures BothKnown(groups[..|groups| - 1], k) == BothKnown(groups, k)
    ensures forall f :: SampleAt(groups[..|groups| - 1], k, f) == SampleAt(groups, k, f)
  {
    assert groups[..|groups| - 1][..k + 1] == groups[..k + 1];
  }

  lemma SamplesSoFar(groups: seq<Group>, at: seq<nat>, samples: seq<real>)
    requires groups != [] && BalancingSamples(groups[..|groups| - 1], at, samples)
    requires !BothKnown(groups, |groups| - 1)
    ensures BalancingSamples(groups, at, samples)
  {
    forall k: nat | k < |groups| - 1 ensures BothKnown(groups[..|groups| - 1], k) == BothKnown(groups, k) {
      SameInPrefix(groups, k);
    }
    forall i | 0 <= i < |at| ensures SampleAt(groups, at[i], samples[i]) {
      SameInPrefix(groups, at[i]);
    }
  }

  lemma OneMoreSample(groups: seq<Group>, at: seq<nat>, samples: seq<real>, f: real)
    requires groups != [] && BalancingSamples(groups[..|groups| - 1], at, samples)
    requires SampleAt(groups, |groups| - 1, f)
    ensures BalancingSamples(groups, at + [|groups| - 1], samples + [f])
  {
    forall k: nat | k < |groups| - 1 ensures BothKnown(groups[..|groups| - 1], k) == BothKnown(groups, k) {
      SameInPrefix(groups, k);
    }
    forall i | 0 <= i < |at| ensures SampleAt(groups, at[i], samples[i]) {
      SameInPrefix(groups, at[i]);
    }
  }

  /** After any run of groups, the server's carried share is the smoothed value of one sample per group after
      which both costs of its operation were known, and every sample is the share that makes the two lanes of
      that operation take the same time. */
  lemma {:induction false} CarriedShareBalances(groups: seq<Group>) returns (at: seq<nat>, samples: seq<real>)
    ensures BalancingSamples(groups, at, samples)
    ensures LearnAll(groups).share == EmaAll(None, samples)
  {
    if groups == [] {
      at, samples := [], [];
    } else {
      var before, last, k := groups[..|groups| - 1], groups[|groups| - 1], |groups| - 1;
      at, samples := CarriedShareBalances(before);
      assert groups[..k + 1] == groups;
      var c := LearnAll(groups);
      if last.op in c.server && last.op in c.cluster {
        var f := BalancedShare(c.server[last.op], c.cluster[last.op]);
        BalancedSharesEvenly(c.server[last.op], c.cluster[last.op]);
        OneMoreSample(groups, at, samples, f);
        EmaSnoc(samples, f);
        at, samples := at + [k], samples + [f];
      } else {
        SamplesSoFar(groups, at, samples);
      }
    }
  }

  /** The share that balances two lanes is less than half exactly when the server is the slower one, and then
      the server keeps no more than half of any later group's frames: fewer than half of an odd number, and
      fewer than half of an even number exactly when its exact part is more than half a frame short of half. */
  lemma SlowServerKeepsLess(f: real, sc: real, cc: real, frames: nat)
    requires sc > 0.0 && cc > 0.0 && SharesEvenly(f, sc, cc)
    ensures f < 0.5 <==> sc > cc
    ensures sc > cc ==> 2 * CarriedCount(frames, f) <= frames
    ensures sc <= cc ==> 2 * CarriedCount(frames, f) >= frames
    ensures frames % 2 == 1 ==> (2 * CarriedCount(frames, f) < frames <==> sc > cc)
    ensures frames % 2 == 0 ==> (2 * CarriedCount(frames, f) < frames <==> frames as real * f < (frames as real - 1.0) / 2.0)
  {
    HalfExactly(f, sc, cc);
    HalfOfFrames(frames as real, f, frames as real * f);
  }

  lemma HalfExactly(f: real, sc: real, cc: real)
    requires sc > 0.0 && cc > 0.0 && SharesEvenly(f, sc, cc)
    ensures f < 0.5 <==> sc > cc
  {
    var p := f * sc;
    if f < 0.5 && sc <= cc {
      SmallerTimesLarger(f, 1.0 - f, sc, cc, p, p);
    } else if f >= 0.5 && sc > cc {
      LargerTimesSmaller(1.0 - f, f, cc, sc, p, p);
    }
  }

  /** `p` and `q` stand for the products, so that the solver compares plain numbers. */
  lemma SmallerTimesLarger(a: real, b: real, x: real, y: real, p: real, q: real)
    requires 0.0 < a < b && 0.0 < x <= y && p == a * x && q == b * y
    ensures p < q
  {
    var mid := b * x;
    ProductsInOrder(x, a, b, p, mid);
    ProductsUpTo(b, x, y, mid, q);
  }

  lemma ProductsInOrder(k: real, a: real, b: real, p: real, q: real)
    requires k > 0.0 && a < b && p == a * k && q == b * k
    ensures p < q
  {
    Grow(k, a, b);
    assert p == k * a && q == k * b;
  }

  lemma ProductsUpTo(k: real, a: real, b: real, p: real, q: real)
    requires k >= 0.0 && 0.0 <= a <= b && p == k * a && q == k * b
    ensures p <= q
  {
    Scale(k, a, b);
  }

  lemma LargerTimesSmaller(a: real, b: real, x: real, y: real, p: real, q: real)
    requires 0.0 < a <= b && 0.0 < x < y && p == a * x && q == b * y
    ensures p < q
  {
    var mid := x * b;
    ProductsUpTo(x, a, b, p, mid);
    ProductsInOrder(b, x, y, mid, q);
  }

  lemma Grow(k: real, a: real, b: real)
    requires k > 0.0 && a < b
    ensures k * a < k * b
  {
  }

  lemma HalfOfFrames(m: real, f: real, x: real)
    requires m >= 0.0 && 0.0 < f < 1.0 && x == m * f
    ensures f < 0.5 ==> x <= m / 2.0 && (m > 0.0 ==> x < m / 2.0)
    ensures f >= 0.5 ==> x >= m / 2.0
  {
    if f < 0.5 {
      Scale(m, f, 0.5);
      if m > 0.0 {
        Grow(m, f, 0.5);
      }
    } else {
      Scale(m, 0.5, f);
    }
  }

  /** A server that is slower by a little keeps half of two frames. */
  lemma SlightlySlowerServerKeepsHalf()
    ensures SharesEvenly(0.49, 51.0, 49.0) && 51.0 > 49.0 && 2 * CarriedCount(2, 0.49) == 2
  {
    RoundIsNearest(0.98, 1);
  }

  /** One group: ten seconds a frame on the server, one on the cluster. Of 110 frames of an operation never
      seen before, the server keeps ten. */
  lemma SlowServerExample()
    ensures LearnAll([Group("c", 10.0, 1, 1000.0, 1, 1)]).share == Some(1.0 / 11.0)
    ensures CarriedCount(110, 1.0 / 11.0) == 10
  {
    var g := Group("c", 10.0, 1, 1000.0, 1, 1);
    assert [g][..0] == [] && LearnAll([]) == NOTHING_LEARNED;
    assert g.ServerSample() == Some(10.0) && g.ClusterSample() == Some(1.0);
    assert BalancedShare(10.0, 1.0) == 1.0 / 11.0;
  }

  // ---- what a sample is ----

  /** A lane's sample is its time per frame: times the frames it gives the time back, the cluster's being
      measured in milliseconds. A lane without frames or time has none, nor has a cluster that returned
      nothing. */
  lemma SamplesAreTimePerFrame(g: Group)
    ensures g.ServerSample().Some? <==> g.serverN > 0 && g.serverSecs > 0.0
    ensures g.ServerSample().Some? ==> g.ServerSample().value * g.serverN as real == g.serverSecs
    ensures g.ClusterSample().Some? <==> g.clusterN > 0 && g.clusterMs > 0.0 && g.collected > 0
    ensures g.ClusterSample().Some? ==> g.ClusterSample().value * g.clusterN as real * 1000.0 == g.clusterMs
  {
    if g.ServerSample().Some? {
      Undo(g.serverSecs, g.serverN as real);
    }
    if g.ClusterSample().Some? {
      Undo(g.clusterMs / 1000.0, g.clusterN as real);
    }
  }

  lemma Undo(a: real, n: real)
    requires n > 0.0
    ensures a / n * n == a
  {
  }

  // ---- the split ----

  /** Keeping `q` of `frames` frames makes both lanes finish at the same time. */
  ghost predicate Balances(frames: nat, q: real, sc: real, cc: real) {
    0.0 <= q <= frames as real && q * sc == (frames as real - q) * cc
  }

  /** The exact server count that makes both lanes finish together. */
  function Ideal(frames: nat, sc: real, cc: real): (q: real)
    requires sc > 0.0 && cc > 0.0
    ensures Balances(frames, q, sc, cc)
  {
    IdealBalances(frames as real, BalancedShare(sc, cc), sc, cc);
    frames as real * BalancedShare(sc, cc)
  }

  lemma IdealBalances(m: real, f: real, sc: real, cc: real)
    requires 0.0 < f < 1.0 && m >= 0.0
    requires f * (sc + cc) == cc
    ensures 0.0 <= m * f <= m
    ensures m * f * sc == (m - m * f) * cc
  {
    Scale(m, f, 1.0);
    calc {
      (m - m * f) * cc;
      m * (cc - f * cc);
      { assert cc - f * cc == f * sc; }
      m * (f * sc);
      m * f * sc;
    }
  }

  /** When the server keeps `x` frames: the time of the slower lane. */
  function LaneTime(frames: nat, x: real, sc: real, cc: real): real {
    if x * sc >= (frames as real - x) * cc then x * sc else (frames as real - x) * cc
  }

  function Slower(sc: real, cc: real): real {
    if sc >= cc then sc else cc
  }

  lemma BestLaneTime(frames: nat, q: real, x: real, sc: real, cc: real)
    requires sc > 0.0 && cc > 0.0 && Balances(frames, q, sc, cc)
    ensures q * sc <= LaneTime(frames, x, sc, cc)
  {
    if x >= q {
      Scale(sc, 0.0, x - q);
      assert x * sc == q * sc + (x - q) * sc;
    } else {
      Scale(cc, 0.0, q - x);
      assert (frames as real - x) * cc == (frames as real - q) * cc + (q - x) * cc;
    }
  }

  /** `moved` is `base` plus at most half of `c` either way. */
  ghost predicate WithinHalf(moved: real, base: real, c: real, gap: real) {
    moved == base + gap && -c / 2.0 <= gap <= c / 2.0
  }

  lemma Shift(a: real, d: real, c: real) returns (gap: real)
    requires c > 0.0 && -0.5 <= d <= 0.5
    ensures gap == d * c && WithinHalf((a + d) * c, a * c, c, gap)
  {
    gap := d * c;
    KeepOrder(-0.5, d, c);
    KeepOrder(d, 0.5, c);
    Expand(a, d, c);
  }

  lemma KeepOrder(a: real, b: real, c: real)
    requires a <= b && c > 0.0
    ensures a * c <= b * c
  {
  }

  lemma Expand(a: real, d: real, c: real)
    ensures (a + d) * c == a * c + d * c
  {
  }

  /** Any server count within half a frame of a balancing one. */
  lemma NearBalance(frames: nat, q: real, n: real, sc: real, cc: real)
    requires sc > 0.0 && cc > 0.0 && Balances(frames, q, sc, cc)
    requires -0.5 <= n - q <= 0.5
    ensures -(sc + cc) / 2.0 <= n * sc - (frames as real - n) * cc <= (sc + cc) / 2.0
    ensures LaneTime(frames, n, sc, cc) <= q * sc + Slower(sc, cc) / 2.0
  {
    var serverGap := Shift(q, n - q, sc);
    var clusterGap := Shift(frames as real - q, q - n, cc);
    assert q + (n - q) == n && frames as real - q + (q - n) == frames as real - n;
  }

  /** Rounding goes to the nearest number of frames, and up from the middle. */
  lemma RoundIsNearest(x: real, n: int)
    ensures Round(x) == n <==> n as real - 0.5 <= x < n as real + 0.5
  {
  }

  lemma RoundInRange(frames: nat, q: real)
    requires 0.0 <= q <= frames as real
    ensures 0 <= Round(q) <= frames
    ensures -0.5 <= Round(q) as real - q <= 0.5
  {
  }

  /** The operation's own measured split. */
  function MeasuredCount(frames: nat, sc: real, cc: real): (n: int)
    requires sc > 0.0 && cc > 0.0
    ensures 0 <= n <= frames
    ensures -0.5 <= n as real - Ideal(frames, sc, cc) <= 0.5
  {
    RoundInRange(frames, Ideal(frames, sc, cc));
    Round(Ideal(frames, sc, cc))
  }

  /** The split carried over from other operations. */
  function CarriedCount(frames: nat, share: real): (n: int)
    requires 0.0 < share < 1.0
    ensures 0 <= n <= frames
    ensures -0.5 <= n as real - frames as real * share <= 0.5
  {
    Scale(frames as real, share, 1.0);
    RoundInRange(frames, frames as real * share);
    Round(frames as real * share)
  }

  /** The cold start split: as many frames as fit equally on the server and every worker. */
  function EvenCount(frames: nat, nWorkers: nat): (n: int)
    ensures 0 <= n <= frames
    ensures (nWorkers + 1) * n <= frames < (nWorkers + 1) * (n + 1)
  {
    EvenSplit(frames, nWorkers + 1, frames / (nWorkers + 1), frames % (nWorkers + 1));
    frames / (nWorkers + 1)
  }

  lemma EvenSplit(frames: nat, machines: nat, q: nat, r: nat)
    requires frames == machines * q + r && r < machines
    ensures q <= frames
    ensures machines * q <= frames < machines * (q + 1)
  {
    assert machines * (q + 1) == machines * q + machines;
    if q > 0 {
      FactorBelow(machines - 1, q);
      assert machines * q == (machines - 1) * q + q;
    }
  }

  lemma FactorBelow(a: nat, b: nat)
    ensures a * b >= 0
  {
  }

  /** The rounded split keeps the two lanes within half a frame of each other, and no split, even a
      fractional one, beats it by more than half a frame of the slower lane. */
  lemma MeasuredSplitBalances(frames: nat, sc: real, cc: real, x: real)
    requires sc > 0.0 && cc > 0.0
    ensures var n := MeasuredCount(frames, sc, cc) as real;
            && -(sc + cc) / 2.0 <= n * sc - (frames as real - n) * cc <= (sc + cc) / 2.0
            && LaneTime(frames, n, sc, cc) <= LaneTime(frames, x, sc, cc) + Slower(sc, cc) / 2.0
  {
    var q := Ideal(frames, sc, cc);
    BestLaneTime(frames, q, x, sc, cc);
    NearBalance(frames, q, MeasuredCount(frames, sc, cc) as real, sc, cc);
  }

  /** How many frames the server keeps: the operation's own measured split, else the share learned from other
      operations, else an even split with the workers. */
  function SplitCount(c: Costs, op: string, frames: nat, nWorkers: nat): (n: int)
    requires c.Valid()
    ensures 0 <= n <= frames
  {
    if op in c.server && op in c.cluster then MeasuredCount(frames, c.server[op], c.cluster[op])
    else if c.share.Some? then CarriedCount(frames, c.share.value)
    else EvenCount(frames, nWorkers)
  }

  /** The learned costs as the source keeps them: three tables updated in place. */
  class CostModel {
    var costServer: map<string, real>
    var costCluster: map<string, real>
    var serverShare: Option<real>

    ghost function Learned(): Costs
      reads this
    {
      Costs(costServer, costCluster, serverShare)
    }

    ghost predicate Valid()
      reads this
    {
      Learned().Valid()
    }

    constructor ()
      ensures Learned() == NOTHING_LEARNED && Valid()
    {
      costServer, costCluster, serverShare := map[], map[], None;
    }

    /** How many of `frames` frames the server keeps. */
    method ServerCount(op: string, frames: nat, nWorkers: nat) returns (n: int)
      requires Valid()
      ensures 0 <= n <= frames
      ensures n == if op in costServer && op in costCluster then MeasuredCount(frames, costServer[op], costCluster[op])
                   else if serverShare.Some? then CarriedCount(frames, serverShare.value)
                   else EvenCount(frames, nWorkers)
      ensures n == SplitCount(Learned(), op, frames, nWorkers)
    {
      if op in costServer && op in costCluster {
        n := MeasuredCount(frames, costServer[op], costCluster[op]);
      } else if serverShare.Some? {
        n := CarriedCount(frames, serverShare.value);
      } else {
        n := EvenCount(frames, nWorkers);
      }
      n := if n < frames then n else frames;
      n := if n > 0 then n else 0;
    }

    /** Feed one group's measured times back. */
    method LearnCosts(g: Group)
      requires Valid()
      modifies this
      ensures Valid() && Learned() == Learn(old(Learned()), g)
    {
      SamplesArePositive(g);
      if g.serverN > 0 && g.serverSecs > 0.0 {
        costServer := costServer[g.op := Ema(Lookup(costServer, g.op), g.serverSecs / g.serverN as real)];
      }
      if g.clusterN > 0 && g.clusterMs > 0.0 && g.collected > 0 {
        costCluster :=
          costCluster[g.op := Ema(Lookup(costCluster, g.op), g.clusterMs / 1000.0 / g.clusterN as real)];
      }
      if g.op in costServer && g.op in costCluster {
        serverShare := Some(Ema(serverShare, BalancedShare(costServer[g.op], costCluster[g.op])));
      }
    }
  }
}
