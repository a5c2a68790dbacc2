/** Greedy assignment of whole jobs to machines. Machine 0 is the server, the others are workers.
    The server is charged 0.7 of its load, so costs are counted in tenths: 7 per server frame and
    10 per worker frame. */
module Scheduling {
  /** What `load` frames cost on `machine`, in tenths of a worker frame. */
  function Cost(machine: nat, load: nat): nat {
    if machine == 0 then 7 * load else 10 * load
  }

  /** `jobs` lists job numbers of a batch of `n`. */
  predicate InRange(jobs: seq<nat>, n: nat) {
    forall k | 0 <= k < |jobs| :: jobs[k] < n
  }

  /** `jobs` lists job numbers, and `on` sends every job to one of `machines` machines. */
  ghost predicate Covers(jobs: seq<nat>, frames: seq<nat>, on: seq<nat>, machines: nat) {
    && |on| == |frames|
    && InRange(jobs, |frames|)
    && InRange(on, machines)
  }

  /** Frames that the listed jobs put on machine `m`. */
  ghost function Load(jobs: seq<nat>, frames: seq<nat>, on: seq<nat>, m: nat): nat
    requires |on| == |frames|
    requires InRange(jobs, |frames|)
  {
    if jobs == [] then 0
    else
      var j := jobs[|jobs| - 1];
      Load(jobs[..|jobs| - 1], frames, on, m) + if on[j] == m then frames[j] else 0
  }

  /** Every job number, in batch order. */
  function AllJobs(n: nat): (jobs: seq<nat>)
    ensures |jobs| == n
    ensures forall k | 0 <= k < n :: jobs[k] == k
  {
    if n == 0 then [] else AllJobs(n - 1) + [n - 1]
  }

  /** The cost of the busiest of the first `m` machines. */
  ghost function MakespanOf(jobs: seq<nat>, frames: seq<nat>, on: seq<nat>, m: nat): nat
    requires |on| == |frames|
    requires InRange(jobs, |frames|)
  {
    if m == 0 then 0
    else
      var rest := MakespanOf(jobs, frames, on, m - 1);
      var last := Cost(m - 1, Load(jobs, frames, on, m - 1));
      if last > rest then last else rest
  }

  /** The makespan of assignment `on` for the whole batch. */
  ghost function Makespan(frames: seq<nat>, on: seq<nat>, machines: nat): nat
    requires |on| == |frames|
  {
    MakespanOf(AllJobs(|frames|), frames, on, machines)
  }

  lemma {:induction false} MakespanIsMaximum(jobs: seq<nat>, frames: seq<nat>, on: seq<nat>, machines: nat)
    requires |on| == |frames|
    requires InRange(jobs, |frames|)
    ensures forall m | 0 <= m < machines ::
              Cost(m, Load(jobs, frames, on, m)) <= MakespanOf(jobs, frames, on, machines)
    ensures machines > 0 ==>
              exists m | 0 <= m < machines :: Cost(m, Load(jobs, frames, on, m)) == MakespanOf(jobs, frames, on, machines)
  {
    if machines > 0 {
      MakespanIsMaximum(jobs, frames, on, machines - 1);
      var last := Cost(machines - 1, Load(jobs, frames, on, machines - 1));
      if last > MakespanOf(jobs, frames, on, machines - 1) || machines == 1 {
        assert Cost(machines - 1, Load(jobs, frames, on, machines - 1)) == MakespanOf(jobs, frames, on, machines);
      }
    }
  }

  /** `m` is the machine the source's scan selects: the first of least cost. */
  ghost predicate FirstCheapest(jobs: seq<nat>, frames: seq<nat>, on: seq<nat>, machines: nat, m: nat)
    requires |on| == |frames|
    requires InRange(jobs, |frames|)
  {
    && m < machines
    && forall x | 0 <= x < machines ::
         var mine, others := Cost(m, Load(jobs, frames, on, m)), Cost(x, Load(jobs, frames, on, x));
         mine <= others && (x < m ==> mine < others)
  }

  /** Largest job first; equal jobs keep their batch order (the library sort is stable). */
  predicate Outranks(frames: seq<nat>, a: nat, b: nat)
    requires a < |frames| && b < |frames|
  {
    frames[a] > frames[b] || (frames[a] == frames[b] && a < b)
  }

  ghost predicate Ranked(frames: seq<nat>, jobs: seq<nat>)
    requires InRange(jobs, |frames|)
  {
    forall a, b | 0 <= a < b < |jobs| :: Outranks(frames, jobs[a], jobs[b])
  }

  /** `jobs` is a permutation of the batch. */
  ghost predicate Lists(jobs: seq<nat>, n: nat) {
    multiset(jobs) == multiset(AllJobs(n))
  }

  /** `order` is the batch, sorted. */
  ghost predicate IsDescendingOrder(frames: seq<nat>, order: seq<nat>) {
    && Lists(order, |frames|)
    && InRange(order, |frames|)
    && Ranked(frames, order)
  }

  /** Every job went to the first cheapest machine at its turn. */
  ghost predicate IsGreedyRun(frames: seq<nat>, on: seq<nat>, machines: nat, order: seq<nat>)
    requires |on| == |frames|
    requires InRange(order, |frames|)
  {
    forall k | 0 <= k < |order| :: FirstCheapest(order[..k], frames, on, machines, on[order[k]])
  }

  /** `on` is what the source's scheduler produces for a batch and `nWorkers` workers. */
  ghost predicate IsGreedyAssignment(frames: seq<nat>, on: seq<nat>, nWorkers: nat) {
    && |on| == |frames|
    && InRange(on, nWorkers + 1)
    && exists order :: IsDescendingOrder(frames, order) && IsGreedyRun(frames, on, nWorkers + 1, order)
  }

  /** Larger jobs are placed before smaller ones, and equal jobs in the order of the batch. */
  lemma LargestFirst(frames: seq<nat>, order: seq<nat>, a: nat, b: nat)
    requires IsDescendingOrder(frames, order) && a < |order| && b < |order|
    ensures frames[order[a]] > frames[order[b]] ==> a < b
    ensures frames[order[a]] == frames[order[b]] && order[a] < order[b] ==> a < b
  {
    if b < a {
      assert Outranks(frames, order[b], order[a]);
    }
  }

  // ---- the sort ----

  function InsertAt(order: seq<nat>, k: nat, j: nat): seq<nat>
    requires k <= |order|
  {
    order[..k] + [j] + order[k..]
  }

  lemma InsertAtLists(order: seq<nat>, k: nat, n: nat)
    requires k <= |order| && Lists(order, n)
    ensures Lists(InsertAt(order, k, n), n + 1)
  {
    assert order == order[..k] + order[k..];
    assert multiset(InsertAt(order, k, n)) == multiset(order) + multiset{n};
    assert AllJobs(n + 1) == AllJobs(n) + [n];
  }

  lemma InsertAtKeepsRank(frames: seq<nat>, order: seq<nat>, k: nat, j: nat)
    requires j < |frames| && k <= |order|
    requires InRange(order, j) && Ranked(frames, order)
    requires k > 0 ==> Outranks(frames, order[k - 1], j)
    requires k < |order| ==> Outranks(frames, j, order[k])
    ensures InRange(InsertAt(order, k, j), j + 1)
    ensures Ranked(frames, InsertAt(order, k, j))
  {
    var r := InsertAt(order, k, j);
    assert forall x | 0 <= x < |r| :: r[x] == if x < k then order[x] else if x == k then j else order[x - 1];
    forall x | 0 <= x < k ensures Outranks(frames, order[x], j) {
      assert x < k - 1 ==> Outranks(frames, order[x], order[k - 1]);
    }
    forall x | k <= x < |order| ensures Outranks(frames, j, order[x]) {
      assert x > k ==> Outranks(frames, order[k], order[x]);
    }
    forall a, b | 0 <= a < b < |r| ensures Outranks(frames, r[a], r[b]) {
      var a', b' := if a < k then a else a - 1, if b < k then b else b - 1;
      if a != k && b != k {
        assert r[a] == order[a'] && r[b] == order[b'];
      }
    }
  }

  method SlotFor(frames: seq<nat>, order: seq<nat>, j: nat) returns (k: nat)
    requires j < |frames| && InRange(order, j)
    ensures k <= |order|
    ensures k > 0 ==> Outranks(frames, order[k - 1], j)
    ensures k < |order| ==> Outranks(frames, j, order[k])
  {
    k := |order|;
    while k > 0 && frames[j] > frames[order[k - 1]]
      invariant 0 <= k <= |order|
      invariant k < |order| ==> frames[j] > frames[order[k]]
    {
      k := k - 1;
    }
  }

  /** The library sort: the batch's jobs, each once, largest first, ties in batch order. */
  method SortBatch(frames: seq<nat>) returns (order: seq<nat>)
    ensures IsDescendingOrder(frames, order)
  {
    order := [];
    for j := 0 to |frames|
      invariant InRange(order, j)
      invariant Ranked(frames, order)
      invariant Lists(order, j)
    {
      var k := SlotFor(frames, order, j);
      InsertAtKeepsRank(frames, order, k, j);
      InsertAtLists(order, k, j);
      order := InsertAt(order, k, j);
    }
  }

  // ---- loads: locality, conservation, permutation ----

  lemma {:induction false} LoadIsLocal(jobs: seq<nat>, frames: seq<nat>, on: seq<nat>, on': seq<nat>, m: nat)
    requires |on| == |on'| == |frames|
    requires forall k | 0 <= k < |jobs| :: jobs[k] < |frames| && on[jobs[k]] == on'[jobs[k]]
    ensures Load(jobs, frames, on, m) == Load(jobs, frames, on', m)
  {
    if jobs != [] {
      LoadIsLocal(jobs[..|jobs| - 1], frames, on, on', m);
    }
  }

  ghost function Total(jobs: seq<nat>, frames: seq<nat>): nat
    requires InRange(jobs, |frames|)
  {
    if jobs == [] then 0 else Total(jobs[..|jobs| - 1], frames) + frames[jobs[|jobs| - 1]]
  }

  ghost function LoadSum(jobs: seq<nat>, frames: seq<nat>, on: seq<nat>, m: nat): nat
    requires |on| == |frames|
    requires InRange(jobs, |frames|)
  {
    if m == 0 then 0 else LoadSum(jobs, frames, on, m - 1) + Load(jobs, frames, on, m - 1)
  }

  lemma {:induction false} LoadSumSnoc(jobs: seq<nat>, frames: seq<nat>, on: seq<nat>, m: nat)
    requires |on| == |frames| && jobs != []
    requires InRange(jobs, |frames|)
    ensures var j := jobs[|jobs| - 1];
            LoadSum(jobs, frames, on, m) ==
            LoadSum(jobs[..|jobs| - 1], frames, on, m) + if on[j] < m then frames[j] else 0
  {
    if m > 0 {
      LoadSumSnoc(jobs, frames, on, m - 1);
    }
  }

  /** No frame is lost or counted twice: the machines' loads add up to the batch. */
  lemma {:induction false} LoadsAddUp(jobs: seq<nat>, frames: seq<nat>, on: seq<nat>, machines: nat)
    requires Covers(jobs, frames, on, machines)
    ensures LoadSum(jobs, frames, on, machines) == Total(jobs, frames)
  {
    if jobs == [] {
      EmptyLoadSum(frames, on, machines);
    } else {
      LoadSumSnoc(jobs, frames, on, machines);
      LoadsAddUp(jobs[..|jobs| - 1], frames, on, machines);
    }
  }

  lemma EmptyLoadSum(frames: seq<nat>, on: seq<nat>, m: nat)
    requires |on| == |frames|
    ensures LoadSum([], frames, on, m) == 0
  {
  }

  lemma {:induction false} LoadDrop(jobs: seq<nat>, k: nat, frames: seq<nat>, on: seq<nat>, m: nat)
    requires |on| == |frames| && k < |jobs|
    requires InRange(jobs, |frames|)
    ensures Load(jobs, frames, on, m) ==
            Load(jobs[..k] + jobs[k + 1..], frames, on, m) + if on[jobs[k]] == m then frames[jobs[k]] else 0
  {
    if k == |jobs| - 1 {
      assert jobs[..k] + jobs[k + 1..] == jobs[..|jobs| - 1];
    } else {
      var init := jobs[..|jobs| - 1];
      LoadDrop(init, k, frames, on, m);
      var dropped := jobs[..k] + jobs[k + 1..];
      assert dropped[..|dropped| - 1] == init[..k] + init[k + 1..];
    }
  }

  lemma FindLast(a: seq<nat>, b: seq<nat>) returns (k: nat)
    requires a != [] && multiset(a) == multiset(b)
    ensures k < |b| && b[k] == a[|a| - 1]
    ensures multiset(a[..|a| - 1]) == multiset(b[..k] + b[k + 1..])
  {
    var init, last := a[..|a| - 1], a[|a| - 1];
    assert a == init + [last];
    assert last in multiset(b);
    k :| 0 <= k < |b| && b[k] == last;
    assert b == b[..k] + [last] + b[k + 1..];
    assert multiset(init) == multiset(a) - multiset{last};
    assert multiset(b[..k] + b[k + 1..]) == multiset(b) - multiset{last};
  }

  lemma {:induction false} LoadPermutes(a: seq<nat>, b: seq<nat>, frames: seq<nat>, on: seq<nat>, m: nat)
    requires |on| == |frames|
    requires multiset(a) == multiset(b)
    requires InRange(a, |frames|) && InRange(b, |frames|)
    ensures Load(a, frames, on, m) == Load(b, frames, on, m)
  {
    if a == [] {
      assert |multiset(b)| == |b|;
    } else {
      var k := FindLast(a, b);
      LoadPermutes(a[..|a| - 1], b[..k] + b[k + 1..], frames, on, m);
      LoadDrop(b, k, frames, on, m);
    }
  }

  lemma {:induction false} MakespanPermutes(a: seq<nat>, b: seq<nat>, frames: seq<nat>, on: seq<nat>, m: nat)
    requires |on| == |frames|
    requires multiset(a) == multiset(b)
    requires InRange(a, |frames|)
    requires InRange(b, |frames|)
    ensures MakespanOf(a, frames, on, m) == MakespanOf(b, frames, on, m)
  {
    if m > 0 {
      MakespanPermutes(a, b, frames, on, m - 1);
      LoadPermutes(a, b, frames, on, m - 1);
    }
  }

  lemma {:induction false} PrefixMonotone(jobs: seq<nat>, k: nat, frames: seq<nat>, on: seq<nat>, m: nat)
    requires |on| == |frames| && k <= |jobs|
    requires InRange(jobs, |frames|)
    ensures Load(jobs[..k], frames, on, m) <= Load(jobs, frames, on, m)
    ensures Total(jobs[..k], frames) <= Total(jobs, frames)
    decreases |jobs|
  {
    if k < |jobs| {
      PrefixMonotone(jobs[..|jobs| - 1], k, frames, on, m);
      assert jobs[..|jobs| - 1][..k] == jobs[..k];
    } else {
      assert jobs[..k] == jobs;
    }
  }

  // ---- averaging: the cheapest machine costs no more than any assignment's makespan ----

  /** Seventy times a machine's share of frames per unit of cost, summed over the first `m` machines. */
  function Capacity(m: nat): nat {
    if m == 0 then 0 else Capacity(m - 1) + if m == 1 then 10 else 7
  }

  lemma CapacityStep(m: nat, c: nat)
    requires m > 0
    ensures Capacity(m) * c == Capacity(m - 1) * c + (if m == 1 then 10 * c else 7 * c)
  {
    var w := Capacity(m - 1);
    assert (w + 10) * c == w * c + 10 * c;
    assert (w + 7) * c == w * c + 7 * c;
  }

  lemma {:induction false} LoadsAboveCost(jobs: seq<nat>, frames: seq<nat>, on: seq<nat>, m: nat, c: nat)
    requires |on| == |frames|
    requires InRange(jobs, |frames|)
    requires forall x | 0 <= x < m :: c <= Cost(x, Load(jobs, frames, on, x))
    ensures Capacity(m) * c <= 70 * LoadSum(jobs, frames, on, m)
  {
    if m > 0 {
      LoadsAboveCost(jobs, frames, on, m - 1, c);
      CapacityStep(m, c);
    }
  }

  lemma {:induction false} LoadsBelowCost(jobs: seq<nat>, frames: seq<nat>, on: seq<nat>, m: nat, c: nat)
    requires |on| == |frames|
    requires InRange(jobs, |frames|)
    requires forall x | 0 <= x < m :: Cost(x, Load(jobs, frames, on, x)) <= c
    ensures 70 * LoadSum(jobs, frames, on, m) <= Capacity(m) * c
  {
    if m > 0 {
      LoadsBelowCost(jobs, frames, on, m - 1, c);
      CapacityStep(m, c);
    }
  }

  lemma CapacityPositive(m: nat)
    requires m > 0
    ensures Capacity(m) > 0
  {
  }

  /** Whatever was assigned before, the cheapest machine costs at most what any assignment needs. */
  lemma CheapestBelowAnyMakespan(order: seq<nat>, k: nat, frames: seq<nat>, on: seq<nat>, other: seq<nat>,
                                 machines: nat, c: nat)
    requires machines > 0 && k <= |order|
    requires Covers(order, frames, on, machines) && Covers(order, frames, other, machines)
    requires forall m | 0 <= m < machines :: c <= Cost(m, Load(order[..k], frames, on, m))
    ensures c <= MakespanOf(order, frames, other, machines)
  {
    var t := MakespanOf(order, frames, other, machines);
    MakespanIsMaximum(order, frames, other, machines);
    LoadsAboveCost(order[..k], frames, on, machines, c);
    LoadsAddUp(order[..k], frames, on, machines);
    PrefixMonotone(order, k, frames, on, 0);
    LoadsAddUp(order, frames, other, machines);
    LoadsBelowCost(order, frames, other, machines, t);
    CapacityPositive(machines);
    CancelFactor(Capacity(machines), c, t);
  }

  lemma CancelFactor(w: nat, a: nat, b: nat)
    requires w > 0 && w * a <= w * b
    ensures a <= b
  {
    if a > b {
      MultiplyUp(w, b, a - b - 1);
    }
  }

  lemma {:induction false} MultiplyUp(w: nat, b: nat, d: nat)
    ensures w * (b + 1 + d) >= w * b + w
  {
    if d > 0 {
      MultiplyUp(w, b, d - 1);
      assert w * (b + 1 + d) == w * (b + d) + w;
    } else {
      assert w * (b + 1) == w * b + w;
    }
  }

  // ---- pigeonhole: more jobs than machines puts two of them together ----

  ghost function Busy(jobs: seq<nat>, frames: seq<nat>, on: seq<nat>, m: nat): nat
    requires |on| == |frames|
    requires InRange(jobs, |frames|)
  {
    if m == 0 then 0
    else Busy(jobs, frames, on, m - 1) + if Load(jobs, frames, on, m - 1) > 0 then 1 else 0
  }

  lemma {:induction false} BusySnoc(jobs: seq<nat>, frames: seq<nat>, on: seq<nat>, m: nat)
    requires |on| == |frames| && jobs != []
    requires InRange(jobs, |frames|)
    ensures Busy(jobs, frames, on, m) <=
            Busy(jobs[..|jobs| - 1], frames, on, m) + if on[jobs[|jobs| - 1]] < m then 1 else 0
  {
    if m > 0 {
      BusySnoc(jobs, frames, on, m - 1);
    }
  }

  /** Each job makes at most one machine busy. */
  lemma {:induction false} BusyAtMostJobs(jobs: seq<nat>, frames: seq<nat>, on: seq<nat>, m: nat)
    requires |on| == |frames|
    requires InRange(jobs, |frames|)
    ensures Busy(jobs, frames, on, m) <= |jobs|
  {
    if jobs == [] {
      IdleWithoutJobs(frames, on, m);
    } else {
      BusySnoc(jobs, frames, on, m);
      BusyAtMostJobs(jobs[..|jobs| - 1], frames, on, m);
    }
  }

  lemma IdleWithoutJobs(frames: seq<nat>, on: seq<nat>, m: nat)
    requires |on| == |frames|
    ensures Busy([], frames, on, m) == 0
  {
  }

  lemma {:induction false} AllBusy(jobs: seq<nat>, frames: seq<nat>, on: seq<nat>, m: nat)
    requires |on| == |frames|
    requires InRange(jobs, |frames|)
    requires forall x | 0 <= x < m :: Load(jobs, frames, on, x) > 0
    ensures Busy(jobs, frames, on, m) == m
  {
    if m > 0 {
      AllBusy(jobs, frames, on, m - 1);
    }
  }

  /** The least load of `s`-sized jobs: how many of the listed jobs sit on machine `m`. */
  ghost function CountOn(jobs: seq<nat>, on: seq<nat>, m: nat): nat
    requires InRange(jobs, |on|)
  {
    if jobs == [] then 0
    else CountOn(jobs[..|jobs| - 1], on, m) + if on[jobs[|jobs| - 1]] == m then 1 else 0
  }

  ghost function CountSum(jobs: seq<nat>, on: seq<nat>, m: nat): nat
    requires InRange(jobs, |on|)
  {
    if m == 0 then 0 else CountSum(jobs, on, m - 1) + CountOn(jobs, on, m - 1)
  }

  lemma {:induction false} CountSumSnoc(jobs: seq<nat>, on: seq<nat>, m: nat)
    requires jobs != []
    requires InRange(jobs, |on|)
    ensures CountSum(jobs, on, m) ==
            CountSum(jobs[..|jobs| - 1], on, m) + if on[jobs[|jobs| - 1]] < m then 1 else 0
  {
    if m > 0 {
      CountSumSnoc(jobs, on, m - 1);
    }
  }

  lemma {:induction false} CountsAddUp(jobs: seq<nat>, on: seq<nat>, machines: nat)
    requires InRange(jobs, |on|)
    requires InRange(on, machines)
    ensures CountSum(jobs, on, machines) == |jobs|
  {
    if jobs == [] {
      NoJobsNoCount(on, machines);
    } else {
      CountSumSnoc(jobs, on, machines);
      CountsAddUp(jobs[..|jobs| - 1], on, machines);
    }
  }

  lemma NoJobsNoCount(on: seq<nat>, m: nat)
    ensures CountSum([], on, m) == 0
  {
  }

  lemma {:induction false} SomeMachineHasTwo(jobs: seq<nat>, on: seq<nat>, m: nat)
    requires InRange(jobs, |on|)
    requires CountSum(jobs, on, m) > m
    ensures exists x :: 0 <= x < m && CountOn(jobs, on, x) >= 2
  {
    if m > 0 && CountOn(jobs, on, m - 1) < 2 {
      SomeMachineHasTwo(jobs, on, m - 1);
    }
  }

  lemma {:induction false} CountBoundsLoad(jobs: seq<nat>, frames: seq<nat>, on: seq<nat>, m: nat, s: nat)
    requires |on| == |frames|
    requires forall k | 0 <= k < |jobs| :: jobs[k] < |frames| && frames[jobs[k]] >= s
    ensures CountOn(jobs, on, m) * s <= Load(jobs, frames, on, m)
  {
    if jobs != [] {
      CountBoundsLoad(jobs[..|jobs| - 1], frames, on, m, s);
    }
  }

  /** With more jobs of at least `s` frames than machines, every assignment doubles up somewhere. */
  lemma DoublingUp(jobs: seq<nat>, frames: seq<nat>, other: seq<nat>, machines: nat, s: nat)
    requires Covers(jobs, frames, other, machines)
    requires |jobs| > machines
    requires forall k | 0 <= k < |jobs| :: frames[jobs[k]] >= s
    ensures 14 * s <= MakespanOf(jobs, frames, other, machines)
  {
    CountsAddUp(jobs, other, machines);
    SomeMachineHasTwo(jobs, other, machines);
    var x :| 0 <= x < machines && CountOn(jobs, other, x) >= 2;
    CountBoundsLoad(jobs, frames, other, x, s);
    assert 2 * s <= CountOn(jobs, other, x) * s;
    MakespanIsMaximum(jobs, frames, other, machines);
  }

  lemma {:induction false} JobBelowMakespan(jobs: seq<nat>, k: nat, frames: seq<nat>, other: seq<nat>, machines: nat)
    requires Covers(jobs, frames, other, machines) && k < |jobs|
    ensures 7 * frames[jobs[k]] <= MakespanOf(jobs, frames, other, machines)
  {
    var m := other[jobs[k]];
    LoadDrop(jobs, k, frames, other, m);
    MakespanIsMaximum(jobs, frames, other, machines);
  }

  // ---- the approximation bound ----

  lemma {:induction false} MakespanPrefix(jobs: seq<nat>, k: nat, frames: seq<nat>, on: seq<nat>, m: nat)
    requires |on| == |frames| && k <= |jobs|
    requires InRange(jobs, |frames|)
    ensures MakespanOf(jobs[..k], frames, on, m) <= MakespanOf(jobs, frames, on, m)
  {
    if m > 0 {
      MakespanPrefix(jobs, k, frames, on, m - 1);
      PrefixMonotone(jobs, k, frames, on, m - 1);
    }
  }

  /** The bound for the one machine that receives the job of turn `k`. */
  lemma TurnWithinBound(order: seq<nat>, k: nat, frames: seq<nat>, on: seq<nat>, other: seq<nat>, machines: nat)
    requires Covers(order, frames, on, machines) && Covers(order, frames, other, machines)
    requires Ranked(frames, order)
    requires k < |order| && FirstCheapest(order[..k], frames, on, machines, on[order[k]])
    ensures var m := on[order[k]];
            7 * Cost(m, Load(order[..k + 1], frames, on, m)) <= 12 * MakespanOf(order, frames, other, machines)
  {
    var m, s := on[order[k]], frames[order[k]];
    var before := order[..k];
    var c := Cost(m, Load(before, frames, on, m));
    var t := MakespanOf(order, frames, other, machines);
    assert order[..k + 1][..k] == before;
    assert Load(order[..k + 1], frames, on, m) == Load(before, frames, on, m) + s;
    CheapestBelowAnyMakespan(order, k, frames, on, other, machines, c);
    JobBelowMakespan(order, k, frames, other, machines);
    if c > 0 {
      AllBusy(before, frames, on, machines);
      BusyAtMostJobs(before, frames, on, machines);
      DoublingUp(order[..k + 1], frames, other, machines, s);
      MakespanPrefix(order, k + 1, frames, other, machines);
    }
  }

  /** The same without the sort: the job itself costs a worker at most 10/7 of any makespan. */
  lemma TurnWithinLooseBound(order: seq<nat>, k: nat, frames: seq<nat>, on: seq<nat>, other: seq<nat>, machines: nat)
    requires Covers(order, frames, on, machines) && Covers(order, frames, other, machines)
    requires k < |order| && FirstCheapest(order[..k], frames, on, machines, on[order[k]])
    ensures var m := on[order[k]];
            7 * Cost(m, Load(order[..k + 1], frames, on, m)) <= 17 * MakespanOf(order, frames, other, machines)
  {
    var m, before := on[order[k]], order[..k];
    assert order[..k + 1][..k] == before;
    CheapestBelowAnyMakespan(order, k, frames, on, other, machines, Cost(m, Load(before, frames, on, m)));
    JobBelowMakespan(order, k, frames, other, machines);
  }

  /** Every machine stays within the ratio: 17/7 in any order, 12/7 in descending order. */
  lemma {:induction false} RunWithinBound(order: seq<nat>, k: nat, frames: seq<nat>, on: seq<nat>, other: seq<nat>,
                                          machines: nat, ratio: nat)
    requires Covers(order, frames, on, machines) && Covers(order, frames, other, machines)
    requires ratio == 17 || (ratio == 12 && Ranked(frames, order))
    requires k <= |order| && IsGreedyRun(frames, on, machines, order)
    ensures forall m | 0 <= m < machines ::
              7 * Cost(m, Load(order[..k], frames, on, m)) <= ratio * MakespanOf(order, frames, other, machines)
  {
    if k > 0 {
      RunWithinBound(order, k - 1, frames, on, other, machines, ratio);
      if ratio == 12 {
        TurnWithinBound(order, k - 1, frames, on, other, machines);
      } else {
        TurnWithinLooseBound(order, k - 1, frames, on, other, machines);
      }
      assert order[..k][..k - 1] == order[..k - 1];
    }
  }

  lemma GreedyWithinRatio(order: seq<nat>, frames: seq<nat>, on: seq<nat>, other: seq<nat>, machines: nat, ratio: nat)
    requires Lists(order, |frames|) && InRange(order, |frames|)
    requires |on| == |frames| && InRange(on, machines) && IsGreedyRun(frames, on, machines, order)
    requires |other| == |frames| && InRange(other, machines)
    requires ratio == 17 || (ratio == 12 && Ranked(frames, order))
    ensures 7 * Makespan(frames, on, machines) <= ratio * Makespan(frames, other, machines)
  {
    RunWithinBound(order, |order|, frames, on, other, machines, ratio);
    assert order[..|order|] == order;
    MakespanPermutes(order, AllJobs(|frames|), frames, on, machines);
    MakespanPermutes(order, AllJobs(|frames|), frames, other, machines);
    MakespanIsMaximum(order, frames, on, machines);
  }

  /** Sorting largest first and always feeding the cheapest machine stays within 12/7 of every other
      assignment of the same batch to the same machines. */
  lemma GreedyWithinTwelveSevenths(frames: seq<nat>, on: seq<nat>, other: seq<nat>, nWorkers: nat)
    requires IsGreedyAssignment(frames, on, nWorkers)
    requires |other| == |frames| && InRange(other, nWorkers + 1)
    ensures 7 * Makespan(frames, on, nWorkers + 1) <= 12 * Makespan(frames, other, nWorkers + 1)
  {
    var order :| IsDescendingOrder(frames, order) && IsGreedyRun(frames, on, nWorkers + 1, order);
    GreedyWithinRatio(order, frames, on, other, nWorkers + 1, 12);
  }

  /** What the sort buys: feeding the cheapest machine in any order at all is only known to stay within
      17/7. */
  lemma AnyOrderWithinSeventeenSevenths(order: seq<nat>, frames: seq<nat>, on: seq<nat>, other: seq<nat>, nWorkers: nat)
    requires Lists(order, |frames|) && InRange(order, |frames|)
    requires |on| == |frames| && InRange(on, nWorkers + 1) && IsGreedyRun(frames, on, nWorkers + 1, order)
    requires |other| == |frames| && InRange(other, nWorkers + 1)
    ensures 7 * Makespan(frames, on, nWorkers + 1) <= 17 * Makespan(frames, other, nWorkers + 1)
  {
    GreedyWithinRatio(order, frames, on, other, nWorkers + 1, 17);
  }

  /** The scan over the machines: the server first, then a worker only if strictly cheaper. */
  method CheapestMachine(load: array<nat>) returns (best: nat)
    requires load.Length > 0
    ensures best < load.Length
    ensures forall x | 0 <= x < load.Length ::
              && Cost(best, load[best]) <= Cost(x, load[x])
              && (x < best ==> Cost(best, load[best]) < Cost(x, load[x]))
  {
    var bestLoad := 7 * load[0];
    best := 0;
    for m := 1 to load.Length
      invariant best < m && bestLoad == Cost(best, load[best])
      invariant forall x | 0 <= x < m :: bestLoad <= Cost(x, load[x]) && (x < best ==> bestLoad < Cost(x, load[x]))
    {
      if 10 * load[m] < bestLoad {
        best, bestLoad := m, 10 * load[m];
      }
    }
  }

  /** The scheduler: a machine for every job of the batch. `frames[i]` is job i's active frame count. */
  method AssignMachines(frames: seq<nat>, nWorkers: nat) returns (machine: seq<nat>)
    ensures IsGreedyAssignment(frames, machine, nWorkers)
  {
    var machines := nWorkers + 1;
    var load := new nat[machines](_ => 0);
    machine := seq(|frames|, _ => 0);
    var order := SortBatch(frames);
    for i := 0 to |order|
      invariant |machine| == |frames|
      invariant InRange(machine, machines)
      invariant forall m | 0 <= m < machines :: load[m] == Load(order[..i], frames, machine, m)
      invariant IsGreedyRun(frames, machine, machines, order[..i])
    {
      var best := CheapestMachine(load);
      assert forall x | 0 <= x < machines :: Cost(x, load[x]) == Cost(x, Load(order[..i], frames, machine, x));
      TurnExtendsRun(order, i, frames, machine, machines, best);
      machine := machine[order[i] := best];
      load[best] := load[best] + frames[order[i]];
    }
    assert order[..|order|] == order;
  }

  /** Placing the job of turn `i` on the cheapest machine extends the run and only its machine's load. */
  lemma TurnExtendsRun(order: seq<nat>, i: nat, frames: seq<nat>, on: seq<nat>, machines: nat, best: nat)
    requires |on| == |frames| && i < |order| && InRange(order, |frames|)
    requires Ranked(frames, order)
    requires IsGreedyRun(frames, on, machines, order[..i])
    requires FirstCheapest(order[..i], frames, on, machines, best)
    ensures var now := on[order[i] := best];
            && IsGreedyRun(frames, now, machines, order[..i + 1])
            && forall m :: Load(order[..i + 1], frames, now, m) ==
                           Load(order[..i], frames, on, m) + if m == best then frames[order[i]] else 0
  {
    var now, upTo := on[order[i] := best], order[..i + 1];
    forall m ensures Load(upTo, frames, now, m) == Load(order[..i], frames, on, m) + if m == best then frames[order[i]] else 0 {
      assert upTo[..i] == order[..i];
      LoadIsLocal(order[..i], frames, on, now, m);
    }
    forall k | 0 <= k < |upTo|
      ensures FirstCheapest(upTo[..k], frames, now, machines, now[upTo[k]])
    {
      TurnStaysGreedy(order, i, frames, on, machines, best, k);
    }
  }

  lemma TurnStaysGreedy(order: seq<nat>, i: nat, frames: seq<nat>, on: seq<nat>, machines: nat, best: nat, k: nat)
    requires |on| == |frames| && k <= i < |order| && InRange(order, |frames|)
    requires Ranked(frames, order)
    requires IsGreedyRun(frames, on, machines, order[..i])
    requires FirstCheapest(order[..i], frames, on, machines, best)
    ensures var now := on[order[i] := best];
            FirstCheapest(order[..i + 1][..k], frames, now, machines, now[order[..i + 1][k]])
  {
    var now := on[order[i] := best];
    assert order[..i + 1][..k] == order[..k] == order[..i][..k];
    if k < i {
      assert FirstCheapest(order[..i][..k], frames, on, machines, on[order[..i][k]]);
      assert now[order[k]] == on[order[..i][k]];
    }
    FirstCheapestIsLocal(order[..k], frames, on, now, machines, now[order[k]]);
  }

  lemma FirstCheapestIsLocal(jobs: seq<nat>, frames: seq<nat>, on: seq<nat>, on': seq<nat>, machines: nat, b: nat)
    requires |on| == |on'| == |frames| && InRange(jobs, |frames|)
    requires forall k | 0 <= k < |jobs| :: on[jobs[k]] == on'[jobs[k]]
    requires FirstCheapest(jobs, frames, on, machines, b)
    ensures FirstCheapest(jobs, frames, on', machines, b)
  {
    LoadIsLocal(jobs, frames, on, on', b);
    forall x | 0 <= x < machines
      ensures Load(jobs, frames, on, x) == Load(jobs, frames, on', x)
    {
      LoadIsLocal(jobs, frames, on, on', x);
    }
  }

  /** Greedy is not always optimal: three jobs on two machines where it needs 4/3 of the best makespan. */
  lemma GreedyCanMissTheOptimum()
    ensures var frames, on, other := [3, 2, 2], [0, 1, 1], [1, 0, 0];
            && IsGreedyAssignment(frames, on, 1)
            && 3 * Makespan(frames, on, 2) == 4 * Makespan(frames, other, 2)
  {
    ExampleIsGreedy();
    GreedyExample();
    BetterExample();
  }

  lemma GreedyExample()
    ensures Makespan([3, 2, 2], [0, 1, 1], 2) == 40
  {
    MakespanOfThree([3, 2, 2], [0, 1, 1]);
  }

  lemma BetterExample()
    ensures Makespan([3, 2, 2], [1, 0, 0], 2) == 30
  {
    MakespanOfThree([3, 2, 2], [1, 0, 0]);
  }

  lemma ExampleIsGreedy()
    ensures IsGreedyAssignment([3, 2, 2], [0, 1, 1], 1)
  {
    BatchOrderSuffices([3, 2, 2]);
    assert AllJobs(2) == [0, 1] && AllJobs(3) == [0, 1, 2];
    ExampleRun();
  }

  lemma BatchOrderSuffices(frames: seq<nat>)
    requires forall a, b | 0 <= a < b < |frames| :: frames[a] >= frames[b]
    ensures IsDescendingOrder(frames, AllJobs(|frames|))
  {
  }

  lemma ExampleRun()
    ensures IsGreedyRun([3, 2, 2], [0, 1, 1], 2, [0, 1, 2])
  {
    var frames, on, order := [3, 2, 2], [0, 1, 1], [0, 1, 2];
    FirstCheapestOfTwo([], frames, on);
    FirstCheapestOfTwo([0], frames, on);
    FirstCheapestOfTwo([0, 1], frames, on);
    ThreeJobs(frames, on, 0);
    ThreeJobs(frames, on, 1);
    assert order[..0] == [] && order[..1] == [0] && order[..2] == [0, 1];
  }

  lemma FirstCheapestOfTwo(jobs: seq<nat>, frames: seq<nat>, on: seq<nat>)
    requires |on| == |frames| && InRange(jobs, |frames|)
    ensures var server, worker := 7 * Load(jobs, frames, on, 0), 10 * Load(jobs, frames, on, 1);
            FirstCheapest(jobs, frames, on, 2, if worker < server then 1 else 0)
  {
  }

  lemma MakespanOfThree(frames: seq<nat>, on: seq<nat>)
    requires |on| == |frames| == 3
    requires forall i | 0 <= i < 3 :: on[i] < 2
    ensures AllJobs(3) == [0, 1, 2]
    ensures var server := 7 * Load([0, 1, 2], frames, on, 0);
            var worker := 10 * Load([0, 1, 2], frames, on, 1);
            Makespan(frames, on, 2) == if worker > server then worker else server
    ensures Load([0, 1, 2], frames, on, 0) == (if on[0] == 0 then frames[0] else 0) +
              (if on[1] == 0 then frames[1] else 0) + (if on[2] == 0 then frames[2] else 0)
    ensures Load([0, 1, 2], frames, on, 1) == (if on[0] == 1 then frames[0] else 0) +
              (if on[1] == 1 then frames[1] else 0) + (if on[2] == 1 then frames[2] else 0)
  {
    assert AllJobs(2) == [0, 1] && AllJobs(3) == [0, 1, 2];
    assert MakespanOf([0, 1, 2], frames, on, 1) == 7 * Load([0, 1, 2], frames, on, 0);
    ThreeJobs(frames, on, 0);
    ThreeJobs(frames, on, 1);
  }

  lemma ThreeJobs(frames: seq<nat>, on: seq<nat>, m: nat)
    requires |on| == |frames| == 3
    ensures Load([], frames, on, m) == 0
    ensures Load([0], frames, on, m) == if on[0] == m then frames[0] else 0
    ensures Load([0, 1], frames, on, m) == Load([0], frames, on, m) + if on[1] == m then frames[1] else 0
    ensures Load([0, 1, 2], frames, on, m) == Load([0, 1], frames, on, m) + if on[2] == m then frames[2] else 0
  {
    assert [0, 1, 2][..2] == [0, 1] && [0, 1][..1] == [0] && [0][..0] == [];
  }
}
