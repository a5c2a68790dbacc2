/** One distributed job: the version handshake, the weighted shards, one run per worker, and the merge of
    the partial results in whatever order the workers finish. */
module FanOut {
  import opened Wrappers
  import opened DataStore
  import opened Sharding
  import opened Smoothing

  datatype Capabilities = Capabilities(protocol: int, piVersion: string, wbppVersion: string)

  /** A worker on the list, with its answer to the handshake if it gave one. */
  datatype Peer = Peer(nodeId: string, caps: Option<Capabilities>)

  predicate Mismatch(self: Capabilities, peer: Capabilities) {
    peer.protocol != self.protocol || peer.piVersion != self.piVersion || peer.wbppVersion != self.wbppVersion
  }

  /** An input file: its path and its base name. */
  datatype Input = Input(path: string, base: string)

  datatype Pair = Pair(input: string, output: string, sum: Checksum)

  datatype Download = Lost(error: string) | Got(sum: Checksum)

  /** How one worker's part went: a push or the work failed, or it reported outputs and each was downloaded. */
  datatype Outcome = PushFailed(error: string) | WorkFailed(error: string) | Worked(outputs: seq<(Pair, Download)>)

  datatype Record = Record(input: string, output: string, worker: string, verified: bool, error: Option<string>)

  datatype Refusal = NoInputs | NoWorkers | NoOutDir | VersionRefused(nodeId: string) | NoneReachable

  // ---- one worker's part ----

  function RecordOf(worker: string, p: Pair, d: Download): Record {
    match d
    case Lost(error) => Record(p.input, p.output, worker, false, Some("download: " + error))
    case Got(sum) =>
      if sum != p.sum then Record(p.input, p.output, worker, false, Some("checksum mismatch"))
      else Record(p.input, p.output, worker, true, None)
  }

  function ErrorRecord(worker: string, f: Input, error: string): Record {
    Record(f.base, "", worker, false, Some(error))
  }

  /** The records a worker's part ends in: one per reported output, or one per file of a failed part. */
  function Records(files: seq<Input>, worker: string, o: Outcome): seq<Record> {
    match o
    case PushFailed(error) => seq(|files|, i requires 0 <= i < |files| => ErrorRecord(worker, files[i], "upload: " + error))
    case WorkFailed(error) => seq(|files|, i requires 0 <= i < |files| => ErrorRecord(worker, files[i], "work: " + error))
    case Worked(outputs) =>
      seq(|outputs|, i requires 0 <= i < |outputs| => RecordOf(worker, outputs[i].0, outputs[i].1))
  }

  function Tally(records: seq<Record>, verified: bool): nat {
    if records == [] then 0
    else Tally(records[..|records| - 1], verified) + if records[|records| - 1].verified == verified then 1 else 0
  }

  lemma {:induction false} CountsCover(records: seq<Record>)
    ensures Tally(records, true) + Tally(records, false) == |records|
  {
    if records != [] {
      CountsCover(records[..|records| - 1]);
    }
  }

  lemma {:induction false} CountConcat(a: seq<Record>, b: seq<Record>, verified: bool)
    ensures Tally(a + b, verified) == Tally(a, verified) + Tally(b, verified)
  {
    if b == [] {
      assert a + b == a;
    } else {
      CountConcat(a, b[..|b| - 1], verified);
      assert (a + b)[..|a + b| - 1] == a + b[..|b| - 1];
    }
  }

  lemma {:induction false} CountNone(records: seq<Record>)
    requires forall i | 0 <= i < |records| :: !records[i].verified
    ensures Tally(records, true) == 0 && Tally(records, false) == |records|
  {
    if records != [] {
      CountNone(records[..|records| - 1]);
    }
  }

  /** Marks every file of a failed part. */
  method ShardError(files: seq<Input>, worker: string, error: string)
    returns (outputs: seq<Record>, collected: nat, failed: nat)
    ensures outputs == seq(|files|, i requires 0 <= i < |files| => ErrorRecord(worker, files[i], error))
    ensures collected == Tally(outputs, true) && failed == Tally(outputs, false)
  {
    outputs := [];
    for i := 0 to |files|
      invariant |outputs| == i && forall k | 0 <= k < i :: outputs[k] == ErrorRecord(worker, files[k], error)
    {
      outputs := outputs + [ErrorRecord(worker, files[i], error)];
    }
    CountNone(outputs);
    collected, failed := 0, |files|;
  }

  method RunWorkerShard(files: seq<Input>, worker: string, o: Outcome)
    returns (outputs: seq<Record>, collected: nat, failed: nat)
    ensures outputs == Records(files, worker, o)
    ensures collected == Tally(outputs, true) && failed == Tally(outputs, false)
  {
    match o {
      case PushFailed(error) =>
        outputs, collected, failed := ShardError(files, worker, "upload: " + error);
      case WorkFailed(error) =>
        outputs, collected, failed := ShardError(files, worker, "work: " + error);
      case Worked(reported) =>
        outputs, collected, failed := [], 0, 0;
        for i := 0 to |reported|
          invariant |outputs| == i
          invariant forall k | 0 <= k < i :: outputs[k] == RecordOf(worker, reported[k].0, reported[k].1)
          invariant collected == Tally(outputs, true) && failed == Tally(outputs, false)
        {
          var rec := RecordOf(worker, reported[i].0, reported[i].1);
          if rec.verified {
            collected := collected + 1;
          } else {
            failed := failed + 1;
          }
          assert (outputs + [rec])[..i] == outputs;
          outputs := outputs + [rec];
        }
    }
  }

  /** `r` tells how one reported pair fared: it names the pair and the worker, is verified exactly when the
      downloaded bytes have the checksum the worker announced, and otherwise says what went wrong. */
  predicate TellsOfPair(worker: string, p: Pair, d: Download, r: Record) {
    && r.worker == worker && r.input == p.input && r.output == p.output
    && (r.verified <==> d == Got(p.sum)) && (r.error.None? <==> r.verified)
    && (d.Lost? ==> r.error == Some("download: " + d.error))
    && (d.Got? && d.sum != p.sum ==> r.error == Some("checksum mismatch"))
  }

  /** `r` tells that one file was lost with its part. */
  predicate TellsOfFile(worker: string, f: Input, o: Outcome, r: Record) {
    && r.worker == worker && r.input == f.base && r.output == "" && !r.verified
    && (o.PushFailed? ==> r.error == Some("upload: " + o.error))
    && (o.WorkFailed? ==> r.error == Some("work: " + o.error))
  }

  /** `r` is one of the records that a worker's part must end in. */
  ghost predicate Tells(files: seq<Input>, worker: string, o: Outcome, r: Record) {
    if o.Worked? then exists i | 0 <= i < |o.outputs| :: TellsOfPair(worker, o.outputs[i].0, o.outputs[i].1, r)
    else exists i | 0 <= i < |files| :: TellsOfFile(worker, files[i], o, r)
  }

  lemma PairRecord(worker: string, p: Pair, d: Download, r: Record)
    ensures TellsOfPair(worker, p, d, r) <==> r == RecordOf(worker, p, d)
  {
  }

  /** A part ends in exactly these records, one for each reported pair, or one for each file of a failed
      part. */
  lemma RecordsTell(files: seq<Input>, worker: string, o: Outcome, r: Record)
    ensures |Records(files, worker, o)| == if o.Worked? then |o.outputs| else |files|
    ensures r in Records(files, worker, o) <==> Tells(files, worker, o, r)
  {
    var records := Records(files, worker, o);
    if o.Worked? {
      forall i | 0 <= i < |o.outputs|
        ensures r == records[i] <==> TellsOfPair(worker, o.outputs[i].0, o.outputs[i].1, r)
      {
        PairRecord(worker, o.outputs[i].0, o.outputs[i].1, r);
      }
    } else {
      forall i | 0 <= i < |files| ensures r == records[i] <==> TellsOfFile(worker, files[i], o, r) {
      }
    }
  }

  function Positions(records: seq<Record>, verified: bool): set<nat> {
    set i: nat | i < |records| && records[i].verified == verified
  }

  /** The tally counts the records that are verified, or those that are not. */
  lemma {:induction false} TallyCounts(records: seq<Record>, verified: bool)
    ensures Tally(records, verified) == |Positions(records, verified)|
  {
    if records != [] {
      var before, last := records[..|records| - 1], records[|records| - 1];
      TallyCounts(before, verified);
      OneMorePosition(before, last, verified);
      assert records == before + [last];
    }
  }

  lemma OneMorePosition(records: seq<Record>, last: Record, verified: bool)
    ensures |Positions(records + [last], verified)|
            == |Positions(records, verified)| + if last.verified == verified then 1 else 0
  {
    var before, after, n := Positions(records, verified), Positions(records + [last], verified), |records|;
    forall i: nat ensures i in after <==> i in before || (i == n && last.verified == verified) {
      if i < n {
        assert (records + [last])[i] == records[i];
      }
    }
    assert after == before + if last.verified == verified then {n} else {};
  }

  // ---- merging ----

  /** The report's outputs after the parts in `order` have been merged, in that order. */
  function Merged(parts: seq<seq<Record>>, order: seq<nat>): seq<Record>
    requires forall k | 0 <= k < |order| :: order[k] < |parts|
  {
    if order == [] then [] else Merged(parts, order[..|order| - 1]) + parts[order[|order| - 1]]
  }

  class JobReport {
    var outputs: seq<Record>
    var collected: nat
    var failed: nat
    const workers: nat
    const total: nat

    /** The accounting of every reachable report. */
    ghost predicate Valid()
      reads this
    {
      collected == Tally(outputs, true) && failed == Tally(outputs, false)
    }

    constructor (workers: nat, total: nat)
      ensures Valid() && outputs == [] && this.workers == workers && this.total == total
    {
      outputs, collected, failed := [], 0, 0;
      this.workers, this.total := workers, total;
    }

    /** What one worker's goroutine does under the lock. */
    method Merge(outs: seq<Record>, collected: nat, failed: nat)
      requires Valid() && collected == Tally(outs, true) && failed == Tally(outs, false)
      modifies this
      ensures Valid() && outputs == old(outputs) + outs
    {
      CountConcat(outputs, outs, true);
      CountConcat(outputs, outs, false);
      this.outputs := this.outputs + outs;
      this.collected := this.collected + collected;
      this.failed := this.failed + failed;
    }
  }

  /** In every reachable report, whatever has been merged in whatever order, the two counters add up to
      the number of outputs. */
  lemma CountersAddUp(report: JobReport)
    requires report.Valid()
    ensures report.collected + report.failed == |report.outputs|
  {
    CountsCover(report.outputs);
  }

  lemma MergedOneMore(parts: seq<seq<Record>>, order: seq<nat>, p: nat)
    requires p < |parts| && forall i | 0 <= i < |order| :: order[i] < |parts|
    ensures Merged(parts, order + [p]) == Merged(parts, order) + parts[p]
  {
    assert (order + [p])[..|order|] == order;
  }

  lemma AppendBoth(a: seq<Record>, b: seq<Record>, extra: seq<Record>, tail: seq<Record>)
    requires multiset(a) == multiset(b) + multiset(extra)
    ensures multiset(a + tail) == multiset(b + tail) + multiset(extra)
  {
  }

  lemma {:induction false} MergedWithout(parts: seq<seq<Record>>, order: seq<nat>, k: nat)
    requires k < |order| && forall i | 0 <= i < |order| :: order[i] < |parts|
    ensures multiset(Merged(parts, order)) ==
            multiset(Merged(parts, order[..k] + order[k + 1..])) + multiset(parts[order[k]])
  {
    var rest, last := order[..|order| - 1], order[|order| - 1];
    if k == |order| - 1 {
      assert order[..k] + order[k + 1..] == rest;
    } else {
      var short := rest[..k] + rest[k + 1..];
      MergedWithout(parts, rest, k);
      MergedOneMore(parts, short, last);
      assert order[..k] + order[k + 1..] == short + [last];
      AppendBoth(Merged(parts, rest), Merged(parts, short), parts[order[k]], parts[last]);
    }
  }

  /** The final records do not depend on the order in which the workers finish. */
  lemma {:induction false} OrderDoesNotMatter(parts: seq<seq<Record>>, a: seq<nat>, b: seq<nat>)
    requires (forall i | 0 <= i < |a| :: a[i] < |parts|) && (forall i | 0 <= i < |b| :: b[i] < |parts|)
    requires multiset(a) == multiset(b)
    ensures multiset(Merged(parts, a)) == multiset(Merged(parts, b))
  {
    assert |a| == |multiset(a)| == |multiset(b)| == |b|;
    if a != [] {
      var x, rest := a[|a| - 1], a[..|a| - 1];
      assert a == rest + [x];
      assert x in multiset(b);
      var k :| 0 <= k < |b| && b[k] == x;
      RemoveAt(b, k);
      Cancel(multiset(rest), multiset(b[..k] + b[k + 1..]), x);
      OrderDoesNotMatter(parts, rest, b[..k] + b[k + 1..]);
      MergedWithout(parts, b, k);
    }
  }

  lemma RemoveAt(s: seq<nat>, k: nat)
    requires k < |s|
    ensures multiset(s) == multiset(s[..k] + s[k + 1..]) + multiset{s[k]}
  {
    assert s == s[..k] + ([s[k]] + s[k + 1..]);
  }

  lemma Cancel(a: multiset<nat>, b: multiset<nat>, x: nat)
    requires a + multiset{x} == b + multiset{x}
    ensures a == b
  {
    assert a == a + multiset{x} - multiset{x};
    assert b == b + multiset{x} - multiset{x};
  }

  // ---- the job ----

  /** The peers that answered the handshake, in order. */
  function Reached(workers: seq<Peer>): seq<Peer> {
    if workers == [] then []
    else
      var rest := Reached(workers[..|workers| - 1]);
      if workers[|workers| - 1].caps.Some? then rest + [workers[|workers| - 1]] else rest
  }

  /** The job goes to every worker that answered, each as often as it is listed. */
  lemma {:induction false} ReachedIs(workers: seq<Peer>, p: Peer)
    ensures multiset(Reached(workers))[p] == if p.caps.Some? then multiset(workers)[p] else 0
  {
    if workers != [] {
      ReachedIs(workers[..|workers| - 1], p);
      assert workers == workers[..|workers| - 1] + [workers[|workers| - 1]];
    }
  }

  /** Versions match only when protocol, program and script versions are all the same. */
  lemma MatchMeansSame(self: Capabilities, peer: Capabilities)
    ensures !Mismatch(self, peer) <==> self == peer
  {
  }

  predicate AllMatch(self: Capabilities, workers: seq<Peer>) {
    forall i | 0 <= i < |workers| :: workers[i].caps.Some? && !Mismatch(self, workers[i].caps.value)
  }

  /** The worker at `i` answered with other versions. */
  predicate Refuses(self: Capabilities, workers: seq<Peer>, i: nat)
    requires i < |workers|
  {
    workers[i].caps.Some? && Mismatch(self, workers[i].caps.value)
  }

  ghost predicate HandshakeFails(self: Capabilities, workers: seq<Peer>, force: bool) {
    || (!force && exists i | 0 <= i < |workers| :: Refuses(self, workers, i))
    || forall i | 0 <= i < |workers| :: workers[i].caps.None?
  }

  /** Unreachable workers are skipped; one with other versions refuses the whole job, unless forced. */
  method Handshake(self: Capabilities, workers: seq<Peer>, force: bool) returns (r: Result<seq<Peer>, Refusal>)
    ensures r.Ok? ==> r.value == Reached(workers) && r.value != [] && (!force ==> AllMatch(self, r.value))
    ensures r.Ok? ==> force || forall i | 0 <= i < |workers| :: !Refuses(self, workers, i)
    ensures r.Err? && r.error != NoneReachable ==>
              !force && exists i | 0 <= i < |workers| ::
                Refuses(self, workers, i) && r.error == VersionRefused(workers[i].nodeId)
                && forall k | 0 <= k < i :: !Refuses(self, workers, k)
    ensures r.Err? <==> HandshakeFails(self, workers, force)
    ensures r.Err? ==> r.error == NoneReachable || r.error.VersionRefused?
    ensures r == Err(NoneReachable) <==> forall i | 0 <= i < |workers| :: workers[i].caps.None?
  {
    var reachable := [];
    for i := 0 to |workers|
      invariant reachable == Reached(workers[..i])
      invariant reachable == [] <==> forall k | 0 <= k < i :: workers[k].caps.None?
      invariant !force ==> AllMatch(self, reachable)
      invariant force || forall k | 0 <= k < i :: !Refuses(self, workers, k)
    {
      assert workers[..i + 1][..i] == workers[..i];
      if workers[i].caps.None? {
        continue;
      }
      if Mismatch(self, workers[i].caps.value) && !force {
        assert Refuses(self, workers, i);
        return Err(VersionRefused(workers[i].nodeId));
      }
      reachable := reachable + [workers[i]];
    }
    assert workers[..|workers|] == workers;
    if |reachable| == 0 {
      return Err(NoneReachable);
    }
    r := Ok(reachable);
  }

  function Ids(workers: seq<Peer>): (ids: seq<string>)
    ensures |ids| == |workers| && forall i | 0 <= i < |ids| :: ids[i] == workers[i].nodeId
  {
    seq(|workers|, i requires 0 <= i < |workers| => workers[i].nodeId)
  }

  /** The records of every part: worker `i` gets shard `i`, and an empty shard is never sent. */
  function Parts(workers: seq<Peer>, shards: seq<seq<Input>>, outcomes: nat -> Outcome): (parts: seq<seq<Record>>)
    requires |workers| == |shards|
    ensures |parts| == |shards|
  {
    seq(|shards|, i requires 0 <= i < |shards| =>
      if shards[i] == [] then [] else Records(shards[i], workers[i].nodeId, outcomes(i)))
  }

  function NonEmpty(shards: seq<seq<Input>>): set<nat> {
    set i: nat | i < |shards| && shards[i] != []
  }

  ghost predicate Distinct(order: seq<nat>) {
    forall i, k | 0 <= i < k < |order| :: order[i] != order[k]
  }

  /** Each non-empty part once. */
  ghost predicate IsMergeOrder(order: seq<nat>, parts: set<nat>) {
    && Distinct(order)
    && (forall i | 0 <= i < |order| :: order[i] in parts)
    && (forall p | p in parts :: p in order)
  }

  lemma OneMoreInOrder(shards: seq<seq<Input>>, running: set<nat>, order: seq<nat>, wi: nat)
    requires running <= NonEmpty(shards) && wi in running && IsMergeOrder(order, NonEmpty(shards) - running)
    ensures IsMergeOrder(order + [wi], NonEmpty(shards) - (running - {wi}))
  {
    forall p | p in NonEmpty(shards) - (running - {wi}) ensures p in order + [wi] {
      assert p == wi || p in NonEmpty(shards) - running;
    }
  }

  /** The throughput table after a finished part: learned only if several workers share the job. */
  function RateAfter(rates: map<string, real>, multi: bool, id: string, collected: nat, elapsed: real): map<string, real> {
    if multi && collected > 0 && elapsed > 0.0
    then rates[id := Ema(if id in rates then Some(rates[id]) else None, collected as real / elapsed)]
    else rates
  }

  method Learn(tp: Throughput, multi: bool, id: string, collected: nat, elapsed: real)
    requires tp.Valid()
    modifies tp
    ensures tp.Valid() && tp.tp == RateAfter(old(tp.tp), multi, id, collected, elapsed)
  {
    if multi && collected > 0 {
      tp.Record(id, collected, elapsed);
    }
  }

  /** The throughput table after the parts in `order`, in that order. */
  function RatesAfter(rates: map<string, real>, workers: seq<Peer>, shards: seq<seq<Input>>, outcomes: nat -> Outcome,
                      elapsed: nat -> real, order: seq<nat>): map<string, real>
    requires |workers| == |shards| && forall k | 0 <= k < |order| :: order[k] < |shards|
  {
    if order == [] then rates
    else
      var (before, wi) := (RatesAfter(rates, workers, shards, outcomes, elapsed, order[..|order| - 1]), order[|order| - 1]);
      var id := workers[wi].nodeId;
      RateAfter(before, |workers| > 1, id, Tally(Records(shards[wi], id, outcomes(wi)), true), elapsed(wi))
  }

  lemma OneMoreRate(rates: map<string, real>, workers: seq<Peer>, shards: seq<seq<Input>>, outcomes: nat -> Outcome,
                    elapsed: nat -> real, order: seq<nat>, wi: nat)
    requires |workers| == |shards| && wi < |shards| && forall k | 0 <= k < |order| :: order[k] < |shards|
    ensures RatesAfter(rates, workers, shards, outcomes, elapsed, order + [wi]) ==
            RateAfter(RatesAfter(rates, workers, shards, outcomes, elapsed, order), |workers| > 1, workers[wi].nodeId,
                      Tally(Records(shards[wi], workers[wi].nodeId, outcomes(wi)), true), elapsed(wi))
  {
    assert (order + [wi])[..|order|] == order;
  }

  /** The whole job. The workers run at the same time; which part is merged next is left open. */
  method DistributeJob(tp: Throughput, self: Capabilities, workers: seq<Peer>, inputs: seq<Input>, force: bool,
                       outDirOk: bool, outcomes: nat -> Outcome, elapsed: nat -> real)
    returns (r: Result<JobReport, Refusal>, ghost shards: seq<seq<Input>>, ghost order: seq<nat>)
    requires tp.Valid()
    modifies tp
    ensures tp.Valid()
    ensures r.Err? ==> tp.tp == old(tp.tp)
    ensures r == Err(NoInputs) <==> inputs == []
    ensures r == Err(NoWorkers) <==> inputs != [] && workers == []
    ensures r == Err(NoOutDir) <==> inputs != [] && workers != [] && !outDirOk
    ensures r.Ok? <==> inputs != [] && workers != [] && outDirOk && !HandshakeFails(self, workers, force)
    ensures r.Ok? ==>
              var reached := Reached(workers);
              && fresh(r.value) && r.value.Valid()
              && reached != [] && (!force ==> AllMatch(self, reached))
              && |shards| == |reached| && IsWeightedSplit(inputs, old(tp.Weights(Ids(reached))), shards)
              && IsMergeOrder(order, NonEmpty(shards))
              && r.value.outputs == Merged(Parts(reached, shards, outcomes), order)
              && r.value.workers == |reached| && r.value.total == |inputs|
              && tp.tp == RatesAfter(old(tp.tp), reached, shards, outcomes, elapsed, order)
  {
    shards, order := [], [];
    if |inputs| == 0 {
      return Err(NoInputs), shards, order;
    }
    if |workers| == 0 {
      return Err(NoWorkers), shards, order;
    }
    if !outDirOk {
      return Err(NoOutDir), shards, order;
    }
    var reachable := Handshake(self, workers, force);
    if reachable.Err? {
      return Err(reachable.error), shards, order;
    }
    var split := tp.WeightedShard(inputs, Ids(reachable.value));
    shards := split;
    var report;
    report, order := CollectParts(tp, reachable.value, |inputs|, split, outcomes, elapsed);
    r := Ok(report);
  }

  /** The report and the throughput table after the parts in `order` are finished. */
  ghost predicate Finished(tp: Throughput, report: JobReport, rates: map<string, real>, workers: seq<Peer>,
                           shards: seq<seq<Input>>, outcomes: nat -> Outcome, elapsed: nat -> real, order: seq<nat>)
    requires |workers| == |shards|
    reads tp, report
  {
    && tp.Valid() && report.Valid() && (forall k | 0 <= k < |order| :: order[k] < |shards|)
    && report.outputs == Merged(Parts(workers, shards, outcomes), order)
    && tp.tp == RatesAfter(rates, workers, shards, outcomes, elapsed, order)
  }

  /** What one worker's goroutine does. */
  method FinishPart(tp: Throughput, report: JobReport, workers: seq<Peer>, shards: seq<seq<Input>>,
                    outcomes: nat -> Outcome, elapsed: nat -> real, wi: nat,
                    ghost rates: map<string, real>, ghost order: seq<nat>)
    requires |workers| == |shards| && wi < |shards| && shards[wi] != []
    requires Finished(tp, report, rates, workers, shards, outcomes, elapsed, order)
    modifies tp, report
    ensures Finished(tp, report, rates, workers, shards, outcomes, elapsed, order + [wi])
  {
    var outs, collected, failed := RunWorkerShard(shards[wi], workers[wi].nodeId, outcomes(wi));
    Learn(tp, |workers| > 1, workers[wi].nodeId, collected, elapsed(wi));
    report.Merge(outs, collected, failed);
    OneMoreRate(rates, workers, shards, outcomes, elapsed, order, wi);
    MergedOneMore(Parts(workers, shards, outcomes), order, wi);
  }

  method CollectParts(tp: Throughput, workers: seq<Peer>, total: nat, shards: seq<seq<Input>>,
                      outcomes: nat -> Outcome, elapsed: nat -> real)
    returns (report: JobReport, ghost order: seq<nat>)
    requires tp.Valid() && |shards| == |workers|
    modifies tp
    ensures fresh(report) && report.workers == |workers| && report.total == total
    ensures IsMergeOrder(order, NonEmpty(shards))
    ensures Finished(tp, report, old(tp.tp), workers, shards, outcomes, elapsed, order)
  {
    report := new JobReport(|workers|, total);
    order := [];
    var running := NonEmpty(shards);
    while running != {}
      invariant fresh(report)
      invariant running <= NonEmpty(shards) && IsMergeOrder(order, NonEmpty(shards) - running)
      invariant Finished(tp, report, old(tp.tp), workers, shards, outcomes, elapsed, order)
      decreases running
    {
      var wi :| wi in running;
      FinishPart(tp, report, workers, shards, outcomes, elapsed, wi, old(tp.tp), order);
      OneMoreInOrder(shards, running, order, wi);
      order := order + [wi];
      running := running - {wi};
    }
  }

  // ---- the final records, whatever the order ----

  /** The parts in the order of the workers. */
  function InWorkerOrder(parts: set<nat>, n: nat): (order: seq<nat>)
    ensures forall i | 0 <= i < |order| :: order[i] < n
  {
    if n == 0 then []
    else InWorkerOrder(parts, n - 1) + if n - 1 in parts then [n - 1] else []
  }

  lemma {:induction false} InWorkerOrderIs(parts: set<nat>, n: nat, p: nat)
    ensures Distinct(InWorkerOrder(parts, n))
    ensures p in InWorkerOrder(parts, n) <==> p in parts && p < n
  {
    if n > 0 {
      InWorkerOrderIs(parts, n - 1, p);
    }
  }

  lemma {:induction false} MergeOrderIs(order: seq<nat>, p: nat)
    requires Distinct(order)
    ensures multiset(order)[p] == if p in order then 1 else 0
  {
    if order != [] {
      var rest, last := order[..|order| - 1], order[|order| - 1];
      MergeOrderIs(rest, p);
      assert order == rest + [last];
      assert last !in rest;
    }
  }

  lemma {:induction false} MergedInWorkerOrder(records: seq<seq<Record>>, parts: set<nat>, n: nat)
    requires n <= |records| && forall i: nat | i < |records| && i !in parts :: records[i] == []
    ensures Merged(records, InWorkerOrder(parts, n)) == Flatten(records[..n])
  {
    if n > 0 {
      MergedInWorkerOrder(records, parts, n - 1);
      var before := InWorkerOrder(parts, n - 1);
      assert n - 1 !in parts ==> records[n - 1] == [];
      assert before + [] == before && Flatten(records[..n - 1]) + [] == Flatten(records[..n - 1]);
      assert (before + [n - 1])[..|before|] == before;
      assert records[..n][..n - 1] == records[..n - 1];
    }
  }

  /** However the workers finish, the final report holds every part's records, each once, and no others. */
  lemma ReportHoldsEveryRecord(workers: seq<Peer>, shards: seq<seq<Input>>, outcomes: nat -> Outcome, order: seq<nat>)
    requires |workers| == |shards| && IsMergeOrder(order, NonEmpty(shards))
    ensures var parts := Parts(workers, shards, outcomes);
            multiset(Merged(parts, order)) == multiset(Flatten(parts))
  {
    var records, parts := Parts(workers, shards, outcomes), NonEmpty(shards);
    var straight: seq<nat> := InWorkerOrder(parts, |shards|);
    forall p: nat ensures multiset(order)[p] == multiset(straight)[p] {
      InWorkerOrderIs(parts, |shards|, p);
      MergeOrderIs(order, p);
      MergeOrderIs(straight, p);
    }
    assert multiset(order) == multiset(straight);
    OrderDoesNotMatter(records, order, straight);
    MergedInWorkerOrder(records, parts, |shards|);
    assert records[..|shards|] == records;
  }

  lemma {:induction false} MergedMember(parts: seq<seq<Record>>, order: seq<nat>, r: Record)
    requires forall k | 0 <= k < |order| :: order[k] < |parts|
    ensures r in Merged(parts, order) <==> exists k | 0 <= k < |order| :: r in parts[order[k]]
  {
    if order != [] {
      var rest, n := order[..|order| - 1], |order| - 1;
      MergedMember(parts, rest, r);
      if r in parts[order[n]] {
      } else if k :| 0 <= k < |order| && r in parts[order[k]] {
        assert r in parts[rest[k]];
      }
    }
  }

  /** The final report holds a record if and only if it tells of a reported pair, or of a file of a failed
      part, of one of the workers that were given files. So every input of a failed part is in the report by
      its name with its worker, and every pair that a worker reported is there under both its names. */
  lemma ReportTellsEverything(workers: seq<Peer>, shards: seq<seq<Input>>, outcomes: nat -> Outcome,
                              order: seq<nat>, r: Record)
    requires |workers| == |shards| && IsMergeOrder(order, NonEmpty(shards))
    ensures r in Merged(Parts(workers, shards, outcomes), order) <==>
            exists wi: nat | wi < |shards| && shards[wi] != [] :: Tells(shards[wi], workers[wi].nodeId, outcomes(wi), r)
  {
    var parts := Parts(workers, shards, outcomes);
    MergedMember(parts, order, r);
    forall wi: nat | wi < |shards| && shards[wi] != []
      ensures r in parts[wi] <==> Tells(shards[wi], workers[wi].nodeId, outcomes(wi), r)
    {
      RecordsTell(shards[wi], workers[wi].nodeId, outcomes(wi), r);
    }
    if wi: nat :| wi < |shards| && shards[wi] != [] && Tells(shards[wi], workers[wi].nodeId, outcomes(wi), r) {
      assert wi in NonEmpty(shards);
      var k :| 0 <= k < |order| && order[k] == wi;
      assert r in parts[order[k]];
    }
  }

  // ---- what is learned, whatever the order ----

  function Rate(rates: map<string, real>, id: string): Option<real> {
    if id in rates then Some(rates[id]) else None
  }

  ghost predicate DistinctIds(workers: seq<Peer>) {
    forall i, k | 0 <= i < k < |workers| :: workers[i].nodeId != workers[k].nodeId
  }

  function VerifiedBy(workers: seq<Peer>, shards: seq<seq<Input>>, outcomes: nat -> Outcome, wi: nat): nat
    requires |workers| == |shards| && wi < |shards|
  {
    Tally(Records(shards[wi], workers[wi].nodeId, outcomes(wi)), true)
  }

  /** Learning about one worker reads and changes the rate of this worker only. */
  lemma RateAfterIsLocal(a: map<string, real>, b: map<string, real>, multi: bool, id: string, other: string,
                         collected: nat, elapsed: real)
    ensures id != other ==> Rate(RateAfter(a, multi, other, collected, elapsed), id) == Rate(a, id)
    ensures Rate(a, id) == Rate(b, id) ==>
              Rate(RateAfter(a, multi, id, collected, elapsed), id) == Rate(RateAfter(b, multi, id, collected, elapsed), id)
  {
  }

  lemma {:induction false} RateSoFar(rates: map<string, real>, workers: seq<Peer>, shards: seq<seq<Input>>,
                                     outcomes: nat -> Outcome, elapsed: nat -> real, order: seq<nat>, wi: nat)
    requires |workers| == |shards| && DistinctIds(workers) && Distinct(order) && wi < |shards|
    requires forall k | 0 <= k < |order| :: order[k] < |shards|
    ensures var (id, n) := (workers[wi].nodeId, VerifiedBy(workers, shards, outcomes, wi));
            Rate(RatesAfter(rates, workers, shards, outcomes, elapsed, order), id)
            == if wi in order then Rate(RateAfter(rates, |workers| > 1, id, n, elapsed(wi)), id) else Rate(rates, id)
  {
    if order != [] {
      var rest, last := order[..|order| - 1], order[|order| - 1];
      RateSoFar(rates, workers, shards, outcomes, elapsed, rest, wi);
      assert order == rest + [last] && last !in rest;
      RateAfterIsLocal(RatesAfter(rates, workers, shards, outcomes, elapsed, rest), rates, |workers| > 1,
                       workers[wi].nodeId, workers[last].nodeId, VerifiedBy(workers, shards, outcomes, last), elapsed(last));
    }
  }

  /** A rate moves by one sample: the number of collected outputs per second. */
  ghost predicate MovesBy(before: Option<real>, after: Option<real>, collected: nat, elapsed: real) {
    exists sample: real :: sample * elapsed == collected as real && after == Some(Ema(before, sample))
  }

  lemma MovesByOneSample(rates: map<string, real>, id: string, collected: nat, elapsed: real)
    requires collected > 0 && elapsed > 0.0
    ensures MovesBy(Rate(rates, id), Rate(RateAfter(rates, true, id, collected, elapsed), id), collected, elapsed)
  {
    Divide(collected as real, elapsed);
    assert Rate(RateAfter(rates, true, id, collected, elapsed), id) == Some(Ema(Rate(rates, id), collected as real / elapsed));
  }

  /** With several workers of different ids, each worker that got files, and whose outputs came back verified,
      is learned from once: at the number of its verified records per second. All other workers keep their
      rate, and so does a single worker. The order in which they finish does not matter. */
  lemma EachWorkerLearnedOnce(rates: map<string, real>, workers: seq<Peer>, shards: seq<seq<Input>>,
                              outcomes: nat -> Outcome, elapsed: nat -> real, order: seq<nat>, wi: nat)
    requires |workers| == |shards| && DistinctIds(workers) && IsMergeOrder(order, NonEmpty(shards)) && wi < |shards|
    ensures var (id, n) := (workers[wi].nodeId, VerifiedBy(workers, shards, outcomes, wi));
            var after := Rate(RatesAfter(rates, workers, shards, outcomes, elapsed, order), id);
            if |workers| > 1 && shards[wi] != [] && n > 0 && elapsed(wi) > 0.0
            then MovesBy(Rate(rates, id), after, n, elapsed(wi))
            else after == Rate(rates, id)
  {
    RateSoFar(rates, workers, shards, outcomes, elapsed, order, wi);
    var n := VerifiedBy(workers, shards, outcomes, wi);
    assert wi in order <==> shards[wi] != [] by {
      assert wi in NonEmpty(shards) <==> shards[wi] != [];
    }
    if n > 0 && elapsed(wi) > 0.0 {
      MovesByOneSample(rates, workers[wi].nodeId, n, elapsed(wi));
    }
  }

  lemma Divide(a: real, t: real)
    requires t > 0.0
    ensures a / t * t == a
  {
  }

  /** By how many records the parts exceed their files: only a worker that reports another number of
      outputs than it was given files makes a difference. */
  function Surplus(shards: seq<seq<Input>>, outcomes: nat -> Outcome): int {
    if shards == [] then 0
    else
      var last := |shards| - 1;
      Surplus(shards[..last], outcomes)
      + if shards[last] != [] && outcomes(last).Worked? then |outcomes(last).outputs| - |shards[last]| else 0
  }

  lemma {:induction false} RecordsAgainstFiles(workers: seq<Peer>, shards: seq<seq<Input>>, outcomes: nat -> Outcome)
    requires |workers| == |shards|
    ensures |Flatten(Parts(workers, shards, outcomes))| == |Flatten(shards)| + Surplus(shards, outcomes)
  {
    if shards != [] {
      var last := |shards| - 1;
      RecordsAgainstFiles(workers[..last], shards[..last], outcomes);
      assert Parts(workers, shards, outcomes)[..last] == Parts(workers[..last], shards[..last], outcomes);
    }
  }

  /** The counters of the final report against the number of inputs. */
  lemma FinalCounters(report: JobReport, workers: seq<Peer>, inputs: seq<Input>, shards: seq<seq<Input>>,
                      outcomes: nat -> Outcome, order: seq<nat>)
    requires report.Valid() && |workers| == |shards| && Flatten(shards) == inputs
    requires IsMergeOrder(order, NonEmpty(shards))
    requires report.outputs == Merged(Parts(workers, shards, outcomes), order)
    ensures report.collected + report.failed == |inputs| + Surplus(shards, outcomes)
  {
    CountersAddUp(report);
    ReportHoldsEveryRecord(workers, shards, outcomes, order);
    RecordsAgainstFiles(workers, shards, outcomes);
    assert |multiset(report.outputs)| == |report.outputs|;
  }
}
