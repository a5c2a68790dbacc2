/** The server's side of the pull protocol: leases, job ids, and the whole cluster as a transition system.
    Runs here are calm: a send returns only after the worker's call returned (nothing times out, is
    cancelled, gets lost or loses its connection), at most one sharded job is in flight, sharded and whole jobs use
    different operations, and one node id stands for one worker. */
module Routing {
  import opened Wrappers
  import opened PullQueue

  // ---- job ids ----

  function Digit(d: nat): char
    requires d < 10
  {
    ['0', '1', '2', '3', '4', '5', '6', '7', '8', '9'][d]
  }

  function Decimal(n: nat): (s: string)
    ensures s != [] && forall k | 0 <= k < |s| :: s[k] != 'w'
  {
    if n < 10 then [Digit(n)] else Decimal(n / 10) + [Digit(n % 10)]
  }

  /** The id of the shard for worker `i`: the operation, "-w", the index in decimal. */
  function JobId(op: string, i: nat): string {
    op + "-w" + Decimal(i)
  }

  lemma {:induction false} DecimalIsInjective(m: nat, n: nat)
    requires Decimal(m) == Decimal(n)
    ensures m == n
  {
    var s := Decimal(m);
    if m >= 10 && n >= 10 {
      assert s[..|s| - 1] == Decimal(m / 10) == Decimal(n / 10);
      DecimalIsInjective(m / 10, n / 10);
      assert s[|s| - 1] == Digit(m % 10) == Digit(n % 10);
    }
  }

  /** The number a string of digits denotes. */
  function ValueOf(s: string): int {
    if s == [] then 0 else 10 * ValueOf(s[..|s| - 1]) + (s[|s| - 1] as int - '0' as int)
  }

  /** The index is written in decimal. */
  lemma {:induction false} DecimalDenotes(n: nat)
    ensures ValueOf(Decimal(n)) == n
  {
    DigitDenotes(n % 10);
    if n < 10 {
      assert Decimal(n)[..0] == [];
    } else {
      DecimalDenotes(n / 10);
      assert Decimal(n)[..|Decimal(n)| - 1] == Decimal(n / 10);
    }
  }

  lemma DigitDenotes(d: nat)
    requires d < 10
    ensures Digit(d) as int - '0' as int == d
  {
  }

  lemma JobIdLooksLikeThis()
    ensures JobId("registration", 12) == "registration-w12"
  {
    assert Decimal(1) == "1" && Decimal(12) == "12";
  }

  /** Whatever the operations are called, an id tells the operation and the index. */
  lemma JobIdTellsOpAndIndex(op: string, i: nat, op': string, i': nat)
    requires JobId(op, i) == JobId(op', i')
    ensures op == op' && i == i'
  {
    var id, d, d' := JobId(op, i), Decimal(i), Decimal(i');
    assert forall k | |id| - |d| <= k < |id| :: id[k] == d[k - (|id| - |d|)] != 'w';
    assert forall k | |id| - |d'| <= k < |id| :: id[k] == d'[k - (|id| - |d'|)] != 'w';
    assert id[|id| - |d| - 1] == 'w' && id[|id| - |d'| - 1] == 'w';
    assert d == id[|id| - |d|..] == d';
    DecimalIsInjective(i, i');
    assert op == id[..|id| - |d| - 2] == op';
  }

  // ---- the lease table ----

  class ControlApi {
    var busy: set<string>

    constructor ()
      ensures busy == {}
    {
      busy := {};
    }

    /** One pass of the polling loop over the workers alive now: lease the first free one. */
    method TryAcquire(workers: seq<string>) returns (node: Option<string>)
      modifies this
      ensures node.Some? ==> node.value in workers && node.value !in old(busy) && busy == old(busy) + {node.value}
      ensures node.None? ==> busy == old(busy) && forall k | 0 <= k < |workers| :: workers[k] in busy
      ensures node.Some? ==>
                exists k | 0 <= k < |workers| ::
                  workers[k] == node.value && forall i | 0 <= i < k :: workers[i] in old(busy)
    {
      for k := 0 to |workers|
        invariant busy == old(busy) && forall i | 0 <= i < k :: workers[i] in busy
      {
        if workers[k] !in busy {
          busy := busy + {workers[k]};
          return Some(workers[k]);
        }
      }
      node := None;
    }

    method Release(node: string)
      modifies this
      ensures busy == old(busy) - {node}
    {
      busy := busy - {node};
    }
  }

  // ---- the cluster ----

  const WHOLE_OPS := {"integration", "light_integration", "drizzle_integration"}

  /** Three operations go to one worker as a whole. */
  lemma WhatGoesWhole(op: string)
    ensures op in WHOLE_OPS <==> op == "integration" || op == "light_integration" || op == "drizzle_integration"
  {
  }

  /** One worker's part of a job: not sent, sent as manifest `serial`, or answered. */
  datatype Shard = Unsent | Sent(serial: nat) | Answered(serial: nat, outcome: Outcome)

  /** A job in flight; part `i` goes to `nodes[i]`. A whole job has one part, on its leased node. */
  datatype Job = Job(op: string, whole: bool, nodes: seq<string>, shards: seq<Shard>)

  /** `owner` records which part of which job every manifest was built for. */
  datatype Cluster = Cluster(workers: map<string, Worker>, busy: set<string>, jobs: map<nat, Job>,
                             owner: map<nat, (nat, nat)>, next: nat)

  const START := Cluster(map[], {}, map[], map[], 0)

  function WorkerAt(s: Cluster, node: string): Worker {
    if node in s.workers then s.workers[node] else FRESH
  }

  datatype Move =
    | OpenWhole(job: nat, op: string, node: string)
    | OpenSharded(job: nat, op: string, nodes: seq<string>)
    | SendPart(job: nat, i: nat)
    | GetAnswer(job: nat, i: nat)
    | Close(job: nat)
    | AtWorker(node: string, step: Step)

  predicate HasPart(s: Cluster, job: nat, i: nat) {
    job in s.jobs && i < |s.jobs[job].shards| && i < |s.jobs[job].nodes|
  }

  ghost predicate DistinctNodes(nodes: seq<string>) {
    forall i, k | 0 <= i < k < |nodes| :: nodes[i] != nodes[k]
  }

  ghost predicate CanMove(s: Cluster, m: Move) {
    match m
    case OpenWhole(j, op, node) => j !in s.jobs && op in WHOLE_OPS && node !in s.busy
    case OpenSharded(j, op, nodes) =>
      j !in s.jobs && op !in WHOLE_OPS && DistinctNodes(nodes) && forall k | k in s.jobs :: s.jobs[k].whole
    case SendPart(j, i) => HasPart(s, j, i) && s.jobs[j].shards[i] == Unsent
    case GetAnswer(j, i) =>
      HasPart(s, j, i) && s.jobs[j].shards[i].Sent?
      && s.jobs[j].shards[i].serial in WorkerAt(s, s.jobs[j].nodes[i]).returned
    case Close(j) => j in s.jobs && forall i | 0 <= i < |s.jobs[j].shards| :: !s.jobs[j].shards[i].Sent?
    case AtWorker(node, step) => !step.Start? && !IsMishap(step) && Enabled(WorkerAt(s, node), step)
  }

  function SetShard(s: Cluster, job: nat, i: nat, shard: Shard): Cluster
    requires HasPart(s, job, i)
  {
    var j := s.jobs[job];
    s.(jobs := s.jobs[job := j.(shards := j.shards[i := shard])])
  }

  /** The manifest of part `i`, as the worker receives it. */
  function PartManifest(s: Cluster, job: nat, i: nat): Manifest
    requires job in s.jobs
  {
    Manifest(s.next, JobId(s.jobs[job].op, i))
  }

  ghost function Moved(s: Cluster, m: Move): Cluster
    requires CanMove(s, m)
  {
    match m
    case OpenWhole(j, op, node) =>
      s.(busy := s.busy + {node}, jobs := s.jobs[j := Job(op, true, [node], [Unsent])])
    case OpenSharded(j, op, nodes) =>
      s.(jobs := s.jobs[j := Job(op, false, nodes, seq(|nodes|, _ => Unsent))])
    case SendPart(j, i) =>
      var node := s.jobs[j].nodes[i];
      SetShard(s, j, i, Sent(s.next))
        .(workers := s.workers[node := Started(WorkerAt(s, node), PartManifest(s, j, i))],
          owner := s.owner[s.next := (j, i)], next := s.next + 1)
    case GetAnswer(j, i) =>
      var c := s.jobs[j].shards[i].serial;
      SetShard(s, j, i, Answered(c, WorkerAt(s, s.jobs[j].nodes[i]).returned[c]))
    case Close(j) =>
      s.(busy := if s.jobs[j].whole && |s.jobs[j].nodes| == 1 then s.busy - {s.jobs[j].nodes[0]} else s.busy,
         jobs := s.jobs - {j})
    case AtWorker(node, step) => s.(workers := s.workers[node := After(WorkerAt(s, node), step)])
  }

  // ---- what every run keeps ----

  /** A whole job holds the lease of its one node; a sharded job's nodes are distinct. */
  ghost predicate WellFormed(s: Cluster, j: Job) {
    && |j.nodes| == |j.shards| && (j.whole <==> j.op in WHOLE_OPS)
    && (if j.whole then |j.nodes| == 1 && j.nodes[0] in s.busy else DistinctNodes(j.nodes))
  }

  /** Two jobs in flight that can meet on a node differ in kind. */
  predicate Apart(j: Job, k: Job) {
    j.whole != k.whole || (j.whole && k.whole && |j.nodes| == |k.nodes| == 1 && j.nodes[0] != k.nodes[0])
  }

  ghost predicate JobsApart(s: Cluster) {
    && (forall j | j in s.jobs :: WellFormed(s, s.jobs[j]))
    && (forall j, k | j in s.jobs && k in s.jobs && j != k :: Apart(s.jobs[j], s.jobs[k]))
  }

  /** The live call `c` on `node` is a sent part of a job in flight, and carries that part's id. */
  predicate Owned(s: Cluster, node: string, c: nat, jobId: string) {
    && c in s.owner
    && var (j, i) := s.owner[c];
       HasPart(s, j, i) && s.jobs[j].shards[i] == Sent(c) && s.jobs[j].nodes[i] == node
       && jobId == JobId(s.jobs[j].op, i)
  }

  ghost predicate CallsOwned(s: Cluster, node: string, w: Worker) {
    && (forall c | c in w.ids :: c < s.next)
    && (forall c | c in w.calls :: c in w.ids && c !in w.returned && Owned(s, node, c, w.calls[c].jobId))
  }

  ghost predicate WorkersOwned(s: Cluster) {
    forall node | node in s.workers :: CallsOwned(s, node, s.workers[node])
  }

  ghost predicate WorkersOrderly(s: Cluster) {
    forall node | node in s.workers :: Orderly(s.workers[node])
  }

  /** Every answer a job holds was computed from the manifest sent for that part. */
  ghost predicate AnswersOwn(s: Cluster) {
    forall j, i: nat | HasPart(s, j, i) && s.jobs[j].shards[i].Answered? ::
      IsOwn(s.jobs[j].shards[i].outcome, s.jobs[j].shards[i].serial)
  }

  /** A whole job in flight holds this node. */
  ghost predicate IsHeld(s: Cluster, node: string) {
    exists j :: j in s.jobs && s.jobs[j].whole && s.jobs[j].nodes == [node]
  }

  ghost predicate LeasesHeld(s: Cluster) {
    forall node | node in s.busy :: IsHeld(s, node)
  }

  ghost predicate Safe(s: Cluster) {
    JobsApart(s) && LeasesHeld(s) && WorkersOwned(s) && WorkersOrderly(s) && AnswersOwn(s)
  }

  /** The lease at work: on one node, two parts of jobs in flight never have the same id. */
  lemma PartsHaveOwnIds(s: Cluster, j: nat, i: nat, k: nat, m: nat)
    requires JobsApart(s) && HasPart(s, j, i) && HasPart(s, k, m) && (j, i) != (k, m)
    requires s.jobs[j].nodes[i] == s.jobs[k].nodes[m]
    ensures JobId(s.jobs[j].op, i) != JobId(s.jobs[k].op, m)
  {
    assert WellFormed(s, s.jobs[j]) && WellFormed(s, s.jobs[k]) && (j != k ==> Apart(s.jobs[j], s.jobs[k]));
    if JobId(s.jobs[j].op, i) == JobId(s.jobs[k].op, m) {
      JobIdTellsOpAndIndex(s.jobs[j].op, i, s.jobs[k].op, m);
    }
  }

  /** So the part about to be sent has an id that no live call on its node carries. */
  lemma SentIdIsUnused(s: Cluster, j: nat, i: nat)
    requires Safe(s) && CanMove(s, SendPart(j, i))
    ensures var w := WorkerAt(s, s.jobs[j].nodes[i]);
            var start := Start(PartManifest(s, j, i));
            Orderly(w) && Enabled(w, start) && Calm(w, start)
  {
    var node := s.jobs[j].nodes[i];
    var w := WorkerAt(s, node);
    assert CallsOwned(s, node, w) && Orderly(w);
    forall c | c in w.calls ensures w.calls[c].jobId != JobId(s.jobs[j].op, i) {
      assert Owned(s, node, c, w.calls[c].jobId);
      PartsHaveOwnIds(s, j, i, s.owner[c].0, s.owner[c].1);
    }
  }

  lemma MoveKeepsForms(s: Cluster, m: Move, j: nat)
    requires JobsApart(s) && CanMove(s, m) && j in Moved(s, m).jobs
    ensures WellFormed(Moved(s, m), Moved(s, m).jobs[j])
  {
    if j in s.jobs {
      assert WellFormed(s, s.jobs[j]);
      assert m.Close? && m.job != j ==> Apart(s.jobs[m.job], s.jobs[j]) && WellFormed(s, s.jobs[m.job]);
    }
  }

  lemma MoveKeepsApart(s: Cluster, m: Move, j: nat, k: nat)
    requires JobsApart(s) && CanMove(s, m) && j in Moved(s, m).jobs && k in Moved(s, m).jobs && j != k
    ensures Apart(Moved(s, m).jobs[j], Moved(s, m).jobs[k])
  {
    assert j in s.jobs ==> WellFormed(s, s.jobs[j]);
    assert k in s.jobs ==> WellFormed(s, s.jobs[k]);
    assert j in s.jobs && k in s.jobs ==> Apart(s.jobs[j], s.jobs[k]);
  }

  lemma MoveKeepsJobs(s: Cluster, m: Move)
    requires JobsApart(s) && CanMove(s, m)
    ensures JobsApart(Moved(s, m))
  {
    var s' := Moved(s, m);
    forall j | j in s'.jobs ensures WellFormed(s', s'.jobs[j]) {
      MoveKeepsForms(s, m, j);
    }
    forall j, k | j in s'.jobs && k in s'.jobs && j != k ensures Apart(s'.jobs[j], s'.jobs[k]) {
      MoveKeepsApart(s, m, j, k);
    }
  }

  lemma MoveKeepsLease(s: Cluster, m: Move, node: string)
    requires JobsApart(s) && LeasesHeld(s) && CanMove(s, m) && node in Moved(s, m).busy
    ensures IsHeld(Moved(s, m), node)
  {
    var s' := Moved(s, m);
    if m.OpenWhole? && m.node == node {
      assert s'.jobs[m.job].nodes == [node];
    } else {
      var j :| j in s.jobs && s.jobs[j].whole && s.jobs[j].nodes == [node];
      assert WellFormed(s, s.jobs[j]) && (m.Close? && m.job == j ==> node !in s'.busy);
      assert s'.jobs[j].nodes == [node] && s'.jobs[j].whole;
    }
  }

  lemma MoveKeepsAnswers(s: Cluster, m: Move)
    requires Safe(s) && CanMove(s, m)
    ensures AnswersOwn(Moved(s, m))
  {
    if m.GetAnswer? {
      assert Orderly(WorkerAt(s, s.jobs[m.job].nodes[m.i]));
    }
  }

  predicate IsSent(s: Cluster, j: nat, i: nat, c: nat) {
    HasPart(s, j, i) && s.jobs[j].shards[i] == Sent(c)
  }

  /** A sent part stays sent, on its node and under its id, until its answer is collected. */
  lemma SentPartStays(s: Cluster, m: Move, j: nat, i: nat, c: nat)
    requires CanMove(s, m) && IsSent(s, j, i, c) && m != GetAnswer(j, i)
    ensures IsSent(Moved(s, m), j, i, c)
    ensures Moved(s, m).jobs[j].nodes == s.jobs[j].nodes && Moved(s, m).jobs[j].op == s.jobs[j].op
  {
  }

  /** A live call keeps its owner until it has left. */
  lemma StaysOwned(s: Cluster, m: Move, node: string, c: nat)
    requires WorkersOwned(s) && CanMove(s, m) && node in s.workers && c in s.workers[node].calls
    ensures Owned(Moved(s, m), node, c, s.workers[node].calls[c].jobId)
  {
    var w := s.workers[node];
    assert CallsOwned(s, node, w) && Owned(s, node, c, w.calls[c].jobId);
    var (j, i) := s.owner[c];
    SentPartStays(s, m, j, i, c);
    assert Moved(s, m).owner[c] == (j, i);
  }

  /** A step of a worker, other than a start, adds no call and changes no id. */
  lemma StepAddsNoCall(w: Worker, step: Step, c: nat)
    requires Enabled(w, step) && !step.Start? && c in After(w, step).calls
    ensures After(w, step).ids == w.ids
    ensures c in w.calls && After(w, step).calls[c].jobId == w.calls[c].jobId
    ensures c in After(w, step).returned <==> c in w.returned
  {
  }

  lemma MoveKeepsCall(s: Cluster, m: Move, node: string, c: nat)
    requires WorkersOwned(s) && CallsRecorded(WorkerAt(s, node)) && CanMove(s, m)
    requires node in Moved(s, m).workers && c in Moved(s, m).workers[node].calls
    ensures var w := Moved(s, m).workers[node];
            c in w.ids && c !in w.returned && Owned(Moved(s, m), node, c, w.calls[c].jobId)
  {
    var w := WorkerAt(s, node);
    assert CallsOwned(s, node, w);
    if m.AtWorker? && m.node == node {
      StepAddsNoCall(w, m.step, c);
    }
    if c in w.calls {
      StaysOwned(s, m, node, c);
    }
  }

  lemma MoveKeepsIds(s: Cluster, m: Move, node: string, c: nat)
    requires WorkersOwned(s) && CanMove(s, m) && node in Moved(s, m).workers && c in Moved(s, m).workers[node].ids
    ensures c < Moved(s, m).next
  {
    assert CallsOwned(s, node, WorkerAt(s, node));
  }

  lemma MoveKeepsOrder(s: Cluster, m: Move, node: string)
    requires Safe(s) && CanMove(s, m) && node in Moved(s, m).workers
    ensures Orderly(Moved(s, m).workers[node])
  {
    var w := WorkerAt(s, node);
    assert Orderly(w);
    if m.AtWorker? && m.node == node {
      CalmStepStaysOrderly(w, m.step);
    } else if m.SendPart? && s.jobs[m.job].nodes[m.i] == node {
      SentIdIsUnused(s, m.job, m.i);
      CalmStepStaysOrderly(w, Start(PartManifest(s, m.job, m.i)));
    }
  }

  lemma MoveKeepsNode(s: Cluster, m: Move, node: string)
    requires WorkersOwned(s) && CallsRecorded(WorkerAt(s, node)) && CanMove(s, m) && node in Moved(s, m).workers
    ensures CallsOwned(Moved(s, m), node, Moved(s, m).workers[node])
  {
    var s', w := Moved(s, m), Moved(s, m).workers[node];
    forall c | c in w.ids ensures c < s'.next {
      MoveKeepsIds(s, m, node, c);
    }
    forall c | c in w.calls ensures c in w.ids && c !in w.returned && Owned(s', node, c, w.calls[c].jobId) {
      MoveKeepsCall(s, m, node, c);
    }
  }

  lemma MoveStaysSafe(s: Cluster, m: Move)
    requires Safe(s) && CanMove(s, m)
    ensures Safe(Moved(s, m))
  {
    var s' := Moved(s, m);
    MoveKeepsJobs(s, m);
    MoveKeepsAnswers(s, m);
    forall node | node in s'.busy ensures IsHeld(s', node) {
      MoveKeepsLease(s, m, node);
    }
    forall node | node in s'.workers
      ensures Orderly(s'.workers[node]) && CallsOwned(s', node, s'.workers[node])
    {
      assert Orderly(WorkerAt(s, node));
      MoveKeepsOrder(s, m, node);
      MoveKeepsNode(s, m, node);
    }
  }

  // ---- every run ----

  /** The cluster after a list of moves, if each was possible when it was made. */
  ghost function Run(moves: seq<Move>): Option<Cluster> {
    if moves == [] then Some(START)
    else
      var before := Run(moves[..|moves| - 1]);
      if before.Some? && CanMove(before.value, moves[|moves| - 1])
      then Some(Moved(before.value, moves[|moves| - 1]))
      else None
  }

  lemma {:induction false} EveryRunIsSafe(moves: seq<Move>)
    requires Run(moves).Some?
    ensures Safe(Run(moves).value)
  {
    if moves != [] {
      var before := moves[..|moves| - 1];
      EveryRunIsSafe(before);
      MoveStaysSafe(Run(before).value, moves[|moves| - 1]);
    }
  }

  /** The lease table is exact in every run: a node is leased if and only if a whole job in flight holds it,
      and never by two. */
  lemma LeasesAreExact(moves: seq<Move>, node: string)
    requires Run(moves).Some?
    ensures var s := Run(moves).value;
            && (node in s.busy <==> IsHeld(s, node))
            && (forall j, k | j in s.jobs && k in s.jobs && s.jobs[j].whole && s.jobs[k].whole
                              && s.jobs[j].nodes == s.jobs[k].nodes == [node] :: j == k)
  {
    EveryRunIsSafe(moves);
    var s := Run(moves).value;
    forall j | j in s.jobs ensures WellFormed(s, s.jobs[j]) {
    }
    forall j, k | j in s.jobs && k in s.jobs && s.jobs[j].whole && s.jobs[k].whole
                  && s.jobs[j].nodes == s.jobs[k].nodes == [node]
      ensures j == k
    {
      assert j != k ==> Apart(s.jobs[j], s.jobs[k]);
    }
  }

  // ---- what becomes of one part ----

  /** A part that was sent carries its id on its node, and is live or returned there; its answer is what its
      call returned. */
  ghost predicate PartKnown(s: Cluster, j: nat, i: nat)
    requires HasPart(s, j, i)
  {
    var w, id := WorkerAt(s, s.jobs[j].nodes[i]), JobId(s.jobs[j].op, i);
    match s.jobs[j].shards[i]
    case Unsent => true
    case Sent(c) => HasId(w.ids, c, id) && (c in w.calls || c in w.returned)
    case Answered(c, o) => HasId(w.ids, c, id) && c in w.returned && w.returned[c] == o
  }

  lemma StepKeepsKnown(w: Worker, step: Step, c: nat, id: string)
    requires CallsRecorded(w) && Enabled(w, step) && !IsMishap(step) && HasId(w.ids, c, id)
    ensures HasId(After(w, step).ids, c, id)
    ensures c in w.calls || c in w.returned ==> c in After(w, step).calls || c in After(w, step).returned
    ensures c in w.returned ==> c in After(w, step).returned && After(w, step).returned[c] == w.returned[c]
  {
  }

  /** What a move makes the worker on this node do. */
  ghost function StepsOf(s: Cluster, m: Move, node: string): seq<Step>
    requires CanMove(s, m)
  {
    match m
    case AtWorker(n, step) => if n == node then [step] else []
    case SendPart(j, i) => if s.jobs[j].nodes[i] == node then [Start(PartManifest(s, j, i))] else []
    case _ => []
  }

  /** The worker `w` after these steps, of which there is at most one. */
  predicate StepsTo(w: Worker, steps: seq<Step>, w': Worker) {
    if steps == [] then w' == w
    else |steps| == 1 && Enabled(w, steps[0]) && !IsMishap(steps[0]) && w' == After(w, steps[0])
  }

  lemma MoveIsStep(s: Cluster, m: Move, node: string)
    requires Safe(s) && CanMove(s, m)
    ensures StepsTo(WorkerAt(s, node), StepsOf(s, m, node), WorkerAt(Moved(s, m), node))
  {
    if m.SendPart? && s.jobs[m.job].nodes[m.i] == node {
      SentIdIsUnused(s, m.job, m.i);
    }
  }

  lemma OldPartStaysKnown(s: Cluster, m: Move, j: nat, i: nat)
    requires CanMove(s, m) && HasPart(s, j, i) && HasPart(Moved(s, m), j, i) && PartKnown(s, j, i)
    requires var node := s.jobs[j].nodes[i];
             CallsRecorded(WorkerAt(s, node))
             && StepsTo(WorkerAt(s, node), StepsOf(s, m, node), WorkerAt(Moved(s, m), node))
    ensures PartKnown(Moved(s, m), j, i)
  {
    var node, shard := s.jobs[j].nodes[i], s.jobs[j].shards[i];
    var steps := StepsOf(s, m, node);
    if shard != Unsent && steps != [] {
      StepKeepsKnown(WorkerAt(s, node), steps[0], shard.serial, JobId(s.jobs[j].op, i));
    }
  }

  lemma MoveKeepsPart(s: Cluster, m: Move, j: nat, i: nat)
    requires Safe(s) && CanMove(s, m) && HasPart(Moved(s, m), j, i)
    requires HasPart(s, j, i) ==> PartKnown(s, j, i)
    ensures PartKnown(Moved(s, m), j, i)
  {
    if HasPart(s, j, i) {
      var node := s.jobs[j].nodes[i];
      assert Orderly(WorkerAt(s, node));
      MoveIsStep(s, m, node);
      OldPartStaysKnown(s, m, j, i);
    }
  }

  lemma {:induction false} EveryPartIsKnown(moves: seq<Move>, j: nat, i: nat)
    requires Run(moves).Some? && HasPart(Run(moves).value, j, i)
    ensures PartKnown(Run(moves).value, j, i)
  {
    var before, last := moves[..|moves| - 1], moves[|moves| - 1];
    EveryRunIsSafe(before);
    if HasPart(Run(before).value, j, i) {
      EveryPartIsKnown(before, j, i);
    }
    MoveKeepsPart(Run(before).value, last, j, i);
  }

  /** The steps that a run made on one worker. */
  ghost function StepsAt(moves: seq<Move>, node: string): seq<Step>
    requires Run(moves).Some?
  {
    if moves == [] then []
    else
      var before, last := moves[..|moves| - 1], moves[|moves| - 1];
      StepsAt(before, node) + StepsOf(Run(before).value, last, node)
  }

  /** Every worker of the cluster is in a run of its own, without mishaps. */
  lemma {:induction false} WorkerIsInARun(moves: seq<Move>, node: string)
    requires Run(moves).Some?
    ensures PullQueue.Run(StepsAt(moves, node)) == Some(WorkerAt(Run(moves).value, node))
  {
    if moves != [] {
      var before, last := moves[..|moves| - 1], moves[|moves| - 1];
      WorkerIsInARun(before, node);
      EveryRunIsSafe(before);
      MoveIsStep(Run(before).value, last, node);
      var steps := StepsOf(Run(before).value, last, node);
      var all := StepsAt(before, node) + steps;
      assert steps == [] ==> all == StepsAt(before, node);
      assert steps != [] ==> all[..|all| - 1] == StepsAt(before, node);
    }
  }

  /** This part was answered with the report of its own manifest under its own id, and on its node exactly
      one step finished the work on that manifest, with the success or failure that the answer reports. */
  ghost predicate AnsweredAsFinished(moves: seq<Move>, j: nat, i: nat)
    requires Run(moves).Some? && HasPart(Run(moves).value, j, i) && Run(moves).value.jobs[j].shards[i].Answered?
  {
    var s := Run(moves).value;
    var (shard, steps) := (s.jobs[j].shards[i], StepsAt(moves, s.jobs[j].nodes[i]));
    && shard.outcome.Got? && shard.outcome.report.source == shard.serial
    && shard.outcome.report.jobId == JobId(s.jobs[j].op, i)
    && exists k | 0 <= k < |steps| ::
         FinishedAt(steps, k, shard.outcome.report)
         && forall l, r | 0 <= l < |steps| && FinishedAt(steps, l, r) && r.source == shard.serial ::
              l == k && r.ok == shard.outcome.report.ok
  }

  lemma AnswerIsHowTheWorkWent(moves: seq<Move>, j: nat, i: nat)
    requires Run(moves).Some? && HasPart(Run(moves).value, j, i) && Run(moves).value.jobs[j].shards[i].Answered?
    ensures AnsweredAsFinished(moves, j, i)
  {
    var s := Run(moves).value;
    var node, shard := s.jobs[j].nodes[i], s.jobs[j].shards[i];
    EveryRunIsSafe(moves);
    EveryPartIsKnown(moves, j, i);
    WorkerIsInARun(moves, node);
    OutcomeIsHowTheWorkWent(StepsAt(moves, node), shard.serial);
    MixUpNeedsReusedId(StepsAt(moves, node), shard.serial);
  }

  /** In every run, however jobs, sends and workers interleave: a part is answered with the report of its
      own manifest, which says how the work on it went; live calls on one worker have different job ids; no
      report is refused as unknown. */
  lemma EndToEndRouting(moves: seq<Move>)
    requires Run(moves).Some?
    ensures var s := Run(moves).value;
            && (forall j, i: nat | HasPart(s, j, i) && s.jobs[j].shards[i].Answered? :: AnsweredAsFinished(moves, j, i))
            && (forall node, c | node in s.workers && c in s.workers[node].returned ::
                  IsOwn(s.workers[node].returned[c], c))
            && (forall node, c, d |
                  node in s.workers && c in s.workers[node].calls && d in s.workers[node].calls && c != d ::
                  s.workers[node].calls[c].jobId != s.workers[node].calls[d].jobId)
            && (forall node | node in s.workers :: s.workers[node].refused == 0)
  {
    EveryRunIsSafe(moves);
    var s := Run(moves).value;
    forall j, i: nat | HasPart(s, j, i) && s.jobs[j].shards[i].Answered? ensures AnsweredAsFinished(moves, j, i) {
      AnswerIsHowTheWorkWent(moves, j, i);
    }
  }

  /** No job is ever stuck: while one is in flight, a part of it can be sent, a worker can go on with one, an
      answer can be collected, or the job can be closed. */
  lemma NoJobIsStuck(moves: seq<Move>, j: nat) returns (m: Move)
    requires Run(moves).Some? && j in Run(moves).value.jobs
    ensures CanMove(Run(moves).value, m) && !m.OpenWhole? && !m.OpenSharded?
    ensures !m.AtWorker? ==> m.job == j
    ensures m.AtWorker? ==> m.node in Run(moves).value.jobs[j].nodes
  {
    var s := Run(moves).value;
    EveryRunIsSafe(moves);
    assert WellFormed(s, s.jobs[j]);
    if i: nat :| i < |s.jobs[j].shards| && s.jobs[j].shards[i] == Unsent {
      m := SendPart(j, i);
    } else if i: nat :| i < |s.jobs[j].shards| && s.jobs[j].shards[i].Sent? {
      EveryPartIsKnown(moves, j, i);
      var node, c := s.jobs[j].nodes[i], s.jobs[j].shards[i].serial;
      var w := WorkerAt(s, node);
      if c in w.returned {
        m := GetAnswer(j, i);
      } else {
        assert Orderly(w);
        var step := NoDeadlock(w, c);
        m := AtWorker(node, step);
      }
    } else {
      m := Close(j);
    }
  }

  /** At most two calls are live on one worker: one of a whole job and one of the sharded job. */
  lemma ThreeLiveCallsRepeat(s: Cluster, node: string, c: nat, d: nat, e: nat)
    requires Safe(s) && node in s.workers
    requires var calls := s.workers[node].calls; c in calls && d in calls && e in calls
    ensures c == d || d == e || c == e
  {
    var w := s.workers[node];
    assert CallsOwned(s, node, w) && Orderly(w);
    assert Owned(s, node, c, w.calls[c].jobId) && Owned(s, node, d, w.calls[d].jobId) && Owned(s, node, e, w.calls[e].jobId);
    SameKindSamePart(s, s.owner[c].0, s.owner[c].1, s.owner[d].0, s.owner[d].1);
    SameKindSamePart(s, s.owner[d].0, s.owner[d].1, s.owner[e].0, s.owner[e].1);
    SameKindSamePart(s, s.owner[c].0, s.owner[c].1, s.owner[e].0, s.owner[e].1);
  }

  lemma SameKindSamePart(s: Cluster, j: nat, i: nat, k: nat, m: nat)
    requires JobsApart(s) && HasPart(s, j, i) && HasPart(s, k, m) && s.jobs[j].nodes[i] == s.jobs[k].nodes[m]
    ensures s.jobs[j].whole == s.jobs[k].whole ==> (j, i) == (k, m)
  {
    assert WellFormed(s, s.jobs[j]) && WellFormed(s, s.jobs[k]) && (j != k ==> Apart(s.jobs[j], s.jobs[k]));
  }

  lemma AtMostTwoPending(s: Cluster, node: string)
    requires Safe(s) && node in s.workers
    ensures |s.workers[node].q.pending| <= 2
  {
    var w := s.workers[node];
    var p := w.q.pending;
    assert CallsOwned(s, node, w) && Orderly(w);
    if |p| > 2 {
      assert OnlyPending(w, p[0]) && OnlyPending(w, p[1]) && OnlyPending(w, p[2]) && Distinct(p);
      ThreeLiveCallsRepeat(s, node, p[0].serial, p[1].serial, p[2].serial);
    }
  }

  /** Leasing keeps the pull queues from blocking: in every run at most two manifests wait on a worker
      (its channel holds 64), and while a call is live some worker step that is no mishap is possible. */
  lemma QueuesNeverBlock(moves: seq<Move>, node: string)
    requires Run(moves).Some? && node in Run(moves).value.workers
    ensures var w := Run(moves).value.workers[node];
            && |w.q.pending| <= 2
            && (w.client.Posting? ==> Enabled(w, Post))
            && (w.calls != map[] ==> exists step :: Enabled(w, step) && !step.Start? && !IsMishap(step))
  {
    EveryRunIsSafe(moves);
    var s := Run(moves).value;
    var w := s.workers[node];
    assert CallsOwned(s, node, w) && Orderly(w);
    AtMostTwoPending(s, node);
    if c :| c in w.calls {
      var step := NoDeadlock(w, c);
    }
  }
}
