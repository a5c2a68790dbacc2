/** One worker: the executor that parks shards for the local PixInsight client, the client itself, and the
    calls waiting for its reports.
    A manifest carries a serial number standing for its content, so a report says which manifest it was
    computed from. A call is named by the serial of the manifest it was handed. */
module PullQueue {
  import opened Wrappers

  const PENDING_CAP := 64

  datatype Manifest = Manifest(serial: nat, jobId: string)

  /** What the client reports: the job id it was given, the manifest it worked on, and how it went. */
  datatype Report = Report(jobId: string, source: nat, ok: bool)

  /** What a call returns to its caller. */
  datatype Outcome = Got(report: Report) | TimedOut

  // ---- the executor's shared state, one function per atomic section ----

  /** The pending channel, the waiting map, and the one-slot result channel of every call. */
  datatype Queue = Queue(pending: seq<Manifest>, waiting: map<string, nat>, slots: map<nat, Report>)

  function Register(q: Queue, m: Manifest): Queue {
    q.(waiting := q.waiting[m.jobId := m.serial])
  }

  function Park(q: Queue, m: Manifest): Queue {
    q.(pending := q.pending + [m])
  }

  /** The deferred clean-up: the entry under this id goes, whoever owns it. */
  function Unregister(q: Queue, jobId: string): Queue {
    q.(waiting := q.waiting - {jobId})
  }

  function Find(q: Queue, jobId: string): Option<nat> {
    if jobId in q.waiting then Some(q.waiting[jobId]) else None
  }

  function Fill(q: Queue, call: nat, r: Report): Queue {
    q.(slots := q.slots[call := r])
  }

  function Empty(q: Queue, call: nat): Queue {
    q.(slots := q.slots - {call})
  }

  /** The executor as the source keeps it; every method is one section that nothing interrupts. */
  class PullExecutor {
    var pending: seq<Manifest>
    var waiting: map<string, nat>
    var slots: map<nat, Report>

    function State(): Queue
      reads this
    {
      Queue(pending, waiting, slots)
    }

    constructor ()
      ensures State() == Queue([], map[], map[])
    {
      pending, waiting, slots := [], map[], map[];
    }

    /** `Process`, on entry. */
    method Enter(m: Manifest)
      modifies this
      ensures State() == Register(old(State()), m)
    {
      waiting := waiting[m.jobId := m.serial];
    }

    /** `Process`, sending to the pending channel; false while the channel is full. */
    method TryPark(m: Manifest) returns (sent: bool)
      modifies this
      ensures sent <==> |old(pending)| < PENDING_CAP
      ensures State() == if sent then Park(old(State()), m) else old(State())
    {
      sent := |pending| < PENDING_CAP;
      if sent {
        pending := pending + [m];
      }
    }

    /** `Process`, receiving from its own channel; none while it is empty. */
    method TryReceive(call: nat) returns (r: Option<Report>)
      modifies this
      ensures r.Some? <==> call in old(slots)
      ensures r.Some? ==> r.value == old(slots)[call] && State() == Empty(old(State()), call)
      ensures r.None? ==> State() == old(State())
    {
      if call !in slots {
        return None;
      }
      r := Some(slots[call]);
      slots := slots - {call};
    }

    /** `Process`, on the way out. */
    method Exit(jobId: string)
      modifies this
      ensures State() == Unregister(old(State()), jobId)
    {
      waiting := waiting - {jobId};
    }

    /** `handlePull`: the oldest pending manifest, if any. */
    method Pull() returns (m: Option<Manifest>)
      modifies this
      ensures m.None? ==> old(pending) == [] && State() == old(State())
      ensures m.Some? ==> [m.value] + pending == old(pending) && State() == old(State()).(pending := pending)
    {
      if pending == [] {
        return None;
      }
      m := Some(pending[0]);
      pending := pending[1..];
    }

    /** `handleResult`, looking up the channel of a job id. */
    method Lookup(jobId: string) returns (call: Option<nat>)
      ensures call == Find(State(), jobId)
    {
      if jobId !in waiting {
        return None;
      }
      call := Some(waiting[jobId]);
    }

    /** `handleResult`, sending into a channel; false while its slot is taken. */
    method TryDeliver(call: nat, r: Report) returns (sent: bool)
      modifies this
      ensures sent <==> call !in old(slots)
      ensures State() == if sent then Fill(old(State()), call, r) else old(State())
    {
      sent := call !in slots;
      if sent {
        slots := slots[call := r];
      }
    }
  }

  // ---- the worker as a transition system ----

  datatype Phase = Registered | Parked | Leaving(outcome: Outcome)

  datatype Call = Call(jobId: string, phase: Phase)

  /** The sequential client: between jobs, computing one, or blocked in the post of its report. */
  datatype Client = Idle | Working(m: Manifest) | Posting(report: Report, to: nat)

  /** `ids` and `returned` record every call ever started and ended; `refused` counts unknown job ids. */
  datatype Worker = Worker(q: Queue, calls: map<nat, Call>, client: Client,
                           ids: map<nat, string>, returned: map<nat, Outcome>, refused: nat)

  const FRESH := Worker(Queue([], map[], map[]), map[], Idle, map[], map[], 0)

  datatype Step =
    | Start(m: Manifest)
    | Send(call: nat)
    | TakeJob
    | Finish(ok: bool)
    | Post
    | Receive(call: nat)
    | GiveUp(call: nat)
    | LoseJob
    | Leave(call: nat)

  predicate IsParked(w: Worker, call: nat) {
    call in w.calls && w.calls[call].phase == Parked
  }

  predicate Enabled(w: Worker, step: Step) {
    match step
    case Start(m) => m.serial !in w.ids
    case Send(c) => c in w.calls && w.calls[c].phase == Registered && |w.q.pending| < PENDING_CAP
    case TakeJob => w.client == Idle && w.q.pending != []
    case Finish(_) => w.client.Working?
    case Post => w.client.Posting? && w.client.to !in w.q.slots
    case Receive(c) => IsParked(w, c) && c in w.q.slots
    case GiveUp(c) => c in w.calls && !w.calls[c].phase.Leaving?
    case LoseJob => w.client.Working?
    case Leave(c) => c in w.calls && w.calls[c].phase.Leaving?
  }

  /** A call that times out, or a job that is pulled and never reported. */
  predicate IsMishap(step: Step) {
    step.GiveUp? || step.LoseJob?
  }

  function SetPhase(w: Worker, call: nat, phase: Phase): Worker
    requires call in w.calls
  {
    w.(calls := w.calls[call := w.calls[call].(phase := phase)])
  }

  function Started(w: Worker, m: Manifest): Worker {
    w.(q := Register(w.q, m), calls := w.calls[m.serial := Call(m.jobId, Registered)],
       ids := w.ids[m.serial := m.jobId])
  }

  function After(w: Worker, step: Step): Worker
    requires Enabled(w, step)
  {
    match step
    case Start(m) => Started(w, m)
    case Send(c) => SetPhase(w.(q := Park(w.q, Manifest(c, w.calls[c].jobId))), c, Parked)
    case TakeJob => w.(client := Working(w.q.pending[0]), q := w.q.(pending := w.q.pending[1..]))
    case Finish(ok) =>
      var r := Report(w.client.m.jobId, w.client.m.serial, ok);
      (match Find(w.q, r.jobId)
       case None => w.(client := Idle, refused := w.refused + 1)
       case Some(c) => w.(client := Posting(r, c)))
    case Post => w.(q := Fill(w.q, w.client.to, w.client.report), client := Idle)
    case Receive(c) => SetPhase(w.(q := Empty(w.q, c)), c, Leaving(Got(w.q.slots[c])))
    case GiveUp(c) => SetPhase(w, c, Leaving(TimedOut))
    case LoseJob => w.(client := Idle)
    case Leave(c) =>
      w.(q := Unregister(w.q, w.calls[c].jobId), calls := w.calls - {c},
         returned := w.returned[c := w.calls[c].phase.outcome])
  }

  // ---- every run, mishaps included: a report is matched by its job id and nothing else ----

  predicate HasId(ids: map<nat, string>, call: nat, jobId: string) {
    call in ids && ids[call] == jobId
  }

  /** The report under this job id may reach this call. */
  predicate Fits(ids: map<nat, string>, r: Report, call: nat) {
    HasId(ids, call, r.jobId) && HasId(ids, r.source, r.jobId)
  }

  predicate OutcomeFits(ids: map<nat, string>, o: Outcome, call: nat) {
    o.Got? ==> Fits(ids, o.report, call)
  }

  ghost predicate CallsById(w: Worker) {
    && (forall c | c in w.calls :: HasId(w.ids, c, w.calls[c].jobId))
    && (forall c | c in w.calls && w.calls[c].phase.Leaving? :: OutcomeFits(w.ids, w.calls[c].phase.outcome, c))
    && (forall c | c in w.returned :: OutcomeFits(w.ids, w.returned[c], c))
  }

  ghost predicate QueueById(w: Worker) {
    && (forall j | j in w.q.waiting :: HasId(w.ids, w.q.waiting[j], j))
    && (forall k | 0 <= k < |w.q.pending| :: HasId(w.ids, w.q.pending[k].serial, w.q.pending[k].jobId))
    && (forall c | c in w.q.slots :: Fits(w.ids, w.q.slots[c], c))
    && (w.client.Working? ==> HasId(w.ids, w.client.m.serial, w.client.m.jobId))
    && (w.client.Posting? ==> Fits(w.ids, w.client.report, w.client.to))
  }

  ghost predicate RoutedById(w: Worker) {
    CallsById(w) && QueueById(w)
  }

  lemma StepKeepsCalls(w: Worker, step: Step)
    requires RoutedById(w) && Enabled(w, step)
    ensures CallsById(After(w, step))
  {
  }

  lemma StepKeepsQueue(w: Worker, step: Step)
    requires RoutedById(w) && Enabled(w, step)
    ensures QueueById(After(w, step))
  {
  }

  lemma StepRoutesById(w: Worker, step: Step)
    requires RoutedById(w) && Enabled(w, step)
    ensures RoutedById(After(w, step))
  {
    StepKeepsCalls(w, step);
    StepKeepsQueue(w, step);
  }

  /** The worker after a list of steps taken from `w`, if each was enabled when it was taken. */
  function RunFrom(w: Worker, steps: seq<Step>): Option<Worker> {
    if steps == [] then Some(w)
    else
      var before := RunFrom(w, steps[..|steps| - 1]);
      if before.Some? && Enabled(before.value, steps[|steps| - 1])
      then Some(After(before.value, steps[|steps| - 1]))
      else None
  }

  function Run(steps: seq<Step>): Option<Worker> {
    RunFrom(FRESH, steps)
  }

  /** In every run at most 64 manifests wait for the client, and a registered call's joins them exactly when
      there is room. */
  lemma {:induction false} AtMost64Pending(steps: seq<Step>, call: nat)
    requires Run(steps).Some?
    ensures var w := Run(steps).value;
            && |w.q.pending| <= 64
            && (Enabled(w, Send(call)) <==> call in w.calls && w.calls[call].phase == Registered && |w.q.pending| < 64)
  {
    if steps != [] {
      AtMost64Pending(steps[..|steps| - 1], call);
    }
  }

  lemma {:induction false} EveryRunRoutesById(steps: seq<Step>)
    requires Run(steps).Some?
    ensures RoutedById(Run(steps).value)
  {
    if steps != [] {
      var before := steps[..|steps| - 1];
      EveryRunRoutesById(before);
      StepRoutesById(Run(before).value, steps[|steps| - 1]);
    }
  }

  /** In every run, with any pattern of timeouts and lost jobs, a call can return the report of another manifest only
      if both carried the same job id. */
  lemma MixUpNeedsReusedId(steps: seq<Step>, call: nat)
    requires Run(steps).Some?
    requires var w := Run(steps).value; call in w.returned && w.returned[call].Got?
    ensures var w := Run(steps).value;
            var r := w.returned[call].report;
            call in w.ids && r.source in w.ids && w.ids[call] == w.ids[r.source] == r.jobId
  {
    EveryRunRoutesById(steps);
  }

  // ---- what a returned outcome says about the work, in every run ----

  /** Step `k` finished the work this report is about, and ended the way it says. */
  ghost predicate FinishedAt(steps: seq<Step>, k: nat, r: Report)
    requires k < |steps|
  {
    && Run(steps[..k]).Some? && Run(steps[..k]).value.client.Working?
    && Run(steps[..k]).value.client.m == Manifest(r.source, r.jobId)
    && steps[k].Finish? && steps[k].ok == r.ok
  }

  ghost predicate WasFinished(steps: seq<Step>, r: Report) {
    exists k | 0 <= k < |steps| :: FinishedAt(steps, k, r)
  }

  predicate GaveUp(steps: seq<Step>, call: nat) {
    GiveUp(call) in steps
  }

  /** The report is somewhere between its posting and its caller. */
  ghost predicate Carries(w: Worker, r: Report) {
    || (w.client.Posting? && w.client.report == r)
    || (exists c | c in w.q.slots :: w.q.slots[c] == r)
    || (exists c | c in w.calls :: w.calls[c].phase == Leaving(Got(r)))
    || (exists c | c in w.returned :: w.returned[c] == Got(r))
  }

  /** Only finishing a job makes a report, about its manifest and the way the work went. */
  lemma ReportsComeFromFinishing(w: Worker, step: Step, r: Report)
    requires Enabled(w, step) && Carries(After(w, step), r) && !Carries(w, r)
    ensures step.Finish? && w.client.m == Manifest(r.source, r.jobId) && step.ok == r.ok
  {
  }

  lemma FinishedLater(steps: seq<Step>, r: Report)
    requires steps != [] && WasFinished(steps[..|steps| - 1], r)
    ensures WasFinished(steps, r)
  {
    var before := steps[..|steps| - 1];
    var k :| 0 <= k < |before| && FinishedAt(before, k, r);
    assert before[..k] == steps[..k];
    assert FinishedAt(steps, k, r);
  }

  /** In every run, mishaps included, whatever report is on its way or returned, the client finished the
      work on that very manifest, and the report says how it ended. */
  lemma {:induction false} EveryReportWasFinished(steps: seq<Step>, r: Report)
    requires Run(steps).Some? && Carries(Run(steps).value, r)
    ensures WasFinished(steps, r)
  {
    if steps != [] {
      var before, last := steps[..|steps| - 1], steps[|steps| - 1];
      if Carries(Run(before).value, r) {
        EveryReportWasFinished(before, r);
        FinishedLater(steps, r);
      } else {
        ReportsComeFromFinishing(Run(before).value, last, r);
        assert FinishedAt(steps, |steps| - 1, r);
      }
    }
  }

  /** A manifest that has been sent and is neither unsent, nor pending, nor at the client. */
  ghost predicate Over(w: Worker, call: nat) {
    && call in w.ids && !(call in w.calls && w.calls[call].phase == Registered)
    && !(w.client.Working? && w.client.m.serial == call)
    && forall k | 0 <= k < |w.q.pending| :: w.q.pending[k].serial != call
  }

  predicate IsSent(w: Worker, call: nat) {
    call in w.ids && !(call in w.calls && w.calls[call].phase == Registered)
  }

  /** Every manifest is in the queue or at the client at most once, and then it was sent. */
  ghost predicate AtMostOneCopy(w: Worker) {
    && (forall c | c in w.calls :: c in w.ids)
    && (forall k | 0 <= k < |w.q.pending| :: IsSent(w, w.q.pending[k].serial))
    && (forall i, k | 0 <= i < k < |w.q.pending| :: w.q.pending[i].serial != w.q.pending[k].serial)
    && (w.client.Working? ==>
          IsSent(w, w.client.m.serial)
          && forall k | 0 <= k < |w.q.pending| :: w.q.pending[k].serial != w.client.m.serial)
  }

  lemma StepKeepsOneCopy(w: Worker, step: Step)
    requires AtMostOneCopy(w) && Enabled(w, step)
    ensures AtMostOneCopy(After(w, step))
  {
  }

  lemma StepStaysOver(w: Worker, step: Step, call: nat)
    requires Over(w, call) && Enabled(w, step)
    ensures Over(After(w, step), call)
  {
  }

  lemma {:induction false} EveryRunHasOneCopy(steps: seq<Step>)
    requires Run(steps).Some?
    ensures AtMostOneCopy(Run(steps).value)
  {
    if steps != [] {
      EveryRunHasOneCopy(steps[..|steps| - 1]);
      StepKeepsOneCopy(Run(steps[..|steps| - 1]).value, steps[|steps| - 1]);
    }
  }

  lemma {:induction false} OverAfterFinish(steps: seq<Step>, k: nat, l: nat, r: Report)
    requires k < l <= |steps| && Run(steps[..l]).Some? && FinishedAt(steps, k, r)
    ensures Over(Run(steps[..l]).value, r.source)
    decreases l
  {
    assert steps[..l][..l - 1] == steps[..l - 1];
    if l == k + 1 {
      EveryRunHasOneCopy(steps[..k]);
    } else {
      OverAfterFinish(steps, k, l - 1, r);
      StepStaysOver(Run(steps[..l - 1]).value, steps[l - 1], r.source);
    }
  }

  /** The work on a manifest is finished at most once, so a report can say only one thing about it. */
  lemma FinishedOnce(steps: seq<Step>, k: nat, l: nat, r: Report, r': Report)
    requires k < |steps| && l < |steps| && FinishedAt(steps, k, r) && FinishedAt(steps, l, r') && r.source == r'.source
    ensures k == l && r == r'
  {
    if k < l {
      OverAfterFinish(steps, k, l, r);
    } else if l < k {
      OverAfterFinish(steps, l, k, r');
    }
  }

  lemma {:induction false} TimedOutIffGaveUp(steps: seq<Step>, call: nat)
    requires Run(steps).Some?
    ensures var w := Run(steps).value;
            && (GaveUp(steps, call) ==> call in w.ids)
            && (call in w.calls ==>
                  call in w.ids && (GaveUp(steps, call) <==> w.calls[call].phase == Leaving(TimedOut)))
            && (call in w.returned ==>
                  call in w.ids && call !in w.calls && (GaveUp(steps, call) <==> w.returned[call] == TimedOut))
  {
    if steps != [] {
      var before, last := steps[..|steps| - 1], steps[|steps| - 1];
      TimedOutIffGaveUp(before, call);
      assert steps == before + [last];
      assert GaveUp(steps, call) <==> GaveUp(before, call) || last == GiveUp(call);
    }
  }

  /** What a call returns, in every run, mishaps included. It timed out if and only if it gave up. Otherwise
      it got a report, some step of the client finished the work on the report's manifest, that step alone
      did, and the report says success if and only if the work succeeded there. */
  lemma OutcomeIsHowTheWorkWent(steps: seq<Step>, call: nat)
    requires Run(steps).Some? && call in Run(steps).value.returned
    ensures var o := Run(steps).value.returned[call];
            && (o == TimedOut <==> GaveUp(steps, call))
            && (o.Got? ==>
                  exists k | 0 <= k < |steps| ::
                    FinishedAt(steps, k, o.report)
                    && forall l, r | 0 <= l < |steps| && FinishedAt(steps, l, r) && r.source == o.report.source ::
                         l == k && r.ok == o.report.ok)
  {
    var o := Run(steps).value.returned[call];
    TimedOutIffGaveUp(steps, call);
    if o.Got? {
      EveryReportWasFinished(steps, o.report);
      var k :| 0 <= k < |steps| && FinishedAt(steps, k, o.report);
      forall l, r | 0 <= l < |steps| && FinishedAt(steps, l, r) && r.source == o.report.source
        ensures l == k && r.ok == o.report.ok
      {
        FinishedOnce(steps, k, l, o.report, r);
      }
    }
  }

  /** The serials sent to the pending channel, and those the client took, in order. */
  function SentOrder(steps: seq<Step>): seq<nat> {
    if steps == [] then []
    else
      var (before, last) := (SentOrder(steps[..|steps| - 1]), steps[|steps| - 1]);
      if last.Send? then before + [last.call] else before
  }

  ghost function TakenOrder(steps: seq<Step>): seq<nat>
    requires Run(steps).Some?
  {
    if steps == [] then []
    else
      var before, w := TakenOrder(steps[..|steps| - 1]), Run(steps).value;
      if steps[|steps| - 1].TakeJob? then before + [w.client.m.serial] else before
  }

  function Serials(ms: seq<Manifest>): (r: seq<nat>)
    ensures |r| == |ms| && forall k | 0 <= k < |r| :: r[k] == ms[k].serial
  {
    seq(|ms|, k requires 0 <= k < |ms| => ms[k].serial)
  }

  /** First in, first out: the client takes the manifests in the order in which they were sent, and those
      still pending are the rest. */
  lemma {:induction false} FirstInFirstOut(steps: seq<Step>)
    requires Run(steps).Some?
    ensures SentOrder(steps) == TakenOrder(steps) + Serials(Run(steps).value.q.pending)
  {
    if steps != [] {
      var before, last := steps[..|steps| - 1], steps[|steps| - 1];
      var w, w' := Run(before).value, Run(steps).value;
      FirstInFirstOut(before);
      if last.Send? {
        assert Serials(w'.q.pending) == Serials(w.q.pending) + [last.call];
      } else if last.TakeJob? {
        assert Serials(w.q.pending) == [w'.client.m.serial] + Serials(w'.q.pending);
      } else {
        assert w'.q.pending == w.q.pending;
      }
    }
  }

  // ---- exactly which ids make routing right, mishaps included ----

  /** A run in which call `a` times out, its id is used again for `b`, and the late report of `a` is posted. */
  function LateReport(a: nat, b: nat, id: string): seq<Step> {
    [Start(Manifest(a, id)), Send(a), TakeJob, GiveUp(a), Leave(a),
     Start(Manifest(b, id)), Send(b), Finish(true), Post, Receive(b), Leave(b)]
  }

  /** Whenever one id is used for two manifests, there is such a run, and the newer call returns the older
      report. */
  lemma LateReportReachesNewerCall(a: nat, b: nat, id: string)
    requires a != b
    ensures var end := Run(LateReport(a, b, id));
            end.Some? && b in end.value.returned && end.value.returned[b] == Got(Report(id, a, true))
  {
    var steps := LateReport(a, b, id);
    for k := 0 to |steps|
      invariant Run(steps[..k]) == Some(LateReportState(a, b, id, k))
    {
      assert steps[..k + 1][..k] == steps[..k];
      if k < 6 { FirstCallLeaves(a, b, id, k); } else { SecondCallLeaves(a, b, id, k); }
    }
    assert steps[..|steps|] == steps;
  }

  lemma FirstCallLeaves(a: nat, b: nat, id: string, k: nat)
    requires a != b && k < 6
    ensures Enabled(LateReportState(a, b, id, k), LateReport(a, b, id)[k])
    ensures After(LateReportState(a, b, id, k), LateReport(a, b, id)[k]) == LateReportState(a, b, id, k + 1)
  {
  }

  lemma SecondCallLeaves(a: nat, b: nat, id: string, k: nat)
    requires a != b && 6 <= k < 11
    ensures Enabled(LateReportState(a, b, id, k), LateReport(a, b, id)[k])
    ensures After(LateReportState(a, b, id, k), LateReport(a, b, id)[k]) == LateReportState(a, b, id, k + 1)
  {
  }

  /** The states of that run. */
  function LateReportState(a: nat, b: nat, id: string, k: nat): Worker
    requires k <= 11
  {
    var (m0, m1, late) := (Manifest(a, id), Manifest(b, id), Report(id, a, true));
    var (one, both) := (map[a := id], map[a := id, b := id]);
    var gone := map[a := TimedOut];
    match k
    case 0 => FRESH
    case 1 => Worker(Queue([], map[id := a], map[]), map[a := Call(id, Registered)], Idle, one, map[], 0)
    case 2 => Worker(Queue([m0], map[id := a], map[]), map[a := Call(id, Parked)], Idle, one, map[], 0)
    case 3 => Worker(Queue([], map[id := a], map[]), map[a := Call(id, Parked)], Working(m0), one, map[], 0)
    case 4 => Worker(Queue([], map[id := a], map[]), map[a := Call(id, Leaving(TimedOut))], Working(m0), one, map[], 0)
    case 5 => Worker(Queue([], map[], map[]), map[], Working(m0), one, gone, 0)
    case 6 => Worker(Queue([], map[id := b], map[]), map[b := Call(id, Registered)], Working(m0), both, gone, 0)
    case 7 => Worker(Queue([m1], map[id := b], map[]), map[b := Call(id, Parked)], Working(m0), both, gone, 0)
    case 8 => Worker(Queue([m1], map[id := b], map[]), map[b := Call(id, Parked)], Posting(late, b), both, gone, 0)
    case 9 => Worker(Queue([m1], map[id := b], map[b := late]), map[b := Call(id, Parked)], Idle, both, gone, 0)
    case 10 => Worker(Queue([m1], map[id := b], map[]), map[b := Call(id, Leaving(Got(late)))], Idle, both, gone, 0)
    case _ => Worker(Queue([m1], map[], map[]), map[], Idle, both, gone[b := Got(late)], 0)
  }

  /** The run hands out ids as listed: every manifest started carries the id that `ids` gives its serial. */
  ghost predicate StartsFrom(ids: map<nat, string>, steps: seq<Step>) {
    forall k | 0 <= k < |steps| && steps[k].Start? :: HasId(ids, steps[k].m.serial, steps[k].m.jobId)
  }

  ghost predicate ReturnsOwnReports(w: Worker) {
    forall c | c in w.returned && w.returned[c].Got? :: w.returned[c].report.source == c
  }

  ghost predicate RunReturnsOwnReports(steps: seq<Step>) {
    Run(steps).Some? ==> ReturnsOwnReports(Run(steps).value)
  }

  predicate NoIdTwice(ids: map<nat, string>) {
    forall a, b | a in ids && b in ids && a != b :: ids[a] != ids[b]
  }

  lemma {:induction false} StartedIdsAreListed(ids: map<nat, string>, steps: seq<Step>, c: nat)
    requires Run(steps).Some? && StartsFrom(ids, steps) && c in Run(steps).value.ids
    ensures HasId(ids, c, Run(steps).value.ids[c])
  {
    var before, last := steps[..|steps| - 1], steps[|steps| - 1];
    assert forall k | 0 <= k < |before| :: steps[k] == before[k];
    if c in Run(before).value.ids {
      StartedIdsAreListed(ids, before, c);
    }
  }

  /** Exactly when routing is right although calls may time out and jobs may get lost: every run that hands
      out the ids of `ids` returns only own reports if and only if no two manifests share an id. */
  lemma RoutingIsRightIffNoIdTwice(ids: map<nat, string>)
    ensures (forall steps | StartsFrom(ids, steps) :: RunReturnsOwnReports(steps)) <==> NoIdTwice(ids)
  {
    if NoIdTwice(ids) {
      forall steps | StartsFrom(ids, steps) && Run(steps).Some? ensures ReturnsOwnReports(Run(steps).value) {
        OwnReportsWithoutReuse(ids, steps);
      }
    }
    if !NoIdTwice(ids) {
      var a, b :| a in ids && b in ids && a != b && ids[a] == ids[b];
      ReuseBreaksRouting(ids, a, b);
    }
  }

  lemma ReuseBreaksRouting(ids: map<nat, string>, a: nat, b: nat)
    requires a in ids && b in ids && a != b && ids[a] == ids[b]
    ensures StartsFrom(ids, LateReport(a, b, ids[a])) && !RunReturnsOwnReports(LateReport(a, b, ids[a]))
  {
    LateReportReachesNewerCall(a, b, ids[a]);
  }

  lemma OwnReportsWithoutReuse(ids: map<nat, string>, steps: seq<Step>)
    requires NoIdTwice(ids) && Run(steps).Some? && StartsFrom(ids, steps)
    ensures ReturnsOwnReports(Run(steps).value)
  {
    var w := Run(steps).value;
    forall c | c in w.returned && w.returned[c].Got? ensures w.returned[c].report.source == c {
      MixUpNeedsReusedId(steps, c);
      StartedIdsAreListed(ids, steps, c);
      StartedIdsAreListed(ids, steps, w.returned[c].report.source);
    }
  }

  // ---- runs without mishaps, when no two live calls share a job id ----

  predicate InPending(q: Queue, call: nat) {
    exists k | 0 <= k < |q.pending| :: q.pending[k].serial == call
  }

  predicate AtClient(client: Client, call: nat) {
    match client
    case Idle => false
    case Working(m) => m.serial == call
    case Posting(r, _) => r.source == call
  }

  /** Live calls and waiting entries are one and the same. */
  ghost predicate OwnEntries(w: Worker) {
    && (forall c | c in w.calls :: Waits(w, c))
    && (forall j | j in w.q.waiting :: w.q.waiting[j] in w.calls && w.calls[w.q.waiting[j]].jobId == j)
  }

  predicate Waits(w: Worker, call: nat)
    requires call in w.calls
  {
    w.calls[call].jobId in w.q.waiting && w.q.waiting[w.calls[call].jobId] == call
  }

  /** This call is parked under this id. */
  predicate ParkedAs(w: Worker, m: Manifest) {
    IsParked(w, m.serial) && w.calls[m.serial].jobId == m.jobId
  }

  /** Pending manifests are parked, distinct, and nowhere else. */
  ghost predicate PendingPlaced(w: Worker) {
    Distinct(w.q.pending) && forall k | 0 <= k < |w.q.pending| :: OnlyPending(w, w.q.pending[k])
  }

  ghost predicate Distinct(ms: seq<Manifest>) {
    forall i, k | 0 <= i < k < |ms| :: ms[i].serial != ms[k].serial
  }

  predicate OnlyPending(w: Worker, m: Manifest) {
    ParkedAs(w, m) && !AtClient(w.client, m.serial) && m.serial !in w.q.slots
  }

  /** So is the manifest at the client, and the calls answered in their slots are parked. */
  ghost predicate ClientPlaced(w: Worker) {
    && (w.client.Working? ==> ParkedAs(w, w.client.m) && w.client.m.serial !in w.q.slots)
    && (w.client.Posting? ==> IsParked(w, w.client.to) && w.client.to !in w.q.slots)
  }

  ghost predicate SlotsPlaced(w: Worker) {
    forall c | c in w.q.slots :: IsParked(w, c)
  }

  /** A parked call's manifest is pending, at the client, or answered in its slot. */
  predicate Placed(w: Worker, call: nat) {
    InPending(w.q, call) || AtClient(w.client, call) || call in w.q.slots
  }

  ghost predicate AllPlaced(w: Worker) {
    forall c | IsParked(w, c) :: Placed(w, c)
  }

  predicate IsOwn(o: Outcome, call: nat) {
    o.Got? && o.report.source == call
  }

  /** Every report on its way, and every outcome, comes from the call's own manifest. */
  ghost predicate OwnReports(w: Worker) {
    && (w.client.Posting? ==> w.client.report.source == w.client.to)
    && (forall c | c in w.q.slots :: w.q.slots[c].source == c)
    && (forall c | c in w.calls && w.calls[c].phase.Leaving? :: IsOwn(w.calls[c].phase.outcome, c))
    && (forall c | c in w.returned :: IsOwn(w.returned[c], c))
    && w.refused == 0
  }

  ghost predicate CallsRecorded(w: Worker) {
    && (forall c | c in w.calls || c in w.returned :: c in w.ids)
    && (forall c | c in w.returned :: c !in w.calls)
  }

  ghost predicate Orderly(w: Worker) {
    && CallsRecorded(w) && OwnEntries(w) && PendingPlaced(w) && ClientPlaced(w) && SlotsPlaced(w) && AllPlaced(w) && OwnReports(w)
  }

  /** The step is no mishap, and a started call's job id is used by no live call. */
  predicate Calm(w: Worker, step: Step) {
    && !IsMishap(step)
    && (step.Start? ==> forall c | c in w.calls :: w.calls[c].jobId != step.m.jobId)
  }

  lemma CalmStepStaysOrderly(w: Worker, step: Step)
    requires Orderly(w) && Enabled(w, step) && Calm(w, step)
    ensures Orderly(After(w, step))
  {
    CalmStepKeepsEntries(w, step);
    CalmStepKeepsPending(w, step);
    CalmStepKeepsClient(w, step);
    CalmStepKeepsSlots(w, step);
    CalmStepKeepsPlaces(w, step);
    CalmStepKeepsReports(w, step);
  }

  lemma CalmStepKeepsEntries(w: Worker, step: Step)
    requires CallsRecorded(w) && OwnEntries(w) && Enabled(w, step) && Calm(w, step)
    ensures OwnEntries(After(w, step))
  {
    var w' := After(w, step);
    forall c | c in w'.calls ensures Waits(w', c) {
      KeepsWaiting(w, step, c);
    }
  }

  lemma KeepsWaiting(w: Worker, step: Step, call: nat)
    requires CallsRecorded(w) && OwnEntries(w) && Enabled(w, step) && Calm(w, step)
    requires call in After(w, step).calls
    ensures Waits(After(w, step), call)
  {
    assert call in w.calls ==> Waits(w, call);
    assert step.Leave? ==> Waits(w, step.call);
  }

  lemma CalmStepKeepsPending(w: Worker, step: Step)
    requires CallsRecorded(w) && OwnEntries(w) && PendingPlaced(w) && ClientPlaced(w) && SlotsPlaced(w) && OwnReports(w)
    requires Enabled(w, step) && Calm(w, step)
    ensures PendingPlaced(After(w, step))
  {
    var w' := After(w, step);
    forall k | 0 <= k < |w'.q.pending| ensures OnlyPending(w', w'.q.pending[k]) {
      var m := w'.q.pending[k];
      if step.Send? && k == |w.q.pending| {
        assert m.serial == step.call;
      } else {
        var was := if step.TakeJob? then k + 1 else k;
        assert w.q.pending[was] == m;
        StaysOnlyPending(w, step, was);
      }
    }
    StaysDistinct(w, step);
  }

  lemma StaysDistinct(w: Worker, step: Step)
    requires PendingPlaced(w) && Enabled(w, step)
    ensures Distinct(After(w, step).q.pending)
  {
    assert step.Send? ==> forall k | 0 <= k < |w.q.pending| :: OnlyPending(w, w.q.pending[k]);
  }

  lemma StaysOnlyPending(w: Worker, step: Step, k: nat)
    requires CallsRecorded(w) && PendingPlaced(w) && ClientPlaced(w) && SlotsPlaced(w) && OwnReports(w)
    requires Enabled(w, step) && Calm(w, step) && k < |w.q.pending| && (step.TakeJob? ==> k > 0)
    ensures OnlyPending(After(w, step), w.q.pending[k])
  {
    assert OnlyPending(w, w.q.pending[k]);
  }

  lemma CalmStepKeepsClient(w: Worker, step: Step)
    requires CallsRecorded(w) && OwnEntries(w) && PendingPlaced(w) && ClientPlaced(w) && SlotsPlaced(w)
    requires Enabled(w, step) && Calm(w, step)
    ensures ClientPlaced(After(w, step))
  {
  }

  lemma CalmStepKeepsSlots(w: Worker, step: Step)
    requires CallsRecorded(w) && ClientPlaced(w) && SlotsPlaced(w) && Enabled(w, step) && Calm(w, step)
    ensures SlotsPlaced(After(w, step))
  {
  }

  lemma CalmStepKeepsPlaces(w: Worker, step: Step)
    requires Orderly(w) && Enabled(w, step) && Calm(w, step)
    ensures AllPlaced(After(w, step))
  {
    var w' := After(w, step);
    forall c | IsParked(w', c) ensures Placed(w', c) {
      if step == Send(c) {
        assert w'.q.pending[|w.q.pending|].serial == c;
      } else {
        StaysPlaced(w, step, c);
      }
    }
  }

  lemma StaysPlaced(w: Worker, step: Step, call: nat)
    requires Orderly(w) && Enabled(w, step) && Calm(w, step)
    requires step != Send(call) && IsParked(After(w, step), call)
    ensures Placed(After(w, step), call)
  {
    assert IsParked(w, call) && Placed(w, call);
    if InPending(w.q, call) {
      var pending' := After(w, step).q.pending;
      var k :| 0 <= k < |w.q.pending| && w.q.pending[k].serial == call;
      assert (if step.TakeJob? then k == 0 || pending'[k - 1].serial == call else pending'[k].serial == call);
    }
  }

  lemma CalmStepKeepsReports(w: Worker, step: Step)
    requires Orderly(w) && Enabled(w, step) && Calm(w, step)
    ensures OwnReports(After(w, step))
  {
  }

  /** No live call is ever stuck: while one is left, some step that is no mishap can be taken, whether or
      not the pending channel is full. */
  lemma NoDeadlock(w: Worker, call: nat) returns (step: Step)
    requires Orderly(w) && call in w.calls
    ensures !step.Start? && !IsMishap(step) && Enabled(w, step)
  {
    match w.calls[call].phase
    case Leaving(_) => step := Leave(call);
    case Registered =>
      step := if |w.q.pending| < PENDING_CAP then Send(call) else ClientStep(w);
    case Parked =>
      assert IsParked(w, call) && Placed(w, call);
      assert InPending(w.q, call) ==> w.q.pending != [];
      step := if call in w.q.slots then Receive(call) else ClientStep(w);
  }

  /** What the client does next. */
  function ClientStep(w: Worker): Step {
    match w.client case Idle => TakeJob case Working(_) => Finish(true) case Posting(_, _) => Post
  }

  // ---- progress: how many steps are left until every live call has returned ----

  function Unsent(w: Worker): set<nat> {
    set c | c in w.calls && w.calls[c].phase == Registered
  }

  function Ending(w: Worker): set<nat> {
    set c | c in w.calls && w.calls[c].phase.Leaving?
  }

  /** A call is sent, pulled, finished, posted, received and left: one step each. */
  function StepsLeft(w: Worker): nat {
    6 * |Unsent(w)| + 5 * |w.q.pending|
    + (match w.client case Idle => 0 case Working(_) => 4 case Posting(_, _) => 3)
    + 2 * |w.q.slots.Keys| + |Ending(w)|
  }

  lemma UnsentAfter(w: Worker, step: Step)
    requires Enabled(w, step) && !step.Start? && !IsMishap(step)
    ensures |Unsent(After(w, step))| == |Unsent(w)| - if step.Send? then 1 else 0
  {
    assert Unsent(After(w, step)) == if step.Send? then Unsent(w) - {step.call} else Unsent(w);
    assert step.Send? ==> step.call in Unsent(w);
  }

  lemma EndingAfter(w: Worker, step: Step)
    requires Enabled(w, step) && !step.Start? && !IsMishap(step)
    ensures |Ending(After(w, step))| ==
            |Ending(w)| + (if step.Receive? then 1 else 0) - (if step.Leave? then 1 else 0)
  {
    assert Ending(After(w, step)) ==
           if step.Receive? then Ending(w) + {step.call} else if step.Leave? then Ending(w) - {step.call} else Ending(w);
    assert step.Receive? ==> step.call !in Ending(w);
    assert step.Leave? ==> step.call in Ending(w);
  }

  lemma SlotsAfter(w: Worker, step: Step)
    requires Enabled(w, step) && !step.Start? && !IsMishap(step)
    ensures |After(w, step).q.slots.Keys| ==
            |w.q.slots.Keys| + (if step.Post? then 1 else 0) - (if step.Receive? then 1 else 0)
  {
    assert After(w, step).q.slots.Keys ==
           if step.Post? then w.q.slots.Keys + {w.client.to}
           else if step.Receive? then w.q.slots.Keys - {step.call} else w.q.slots.Keys;
  }

  /** A finished job always finds its call. */
  lemma FinishFinds(w: Worker, ok: bool)
    requires OwnEntries(w) && ClientPlaced(w) && w.client.Working?
    ensures After(w, Finish(ok)).client.Posting?
  {
    assert ParkedAs(w, w.client.m) && Waits(w, w.client.m.serial);
  }

  lemma StepCounts(w: Worker, step: Step)
    requires Enabled(w, step) && !step.Start? && !IsMishap(step)
    requires step.Finish? ==> After(w, step).client.Posting?
    ensures StepsLeft(After(w, step)) == StepsLeft(w) - 1
  {
    UnsentAfter(w, step);
    EndingAfter(w, step);
    SlotsAfter(w, step);
  }

  lemma EveryStepAdvances(w: Worker, step: Step)
    requires Orderly(w) && Enabled(w, step) && !step.Start? && !IsMishap(step)
    ensures StepsLeft(After(w, step)) == StepsLeft(w) - 1
  {
    if step.Finish? {
      FinishFinds(w, step.ok);
    }
    StepCounts(w, step);
  }

  lemma LiveCallHasStepsLeft(w: Worker, call: nat)
    requires Orderly(w) && call in w.calls
    ensures StepsLeft(w) > 0
  {
    match w.calls[call].phase
    case Registered => assert call in Unsent(w);
    case Leaving(_) => assert call in Ending(w);
    case Parked =>
      assert IsParked(w, call) && Placed(w, call);
      assert InPending(w.q, call) ==> w.q.pending != [];
      assert call in w.q.slots ==> call in w.q.slots.Keys;
  }

  lemma PendingIsLive(w: Worker)
    requires PendingPlaced(w)
    ensures w.q.pending != [] ==> w.q.pending[0].serial in w.calls
  {
    if w.q.pending != [] {
      assert OnlyPending(w, w.q.pending[0]);
    }
  }

  lemma NoCallsNoStepsLeft(w: Worker)
    requires Orderly(w) && w.calls == map[]
    ensures StepsLeft(w) == 0
  {
    assert Unsent(w) == {} && Ending(w) == {} && w.q.slots.Keys == {};
    PendingIsLive(w);
  }

  lemma NoStepsLeftIsNoCalls(w: Worker)
    requires Orderly(w)
    ensures StepsLeft(w) == 0 <==> w.calls == map[]
  {
    if w.calls == map[] {
      NoCallsNoStepsLeft(w);
    } else {
      var c :| c in w.calls;
      LiveCallHasStepsLeft(w, c);
    }
  }

  /** This call is live, or it has returned the report of its own manifest. */
  predicate Returns(w: Worker, call: nat) {
    call in w.calls || (call in w.returned && IsOwn(w.returned[call], call))
  }

  lemma StepKeepsReturns(w: Worker, step: Step, call: nat)
    requires OwnReports(w) && Enabled(w, step) && Returns(w, call)
    ensures Returns(After(w, step), call)
  {
  }

  lemma SomeStepAdvances(w: Worker) returns (step: Step)
    requires Orderly(w) && w.calls != map[]
    ensures !step.Start? && !IsMishap(step) && Enabled(w, step)
    ensures Orderly(After(w, step)) && StepsLeft(After(w, step)) == StepsLeft(w) - 1
  {
    var c :| c in w.calls;
    step := NoDeadlock(w, c);
    CalmStepStaysOrderly(w, step);
    EveryStepAdvances(w, step);
  }

  ghost predicate Undisturbed(steps: seq<Step>) {
    forall k | 0 <= k < |steps| :: !steps[k].Start? && !IsMishap(steps[k])
  }

  /** The schedule leads from `w` to `end`. */
  ghost predicate Leads(w: Worker, steps: seq<Step>, end: Worker) {
    Undisturbed(steps) && RunFrom(w, steps) == Some(end)
  }

  lemma LeadsOneMore(w: Worker, steps: seq<Step>, end: Worker, step: Step)
    requires Leads(w, steps, end) && Enabled(end, step) && !step.Start? && !IsMishap(step)
    ensures Leads(w, steps + [step], After(end, step))
  {
    assert (steps + [step])[..|steps|] == steps;
  }

  lemma {:induction false} ScheduleTheRest(w: Worker, sofar: seq<Step>, now: Worker) returns (steps: seq<Step>, end: Worker)
    requires Leads(w, sofar, now) && Orderly(now)
    ensures Leads(w, steps, end) && end.calls == map[]
    decreases StepsLeft(now)
  {
    if now.calls == map[] {
      steps, end := sofar, now;
    } else {
      var step := SomeStepAdvances(now);
      LeadsOneMore(w, sofar, now, step);
      steps, end := ScheduleTheRest(w, sofar + [step], After(now, step));
    }
  }

  /** From every orderly worker, a full pending channel included, all live calls can return. */
  lemma AllCallsCanReturn(w: Worker) returns (steps: seq<Step>)
    requires Orderly(w)
    ensures Undisturbed(steps) && RunFrom(w, steps).Some? && RunFrom(w, steps).value.calls == map[]
  {
    assert Leads(w, [], w);
    var end: Worker;
    steps, end := ScheduleTheRest(w, [], w);
  }

  /** Without new calls and mishaps, every schedule of steps ends after exactly `StepsLeft` of them, and
      then every call that was live has returned, each with the report of its own manifest. */
  lemma {:induction false} EveryScheduleReturnsAllCalls(w: Worker, steps: seq<Step>)
    requires Orderly(w) && RunFrom(w, steps).Some? && Undisturbed(steps)
    ensures var end := RunFrom(w, steps).value;
            && Orderly(end)
            && |steps| + StepsLeft(end) == StepsLeft(w)
            && (|steps| == StepsLeft(w) <==> end.calls == map[])
    ensures forall c | c in w.calls :: Returns(RunFrom(w, steps).value, c)
  {
    if steps != [] {
      var before, last := steps[..|steps| - 1], steps[|steps| - 1];
      EveryScheduleReturnsAllCalls(w, before);
      CalmStepStaysOrderly(RunFrom(w, before).value, last);
      EveryStepAdvances(RunFrom(w, before).value, last);
      forall c | c in w.calls ensures Returns(RunFrom(w, steps).value, c) {
        StepKeepsReturns(RunFrom(w, before).value, last, c);
      }
    }
    NoStepsLeftIsNoCalls(RunFrom(w, steps).value);
  }
}
