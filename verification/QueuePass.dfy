/** One pass over the operation queue with look-ahead batches: the first integration of a family takes
    over, gathers the operations of its family that follow, and runs them as one batch on the server and
    the cluster; their own turns then only return the kept status.
    Operations are named by their index in the queue. What native runs, captures, waits and finalizers do
    is an input. Native runs do not throw. */
module QueuePass {
  import opened Wrappers

  datatype ImageType = Light | Flat | Other

  datatype Group = Group(imageType: ImageType, nFrames: nat, fast: bool)

  datatype Op = Op(name: string, group: Option<Group>)

  datatype Family = Calib | Lights | Flats | LnReference | Drizzle

  datatype Status = DONE | FAILED

  predicate IsIntegration(op: Op) {
    op.name == "Integration" && op.group.Some?
  }

  /** "Drizzle Integration" starts the name. */
  predicate IsDrizzle(op: Op) {
    "Drizzle Integration" <= op.name && op.group.Some?
  }

  predicate IsFlatCalibration(op: Op) {
    op.name == "Calibration" && op.group.Some? && op.group.value.imageType == Flat
  }

  /** The batch family whose dispatcher wraps this operation, if any. */
  function FamilyOf(op: Op): Option<Family> {
    if IsIntegration(op) then
      Some(match op.group.value.imageType case Light => Lights case Flat => Flats case Other => Calib)
    else if op.name == "LN reference generation" && op.group.Some? then Some(LnReference)
    else if IsDrizzle(op) then Some(Drizzle)
    else None
  }

  /** How a gathering loop treats an operation: a batch member, a flat calibration to run first, a log
      block to step over, or the boundary. */
  datatype Mark = Take | TakeCal | Skip | Stop

  function Boundary(op: Op): Mark {
    if op.name != "" then Stop else Skip
  }

  /** `ready` tells whether the files the operation needs exist at this moment. */
  function MarkOf(f: Family, op: Op, ready: bool): Mark {
    match f
    case Calib =>
      if IsIntegration(op) && op.group.value.imageType != Light then
        if op.group.value.nFrames < 3 || !ready then Stop else Take
      else Boundary(op)
    case Lights =>
      if IsIntegration(op) && op.group.value.imageType == Light then
        if op.group.value.fast || op.group.value.nFrames < 3 || !ready then Stop else Take
      else Boundary(op)
    case LnReference =>
      if op.name == "LN reference generation" && op.group.Some? then Take else Boundary(op)
    case Drizzle =>
      if IsDrizzle(op) then (if ready then Take else Stop) else Boundary(op)
    case Flats =>
      if op.group.None? || op.group.value.imageType == Light then Boundary(op)
      else if op.name == "Integration" && op.group.value.imageType == Flat then Take
      else if IsFlatCalibration(op) then TakeCal
      else Boundary(op)
  }

  /** Only unnamed log blocks are stepped over. */
  lemma SkipsOnlyLogBlocks(f: Family, op: Op, ready: bool)
    ensures MarkOf(f, op, ready) == Skip ==> op.name == ""
    ensures MarkOf(f, op, ready) == Take ==> FamilyOf(op).Some? && op.name != ""
    ensures MarkOf(f, op, ready) == TakeCal ==> f == Flats && IsFlatCalibration(op)
    ensures FamilyOf(op) == Some(f) ==> MarkOf(f, op, ready) == Take || MarkOf(f, op, ready) == Stop
    ensures MarkOf(f, op, ready) == Stop ==> op.name != ""
  {
  }

  /** Which operations a batch takes. Master integrations need three frames that are all there; light groups
      with fast integration stay native; a drizzle integration needs its master; LN references and flat
      masters are always taken, and with flat masters the flat calibrations. */
  lemma WhatABatchTakes(op: Op, ready: bool)
    ensures MarkOf(Calib, op, ready) == Take <==>
            op.name == "Integration" && op.group.Some? && op.group.value.imageType != Light
            && op.group.value.nFrames >= 3 && ready
    ensures MarkOf(Lights, op, ready) == Take <==>
            op.name == "Integration" && op.group.Some? && op.group.value.imageType == Light
            && !op.group.value.fast && op.group.value.nFrames >= 3 && ready
    ensures MarkOf(LnReference, op, ready) == Take <==> op.name == "LN reference generation" && op.group.Some?
    ensures MarkOf(Drizzle, op, ready) == Take <==> "Drizzle Integration" <= op.name && op.group.Some? && ready
    ensures MarkOf(Flats, op, ready) == Take <==>
            op.name == "Integration" && op.group.Some? && op.group.value.imageType == Flat
    ensures MarkOf(Flats, op, ready) == TakeCal <==>
            op.name == "Calibration" && op.group.Some? && op.group.value.imageType == Flat
  {
    assert "Integration"[0] != "Calibration"[0];
  }

  /** Which operations start a batch of which family: all others always run natively. */
  lemma WhatStartsABatch(op: Op)
    ensures FamilyOf(op) == Some(Lights) <==>
            op.name == "Integration" && op.group.Some? && op.group.value.imageType == Light
    ensures FamilyOf(op) == Some(Flats) <==>
            op.name == "Integration" && op.group.Some? && op.group.value.imageType == Flat
    ensures FamilyOf(op) == Some(Calib) <==>
            op.name == "Integration" && op.group.Some? && op.group.value.imageType == Other
    ensures FamilyOf(op) == Some(LnReference) <==> op.name == "LN reference generation" && op.group.Some?
    ensures FamilyOf(op) == Some(Drizzle) <==> "Drizzle Integration" <= op.name && op.group.Some?
  {
    assert "Drizzle Integration"[0] == 'D' && "Integration"[0] == 'I' && "LN reference generation"[0] == 'L';
  }

  /** The queue and everything that happens to it: the workers, whether the calibration operations are
      wrapped too, per turn which operations' files exist, and per operation its machine (0 is the
      server), whether capture and submission succeed, whether wait and finalizer succeed, and the status
      of a native run. */
  datatype Queue = Queue(ops: seq<Op>, nWorkers: nat, calibrationWrapped: bool, ready: seq<set<nat>>,
                         machine: seq<nat>, submits: seq<bool>, collects: seq<bool>, native: seq<Status>)
  {
    predicate Valid() {
      |ready| == |machine| == |submits| == |collects| == |native| == |ops|
    }

    predicate Index(o: nat) {
      Valid() && o < |ops|
    }

    function MarkAt(turn: nat, o: nat): Mark
      requires Index(turn) && Index(o) && FamilyOf(ops[turn]).Some?
    {
      MarkOf(FamilyOf(ops[turn]).value, ops[o], o in ready[turn])
    }

    /** A turn of this operation returns a status kept from an earlier batch. */
    predicate Wrapped(o: nat)
      requires Index(o)
    {
      FamilyOf(ops[o]).Some? || calibrationWrapped
    }
  }

  /** Where a batch member ends up: on the server, on the cluster, or back on the server because it could
      not be captured or submitted. */
  datatype Lane = Server | Cluster | Fallback

  function LaneOf(q: Queue, o: nat): Lane
    requires q.Index(o)
  {
    if q.machine[o] == 0 then Server else if q.submits[o] then Cluster else Fallback
  }

  ghost predicate AllIndex(q: Queue, os: seq<nat>) {
    q.Valid() && forall k | 0 <= k < |os| :: q.Index(os[k])
  }

  function InLane(q: Queue, os: seq<nat>, lane: Lane): (r: seq<nat>)
    requires AllIndex(q, os)
    ensures AllIndex(q, r)
  {
    if os == [] then []
    else
      var rest := InLane(q, os[..|os| - 1], lane);
      if LaneOf(q, os[|os| - 1]) == lane then rest + [os[|os| - 1]] else rest
  }

  /** What one gathering loop collects from `i` on. */
  function Gathered(q: Queue, turn: nat, i: nat, want: Mark): (os: seq<nat>)
    requires q.Index(turn) && i <= |q.ops| && FamilyOf(q.ops[turn]).Some?
    ensures AllIndex(q, os)
    decreases |q.ops| - i
  {
    if i == |q.ops| || q.MarkAt(turn, i) == Stop then []
    else
      var rest := Gathered(q, turn, i + 1, want);
      if q.MarkAt(turn, i) == want then [i] + rest else rest
  }

  function Batch(q: Queue, turn: nat): seq<nat>
    requires q.Index(turn) && FamilyOf(q.ops[turn]).Some?
  {
    Gathered(q, turn, turn, Take)
  }

  function Calibrations(q: Queue, turn: nat): seq<nat>
    requires q.Index(turn) && FamilyOf(q.ops[turn]).Some?
  {
    Gathered(q, turn, turn, TakeCal)
  }

  /** The turn of this operation takes over a batch. */
  predicate TakesOver(q: Queue, turn: nat)
    requires q.Index(turn)
  {
    FamilyOf(q.ops[turn]).Some? && |Batch(q, turn)| > 1 && q.nWorkers >= 1
  }

  /** The completion of an operation, in the turn of some operation, with the status it got. */
  datatype Event = Event(op: nat, turn: nat, cluster: bool, status: Status)

  function NativeEvent(q: Queue, turn: nat, o: nat): Event
    requires q.Index(o)
  {
    Event(o, turn, false, q.native[o])
  }

  function ClusterEvent(q: Queue, turn: nat, o: nat): Event
    requires q.Index(o)
  {
    if q.collects[o] then Event(o, turn, true, DONE) else NativeEvent(q, turn, o)
  }

  function Natives(q: Queue, turn: nat, os: seq<nat>): (es: seq<Event>)
    requires AllIndex(q, os)
    ensures |es| == |os| && forall k | 0 <= k < |os| :: es[k] == NativeEvent(q, turn, os[k])
  {
    if os == [] then [] else Natives(q, turn, os[..|os| - 1]) + [NativeEvent(q, turn, os[|os| - 1])]
  }

  function Clusters(q: Queue, turn: nat, os: seq<nat>): (es: seq<Event>)
    requires AllIndex(q, os)
    ensures |es| == |os| && forall k | 0 <= k < |os| :: es[k] == ClusterEvent(q, turn, os[k])
  {
    if os == [] then [] else Clusters(q, turn, os[..|os| - 1]) + [ClusterEvent(q, turn, os[|os| - 1])]
  }

  /** Dispatching a batch completes the operations that fell back, then the server's, then the cluster's. */
  function DispatchEvents(q: Queue, turn: nat, batch: seq<nat>): seq<Event>
    requires AllIndex(q, batch)
  {
    Natives(q, turn, InLane(q, batch, Fallback)) + Natives(q, turn, InLane(q, batch, Server))
    + Clusters(q, turn, InLane(q, batch, Cluster))
  }

  /** What a turn completes when its operation was not completed before. */
  function TurnEvents(q: Queue, turn: nat): seq<Event>
    requires q.Index(turn)
  {
    if TakesOver(q, turn) then
      Natives(q, turn, Calibrations(q, turn)) + DispatchEvents(q, turn, Batch(q, turn))
    else [NativeEvent(q, turn, turn)]
  }

  predicate Completed(trace: seq<Event>, o: nat) {
    exists k | 0 <= k < |trace| :: trace[k].op == o
  }

  /** Every completion of the first `turns` turns, in order. */
  function Trace(q: Queue, turns: nat): seq<Event>
    requires q.Valid() && turns <= |q.ops|
  {
    if turns == 0 then []
    else
      var before := Trace(q, turns - 1);
      if Completed(before, turns - 1) && q.Wrapped(turns - 1) then before
      else before + TurnEvents(q, turns - 1)
  }

  /** This turn only returns the kept status. */
  predicate OnlyReturns(q: Queue, turn: nat)
    requires q.Index(turn)
  {
    Completed(Trace(q, turn), turn) && q.Wrapped(turn)
  }

  // ---- what one turn completes ----

  lemma {:induction false} GatheredIs(q: Queue, turn: nat, i: nat, want: Mark, o: nat)
    requires q.Index(turn) && i <= |q.ops| && FamilyOf(q.ops[turn]).Some? && want != Stop
    ensures o in Gathered(q, turn, i, want) <==> i <= o && InReach(q, turn, i, o) && q.MarkAt(turn, o) == want
    ensures multiset(Gathered(q, turn, i, want))[o] <= 1
    decreases |q.ops| - i
  {
    if i < |q.ops| && q.MarkAt(turn, i) != Stop {
      GatheredIs(q, turn, i + 1, want, o);
      assert i < o ==> (InReach(q, turn, i, o) <==> InReach(q, turn, i + 1, o));
    }
  }

  /** A batch is as long as it can be: it holds an operation if and only if it takes it and every named
      operation from the turn's own up to it is one that the batch takes, or a flat calibration it gathers. */
  lemma BatchIsMaximal(q: Queue, turn: nat, o: nat)
    requires q.Index(turn) && q.Index(o) && FamilyOf(q.ops[turn]).Some?
    ensures o in Batch(q, turn) <==>
            turn <= o && q.MarkAt(turn, o) == Take
            && forall k | turn <= k <= o && q.ops[k].name != "" :: q.MarkAt(turn, k) == Take || q.MarkAt(turn, k) == TakeCal
  {
    GatheredIs(q, turn, turn, Take, o);
    forall k | turn <= k <= o
      ensures q.MarkAt(turn, k) != Stop <==>
              (q.ops[k].name != "" ==> q.MarkAt(turn, k) == Take || q.MarkAt(turn, k) == TakeCal)
    {
      SkipsOnlyLogBlocks(FamilyOf(q.ops[turn]).value, q.ops[k], k in q.ready[turn]);
    }
  }

  /** A turn takes over exactly when there is a worker and a batch of at least two operations. */
  lemma TakesOverTwoOrMore(q: Queue, turn: nat)
    requires q.Index(turn)
    ensures TakesOver(q, turn) <==>
            q.nWorkers >= 1 && FamilyOf(q.ops[turn]).Some? && exists a, b | a in Batch(q, turn) && b in Batch(q, turn) :: a != b
  {
    if FamilyOf(q.ops[turn]).Some? && |Batch(q, turn)| > 1 {
      var batch := Batch(q, turn);
      GatheredIs(q, turn, turn, Take, batch[0]);
      assert batch == [batch[0], batch[1]] + batch[2..];
      assert batch[0] in batch && batch[1] in batch && multiset([batch[0], batch[1]])[batch[0]] <= 1;
    }
  }

  /** A gathering loop that starts at `i` gets as far as `o`. */
  predicate InReach(q: Queue, turn: nat, i: nat, o: nat)
    requires q.Index(turn) && FamilyOf(q.ops[turn]).Some?
  {
    o < |q.ops| && forall k | i <= k <= o :: q.MarkAt(turn, k) != Stop
  }

  lemma {:induction false} InLaneIs(q: Queue, os: seq<nat>, lane: Lane, o: nat)
    requires AllIndex(q, os)
    ensures multiset(InLane(q, os, lane))[o] == if q.Index(o) && LaneOf(q, o) == lane then multiset(os)[o] else 0
  {
    if os != [] {
      var before := os[..|os| - 1];
      InLaneIs(q, before, lane, o);
      assert os == before + [os[|os| - 1]];
    }
  }

  function Times(es: seq<Event>, o: nat): nat {
    if es == [] then 0 else Times(es[..|es| - 1], o) + if es[|es| - 1].op == o then 1 else 0
  }

  lemma {:induction false} TimesConcat(a: seq<Event>, b: seq<Event>, o: nat)
    ensures Times(a + b, o) == Times(a, o) + Times(b, o)
  {
    if b == [] {
      assert a + b == a;
    } else {
      TimesConcat(a, b[..|b| - 1], o);
      assert (a + b)[..|a + b| - 1] == a + b[..|b| - 1];
    }
  }

  lemma {:induction false} TimesPositive(es: seq<Event>, o: nat)
    ensures Times(es, o) > 0 <==> Completed(es, o)
  {
    if es != [] {
      var before := es[..|es| - 1];
      TimesPositive(before, o);
      if k :| 0 <= k < |es| && es[k].op == o {
        assert k < |before| ==> before[k].op == o;
      }
      if k :| 0 <= k < |before| && before[k].op == o {
        assert es[k].op == o;
      }
    }
  }

  lemma {:induction false} NativesTimes(q: Queue, turn: nat, os: seq<nat>, o: nat)
    requires AllIndex(q, os)
    ensures Times(Natives(q, turn, os), o) == multiset(os)[o]
  {
    if os != [] {
      NativesTimes(q, turn, os[..|os| - 1], o);
      assert os == os[..|os| - 1] + [os[|os| - 1]];
      var es := Natives(q, turn, os);
      assert es[..|es| - 1] == Natives(q, turn, os[..|os| - 1]);
    }
  }

  lemma {:induction false} ClustersTimes(q: Queue, turn: nat, os: seq<nat>, o: nat)
    requires AllIndex(q, os)
    ensures Times(Clusters(q, turn, os), o) == multiset(os)[o]
  {
    if os != [] {
      ClustersTimes(q, turn, os[..|os| - 1], o);
      assert os == os[..|os| - 1] + [os[|os| - 1]];
      var es := Clusters(q, turn, os);
      assert es[..|es| - 1] == Clusters(q, turn, os[..|os| - 1]);
    }
  }

  /** Dispatching completes every batch member as often as it is listed, whatever fails. */
  lemma DispatchTimes(q: Queue, turn: nat, batch: seq<nat>, o: nat)
    requires AllIndex(q, batch)
    ensures Times(DispatchEvents(q, turn, batch), o) == multiset(batch)[o]
  {
    InLaneIs(q, batch, Fallback, o);
    InLaneIs(q, batch, Server, o);
    InLaneIs(q, batch, Cluster, o);
    var f, s, c := InLane(q, batch, Fallback), InLane(q, batch, Server), InLane(q, batch, Cluster);
    TimesConcat(Natives(q, turn, f) + Natives(q, turn, s), Clusters(q, turn, c), o);
    TimesConcat(Natives(q, turn, f), Natives(q, turn, s), o);
    NativesTimes(q, turn, f, o);
    NativesTimes(q, turn, s, o);
    ClustersTimes(q, turn, c, o);
    if !q.Index(o) {
      assert o !in batch;
    }
  }

  /** The operations a turn completes. */
  predicate InTurn(q: Queue, turn: nat, o: nat)
    requires q.Index(turn)
  {
    if TakesOver(q, turn) then
      turn <= o && InReach(q, turn, turn, o) && (q.MarkAt(turn, o) == Take || q.MarkAt(turn, o) == TakeCal)
    else o == turn
  }

  lemma TurnTimes(q: Queue, turn: nat, o: nat)
    requires q.Index(turn)
    ensures Times(TurnEvents(q, turn), o) == if InTurn(q, turn, o) then 1 else 0
  {
    if TakesOver(q, turn) {
      var cals, batch := Calibrations(q, turn), Batch(q, turn);
      TimesConcat(Natives(q, turn, cals), DispatchEvents(q, turn, batch), o);
      NativesTimes(q, turn, cals, o);
      DispatchTimes(q, turn, batch, o);
      GatheredIs(q, turn, turn, Take, o);
      GatheredIs(q, turn, turn, TakeCal, o);
    } else {
      assert TurnEvents(q, turn)[..0] == [];
    }
  }

  /** A turn that takes over completes its own operation too. */
  lemma TakesOverItself(q: Queue, turn: nat)
    requires q.Index(turn)
    ensures InTurn(q, turn, turn)
  {
    if TakesOver(q, turn) {
      SkipsOnlyLogBlocks(FamilyOf(q.ops[turn]).value, q.ops[turn], turn in q.ready[turn]);
    }
  }

  // ---- every operation completes, and how often ----

  lemma TraceTimes(q: Queue, t: nat, o: nat)
    requires q.Index(t)
    ensures Times(Trace(q, t + 1), o) == Times(Trace(q, t), o) + if !OnlyReturns(q, t) && InTurn(q, t, o) then 1 else 0
  {
    TimesConcat(Trace(q, t), TurnEvents(q, t), o);
    TurnTimes(q, t, o);
  }

  /** One more turn completes what was completed and what the turn adds. */
  lemma TraceCompletes(q: Queue, t: nat, o: nat)
    requires q.Index(t)
    ensures Completed(Trace(q, t + 1), o) <==> Completed(Trace(q, t), o) || (!OnlyReturns(q, t) && InTurn(q, t, o))
  {
    TraceTimes(q, t, o);
    TimesPositive(Trace(q, t), o);
    TimesPositive(Trace(q, t + 1), o);
  }

  lemma {:induction false} PastIsCompleted(q: Queue, turns: nat, o: nat)
    requires q.Valid() && o < turns <= |q.ops|
    ensures Completed(Trace(q, turns), o)
  {
    TraceCompletes(q, turns - 1, o);
    if o < turns - 1 {
      PastIsCompleted(q, turns - 1, o);
    } else {
      TakesOverItself(q, o);
    }
  }

  /** Ahead of the current turn, nothing is completed beyond a named operation that is not. */
  lemma {:induction false} AheadIsClosed(q: Queue, turns: nat, k: nat, o: nat)
    requires q.Valid() && turns <= k < o < |q.ops| && q.ops[k].name != ""
    requires Completed(Trace(q, turns), o)
    ensures Completed(Trace(q, turns), k)
  {
    var t := turns - 1;
    TraceCompletes(q, t, o);
    TraceCompletes(q, t, k);
    if Completed(Trace(q, t), o) {
      AheadIsClosed(q, t, k, o);
    } else {
      assert InTurn(q, t, o) && TakesOver(q, t);
      SkipsOnlyLogBlocks(FamilyOf(q.ops[t]).value, q.ops[k], k in q.ready[t]);
      assert q.MarkAt(t, k) != Stop;
    }
  }

  /** A turn completes nothing beyond it that was completed before. */
  lemma TurnCompletesNew(q: Queue, turn: nat, o: nat)
    requires q.Index(turn) && InTurn(q, turn, o) && !OnlyReturns(q, turn) && o > turn
    ensures !Completed(Trace(q, turn), o)
  {
    SkipsOnlyLogBlocks(FamilyOf(q.ops[turn]).value, q.ops[turn], turn in q.ready[turn]);
    if Completed(Trace(q, turn), o) {
      AheadIsClosed(q, turn, turn, o);
    }
  }

  /** How often an operation has completed after any number of turns. */
  lemma {:induction false} CompletionsSoFar(q: Queue, turns: nat, o: nat)
    requires q.Index(o) && turns <= |q.ops|
    ensures turns <= o ==> Times(Trace(q, turns), o) <= 1
    ensures turns > o ==>
              Times(Trace(q, turns), o) == if q.Wrapped(o) || !Completed(Trace(q, o), o) then 1 else 2
  {
    if turns > 0 {
      var t := turns - 1;
      CompletionsSoFar(q, t, o);
      TraceTimes(q, t, o);
      TimesPositive(Trace(q, t), o);
      TakesOverItself(q, t);
      if t < o && InTurn(q, t, o) && !OnlyReturns(q, t) {
        TurnCompletesNew(q, t, o);
      }
    }
  }

  /** Over a whole pass, for any pattern of capture, submit, wait and finalize failures, every operation
      completes exactly once, except one whose turns are not wrapped and that an earlier batch ran: it
      completes twice. Only a flat calibration can be in that position. */
  lemma EveryOperationCompletesOnce(q: Queue, o: nat)
    requires q.Index(o)
    ensures Times(Trace(q, |q.ops|), o) == 1 <==> q.Wrapped(o) || !Completed(Trace(q, o), o)
    ensures Times(Trace(q, |q.ops|), o) in {1, 2}
    ensures !q.Wrapped(o) && Completed(Trace(q, o), o) ==> !q.calibrationWrapped && IsFlatCalibration(q.ops[o])
  {
    CompletionsSoFar(q, |q.ops|, o);
    if !q.Wrapped(o) && Completed(Trace(q, o), o) {
      AheadIsTaken(q, o, o);
    }
  }

  /** Only batch members and flat calibrations complete ahead of their turn. */
  lemma {:induction false} AheadIsTaken(q: Queue, turns: nat, o: nat)
    requires q.Index(o) && turns <= o && Completed(Trace(q, turns), o)
    ensures q.ops[o].name != "" && (FamilyOf(q.ops[o]).Some? || IsFlatCalibration(q.ops[o]))
  {
    var t := turns - 1;
    TraceCompletes(q, t, o);
    if Completed(Trace(q, t), o) {
      AheadIsTaken(q, t, o);
    } else {
      SkipsOnlyLogBlocks(FamilyOf(q.ops[t]).value, q.ops[o], o in q.ready[t]);
    }
  }

  /** A flat integration, a flat calibration, a flat integration; calibrations are not wrapped. */
  function UnwrappedCalibration(): (q: Queue)
    ensures q.Valid()
  {
    var flats := Some(Group(Flat, 3, false));
    Queue([Op("Integration", flats), Op("Calibration", flats), Op("Integration", flats)], 1, false,
          [{}, {}, {}], [0, 1, 0], [true, true, true], [true, true, true], [DONE, DONE, DONE])
  }

  lemma UnwrappedCalibrationMarks()
    ensures var q := UnwrappedCalibration();
            && FamilyOf(q.ops[0]) == Some(Flats) && FamilyOf(q.ops[1]) == None
            && q.MarkAt(0, 0) == Take && q.MarkAt(0, 1) == TakeCal && q.MarkAt(0, 2) == Take
  {
    assert "Integration"[0] != "Calibration"[0];
    assert "LN reference generation"[0] != "Calibration"[0];
  }

  /** With the calibration operations left out of the distribution, a flat calibration gathered into a
      batch runs a second time at its own turn. */
  lemma UnwrappedCalibrationRunsTwice()
    ensures Times(Trace(UnwrappedCalibration(), 3), 1) == 2
  {
    var q := UnwrappedCalibration();
    UnwrappedCalibrationMarks();
    GatheredIs(q, 0, 0, Take, 0);
    GatheredIs(q, 0, 0, Take, 2);
    assert InTurn(q, 0, 1) by {
      var batch := Batch(q, 0);
      var i, k :| 0 <= i < |batch| && 0 <= k < |batch| && batch[i] == 0 && batch[k] == 2;
      assert i != k;
    }
    assert !Completed(Trace(q, 0), 0);
    TraceCompletes(q, 0, 1);
    CompletionsSoFar(q, 3, 1);
  }

  // ---- the order of completions ----

  /** The completion at position `p` belongs to turn `t` and is its `j`-th. */
  ghost predicate IsAt(q: Queue, turns: nat, p: nat, t: nat, j: nat)
    requires q.Valid() && turns <= |q.ops|
  {
    && t < turns && !OnlyReturns(q, t) && p == |Trace(q, t)| + j && p < |Trace(q, turns)|
    && j < |TurnEvents(q, t)| && Trace(q, turns)[p] == TurnEvents(q, t)[j]
    && Trace(q, t + 1) == Trace(q, t) + TurnEvents(q, t) && Trace(q, t + 1) <= Trace(q, turns)
  }

  lemma {:induction false} Locate(q: Queue, turns: nat, p: nat) returns (t: nat, j: nat)
    requires q.Valid() && turns <= |q.ops| && p < |Trace(q, turns)|
    ensures IsAt(q, turns, p, t, j)
  {
    if p < |Trace(q, turns - 1)| {
      t, j := Locate(q, turns - 1, p);
      StaysAt(q, turns - 1, p, t, j);
    } else {
      t, j := turns - 1, p - |Trace(q, turns - 1)|;
      TraceGrows(q, t);
    }
  }

  lemma StaysAt(q: Queue, turns: nat, p: nat, t: nat, j: nat)
    requires q.Index(turns) && IsAt(q, turns, p, t, j)
    ensures IsAt(q, turns + 1, p, t, j)
  {
    TraceGrows(q, turns);
    PrefixOfPrefix(Trace(q, t + 1), Trace(q, turns), Trace(q, turns + 1), p);
  }

  lemma TraceGrows(q: Queue, t: nat)
    requires q.Index(t)
    ensures Trace(q, t) <= Trace(q, t + 1)
    ensures Trace(q, t + 1) == if OnlyReturns(q, t) then Trace(q, t) else Trace(q, t) + TurnEvents(q, t)
  {
  }

  lemma PrefixOfPrefix(a: seq<Event>, b: seq<Event>, c: seq<Event>, p: nat)
    requires a <= b && b <= c && p < |b|
    ensures a <= c && b[p] == c[p]
  {
  }

  /** Position `p` of the trace comes after a completion of `o`. */
  predicate CompletedBefore(trace: seq<Event>, p: nat, o: nat)
    requires p <= |trace|
  {
    Completed(trace[..p], o)
  }

  ghost predicate Ascends(os: seq<nat>, lo: nat) {
    && (forall k | 0 <= k < |os| :: os[k] >= lo)
    && (forall k, l | 0 <= k < l < |os| :: os[k] < os[l])
  }

  lemma AscendsLonger(os: seq<nat>, lo: nat)
    requires Ascends(os, lo + 1)
    ensures Ascends(os, lo) && Ascends([lo] + os, lo)
  {
  }

  lemma AscendsInOrder(os: seq<nat>, lo: nat, i: nat, k: nat)
    requires Ascends(os, lo) && i < |os| && k < |os| && os[i] < os[k]
    ensures i < k
  {
  }

  lemma {:induction false} GatheredAscends(q: Queue, turn: nat, i: nat, want: Mark)
    requires q.Index(turn) && i <= |q.ops| && FamilyOf(q.ops[turn]).Some?
    ensures Ascends(Gathered(q, turn, i, want), i)
    decreases |q.ops| - i
  {
    if i < |q.ops| && q.MarkAt(turn, i) != Stop {
      GatheredAscends(q, turn, i + 1, want);
      AscendsLonger(Gathered(q, turn, i + 1, want), i);
    }
  }

  /** Inside one turn: a gathered calibration completes before everything that follows it in the queue. */
  lemma CalibrationsComeFirst(q: Queue, turn: nat, j: nat, y: nat)
    requires q.Index(turn) && TakesOver(q, turn) && j < |TurnEvents(q, turn)|
    requires y in Calibrations(q, turn) && y < TurnEvents(q, turn)[j].op
    ensures Completed(TurnEvents(q, turn)[..j], y)
  {
    var cals, es := Calibrations(q, turn), TurnEvents(q, turn);
    GatheredAscends(q, turn, turn, TakeCal);
    var i :| 0 <= i < |cals| && cals[i] == y;
    assert es[i] == Natives(q, turn, cals)[i] && es[i].op == y;
    assert j < |cals| ==> es[j] == Natives(q, turn, cals)[j] && es[j].op == cals[j];
    if j < |cals| {
      AscendsInOrder(cals, turn, i, j);
    }
    assert es[..j][i].op == y;
  }

  /** Every named operation from `y` to `x` belongs to the batch of this turn. */
  ghost predicate BatchCovers(q: Queue, turn: nat, y: nat, x: nat)
    requires q.Index(turn)
  {
    && q.Index(x) && TakesOver(q, turn)
    && forall k | y <= k <= x && q.ops[k].name != "" :: q.MarkAt(turn, k) == Take || q.MarkAt(turn, k) == TakeCal
  }

  lemma OvertakenInTurn(q: Queue, turn: nat, j: nat, y: nat)
    requires q.Index(turn) && j < |TurnEvents(q, turn)| && turn <= y < TurnEvents(q, turn)[j].op
    requires q.Index(y) && q.ops[y].name != "" && !Completed(TurnEvents(q, turn)[..j], y)
    ensures BatchCovers(q, turn, y, TurnEvents(q, turn)[j].op) && q.MarkAt(turn, y) == Take
  {
    var es := TurnEvents(q, turn);
    var x := es[j].op;
    assert Completed(es, x);
    TurnTimes(q, turn, x);
    TimesPositive(es, x);
    forall k | y <= k <= x && q.ops[k].name != ""
      ensures q.MarkAt(turn, k) == Take || q.MarkAt(turn, k) == TakeCal
    {
      SkipsOnlyLogBlocks(FamilyOf(q.ops[turn]).value, q.ops[k], k in q.ready[turn]);
    }
    if q.MarkAt(turn, y) == TakeCal {
      GatheredIs(q, turn, turn, TakeCal, y);
      CalibrationsComeFirst(q, turn, j, y);
    }
  }

  /** Dependency safety. When an operation completes, every earlier named operation has completed, unless
      both are in reach of the batch that the turn took over: then the one still open is an integration of
      that batch, and every named operation in between belongs to the batch too. In particular no
      integration overtakes a flat calibration before it, and nothing crosses a named operation outside
      the batch. */
  lemma OnlyBatchMembersAreOvertaken(q: Queue, p: nat, y: nat) returns (turn: nat)
    requires q.Valid() && p < |Trace(q, |q.ops|)| && y < Trace(q, |q.ops|)[p].op && q.Index(y)
    requires q.ops[y].name != "" && !CompletedBefore(Trace(q, |q.ops|), p, y)
    ensures turn <= y && BatchCovers(q, turn, y, Trace(q, |q.ops|)[p].op) && q.MarkAt(turn, y) == Take
  {
    var j: nat;
    turn, j := Locate(q, |q.ops|, p);
    OpenInTurn(q, p, turn, j, y);
    OvertakenInTurn(q, turn, j, y);
  }

  /** What is open at position `p` is not completed earlier in its turn, nor by an earlier turn. */
  lemma OpenInTurn(q: Queue, p: nat, turn: nat, j: nat, y: nat)
    requires q.Valid() && IsAt(q, |q.ops|, p, turn, j)
    requires !CompletedBefore(Trace(q, |q.ops|), p, y)
    ensures turn <= y && !Completed(TurnEvents(q, turn)[..j], y)
  {
    OpenAt(Trace(q, turn), TurnEvents(q, turn), Trace(q, |q.ops|), j, y);
    if y < turn {
      PastIsCompleted(q, turn, y);
    }
  }

  lemma OpenAt(a: seq<Event>, b: seq<Event>, trace: seq<Event>, j: nat, o: nat)
    requires a + b <= trace && j <= |b| && !Completed(trace[..|a| + j], o)
    ensures !Completed(a, o) && !Completed(b[..j], o)
  {
    CutAt(a, b, trace, j);
    OpenInParts(a, b[..j], o);
  }

  lemma OpenInParts(a: seq<Event>, b: seq<Event>, o: nat)
    requires !Completed(a + b, o)
    ensures !Completed(a, o) && !Completed(b, o)
  {
    if Completed(a, o) {
      CompletedInPrefix(a, b, o);
    }
    if Completed(b, o) {
      CompletedInSuffix(a, b, o);
    }
  }

  lemma CutAt(a: seq<Event>, b: seq<Event>, c: seq<Event>, j: nat)
    requires a + b <= c && j <= |b|
    ensures c[..|a| + j] == a + b[..j]
  {
  }

  lemma CompletedInPrefix(a: seq<Event>, b: seq<Event>, o: nat)
    requires Completed(a, o)
    ensures Completed(a + b, o)
  {
    var k :| 0 <= k < |a| && a[k].op == o;
    assert (a + b)[k].op == o;
  }

  lemma CompletedInSuffix(a: seq<Event>, b: seq<Event>, o: nat)
    requires Completed(b, o)
    ensures Completed(a + b, o)
  {
    var k :| 0 <= k < |b| && b[k].op == o;
    assert (a + b)[|a| + k].op == o;
  }

  // ---- where a status comes from ----

  /** This turn completes the operation by the cluster: it takes over a batch of which the operation is a
      member, gave it to a worker's machine, could submit it, and collected a result. */
  predicate ByCluster(q: Queue, turn: nat, o: nat)
    requires q.Index(turn) && q.Index(o)
  {
    TakesOver(q, turn) && q.MarkAt(turn, o) == Take && q.machine[o] != 0 && q.submits[o] && q.collects[o]
  }

  /** The status an operation gets in this turn. */
  ghost predicate GetsStatus(q: Queue, turn: nat, o: nat, status: Status)
    requires q.Index(turn) && q.Index(o)
  {
    (ByCluster(q, turn, o) ==> status == DONE) && (!ByCluster(q, turn, o) ==> status == q.native[o])
  }

  /** A completion of this turn: by the cluster exactly when all of that holds, natively otherwise. */
  ghost predicate HasSource(q: Queue, turn: nat, e: Event) {
    && q.Index(turn) && q.Index(e.op) && e.turn == turn
    && (e.cluster <==> ByCluster(q, turn, e.op)) && GetsStatus(q, turn, e.op, e.status)
  }

  lemma NativeSources(q: Queue, turn: nat, os: seq<nat>, j: nat)
    requires q.Index(turn) && AllIndex(q, os) && j < |os| && !ByCluster(q, turn, os[j])
    ensures HasSource(q, turn, Natives(q, turn, os)[j])
  {
  }

  lemma ClusterSources(q: Queue, turn: nat, os: seq<nat>, j: nat)
    requires q.Index(turn) && AllIndex(q, os) && j < |os| && TakesOver(q, turn)
    requires q.MarkAt(turn, os[j]) == Take && q.machine[os[j]] != 0 && q.submits[os[j]]
    ensures HasSource(q, turn, Clusters(q, turn, os)[j])
  {
  }

  lemma InLaneMember(q: Queue, os: seq<nat>, lane: Lane, j: nat)
    requires AllIndex(q, os) && j < |InLane(q, os, lane)|
    ensures InLane(q, os, lane)[j] in os && LaneOf(q, InLane(q, os, lane)[j]) == lane
  {
    var o := InLane(q, os, lane)[j];
    InLaneIs(q, os, lane, o);
    assert o in multiset(InLane(q, os, lane));
  }

  lemma DispatchSources(q: Queue, turn: nat, j: nat)
    requires q.Index(turn) && TakesOver(q, turn) && j < |DispatchEvents(q, turn, Batch(q, turn))|
    ensures HasSource(q, turn, DispatchEvents(q, turn, Batch(q, turn))[j])
  {
    var batch := Batch(q, turn);
    var f, s, c := InLane(q, batch, Fallback), InLane(q, batch, Server), InLane(q, batch, Cluster);
    SplitAt(Natives(q, turn, f) + Natives(q, turn, s), Clusters(q, turn, c), j);
    if j < |f| {
      InLaneMember(q, batch, Fallback, j);
      NativeSources(q, turn, f, j);
    } else if j < |f| + |s| {
      InLaneMember(q, batch, Server, j - |f|);
      NativeSources(q, turn, s, j - |f|);
    } else {
      var k := j - |f| - |s|;
      InLaneMember(q, batch, Cluster, k);
      GatheredIs(q, turn, turn, Take, c[k]);
      ClusterSources(q, turn, c, k);
    }
  }

  lemma CalibrationSources(q: Queue, turn: nat, j: nat)
    requires q.Index(turn) && TakesOver(q, turn) && j < |Calibrations(q, turn)|
    ensures HasSource(q, turn, Natives(q, turn, Calibrations(q, turn))[j])
  {
    var o := Calibrations(q, turn)[j];
    GatheredIs(q, turn, turn, TakeCal, o);
    NativeSources(q, turn, Calibrations(q, turn), j);
  }

  lemma TurnSources(q: Queue, turn: nat, j: nat)
    requires q.Index(turn) && j < |TurnEvents(q, turn)|
    ensures HasSource(q, turn, TurnEvents(q, turn)[j])
  {
    if TakesOver(q, turn) {
      SplitAt(Natives(q, turn, Calibrations(q, turn)), DispatchEvents(q, turn, Batch(q, turn)), j);
      if j < |Calibrations(q, turn)| {
        CalibrationSources(q, turn, j);
      } else {
        DispatchSources(q, turn, j - |Calibrations(q, turn)|);
      }
    }
  }

  lemma SplitAt(a: seq<Event>, b: seq<Event>, j: nat)
    requires j < |a + b|
    ensures (a + b)[j] == if j < |a| then a[j] else b[j - |a|]
  {
  }

  /** In a whole pass, every completion belongs to its turn and comes from exactly one place: by the cluster
      with status DONE if and only if its turn took over a batch of which it is a member and it was given to
      a worker, submitted and collected; otherwise from a native run, with the native status. */
  lemma EveryCompletionHasOneSource(q: Queue, p: nat)
    requires q.Valid() && p < |Trace(q, |q.ops|)|
    ensures var e := Trace(q, |q.ops|)[p];
            HasSource(q, e.turn, e) && InTurn(q, e.turn, e.op) && !OnlyReturns(q, e.turn)
  {
    var t, j := Locate(q, |q.ops|, p);
    TurnSources(q, t, j);
    EventInTurn(q, t, j);
  }

  lemma EventInTurn(q: Queue, turn: nat, j: nat)
    requires q.Index(turn) && j < |TurnEvents(q, turn)|
    ensures InTurn(q, turn, TurnEvents(q, turn)[j].op)
  {
    var o := TurnEvents(q, turn)[j].op;
    assert Completed(TurnEvents(q, turn), o);
    TimesPositive(TurnEvents(q, turn), o);
    TurnTimes(q, turn, o);
  }

  function Rank(lane: Lane): nat {
    match lane case Fallback => 0 case Server => 1 case Cluster => 2
  }

  /** A batch keeps the server busy while the cluster works: what could not be submitted completes first,
      then the server's members, then the cluster's. */
  lemma ServerBeforeCluster(q: Queue, turn: nat, batch: seq<nat>, j: nat, k: nat)
    requires AllIndex(q, batch) && j < k < |DispatchEvents(q, turn, batch)|
    ensures var es := DispatchEvents(q, turn, batch);
            q.Index(es[j].op) && q.Index(es[k].op) && Rank(LaneOf(q, es[j].op)) <= Rank(LaneOf(q, es[k].op))
  {
    LaneAt(q, turn, batch, j);
    LaneAt(q, turn, batch, k);
  }

  lemma LaneAt(q: Queue, turn: nat, batch: seq<nat>, j: nat)
    requires AllIndex(q, batch) && j < |DispatchEvents(q, turn, batch)|
    ensures var (o, nf, ns) := (DispatchEvents(q, turn, batch)[j].op, |InLane(q, batch, Fallback)|, |InLane(q, batch, Server)|);
            q.Index(o) && LaneOf(q, o) == if j < nf then Fallback else if j < nf + ns then Server else Cluster
  {
    var f, s, c := InLane(q, batch, Fallback), InLane(q, batch, Server), InLane(q, batch, Cluster);
    SplitAt(Natives(q, turn, f) + Natives(q, turn, s), Clusters(q, turn, c), j);
    if j < |f| {
      InLaneMember(q, batch, Fallback, j);
    } else if j < |f| + |s| {
      InLaneMember(q, batch, Server, j - |f|);
    } else {
      InLaneMember(q, batch, Cluster, j - |f| - |s|);
    }
  }

  function LastStatus(es: seq<Event>, o: nat): Status
    requires Completed(es, o)
  {
    var last := es[|es| - 1];
    if last.op == o then last.status
    else
      assert Completed(es[..|es| - 1], o) by {
        var k :| 0 <= k < |es| && es[k].op == o;
        assert es[..|es| - 1][k].op == o;
      }
      LastStatus(es[..|es| - 1], o)
  }

  /** The statuses an engine keeps after these completions of batches. */
  function Marked(done: map<nat, Status>, es: seq<Event>): map<nat, Status> {
    if es == [] then done
    else Marked(done, es[..|es| - 1])[es[|es| - 1].op := es[|es| - 1].status]
  }

  lemma {:induction false} MarkedConcat(done: map<nat, Status>, a: seq<Event>, b: seq<Event>)
    ensures Marked(Marked(done, a), b) == Marked(done, a + b)
  {
    if b == [] {
      assert a + b == a;
    } else {
      MarkedConcat(done, a, b[..|b| - 1]);
      assert (a + b)[..|a + b| - 1] == a + b[..|b| - 1];
    }
  }

  lemma {:induction false} MarkedIs(done: map<nat, Status>, es: seq<Event>, o: nat)
    ensures o in Marked(done, es) <==> o in done || Completed(es, o)
    ensures o in Marked(done, es) ==> Marked(done, es)[o] == if Completed(es, o) then LastStatus(es, o) else done[o]
  {
    if es != [] {
      MarkedIs(done, es[..|es| - 1], o);
      CompletedLonger(es, o);
    }
  }

  lemma CompletedLonger(es: seq<Event>, o: nat)
    requires es != []
    ensures Completed(es, o) <==> Completed(es[..|es| - 1], o) || es[|es| - 1].op == o
  {
    if k :| 0 <= k < |es| && es[k].op == o {
      assert k < |es| - 1 ==> es[..|es| - 1][k].op == o;
    }
  }

  lemma {:induction false} LastStatusConcat(a: seq<Event>, b: seq<Event>, o: nat)
    requires Completed(b, o)
    ensures Completed(a + b, o) && LastStatus(a + b, o) == LastStatus(b, o)
  {
    CompletedInSuffix(a, b, o);
    assert (a + b)[..|a + b| - 1] == a + b[..|b| - 1];
    if b[|b| - 1].op != o {
      CompletedLonger(b, o);
      LastStatusConcat(a, b[..|b| - 1], o);
    }
  }

  lemma {:induction false} LastStatusKept(a: seq<Event>, b: seq<Event>, o: nat)
    requires Completed(a, o) && !Completed(b, o)
    ensures Completed(a + b, o) && LastStatus(a + b, o) == LastStatus(a, o)
  {
    CompletedInPrefix(a, b, o);
    if b == [] {
      assert a + b == a;
    } else {
      CompletedLonger(b, o);
      LastStatusKept(a, b[..|b| - 1], o);
      assert (a + b)[..|a + b| - 1] == a + b[..|b| - 1];
    }
  }

  /** The statuses kept for later turns after a number of turns. */
  function DoneAfter(q: Queue, turns: nat): map<nat, Status>
    requires q.Valid() && turns <= |q.ops|
  {
    if turns == 0 then map[]
    else
      var before := DoneAfter(q, turns - 1);
      if !OnlyReturns(q, turns - 1) && TakesOver(q, turns - 1) then Marked(before, TurnEvents(q, turns - 1))
      else before
  }

  /** A kept status is the status the operation completed with. */
  lemma {:induction false} DoneIsCompletedAhead(q: Queue, turns: nat, o: nat)
    requires q.Index(o) && turns <= o
    ensures o in DoneAfter(q, turns) <==> Completed(Trace(q, turns), o)
    ensures o in DoneAfter(q, turns) ==> DoneAfter(q, turns)[o] == LastStatus(Trace(q, turns), o)
  {
    if turns > 0 {
      var t := turns - 1;
      var es := TurnEvents(q, t);
      DoneIsCompletedAhead(q, t, o);
      TraceCompletes(q, t, o);
      TurnTimes(q, t, o);
      TimesPositive(es, o);
      if !OnlyReturns(q, t) {
        MarkedIs(DoneAfter(q, t), es, o);
        if Completed(es, o) {
          LastStatusConcat(Trace(q, t), es, o);
        } else if Completed(Trace(q, t), o) {
          LastStatusKept(Trace(q, t), es, o);
        }
      }
    }
  }

  predicate CompletedWith(trace: seq<Event>, o: nat, status: Status) {
    Completed(trace, o) && LastStatus(trace, o) == status
  }

  /** The status of an operation is settled by its own turn. */
  lemma LaterTurnKeepsStatus(q: Queue, t: nat, o: nat, status: Status)
    requires q.Index(t) && o < t && CompletedWith(Trace(q, t), o, status)
    ensures CompletedWith(Trace(q, t + 1), o, status)
  {
    TurnTimes(q, t, o);
    TimesPositive(TurnEvents(q, t), o);
    if !OnlyReturns(q, t) {
      LastStatusKept(Trace(q, t), TurnEvents(q, t), o);
    }
  }

  lemma {:induction false} LanesCover(q: Queue, os: seq<nat>)
    requires AllIndex(q, os)
    ensures |InLane(q, os, Fallback)| + |InLane(q, os, Server)| + |InLane(q, os, Cluster)| == |os|
  {
    if os != [] {
      LanesCover(q, os[..|os| - 1]);
    }
  }

  /** In the second loop, a server operation of the batch is not done yet. */
  lemma ServerOpIsOpen(q: Queue, turn: nat, done: map<nat, Status>, batch: seq<nat>, i: nat)
    requires AllIndex(q, batch) && i < |batch| && batch[i] !in done && LaneOf(q, batch[i]) == Server
    requires Distinct(batch)
    ensures batch[i] !in Marked(done, Natives(q, turn, InLane(q, batch, Fallback))
                                      + Natives(q, turn, InLane(q, batch[..i], Server)))
  {
    var o := batch[i];
    InLaneIs(q, batch, Fallback, o);
    InLaneIs(q, batch[..i], Server, o);
    var f, s := InLane(q, batch, Fallback), InLane(q, batch[..i], Server);
    assert o !in batch[..i];
    TimesConcat(Natives(q, turn, f), Natives(q, turn, s), o);
    NativesTimes(q, turn, f, o);
    NativesTimes(q, turn, s, o);
    TimesPositive(Natives(q, turn, f) + Natives(q, turn, s), o);
    MarkedIs(done, Natives(q, turn, f) + Natives(q, turn, s), o);
  }

  lemma CalibrationIsOpen(q: Queue, turn: nat, done: map<nat, Status>, os: seq<nat>, c: nat)
    requires AllIndex(q, os) && c < |os| && os[c] !in done && Distinct(os)
    ensures os[c] !in Marked(done, Natives(q, turn, os[..c]))
  {
    assert os[c] !in os[..c];
    NativesTimes(q, turn, os[..c], os[c]);
    TimesPositive(Natives(q, turn, os[..c]), os[c]);
    MarkedIs(done, Natives(q, turn, os[..c]), os[c]);
  }

  ghost predicate Distinct(os: seq<nat>) {
    forall i, k | 0 <= i < k < |os| :: os[i] != os[k]
  }

  ghost predicate AllOpen(done: map<nat, Status>, os: seq<nat>) {
    forall k | 0 <= k < |os| :: os[k] !in done
  }

  /** What the gathering loop does with one operation. */
  lemma GatheredStep(q: Queue, turn: nat, i: nat, want: Mark, gathered: seq<nat>)
    requires q.Index(turn) && FamilyOf(q.ops[turn]).Some? && i < |q.ops|
    ensures gathered + Gathered(q, turn, i, want) ==
            if q.MarkAt(turn, i) == Stop then gathered
            else (if q.MarkAt(turn, i) == want then gathered + [i] else gathered) + Gathered(q, turn, i + 1, want)
  {
  }

  /** What one more operation adds to the events of a lane. */
  lemma LaneStep(q: Queue, turn: nat, es: seq<Event>, batch: seq<nat>, i: nat, lane: Lane)
    requires AllIndex(q, batch) && i < |batch|
    ensures var before, next := InLane(q, batch[..i], lane), InLane(q, batch[..i + 1], lane);
            if LaneOf(q, batch[i]) != lane then next == before
            else next == before + [batch[i]]
                 && es + Natives(q, turn, next) == es + Natives(q, turn, before) + [NativeEvent(q, turn, batch[i])]
  {
    assert batch[..i + 1][..i] == batch[..i];
  }

  // ---- the engine ----

  class Engine {
    var done: map<nat, Status>
    var trace: seq<Event>

    constructor ()
      ensures done == map[] && trace == []
    {
      done, trace := map[], [];
    }

    /** Since trace `t0` and kept statuses `d0`, the engine completed and kept exactly `es`. */
    ghost predicate Kept(t0: seq<Event>, d0: map<nat, Status>, es: seq<Event>)
      reads this
    {
      trace == t0 + es && done == Marked(d0, es)
    }

    /** The engine has run the first turns of the queue. */
    ghost predicate At(q: Queue, turns: nat)
      reads this
      requires q.Valid() && turns <= |q.ops|
    {
      trace == Trace(q, turns) && done == DoneAfter(q, turns)
    }

    /** What an operation's original run does. */
    method OriginalRun(q: Queue, turn: nat, o: nat) returns (status: Status)
      requires q.Index(o)
      modifies this`trace
      ensures trace == old(trace) + [NativeEvent(q, turn, o)] && status == q.native[o]
    {
      status := q.native[o];
      trace := trace + [NativeEvent(q, turn, o)];
    }

    /** Completes one operation of a batch by a native run and keeps its status. */
    method RunHere(q: Queue, turn: nat, o: nat,
                   ghost t0: seq<Event>, ghost d0: map<nat, Status>, ghost es: seq<Event>)
      requires q.Index(o) && Kept(t0, d0, es)
      modifies this
      ensures Kept(t0, d0, es + [NativeEvent(q, turn, o)])
    {
      var status := OriginalRun(q, turn, o);
      done := done[o := status];
      assert (es + [NativeEvent(q, turn, o)])[..|es|] == es;
    }

    /** Waits for one submitted operation: the finalized cluster result, or a native run. */
    method Collect(q: Queue, turn: nat, o: nat,
                   ghost t0: seq<Event>, ghost d0: map<nat, Status>, ghost es: seq<Event>)
      requires q.Index(o) && Kept(t0, d0, es)
      modifies this
      ensures Kept(t0, d0, es + [ClusterEvent(q, turn, o)])
    {
      if q.collects[o] {
        trace := trace + [Event(o, turn, true, DONE)];
        done := done[o := DONE];
        assert (es + [ClusterEvent(q, turn, o)])[..|es|] == es;
      } else {
        RunHere(q, turn, o, t0, d0, es);
      }
    }

    /** Runs the flat calibrations of a batch that are not done yet. */
    method RunCalibrations(q: Queue, turn: nat, cals: seq<nat>)
      requires AllIndex(q, cals) && Distinct(cals) && AllOpen(done, cals)
      modifies this
      ensures Kept(old(trace), old(done), Natives(q, turn, cals))
    {
      ghost var t0, d0 := trace, done;
      for c := 0 to |cals|
        invariant Kept(t0, d0, Natives(q, turn, cals[..c]))
      {
        assert cals[..c + 1][..c] == cals[..c];
        CalibrationIsOpen(q, turn, d0, cals, c);
        if cals[c] !in done {
          RunHere(q, turn, cals[c], t0, d0, Natives(q, turn, cals[..c]));
        }
      }
      assert cals[..|cals|] == cals;
    }

    /** The first loop: capture and submit the cluster's operations; what fails runs here. */
    method Submit(q: Queue, turn: nat, batch: seq<nat>) returns (handles: seq<nat>, nLocal: nat)
      requires AllIndex(q, batch)
      modifies this
      ensures handles == InLane(q, batch, Cluster) && nLocal == |InLane(q, batch, Fallback)|
      ensures Kept(old(trace), old(done), Natives(q, turn, InLane(q, batch, Fallback)))
    {
      handles, nLocal := [], 0;
      ghost var t0, d0 := trace, done;
      for i := 0 to |batch|
        invariant handles == InLane(q, batch[..i], Cluster) && nLocal == |InLane(q, batch[..i], Fallback)|
        invariant Kept(t0, d0, [] + Natives(q, turn, InLane(q, batch[..i], Fallback)))
      {
        LaneStep(q, turn, [], batch, i, Cluster);
        LaneStep(q, turn, [], batch, i, Fallback);
        var o := batch[i];
        if q.machine[o] != 0 {
          if q.submits[o] {
            handles := handles + [o];
          } else {
            RunHere(q, turn, o, t0, d0, [] + Natives(q, turn, InLane(q, batch[..i], Fallback)));
            nLocal := nLocal + 1;
          }
        }
      }
      assert batch[..|batch|] == batch;
      assert [] + Natives(q, turn, InLane(q, batch, Fallback)) == Natives(q, turn, InLane(q, batch, Fallback));
    }

    /** The second loop: run the server's operations that are not done yet. */
    method RunServerShare(q: Queue, turn: nat, batch: seq<nat>, ghost t0: seq<Event>, ghost d0: map<nat, Status>)
      returns (nLocal: nat)
      requires AllIndex(q, batch) && Distinct(batch) && AllOpen(d0, batch)
      requires Kept(t0, d0, Natives(q, turn, InLane(q, batch, Fallback)))
      modifies this
      ensures nLocal == |InLane(q, batch, Server)|
      ensures Kept(t0, d0, Natives(q, turn, InLane(q, batch, Fallback)) + Natives(q, turn, InLane(q, batch, Server)))
    {
      nLocal := 0;
      ghost var fell := Natives(q, turn, InLane(q, batch, Fallback));
      assert fell + [] == fell;
      for i := 0 to |batch|
        invariant nLocal == |InLane(q, batch[..i], Server)|
        invariant Kept(t0, d0, fell + Natives(q, turn, InLane(q, batch[..i], Server)))
      {
        ghost var es := fell + Natives(q, turn, InLane(q, batch[..i], Server));
        LaneStep(q, turn, fell, batch, i, Server);
        var o := batch[i];
        if q.machine[o] == 0 {
          ServerOpIsOpen(q, turn, d0, batch, i);
          assert o !in done;
          if o !in done {
            RunHere(q, turn, o, t0, d0, es);
            nLocal := nLocal + 1;
          }
        }
      }
      assert batch[..|batch|] == batch;
    }

    /** The third loop: collect the submitted operations. */
    method CollectAll(q: Queue, turn: nat, handles: seq<nat>,
                      ghost t0: seq<Event>, ghost d0: map<nat, Status>, ghost es: seq<Event>)
      requires AllIndex(q, handles) && Kept(t0, d0, es)
      modifies this
      ensures Kept(t0, d0, es + Clusters(q, turn, handles))
    {
      assert es + [] == es;
      for j := 0 to |handles|
        invariant Kept(t0, d0, es + Clusters(q, turn, handles[..j]))
      {
        assert handles[..j + 1][..j] == handles[..j];
        Collect(q, turn, handles[j], t0, d0, es + Clusters(q, turn, handles[..j]));
        assert es + Clusters(q, turn, handles[..j]) + [ClusterEvent(q, turn, handles[j])]
            == es + Clusters(q, turn, handles[..j + 1]);
      }
      assert handles[..|handles|] == handles;
    }

    /** Runs a batch: submit the cluster's operations, run the server's, collect the cluster's. */
    method Dispatch(q: Queue, turn: nat, batch: seq<nat>) returns (nLocal: nat, nCluster: nat)
      requires AllIndex(q, batch) && Distinct(batch) && AllOpen(done, batch)
      modifies this
      ensures Kept(old(trace), old(done), DispatchEvents(q, turn, batch))
      ensures nLocal + nCluster == |batch| && nCluster == |InLane(q, batch, Cluster)|
    {
      ghost var t0, d0 := trace, done;
      var handles, fell := Submit(q, turn, batch);
      var served := RunServerShare(q, turn, batch, t0, d0);
      CollectAll(q, turn, handles, t0, d0,
                 Natives(q, turn, InLane(q, batch, Fallback)) + Natives(q, turn, InLane(q, batch, Server)));
      LanesCover(q, batch);
      nLocal, nCluster := fell + served, |handles|;
    }

    /** The gathering loop of a family: the members of its batch, and the flat calibrations among them. */
    method Gather(q: Queue, turn: nat) returns (batch: seq<nat>, cals: seq<nat>)
      requires q.Index(turn) && FamilyOf(q.ops[turn]).Some?
      ensures batch == Batch(q, turn) && cals == Calibrations(q, turn)
    {
      batch, cals := [], [];
      var i := turn;
      while i < |q.ops|
        invariant turn <= i <= |q.ops|
        invariant batch + Gathered(q, turn, i, Take) == Batch(q, turn)
        invariant cals + Gathered(q, turn, i, TakeCal) == Calibrations(q, turn)
      {
        GatheredStep(q, turn, i, Take, batch);
        GatheredStep(q, turn, i, TakeCal, cals);
        match q.MarkAt(turn, i) {
          case Stop => break;
          case Take => batch := batch + [i];
          case TakeCal => cals := cals + [i];
          case Skip =>
        }
        i := i + 1;
      }
    }

    /** The wrapped run of one operation. */
    method Run(q: Queue, turn: nat) returns (status: Status)
      requires q.Index(turn) && At(q, turn)
      modifies this
      ensures At(q, turn + 1) && CompletedWith(trace, turn, status)
    {
      DoneIsCompletedAhead(q, turn, turn);
      PastIsCompleted(q, turn + 1, turn);
      if (FamilyOf(q.ops[turn]).Some? || q.calibrationWrapped) && turn in done {
        return done[turn];
      }
      if FamilyOf(q.ops[turn]).Some? {
        var batch, cals := Gather(q, turn);
        if |batch| > 1 && q.nWorkers >= 1 {
          status := RunBatch(q, turn, batch, cals);
          return;
        }
      }
      status := OriginalRun(q, turn, turn);
    }

    /** Takes over a batch: its flat calibrations first, then the integrations. */
    method RunBatch(q: Queue, turn: nat, batch: seq<nat>, cals: seq<nat>) returns (status: Status)
      requires q.Index(turn) && At(q, turn)
      requires !OnlyReturns(q, turn) && TakesOver(q, turn)
      requires batch == Batch(q, turn) && cals == Calibrations(q, turn)
      modifies this
      ensures At(q, turn + 1) && CompletedWith(trace, turn, status)
    {
      BatchIsOpen(q, turn);
      RunCalibrations(q, turn, cals);
      BatchStaysOpen(q, turn);
      var nLocal, nCluster := Dispatch(q, turn, batch);
      BatchAddsUp(q, turn);
      OwnStatus(q, turn);
      status := done[turn];
    }
  }

  lemma BatchAddsUp(q: Queue, turn: nat)
    requires q.Index(turn) && !OnlyReturns(q, turn) && TakesOver(q, turn)
    ensures var cals, members := Natives(q, turn, Calibrations(q, turn)), DispatchEvents(q, turn, Batch(q, turn));
            && Trace(q, turn + 1) == Trace(q, turn) + cals + members
            && DoneAfter(q, turn + 1) == Marked(Marked(DoneAfter(q, turn), cals), members)
  {
    var cals, members := Natives(q, turn, Calibrations(q, turn)), DispatchEvents(q, turn, Batch(q, turn));
    MarkedConcat(DoneAfter(q, turn), cals, members);
    assert Trace(q, turn) + (cals + members) == Trace(q, turn) + cals + members;
  }

  /** Nothing that a turn takes over is done before. */
  lemma BatchIsOpen(q: Queue, turn: nat)
    requires q.Index(turn) && !OnlyReturns(q, turn) && TakesOver(q, turn)
    ensures Distinct(Batch(q, turn)) && AllOpen(DoneAfter(q, turn), Batch(q, turn))
    ensures Distinct(Calibrations(q, turn)) && AllOpen(DoneAfter(q, turn), Calibrations(q, turn))
  {
    GatheredAscends(q, turn, turn, Take);
    GatheredAscends(q, turn, turn, TakeCal);
    forall o: nat | o in Batch(q, turn) || o in Calibrations(q, turn) ensures o !in DoneAfter(q, turn) {
      GatheredIs(q, turn, turn, Take, o);
      GatheredIs(q, turn, turn, TakeCal, o);
      TakenIsOpen(q, turn, o);
    }
  }

  lemma TakenIsOpen(q: Queue, turn: nat, o: nat)
    requires q.Index(turn) && !OnlyReturns(q, turn) && TakesOver(q, turn) && InTurn(q, turn, o)
    ensures o !in DoneAfter(q, turn)
  {
    DoneIsCompletedAhead(q, turn, o);
    if o > turn {
      TurnCompletesNew(q, turn, o);
    }
  }

  lemma BatchStaysOpen(q: Queue, turn: nat)
    requires q.Index(turn) && !OnlyReturns(q, turn) && TakesOver(q, turn)
    ensures AllOpen(Marked(DoneAfter(q, turn), Natives(q, turn, Calibrations(q, turn))), Batch(q, turn))
  {
    BatchIsOpen(q, turn);
    var cals := Calibrations(q, turn);
    forall o: nat | o in Batch(q, turn) ensures o !in Marked(DoneAfter(q, turn), Natives(q, turn, cals)) {
      GatheredIs(q, turn, turn, Take, o);
      GatheredIs(q, turn, turn, TakeCal, o);
      NativesTimes(q, turn, cals, o);
      TimesPositive(Natives(q, turn, cals), o);
      MarkedIs(DoneAfter(q, turn), Natives(q, turn, cals), o);
    }
  }

  /** After a batch, the status kept for the turn's own operation is the one it completed with. */
  lemma OwnStatus(q: Queue, turn: nat)
    requires q.Index(turn) && !OnlyReturns(q, turn) && TakesOver(q, turn)
    ensures turn in DoneAfter(q, turn + 1) && Completed(Trace(q, turn + 1), turn)
    ensures DoneAfter(q, turn + 1)[turn] == LastStatus(Trace(q, turn + 1), turn)
  {
    var es := TurnEvents(q, turn);
    TakesOverItself(q, turn);
    TurnTimes(q, turn, turn);
    TimesPositive(es, turn);
    MarkedIs(DoneAfter(q, turn), es, turn);
    LastStatusConcat(Trace(q, turn), es, turn);
  }

  /** Each of the first turns returned the status its operation completed with. */
  ghost predicate Settled(trace: seq<Event>, statuses: seq<Status>) {
    forall o: nat | o < |statuses| :: CompletedWith(trace, o, statuses[o])
  }

  lemma SettledStays(q: Queue, before: seq<Event>, after: seq<Event>, statuses: seq<Status>, status: Status)
    requires q.Index(|statuses|) && before == Trace(q, |statuses|) && after == Trace(q, |statuses| + 1)
    requires Settled(before, statuses) && CompletedWith(after, |statuses|, status)
    ensures Settled(after, statuses + [status])
  {
    forall o: nat | o < |statuses| ensures CompletedWith(after, o, statuses[o]) {
      LaterTurnKeepsStatus(q, |statuses|, o, statuses[o]);
    }
  }

  lemma {:induction false} LastEvent(es: seq<Event>, o: nat) returns (p: nat)
    requires Completed(es, o)
    ensures p < |es| && es[p].op == o && es[p].status == LastStatus(es, o)
    ensures forall k | p < k < |es| :: es[k].op != o
  {
    if es[|es| - 1].op == o {
      p := |es| - 1;
    } else {
      CompletedLonger(es, o);
      p := LastEvent(es[..|es| - 1], o);
    }
  }

  /** The turn completes the operation. */
  predicate Completes(q: Queue, turn: nat, o: nat)
    requires q.Index(turn)
  {
    InTurn(q, turn, o) && !OnlyReturns(q, turn)
  }

  /** This is the last turn that completes the operation. */
  ghost predicate IsLastTurn(q: Queue, turn: nat, o: nat) {
    && q.Index(turn) && Completes(q, turn, o)
    && forall u: nat | q.Index(u) && Completes(q, u, o) :: u <= turn
  }

  /** The status a pass returns for an operation is decided by the one turn that completed it: DONE if the
      cluster did, the native status otherwise. (An unwrapped calibration that ran twice: its own turn.) */
  ghost predicate RightStatus(q: Queue, o: nat, status: Status)
    requires q.Index(o)
  {
    exists turn: nat :: IsLastTurn(q, turn, o) && GetsStatus(q, turn, o, status)
  }

  lemma StatusInTurn(q: Queue, turn: nat, o: nat)
    requires q.Index(turn) && q.Index(o) && Completed(TurnEvents(q, turn), o)
    ensures GetsStatus(q, turn, o, LastStatus(TurnEvents(q, turn), o))
  {
    var j := LastEvent(TurnEvents(q, turn), o);
    TurnSources(q, turn, j);
  }

  /** One more turn decides the status of what it completes and leaves every other status alone. */
  lemma StatusAfterTurn(q: Queue, t: nat, o: nat, status: Status)
    requires q.Index(t) && q.Index(o) && CompletedWith(Trace(q, t + 1), o, status)
    ensures if Completes(q, t, o) then GetsStatus(q, t, o, status)
            else CompletedWith(Trace(q, t), o, status)
  {
    TraceGrows(q, t);
    TurnTimes(q, t, o);
    TimesPositive(TurnEvents(q, t), o);
    if OnlyReturns(q, t) {
    } else if InTurn(q, t, o) {
      StatusInTurn(q, t, o);
      LastStatusConcat(Trace(q, t), TurnEvents(q, t), o);
    } else {
      TraceCompletes(q, t, o);
      LastStatusKept(Trace(q, t), TurnEvents(q, t), o);
    }
  }

  function LastTurn(q: Queue, turns: nat, o: nat): (turn: nat)
    requires q.Valid() && 0 < turns <= |q.ops|
    ensures turn < turns
  {
    if turns == 1 || Completes(q, turns - 1, o) then turns - 1 else LastTurn(q, turns - 1, o)
  }

  lemma {:induction false} LastTurnIsLast(q: Queue, turns: nat, o: nat, u: nat)
    requires q.Valid() && u < turns <= |q.ops| && Completes(q, u, o)
    ensures u <= LastTurn(q, turns, o) && Completes(q, LastTurn(q, turns, o), o)
  {
    if turns > 1 && !Completes(q, turns - 1, o) {
      LastTurnIsLast(q, turns - 1, o, u);
    }
  }

  /** The last turn that completes the operation decides its status. */
  ghost predicate DecidedBy(q: Queue, turn: nat, o: nat, status: Status)
    requires q.Index(o) && q.Index(turn)
  {
    Completes(q, turn, o) && GetsStatus(q, turn, o, status)
  }

  lemma StatusStep(q: Queue, t: nat, o: nat, status: Status) returns (here: bool)
    requires q.Index(t) && q.Index(o) && CompletedWith(Trace(q, t + 1), o, status)
    ensures here <==> Completes(q, t, o)
    ensures here ==> DecidedBy(q, t, o, status)
    ensures !here ==> t > 0 && CompletedWith(Trace(q, t), o, status)
  {
    StatusAfterTurn(q, t, o, status);
    here := Completes(q, t, o);
  }

  lemma {:induction false} StatusSoFar(q: Queue, turns: nat, o: nat, status: Status)
    requires q.Index(o) && 0 < turns <= |q.ops| && CompletedWith(Trace(q, turns), o, status)
    ensures DecidedBy(q, LastTurn(q, turns, o), o, status)
  {
    var here := StatusStep(q, turns - 1, o, status);
    if here {
      assert LastTurn(q, turns, o) == turns - 1;
    } else {
      StatusSoFar(q, turns - 1, o, status);
      assert LastTurn(q, turns, o) == LastTurn(q, turns - 1, o);
    }
  }

  lemma StatusIsRight(q: Queue, o: nat, status: Status)
    requires q.Index(o) && CompletedWith(Trace(q, |q.ops|), o, status)
    ensures RightStatus(q, o, status)
  {
    StatusSoFar(q, |q.ops|, o, status);
    forall u: nat | q.Index(u) && Completes(q, u, o) ensures u <= LastTurn(q, |q.ops|, o) {
      LastTurnIsLast(q, |q.ops|, o, u);
    }
    assert IsLastTurn(q, LastTurn(q, |q.ops|, o), o);
  }

  /** Two ready light integrations, one for the server and one for its only worker; the second would fail
      natively. Both come out DONE, the second by the cluster. */
  function TwoLights(): (q: Queue)
    ensures q.Valid()
  {
    var lights := Some(Group(Light, 20, false));
    Queue([Op("Integration", lights), Op("Integration", lights)], 1, true, [{0, 1}, {0, 1}], [0, 1],
          [true, true], [true, true], [DONE, FAILED])
  }

  lemma TwoLightsAreTaken()
    ensures var q := TwoLights();
            q.MarkAt(0, 0) == Take && q.MarkAt(0, 1) == Take && FamilyOf(q.ops[1]).Some? && TakesOver(q, 0)
  {
    var q := TwoLights();
    WhatABatchTakes(q.ops[0], true);
    GatheredIs(q, 0, 0, Take, 0);
    GatheredIs(q, 0, 0, Take, 1);
    var batch := Batch(q, 0);
    var i, k :| 0 <= i < |batch| && 0 <= k < |batch| && batch[i] == 0 && batch[k] == 1;
    assert i != k;
  }

  lemma SecondLightEndsAtOnce()
    ensures var q := TwoLights(); IsLastTurn(q, 0, 1) && OnlyReturns(q, 1)
  {
    var q := TwoLights();
    TwoLightsAreTaken();
    TraceCompletes(q, 0, 1);
  }

  lemma TwoLightsUseTheCluster()
    ensures var q := TwoLights();
            TakesOver(q, 0) && ByCluster(q, 0, 1) && RightStatus(q, 1, DONE) && !RightStatus(q, 1, FAILED)
  {
    var q := TwoLights();
    TwoLightsAreTaken();
    SecondLightEndsAtOnce();
    assert GetsStatus(q, 0, 1, DONE) && !GetsStatus(q, 0, 1, FAILED);
    OneLastTurn(q, 1, 0);
  }

  /** There is one last turn, so there is one right status. */
  lemma OneLastTurn(q: Queue, o: nat, turn: nat)
    requires q.Index(o) && IsLastTurn(q, turn, o)
    ensures forall status :: RightStatus(q, o, status) <==> GetsStatus(q, turn, o, status)
  {
    forall u: nat | IsLastTurn(q, u, o) ensures u == turn {
    }
  }

  /** The queue's next turn. */
  method RunNext(q: Queue, engine: Engine, statuses: seq<Status>) returns (more: seq<Status>)
    requires q.Index(|statuses|) && engine.At(q, |statuses|) && Settled(engine.trace, statuses)
    modifies engine
    ensures |more| == |statuses| + 1 && engine.At(q, |more|) && Settled(engine.trace, more)
  {
    ghost var before := engine.trace;
    var status := engine.Run(q, |statuses|);
    SettledStays(q, before, engine.trace, statuses, status);
    more := statuses + [status];
  }

  lemma AllStatusesRight(q: Queue, statuses: seq<Status>)
    requires q.Valid() && |statuses| == |q.ops| && Settled(Trace(q, |q.ops|), statuses)
    ensures forall o | 0 <= o < |q.ops| :: RightStatus(q, o, statuses[o])
  {
    forall o: nat | o < |q.ops| ensures RightStatus(q, o, statuses[o]) {
      StatusIsRight(q, o, statuses[o]);
    }
  }

  /** A whole pass over the queue: the trace is the specified one, and each turn returned the status its
      operation completed with. */
  method RunQueue(q: Queue) returns (engine: Engine, statuses: seq<Status>)
    requires q.Valid()
    ensures fresh(engine) && engine.trace == Trace(q, |q.ops|)
    ensures |statuses| == |q.ops| && Settled(engine.trace, statuses)
    ensures forall o | 0 <= o < |q.ops| :: RightStatus(q, o, statuses[o])
  {
    engine := new Engine();
    statuses := [];
    while |statuses| < |q.ops|
      invariant fresh(engine) && |statuses| <= |q.ops|
      invariant engine.At(q, |statuses|) && Settled(engine.trace, statuses)
    {
      statuses := RunNext(q, engine, statuses);
    }
    AllStatusesRight(q, statuses);
  }
}
