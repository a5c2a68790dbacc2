/** Distributed frame measurements: the server measures its share, the cluster measures the rest, and what
    does not come back valid is measured by the server. Three counters are returned.
    What the native measurer and the cluster do is an input: the counters of every native call or that it
    threw, and for every returned file whether its row is valid. */
module Measurements {
  import opened AdaptiveSplit
  import opened Wrappers

  /** A frame file: its path and its name with extension. */
  datatype Item = Item(path: string, base: string)

  datatype Counters = Counters(nCached: nat, nMeasured: nat, nFailed: nat)
  {
    function Sum(): nat {
      nCached + nMeasured + nFailed
    }
  }

  /** One call of the native measurer. */
  datatype Native = Threw | Counted(counters: Counters)

  /** The wait for the cluster: it threw, or gave rows by file name, each valid or not, after a time. */
  datatype Wait = WaitThrew | WaitReturned(rows: map<string, bool>, elapsedMs: real)

  datatype World = World(submits: bool, serverSecs: real, server: Native, wait: Wait, leftover: Native,
                         fallback: Native, whole: Native)

  /** Who measured a frame. */
  datatype By = ByServer | ByClient | ByLeftoverPass | ByFallback | ByWholeRun

  predicate HasValidRow(item: Item, rows: map<string, bool>) {
    item.base in rows && rows[item.base]
  }

  function Valid(items: seq<Item>, rows: map<string, bool>): seq<Item> {
    if items == [] then []
    else
      var rest := Valid(items[..|items| - 1], rows);
      if HasValidRow(items[|items| - 1], rows) then rest + [items[|items| - 1]] else rest
  }

  function Leftovers(items: seq<Item>, rows: map<string, bool>): seq<Item> {
    if items == [] then []
    else
      var rest := Leftovers(items[..|items| - 1], rows);
      if HasValidRow(items[|items| - 1], rows) then rest else rest + [items[|items| - 1]]
  }

  lemma {:induction false} ValidOrLeftover(items: seq<Item>, rows: map<string, bool>)
    ensures multiset(Valid(items, rows)) + multiset(Leftovers(items, rows)) == multiset(items)
  {
    if items != [] {
      var before, last := items[..|items| - 1], items[|items| - 1];
      ValidOrLeftover(before, rows);
      assert multiset(items) == multiset(before) + multiset{last} by {
        assert items == before + [last];
      }
      if HasValidRow(last, rows) {
        assert Valid(items, rows) == Valid(before, rows) + [last] && Leftovers(items, rows) == Leftovers(before, rows);
      } else {
        assert Leftovers(items, rows) == Leftovers(before, rows) + [last] && Valid(items, rows) == Valid(before, rows);
      }
    }
  }

  /** Valid are the frames whose own file name came back with a valid row; the others are left over. */
  lemma {:induction false} ValidIs(items: seq<Item>, rows: map<string, bool>, item: Item)
    ensures item in Valid(items, rows) <==> item in items && item.base in rows && rows[item.base]
    ensures item in Leftovers(items, rows) <==> item in items && !(item.base in rows && rows[item.base])
  {
    if items != [] {
      ValidIs(items[..|items| - 1], rows, item);
      assert items == items[..|items| - 1] + [items[|items| - 1]];
    }
  }

  lemma {:induction false} ValidAndLeftoverCount(items: seq<Item>, rows: map<string, bool>)
    ensures |Valid(items, rows)| + |Leftovers(items, rows)| == |items|
  {
    if items != [] {
      ValidAndLeftoverCount(items[..|items| - 1], rows);
    }
  }

  // ---- the lanes of a distributed run ----

  /** How the client lane of a run ended. */
  datatype Lane = NoClients | AllReturned | LeftoversMeasured | FellBack(afterLoop: bool) | LaneThrew

  function LaneOf(client: seq<Item>, w: World): Lane {
    if client == [] then NoClients
    else if w.wait.WaitThrew? then (if w.fallback.Threw? then LaneThrew else FellBack(false))
    else if Leftovers(client, w.wait.rows) == [] then AllReturned
    else if w.leftover.Counted? then LeftoversMeasured
    else if w.fallback.Threw? then LaneThrew
    else FellBack(true)
  }

  /** What the client lane adds to the counters. */
  function LaneCounts(client: seq<Item>, w: World): (c: (nat, nat))
    requires LaneOf(client, w) != LaneThrew
  {
    var good := if w.wait.WaitReturned? then |Valid(client, w.wait.rows)| else 0;
    match LaneOf(client, w)
    case NoClients => (0, 0)
    case AllReturned => (good, 0)
    case LeftoversMeasured => (good + w.leftover.counters.nMeasured, w.leftover.counters.nFailed)
    case FellBack(_) => (good + w.fallback.counters.nMeasured, w.fallback.counters.nFailed)
  }

  /** Every frame measured, in order, with who measured it. */
  function Tagged(items: seq<Item>, who: By): (r: seq<(Item, By)>)
    ensures |r| == |items| && forall k | 0 <= k < |r| :: r[k] == (items[k], who)
  {
    seq(|items|, k requires 0 <= k < |items| => (items[k], who))
  }

  function LaneLog(client: seq<Item>, w: World): seq<(Item, By)>
    requires LaneOf(client, w) != LaneThrew
  {
    var good := if w.wait.WaitReturned? then Valid(client, w.wait.rows) else [];
    match LaneOf(client, w)
    case NoClients => []
    case AllReturned => Tagged(good, ByClient)
    case LeftoversMeasured => Tagged(good, ByClient) + Tagged(Leftovers(client, w.wait.rows), ByLeftoverPass)
    case FellBack(_) => Tagged(good, ByClient) + Tagged(client, ByFallback)
  }

  /** What the client lane has measured when its last fallback throws. */
  function LaneThrownLog(client: seq<Item>, w: World): seq<(Item, By)> {
    if w.wait.WaitReturned? then Tagged(Valid(client, w.wait.rows), ByClient) else []
  }

  lemma Associate(a: seq<(Item, By)>, b: seq<(Item, By)>, c: seq<(Item, By)>)
    ensures a + b + c == a + (b + c)
  {
  }

  // ---- the analyzer ----

  class Analyzer {
    var log: seq<(Item, By)>

    constructor ()
      ensures log == []
    {
      log := [];
    }

    /** One native call: measures all of its items unless it throws. */
    method Original(items: seq<Item>, who: By, n: Native) returns (r: Native)
      modifies this
      ensures r == n
      ensures log == if n.Threw? then old(log) else old(log) + Tagged(items, who)
    {
      r := n;
      if n.Counted? {
        log := log + Tagged(items, who);
      }
    }

    /** Attach what the cluster measured; the rest is left over. */
    method AttachRows(client: seq<Item>, rows: map<string, bool>) returns (nMeasured: nat, leftovers: seq<Item>)
      modifies this
      ensures nMeasured == |Valid(client, rows)| && leftovers == Leftovers(client, rows)
      ensures log == old(log) + Tagged(Valid(client, rows), ByClient)
    {
      nMeasured, leftovers := 0, [];
      for c := 0 to |client|
        invariant nMeasured == |Valid(client[..c], rows)| && leftovers == Leftovers(client[..c], rows)
        invariant log == old(log) + Tagged(Valid(client[..c], rows), ByClient)
      {
        assert client[..c + 1][..c] == client[..c];
        if HasValidRow(client[c], rows) {
          log := log + [(client[c], ByClient)];
          nMeasured := nMeasured + 1;
        } else {
          leftovers := leftovers + [client[c]];
        }
      }
      assert client[..|client|] == client;
    }

    /** Measures the whole client share natively. */
    method FallBack(client: seq<Item>, nMeasured: nat, w: World) returns (r: Option<(nat, nat)>)
      modifies this
      ensures r.None? <==> w.fallback.Threw?
      ensures r.Some? ==>
                && r.value == (nMeasured + w.fallback.counters.nMeasured, w.fallback.counters.nFailed)
                && log == old(log) + Tagged(client, ByFallback)
      ensures r.None? ==> log == old(log)
    {
      var r2 := Original(client, ByFallback, w.fallback);
      if r2.Threw? {
        return None;
      }
      r := Some((nMeasured + r2.counters.nMeasured, r2.counters.nFailed));
    }

    /** The client lane, fallbacks included; none when the last fallback throws too. */
    method Join(client: seq<Item>, w: World) returns (r: Option<(nat, nat)>)
      requires client != []
      modifies this
      ensures r.None? <==> LaneOf(client, w) == LaneThrew
      ensures r.Some? ==> r.value == LaneCounts(client, w) && log == old(log) + LaneLog(client, w)
      ensures r.None? ==> log == old(log) + LaneThrownLog(client, w)
    {
      if w.wait.WaitThrew? {
        r := FallBack(client, 0, w);
        assert Tagged([], ByClient) + Tagged(client, ByFallback) == Tagged(client, ByFallback);
        return;
      }
      r := JoinRows(client, w);
    }

    method JoinRows(client: seq<Item>, w: World) returns (r: Option<(nat, nat)>)
      requires client != [] && w.wait.WaitReturned?
      modifies this
      ensures r.None? <==> LaneOf(client, w) == LaneThrew
      ensures r.Some? ==> r.value == LaneCounts(client, w) && log == old(log) + LaneLog(client, w)
      ensures r.None? ==> log == old(log) + LaneThrownLog(client, w)
    {
      var nMeasured, leftovers := AttachRows(client, w.wait.rows);
      ghost var good := Tagged(Valid(client, w.wait.rows), ByClient);
      if |leftovers| == 0 {
        return Some((nMeasured, 0));
      }
      var r3 := Original(leftovers, ByLeftoverPass, w.leftover);
      if r3.Counted? {
        Associate(old(log), good, Tagged(leftovers, ByLeftoverPass));
        return Some((nMeasured + r3.counters.nMeasured, r3.counters.nFailed));
      }
      r := FallBack(client, nMeasured, w);
      Associate(old(log), good, Tagged(client, ByFallback));
    }

    /** The server's share. */
    method ServerShare(serverItems: seq<Item>, w: World) returns (r: Option<Counters>)
      modifies this
      ensures r.None? <==> serverItems != [] && w.server.Threw?
      ensures r.Some? ==> r.value == ServerCounts(serverItems, w)
      ensures log == if r.Some? then old(log) + Tagged(serverItems, ByServer) else old(log)
    {
      if |serverItems| == 0 {
        return Some(Counters(0, 0, 0));
      }
      var r1 := Original(serverItems, ByServer, w.server);
      r := if r1.Threw? then None else Some(r1.counters);
    }

    /** The distributed run; none if it throws. */
    method Distribute(items: seq<Item>, nWorkers: nat, costs: CostModel, w: World)
      returns (r: Option<Counters>, ghost kept: nat)
      requires costs.Valid()
      modifies this, costs
      ensures costs.Valid() && kept <= |items|
      ensures kept == SplitCount(old(costs.Learned()), "measurements", |items|, if nWorkers == 0 then 1 else nWorkers)
      ensures r.Some? <==> GoesThrough(items, kept, w)
      ensures r.Some? ==> r.value == Total(items, kept, w) && log == old(log) + RunLog(items, kept, w)
      ensures r.Some? ==> costs.Learned() == Learn(old(costs.Learned()), MeasuredGroup(items, kept, w))
      ensures r.None? ==> log == old(log) + ThrownLog(items, kept, w) && costs.Learned() == old(costs.Learned())
    {
      var n := costs.ServerCount("measurements", |items|, if nWorkers == 0 then 1 else nWorkers);
      kept := n;
      var serverItems, clientItems := items[..n], items[n..];
      var handle := |clientItems| > 0;
      if handle && !w.submits {
        return None, kept;
      }
      var server := ServerShare(serverItems, w);
      if server.None? {
        return None, kept;
      }
      var nMeasured, nFailed := 0, 0;
      if handle {
        var joined := Join(clientItems, w);
        if joined.None? {
          Associate(old(log), Tagged(serverItems, ByServer), LaneThrownLog(clientItems, w));
          return None, kept;
        }
        nMeasured, nFailed := joined.value.0, joined.value.1;
      }
      Associate(old(log), Tagged(serverItems, ByServer), LaneLog(clientItems, w));
      var elapsedMs := if handle && w.wait.WaitReturned? then w.wait.elapsedMs else 0.0;
      costs.LearnCosts(Group("measurements", w.serverSecs, |serverItems|, elapsedMs, |clientItems|, nMeasured));
      r := Some(Counters(server.value.nCached, server.value.nMeasured + nMeasured, server.value.nFailed + nFailed));
    }

    /** The wrapped call: distributes when it pays, and falls back to the whole native run. */
    method ComputeDescriptors(items: seq<Item>, nWorkers: nat, serverWorks: bool, costs: CostModel, w: World)
      returns (r: Native, ghost kept: nat)
      requires costs.Valid()
      modifies this, costs
      ensures costs.Valid() && kept <= |items|
      ensures |items| >= 2 && serverWorks ==>
                kept == SplitCount(old(costs.Learned()), "measurements", |items|, if nWorkers == 0 then 1 else nWorkers)
      ensures var tries := |items| >= 2 && serverWorks;
              if tries && GoesThrough(items, kept, w) then
                && r == Counted(Total(items, kept, w)) && log == old(log) + RunLog(items, kept, w)
                && costs.Learned() == Learn(old(costs.Learned()), MeasuredGroup(items, kept, w))
              else
                && r == w.whole && costs.Learned() == old(costs.Learned())
                && log == old(log) + (if tries then ThrownLog(items, kept, w) else []) + WholeLog(items, w)
    {
      kept := 0;
      if |items| < 2 || !serverWorks {
        r := Original(items, ByWholeRun, w.whole);
        return;
      }
      var counters;
      counters, kept := Distribute(items, nWorkers, costs, w);
      if counters.Some? {
        return Counted(counters.value), kept;
      }
      r := Original(items, ByWholeRun, w.whole);
    }
  }

  // ---- the run as a whole ----

  predicate GoesThrough(items: seq<Item>, kept: nat, w: World)
    requires kept <= |items|
  {
    && (kept < |items| ==> w.submits)
    && LaneOf(items[kept..], w) != LaneThrew
    && (kept > 0 ==> w.server.Counted?)
  }

  function ServerCounts(serverItems: seq<Item>, w: World): Counters
    requires serverItems != [] ==> w.server.Counted?
  {
    if serverItems != [] then w.server.counters else Counters(0, 0, 0)
  }

  function Total(items: seq<Item>, kept: nat, w: World): Counters
    requires kept <= |items| && GoesThrough(items, kept, w)
  {
    var (server, lane) := (ServerCounts(items[..kept], w), LaneCounts(items[kept..], w));
    Counters(server.nCached, server.nMeasured + lane.0, server.nFailed + lane.1)
  }

  function RunLog(items: seq<Item>, kept: nat, w: World): seq<(Item, By)>
    requires kept <= |items| && GoesThrough(items, kept, w)
  {
    Tagged(items[..kept], ByServer) + LaneLog(items[kept..], w)
  }

  /** The group whose times are learned from. */
  function MeasuredGroup(items: seq<Item>, kept: nat, w: World): Group
    requires kept <= |items| && GoesThrough(items, kept, w)
  {
    var elapsedMs := if kept < |items| && w.wait.WaitReturned? then w.wait.elapsedMs else 0.0;
    Group("measurements", w.serverSecs, kept, elapsedMs, |items| - kept, LaneCounts(items[kept..], w).0)
  }

  /** What a distributed run that throws has measured by then. */
  function ThrownLog(items: seq<Item>, kept: nat, w: World): seq<(Item, By)>
    requires kept <= |items|
  {
    if (kept < |items| && !w.submits) || (kept > 0 && w.server.Threw?) then []
    else Tagged(items[..kept], ByServer) + LaneThrownLog(items[kept..], w)
  }

  function WholeLog(items: seq<Item>, w: World): seq<(Item, By)> {
    if w.whole.Threw? then [] else Tagged(items, ByWholeRun)
  }

  // ---- who measured what ----

  /** The frames measured by one party, in order. */
  function Of(log: seq<(Item, By)>, who: By): seq<Item> {
    if log == [] then []
    else
      var rest := Of(log[..|log| - 1], who);
      if log[|log| - 1].1 == who then rest + [log[|log| - 1].0] else rest
  }

  lemma {:induction false} OfTagged(items: seq<Item>, by': By, who: By)
    ensures Of(Tagged(items, by'), who) == if by' == who then items else []
  {
    if items != [] {
      OfTagged(items[..|items| - 1], by', who);
      assert Tagged(items, by')[..|items| - 1] == Tagged(items[..|items| - 1], by');
    }
  }

  lemma {:induction false} OfConcat(a: seq<(Item, By)>, b: seq<(Item, By)>, who: By)
    ensures Of(a + b, who) == Of(a, who) + Of(b, who)
  {
    if b == [] {
      assert a + b == a;
    } else {
      OfConcat(a, b[..|b| - 1], who);
      assert (a + b)[..|a + b| - 1] == a + b[..|b| - 1];
    }
  }

  lemma OfParts(a: seq<Item>, whoA: By, b: seq<Item>, whoB: By, who: By)
    ensures Of(Tagged(a, whoA) + Tagged(b, whoB), who)
            == (if whoA == who then a else []) + (if whoB == who then b else [])
  {
    OfConcat(Tagged(a, whoA), Tagged(b, whoB), who);
    OfTagged(a, whoA, who);
    OfTagged(b, whoB, who);
  }

  /** The frames a client measured: those with a valid row, if rows came back at all. */
  function ByClients(client: seq<Item>, w: World): seq<Item> {
    if w.wait.WaitReturned? then Valid(client, w.wait.rows) else []
  }

  /** The frames the leftover pass measured. */
  function ByLeftovers(client: seq<Item>, w: World): seq<Item> {
    if w.wait.WaitReturned? && w.leftover.Counted? then Leftovers(client, w.wait.rows) else []
  }

  /** The fallback measures the whole client share, when the wait threw or the leftover pass did. */
  function ByFallbacks(client: seq<Item>, w: World): seq<Item> {
    if w.wait.WaitThrew? || (w.leftover.Threw? && Leftovers(client, w.wait.rows) != []) then client else []
  }

  lemma LaneParts(client: seq<Item>, w: World, who: By)
    requires LaneOf(client, w) != LaneThrew
    ensures Of(LaneLog(client, w), who)
            == match who
               case ByClient => ByClients(client, w)
               case ByLeftoverPass => ByLeftovers(client, w)
               case ByFallback => ByFallbacks(client, w)
               case _ => []
  {
    var good := ByClients(client, w);
    OfTagged(good, ByClient, who);
    OfParts(good, ByClient, client, ByFallback, who);
    if w.wait.WaitReturned? {
      OfParts(good, ByClient, Leftovers(client, w.wait.rows), ByLeftoverPass, who);
    }
  }

  /** Who measured what in a run that goes through: the server the first `kept` frames, the clients those of
      the others whose valid row came back, and the leftover pass or the fallback as above. */
  lemma WhoMeasuredWhat(items: seq<Item>, kept: nat, w: World)
    requires kept <= |items| && GoesThrough(items, kept, w)
    ensures var (log, client) := (RunLog(items, kept, w), items[kept..]);
            && Of(log, ByServer) == items[..kept] && Of(log, ByWholeRun) == []
            && Of(log, ByClient) == ByClients(client, w)
            && Of(log, ByLeftoverPass) == ByLeftovers(client, w)
            && Of(log, ByFallback) == ByFallbacks(client, w)
  {
    var client := items[kept..];
    forall who: By
      ensures Of(RunLog(items, kept, w), who) == (if who == ByServer then items[..kept] else []) + Of(LaneLog(client, w), who)
    {
      OfConcat(Tagged(items[..kept], ByServer), LaneLog(client, w), who);
      OfTagged(items[..kept], ByServer, who);
    }
    LaneParts(client, w, ByServer);
    LaneParts(client, w, ByWholeRun);
    LaneParts(client, w, ByClient);
    LaneParts(client, w, ByLeftoverPass);
    LaneParts(client, w, ByFallback);
  }

  function CountedBy(took: seq<Item>, n: Native): Counters {
    if took != [] && n.Counted? then n.counters else Counters(0, 0, 0)
  }

  lemma LaneCounters(client: seq<Item>, w: World)
    requires LaneOf(client, w) != LaneThrew
    ensures var leftover := CountedBy(ByLeftovers(client, w), w.leftover);
            var fallback := CountedBy(ByFallbacks(client, w), w.fallback);
            && LaneCounts(client, w).0 == |ByClients(client, w)| + leftover.nMeasured + fallback.nMeasured
            && LaneCounts(client, w).1 == leftover.nFailed + fallback.nFailed
  {
    if w.wait.WaitReturned? {
      ValidAndLeftoverCount(client, w.wait.rows);
    }
  }

  /** Each of the three counters by itself. Cached counts only the server's own cache hits. Measured counts
      one for every frame a client measured and what each native call that took place measured; failed counts
      what those calls failed. */
  lemma EachCounter(items: seq<Item>, kept: nat, w: World)
    requires kept <= |items| && GoesThrough(items, kept, w)
    ensures var (log, t) := (RunLog(items, kept, w), Total(items, kept, w));
            var server := CountedBy(Of(log, ByServer), w.server);
            var leftover := CountedBy(Of(log, ByLeftoverPass), w.leftover);
            var fallback := CountedBy(Of(log, ByFallback), w.fallback);
            && t.nCached == server.nCached
            && t.nMeasured == |Of(log, ByClient)| + server.nMeasured + leftover.nMeasured + fallback.nMeasured
            && t.nFailed == server.nFailed + leftover.nFailed + fallback.nFailed
  {
    WhoMeasuredWhat(items, kept, w);
    LaneCounters(items[kept..], w);
  }

  /** When a distributed run goes through, in terms of what happened: nothing left without a measurement. */
  lemma WhenARunGoesThrough(items: seq<Item>, kept: nat, w: World)
    requires kept <= |items|
    ensures GoesThrough(items, kept, w) <==>
            && (kept > 0 ==> w.server.Counted?)
            && (kept < |items| ==> w.submits)
            && (kept < |items| && w.wait.WaitThrew? ==> w.fallback.Counted?)
            && (kept < |items| && w.wait.WaitReturned? ==>
                  w.leftover.Counted? || w.fallback.Counted?
                  || forall i | i in items[kept..] :: i.base in w.wait.rows && w.wait.rows[i.base])
  {
    if kept < |items| && w.wait.WaitReturned? {
      forall i: Item
        ensures i in Leftovers(items[kept..], w.wait.rows) <==>
                i in items[kept..] && !(i.base in w.wait.rows && w.wait.rows[i.base])
      {
        ValidIs(items[kept..], w.wait.rows, i);
      }
      if Leftovers(items[kept..], w.wait.rows) != [] {
        assert Leftovers(items[kept..], w.wait.rows)[0] in Leftovers(items[kept..], w.wait.rows);
      }
    }
  }

  /** What is learned from a run: the server's time over the frames it kept and the cluster's over the
      others, for the operation "measurements". A cluster that gave nothing back teaches nothing. */
  lemma TimesLearnedFrom(items: seq<Item>, kept: nat, w: World)
    requires kept <= |items| && GoesThrough(items, kept, w)
    ensures var g := MeasuredGroup(items, kept, w);
            && g.op == "measurements"
            && (g.ServerSample().Some? <==> kept > 0 && w.serverSecs > 0.0)
            && (g.ServerSample().Some? ==> g.ServerSample().value * kept as real == w.serverSecs)
            && (g.ClusterSample().Some? <==> kept < |items| && w.wait.WaitReturned? && w.wait.elapsedMs > 0.0
                                             && LaneCounts(items[kept..], w).0 > 0)
            && (g.ClusterSample().Some? ==>
                  g.ClusterSample().value * (|items| - kept) as real * 1000.0 == w.wait.elapsedMs)
  {
    SamplesAreTimePerFrame(MeasuredGroup(items, kept, w));
  }

  /** Every native call counts each of its items once. */
  predicate ServerAddsUp(serverItems: seq<Item>, w: World) {
    w.server.Counted? ==> w.server.counters.Sum() == |serverItems|
  }

  predicate LaneAddsUp(client: seq<Item>, w: World) {
    && (w.fallback.Counted? ==> w.fallback.counters.Sum() == |client|)
    && (w.leftover.Counted? && w.wait.WaitReturned? ==>
          w.leftover.counters.Sum() == |Leftovers(client, w.wait.rows)|)
  }

  /** Frames the counters leave out: cache hits of a native call that was not the server's own. */
  function Dropped(client: seq<Item>, w: World): nat {
    match LaneOf(client, w)
    case LeftoversMeasured => w.leftover.counters.nCached
    case FellBack(_) => w.fallback.counters.nCached
    case _ => 0
  }

  /** Frames counted twice: measured by a client, and again after the leftover pass threw. */
  function CountedTwice(client: seq<Item>, w: World): nat {
    if LaneOf(client, w) == FellBack(true) then |Valid(client, w.wait.rows)| else 0
  }

  lemma LaneAgainstFrames(client: seq<Item>, w: World)
    requires LaneOf(client, w) != LaneThrew && LaneAddsUp(client, w)
    ensures LaneCounts(client, w).0 + LaneCounts(client, w).1 == |client| - Dropped(client, w) + CountedTwice(client, w)
  {
    if w.wait.WaitReturned? {
      ValidAndLeftoverCount(client, w.wait.rows);
    }
  }

  lemma TotalSplits(items: seq<Item>, kept: nat, w: World)
    requires kept <= |items| && GoesThrough(items, kept, w) && ServerAddsUp(items[..kept], w)
    ensures Total(items, kept, w).Sum() == kept + LaneCounts(items[kept..], w).0 + LaneCounts(items[kept..], w).1
  {
    assert |items[..kept]| == kept;
  }

  /** The three counters add up to the number of frames, less the cache hits that are not added back, plus
      the frames counted twice; so they are right exactly when those two are equal. */
  lemma CountersAgainstFrames(items: seq<Item>, kept: nat, w: World)
    requires kept <= |items| && GoesThrough(items, kept, w)
    requires ServerAddsUp(items[..kept], w) && LaneAddsUp(items[kept..], w)
    ensures Total(items, kept, w).Sum() == |items| - Dropped(items[kept..], w) + CountedTwice(items[kept..], w)
    ensures Total(items, kept, w).Sum() == |items| <==> Dropped(items[kept..], w) == CountedTwice(items[kept..], w)
  {
    TotalSplits(items, kept, w);
    LaneAgainstFrames(items[kept..], w);
  }

  function Measured(log: seq<(Item, By)>): (items: seq<Item>)
    ensures |items| == |log| && forall k | 0 <= k < |items| :: items[k] == log[k].0
  {
    seq(|log|, k requires 0 <= k < |log| => log[k].0)
  }

  lemma MeasuredParts(a: seq<Item>, whoA: By, b: seq<Item>, whoB: By)
    ensures Measured(Tagged(a, whoA)) == a
    ensures Measured(Tagged(a, whoA) + Tagged(b, whoB)) == a + b
  {
  }

  lemma MeasuredConcat(a: seq<(Item, By)>, b: seq<(Item, By)>)
    ensures Measured(a + b) == Measured(a) + Measured(b)
  {
  }

  lemma LaneMeasuresOnce(client: seq<Item>, w: World)
    requires LaneOf(client, w) != LaneThrew && LaneOf(client, w) != FellBack(true)
    ensures multiset(Measured(LaneLog(client, w))) == multiset(client)
  {
    if client == [] {
    } else if w.wait.WaitThrew? {
      MeasuredParts([], ByClient, client, ByFallback);
      assert [] + client == client;
    } else {
      var good, rest := Valid(client, w.wait.rows), Leftovers(client, w.wait.rows);
      ValidOrLeftover(client, w.wait.rows);
      MeasuredParts(good, ByClient, rest, ByLeftoverPass);
    }
  }

  lemma RunMeasures(items: seq<Item>, kept: nat, w: World)
    requires kept <= |items| && GoesThrough(items, kept, w)
    ensures Measured(RunLog(items, kept, w)) == items[..kept] + Measured(LaneLog(items[kept..], w))
    ensures items == items[..kept] + items[kept..]
  {
    MeasuredConcat(Tagged(items[..kept], ByServer), LaneLog(items[kept..], w));
    MeasuredParts(items[..kept], ByServer, [], ByServer);
  }

  /** Unless the fallback had to repeat the client lane after some rows were attached, every frame is
      measured exactly once: by the server, by a client, by the leftover pass, or by the fallback. */
  lemma EveryFrameMeasuredOnce(items: seq<Item>, kept: nat, w: World)
    requires kept <= |items| && GoesThrough(items, kept, w)
    requires LaneOf(items[kept..], w) != FellBack(true)
    ensures multiset(Measured(RunLog(items, kept, w))) == multiset(items)
  {
    RunMeasures(items, kept, w);
    LaneMeasuresOnce(items[kept..], w);
  }

  /** After the leftover pass threw, exactly the frames a client had measured are measured twice. */
  lemma RepeatedFrames(items: seq<Item>, kept: nat, w: World)
    requires kept < |items| && GoesThrough(items, kept, w) && LaneOf(items[kept..], w) == FellBack(true)
    ensures multiset(Measured(RunLog(items, kept, w))) == multiset(items) + multiset(Valid(items[kept..], w.wait.rows))
  {
    var good := Valid(items[kept..], w.wait.rows);
    RunMeasures(items, kept, w);
    MeasuredParts(good, ByClient, items[kept..], ByFallback);
  }

  /** Two frames for the clients, one valid row, the leftover pass throws: the counters say three. */
  lemma OneFrameCountedTwice()
    ensures var items := [Item("/a", "a"), Item("/b", "b")];
            var w := World(true, 0.0, Threw, WaitReturned(map["a" := true], 1.0), Threw, Counted(Counters(0, 2, 0)), Threw);
            && GoesThrough(items, 0, w) && LaneAddsUp(items, w) && Total(items, 0, w).Sum() == 3
  {
    var items := [Item("/a", "a"), Item("/b", "b")];
    var rows := map["a" := true];
    assert items[0..] == items && items[..1] == [items[0]] && items[..1][..0] == [];
    assert Valid([], rows) == [] && Leftovers([], rows) == [];
    assert Valid(items[..1], rows) == [items[0]] && Leftovers(items[..1], rows) == [];
    assert Valid(items, rows) == [items[0]] && Leftovers(items, rows) == [items[1]];
  }

  /** Both frames come back from the cache of the leftover pass: the counters say none. */
  lemma CacheHitsAreDropped()
    ensures var items := [Item("/a", "a"), Item("/b", "b")];
            var w := World(true, 0.0, Threw, WaitReturned(map[], 1.0), Counted(Counters(2, 0, 0)), Threw, Threw);
            && GoesThrough(items, 0, w) && LaneAddsUp(items, w) && Total(items, 0, w).Sum() == 0
  {
    var items := [Item("/a", "a"), Item("/b", "b")];
    assert items[0..] == items && items[..1] == [items[0]] && items[..1][..0] == [];
    assert Valid([], map[]) == [] && Leftovers([], map[]) == [];
    assert Valid(items[..1], map[]) == [] && Leftovers(items[..1], map[]) == [items[0]];
    assert Valid(items, map[]) == [] && Leftovers(items, map[]) == items;
  }
}
