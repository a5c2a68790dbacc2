/** The registry of peers: sightings expire after a time to live, and reading prunes what has expired.
    Times are nanoseconds; the clock never runs backwards between calls. */
module Registry {
  const NODE_TTL := 30 * 1_000_000_000

  datatype Sighting<V> = Sighting(value: V, lastSeen: int)

  type Table<V> = map<string, Sighting<V>>

  /** What a read at `now` reports and keeps. */
  function Fresh<V>(table: Table<V>, now: int): (kept: Table<V>)
    ensures kept.Keys <= table.Keys
  {
    map k | k in table && table[k].lastSeen >= now - NODE_TTL :: table[k]
  }

  // ---- whole runs of one table ----

  datatype Op<V> =
    | See(key: string, value: V, now: int)
    | Read(now: int)

  /** The table the registry keeps: reads prune it. */
  function TableAfter<V>(ops: seq<Op<V>>): Table<V> {
    if ops == [] then map[]
    else
      var before := TableAfter(ops[..|ops| - 1]);
      match ops[|ops| - 1]
      case See(key, value, now) => before[key := Sighting(value, now)]
      case Read(now) => Fresh(before, now)
  }

  /** The latest sighting of every key, never forgotten. */
  function History<V>(ops: seq<Op<V>>): Table<V> {
    if ops == [] then map[]
    else
      var before := History(ops[..|ops| - 1]);
      match ops[|ops| - 1]
      case See(key, value, now) => before[key := Sighting(value, now)]
      case Read(now) => before
  }

  ghost predicate ClockRunsForward<V>(ops: seq<Op<V>>) {
    forall i, j | 0 <= i < j < |ops| :: ops[i].now <= ops[j].now
  }

  /** Pruning is invisible to every later read: at any time not before the last call, the registry
      reports exactly what the full history reports, however earlier reads were interleaved. */
  lemma {:induction false} PruningIsInvisible<V>(ops: seq<Op<V>>, now: int)
    requires ClockRunsForward(ops) && (ops != [] ==> ops[|ops| - 1].now <= now)
    ensures Fresh(TableAfter(ops), now) == Fresh(History(ops), now)
  {
    if ops != [] {
      PruningIsInvisible(ops[..|ops| - 1], now);
      var before, last := TableAfter(ops[..|ops| - 1]), ops[|ops| - 1];
      match last
      case See(key, value, at) =>
        FreshUpdate(before, key, Sighting(value, at), now);
        FreshUpdate(History(ops[..|ops| - 1]), key, Sighting(value, at), now);
      case Read(at) =>
        assert Fresh(Fresh(before, at), now) == Fresh(before, now);
    }
  }

  lemma FreshUpdate<V>(table: Table<V>, key: string, s: Sighting<V>, now: int)
    ensures Fresh(table[key := s], now) ==
            if s.lastSeen >= now - NODE_TTL then Fresh(table, now)[key := s] else Fresh(table, now) - {key}
  {
  }

  ghost predicate SeenAt<V>(ops: seq<Op<V>>, i: nat, key: string)
    requires i < |ops|
  {
    ops[i].See? && ops[i].key == key
  }

  /** Step `i` is the last sighting of `key`. */
  ghost predicate LastSeenAt<V>(ops: seq<Op<V>>, i: nat, key: string)
    requires i < |ops|
  {
    SeenAt(ops, i, key) && forall j | i < j < |ops| :: !SeenAt(ops, j, key)
  }

  lemma {:induction false} HistoryIsLastSighting<V>(ops: seq<Op<V>>, key: string)
    ensures key in History(ops) <==> exists i | 0 <= i < |ops| :: LastSeenAt(ops, i, key)
    ensures forall i | 0 <= i < |ops| && LastSeenAt(ops, i, key) ::
              key in History(ops) && History(ops)[key] == Sighting(ops[i].value, ops[i].now)
  {
    if ops != [] {
      var k := |ops| - 1;
      var before := ops[..k];
      HistoryIsLastSighting(before, key);
      if SeenAt(ops, k, key) {
        assert LastSeenAt(ops, k, key);
      } else {
        forall i | 0 <= i < |ops| ensures LastSeenAt(ops, i, key) <==> i < k && LastSeenAt(before, i, key) {
          assert forall j | 0 <= j < k :: SeenAt(ops, j, key) == SeenAt(before, j, key);
        }
      }
    }
  }

  /** A read reports a key if and only if it was seen within the last thirty seconds, and reports its latest
      announcement. */
  lemma ReportsWhatWasSeenRecently<V>(ops: seq<Op<V>>, key: string, now: int)
    requires ClockRunsForward(ops) && (ops != [] ==> ops[|ops| - 1].now <= now)
    ensures var report := Fresh(TableAfter(ops), now);
            && (key in report <==> exists i | 0 <= i < |ops| :: SeenAt(ops, i, key) && now - ops[i].now <= 30_000_000_000)
            && forall i | 0 <= i < |ops| && LastSeenAt(ops, i, key) && key in report ::
                 report[key] == Sighting(ops[i].value, ops[i].now)
  {
    PruningIsInvisible(ops, now);
    HistoryIsLastSighting(ops, key);
    if i :| 0 <= i < |ops| && SeenAt(ops, i, key) && ops[i].now >= now - NODE_TTL {
      var last := FindLast(ops, i, key);
      assert ops[i].now <= ops[last].now;
    }
  }

  lemma FindLast<V>(ops: seq<Op<V>>, i: nat, key: string) returns (last: nat)
    requires i < |ops| && SeenAt(ops, i, key)
    ensures i <= last < |ops| && LastSeenAt(ops, last, key)
    decreases |ops| - i
  {
    if j :| i < j < |ops| && SeenAt(ops, j, key) {
      last := FindLast(ops, j, key);
    } else {
      last := i;
    }
  }

  /** Step `i` saw the key and no later read found that sighting expired. */
  ghost predicate Survives<V>(ops: seq<Op<V>>, i: nat, key: string)
    requires i < |ops|
  {
    SeenAt(ops, i, key) && forall j | i < j < |ops| && ops[j].Read? :: ops[i].now >= ops[j].now - NODE_TTL
  }

  lemma SurvivesPrefix<V>(ops: seq<Op<V>>, i: nat, key: string)
    requires i < |ops| - 1
    ensures var k := |ops| - 1;
            Survives(ops, i, key) <==>
            Survives(ops[..k], i, key) && (ops[k].Read? ==> ops[i].now >= ops[k].now - NODE_TTL)
  {
    var k := |ops| - 1;
    assert forall j | 0 <= j < k :: ops[..k][j] == ops[j];
  }

  /** What pruning does show: the next announcement of a key counts as a new peer if and only if every
      earlier sighting was found expired by a read in between. */
  lemma {:induction false} AnnouncedAsNew<V>(ops: seq<Op<V>>, key: string)
    requires ClockRunsForward(ops)
    ensures key in TableAfter(ops) <==> exists i | 0 <= i < |ops| :: Survives(ops, i, key)
    ensures forall i | 0 <= i < |ops| && Survives(ops, i, key) :: TableAfter(ops)[key].lastSeen >= ops[i].now
    ensures key in TableAfter(ops) ==>
              exists i | 0 <= i < |ops| :: Survives(ops, i, key) && TableAfter(ops)[key].lastSeen == ops[i].now
  {
    if ops != [] {
      var k := |ops| - 1;
      AnnouncedAsNew(ops[..k], key);
      forall i | 0 <= i < k
        ensures Survives(ops, i, key) <==>
                Survives(ops[..k], i, key) && (ops[k].Read? ==> ops[i].now >= ops[k].now - NODE_TTL)
      {
        SurvivesPrefix(ops, i, key);
      }
      if SeenAt(ops, k, key) {
        assert Survives(ops, k, key);
      }
    }
  }

  /** Two runs with the same sightings, of which only one was read in between: the reports agree, but
      only the read run announces the returning peer as new. */
  lemma ReadsShowOnlyInAnnouncements()
    ensures var quiet := [See("w1", 0, 0)];
            var polled := [See("w1", 0, 0), Read(NODE_TTL + 1)];
            && History(quiet) == History(polled)
            && "w1" in TableAfter(quiet) && "w1" !in TableAfter(polled)
  {
    var quiet: seq<Op<int>> := [See("w1", 0, 0)];
    var polled: seq<Op<int>> := [See("w1", 0, 0), Read(NODE_TTL + 1)];
    assert quiet[..0] == [] && polled[..1] == quiet;
  }

  // ---- the registry object ----

  /** `out` lists the entries of `table`, each once, in the order of `keys`. */
  ghost predicate Enumerates<V>(out: seq<Sighting<V>>, keys: seq<string>, table: Table<V>) {
    && |out| == |keys| == |table|
    && (forall k | k in table :: k in keys)
    && (forall i | 0 <= i < |keys| :: keys[i] in table && out[i] == table[keys[i]])
  }

  datatype Node = Node(nodeId: string, role: string, addr: string, piVersion: string, wbppVersion: string)

  datatype Incompatible = Incompatible(addr: string, reason: string)

  class PeerRegistry {
    var nodes: Table<Node>
    var incompatible: Table<Incompatible>

    constructor ()
      ensures nodes == map[] && incompatible == map[]
    {
      nodes, incompatible := map[], map[];
    }

    /** Records or refreshes a peer; true if it was not in the table. */
    method Upsert(n: Node, now: int) returns (isNew: bool)
      modifies this`nodes
      ensures nodes == old(nodes)[n.nodeId := Sighting(n, now)]
      ensures isNew <==> n.nodeId !in old(nodes)
    {
      isNew := n.nodeId !in nodes;
      nodes := nodes[n.nodeId := Sighting(n, now)];
    }

    /** Peers seen within the time to live; the rest are pruned. */
    method Alive(now: int) returns (out: seq<Sighting<Node>>, ghost keys: seq<string>)
      modifies this`nodes
      ensures nodes == Fresh(old(nodes), now) && Enumerates(out, keys, nodes)
    {
      nodes, out, keys := PruneAndList(nodes, now - NODE_TTL);
    }

    /** Records a node that cannot join; true the first time this address and reason are seen. */
    method NoteIncompatible(addr: string, reason: string, now: int) returns (isNew: bool)
      modifies this`incompatible
      ensures var key := addr + "|" + reason;
              && incompatible == old(incompatible)[key := Sighting(Incompatible(addr, reason), now)]
              && (isNew <==> key !in old(incompatible))
    {
      var key := addr + "|" + reason;
      isNew := key !in incompatible;
      incompatible := incompatible[key := Sighting(Incompatible(addr, reason), now)];
    }

    method IncompatibleNodes(now: int) returns (out: seq<Sighting<Incompatible>>, ghost keys: seq<string>)
      modifies this`incompatible
      ensures incompatible == Fresh(old(incompatible), now) && Enumerates(out, keys, incompatible)
    {
      incompatible, out, keys := PruneAndList(incompatible, now - NODE_TTL);
    }
  }

  /** The table while `rest` is still to be visited: expired entries outside it are gone. */
  function Kept<V>(table: Table<V>, rest: set<string>, cutoff: int): Table<V> {
    map k | k in table && (k in rest || table[k].lastSeen >= cutoff) :: table[k]
  }

  /** The entries visited and found fresh. */
  function Listed<V>(table: Table<V>, rest: set<string>, cutoff: int): Table<V> {
    map k | k in table && k !in rest && table[k].lastSeen >= cutoff :: table[k]
  }

  lemma Visit<V>(table: Table<V>, rest: set<string>, cutoff: int, k: string)
    requires k in rest && k in table
    ensures var more, stays := rest - {k}, table[k].lastSeen >= cutoff;
            && Kept(table, more, cutoff) == (if stays then Kept(table, rest, cutoff) else Kept(table, rest, cutoff) - {k})
            && Listed(table, more, cutoff) ==
               if stays then Listed(table, rest, cutoff)[k := table[k]] else Listed(table, rest, cutoff)
  {
  }

  lemma EnumerateOneMore<V>(out: seq<Sighting<V>>, keys: seq<string>, table: Table<V>, k: string, s: Sighting<V>)
    requires Enumerates(out, keys, table) && k !in table
    ensures Enumerates(out + [s], keys + [k], table[k := s])
  {
  }

  /** The loop both reads share: visit every entry in some order, drop the expired, list the rest. */
  method PruneAndList<V>(table: Table<V>, cutoff: int)
    returns (kept: Table<V>, out: seq<Sighting<V>>, ghost keys: seq<string>)
    ensures kept == map k | k in table && table[k].lastSeen >= cutoff :: table[k]
    ensures Enumerates(out, keys, kept)
  {
    var rest := table.Keys;
    kept, out, keys := table, [], [];
    while rest != {}
      invariant rest <= table.Keys
      invariant kept == Kept(table, rest, cutoff)
      invariant Enumerates(out, keys, Listed(table, rest, cutoff))
      decreases rest
    {
      var k :| k in rest;
      Visit(table, rest, cutoff, k);
      if kept[k].lastSeen < cutoff {
        kept := kept - {k};
      } else {
        EnumerateOneMore(out, keys, Listed(table, rest, cutoff), k, table[k]);
        out, keys := out + [kept[k]], keys + [k];
      }
      rest := rest - {k};
    }
    assert Listed(table, {}, cutoff) == kept;
  }
}
