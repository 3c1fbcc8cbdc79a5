/** The module-level pipeline (collectd.py:191-212): `take_snapshots` queues
    one merged snapshot per connection that has counted something, and
    `send_stats` takes one entry off the queue and sends its packets. */
module Pipeline {
  import opened Python
  import opened Wire
  import opened Counters
  import opened Connections
  import opened Packets
  import opened PacketCheck

  /** An item of the `snaps` queue: `[clock, stats, conn]`. */
  datatype Entry = Entry(when: int, stats: map<Bytes, real>, conn: Connection)

  /** One `sock.sendto(message, addr)`. */
  datatype Datagram = Datagram(packet: Bytes, addr: Addr)

  /** Successive `stats.update(snapshot)` calls: a later snapshot wins. */
  function Merge(snapshots: seq<map<Bytes, real>>): map<Bytes, real> {
    if snapshots == [] then map[] else Merge(snapshots[..|snapshots| - 1]) + snapshots[|snapshots| - 1]
  }

  /** A name is in the merge exactly when some snapshot has it, and it holds
      the value of the last snapshot that has it. */
  lemma {:induction false} MergeLatest(snapshots: seq<map<Bytes, real>>, name: Bytes)
    ensures name in Merge(snapshots) <==> exists i :: 0 <= i < |snapshots| && name in snapshots[i]
    ensures forall i :: 0 <= i < |snapshots| && name in snapshots[i] &&
                        (forall j :: i < j < |snapshots| ==> name !in snapshots[j]) ==>
                        name in Merge(snapshots) && Merge(snapshots)[name] == snapshots[i][name]
    decreases |snapshots|
  {
    if snapshots != [] {
      var front := snapshots[..|snapshots| - 1];
      MergeLatest(front, name);
      assert forall i :: 0 <= i < |front| ==> front[i] == snapshots[i];
    }
  }

  /** The merging loop of take_snapshots. */
  method MergeAll(snapshots: seq<map<Bytes, real>>) returns (stats: map<Bytes, real>)
    ensures stats == Merge(snapshots)
  {
    stats := map[];
    var i := 0;
    while i < |snapshots|
      invariant 0 <= i <= |snapshots|
      invariant stats == Merge(snapshots[..i])
    {
      assert snapshots[..i + 1][..i] == snapshots[..i];
      stats := stats + snapshots[i];
      i := i + 1;
    }
    assert snapshots[..i] == snapshots;
  }

  function Names(items: seq<(Bytes, Py)>): seq<Bytes> {
    seq(|items|, i requires 0 <= i < |items| => items[i].0)
  }

  /** `items` is `stats.items()` in some order. */
  ghost predicate ItemsOf(items: seq<(Bytes, Py)>, stats: map<Bytes, real>) {
    && Enumerates(Names(items), stats.Keys)
    && forall i :: 0 <= i < |items| ==> items[i].0 in stats && items[i].1 == PyFloat(stats[items[i].0])
  }

  /** The items determine the dict they come from. */
  lemma ItemsDetermine(items: seq<(Bytes, Py)>, a: map<Bytes, real>, b: map<Bytes, real>)
    requires ItemsOf(items, a) && ItemsOf(items, b)
    ensures a == b
  {
    forall k | k in a
      ensures k in b && a[k] == b[k]
    {
      assert k in Names(items);
      var i :| 0 <= i < |items| && Names(items)[i] == k;
    }
    assert a.Keys == b.Keys;
  }

  /** `stats.items()`: the dict's items, in an order the model leaves open. */
  method Items(stats: map<Bytes, real>) returns (items: seq<(Bytes, Py)>)
    ensures ItemsOf(items, stats)
  {
    items := [];
    var rest := stats.Keys;
    while rest != {}
      invariant rest <= stats.Keys
      invariant Distinct(Names(items))
      invariant forall k :: k in Names(items) <==> k in stats && k !in rest
      invariant forall i :: 0 <= i < |items| ==> items[i].0 in stats && items[i].1 == PyFloat(stats[items[i].0])
      decreases |rest|
    {
      var k :| k in rest;
      assert Names(items + [(k, PyFloat(stats[k]))]) == Names(items) + [k];
      items := items + [(k, PyFloat(stats[k]))];
      rest := rest - {k};
    }
  }

  /** The connections of `order` that held cells, in that order. */
  function LiveKeys(views: map<Key, map<Bytes, Cells>>, order: seq<Key>): (r: seq<Key>)
    ensures forall k :: k in r <==> k in order && k in views && Live(views[k]) != {}
  {
    if order == [] then []
    else
      var k := order[|order| - 1];
      LiveKeys(views, order[..|order| - 1]) + (if k in views && Live(views[k]) != {} then [k] else [])
  }

  /** `queue` is `q0` followed by one entry for each of `picked`, its stats
      merged from `lists`, the `i`-th of them stamped with the truncated
      reading `clock(i)`. */
  ghost predicate Queued(q0: seq<Entry>, clock: nat -> real, conns: map<Key, Connection>, picked: seq<Key>,
                         lists: seq<seq<map<Bytes, real>>>, queue: seq<Entry>) {
    && |queue| == |q0| + |picked|
    && |lists| == |picked|
    && queue[..|q0|] == q0
    && forall i :: 0 <= i < |picked| ==>
         picked[i] in conns && queue[|q0| + i] == Entry(Trunc(clock(i)), Merge(lists[i]), conns[picked[i]])
  }

  /** Each of `lists` is the `_snapshot()` of the matching connection. */
  ghost predicate Snapped(views: map<Key, map<Bytes, Cells>>, picked: seq<Key>, names: seq<seq<Bytes>>,
                          lists: seq<seq<map<Bytes, real>>>) {
    && |names| == |picked| && |lists| == |picked|
    && forall i :: 0 <= i < |picked| ==>
         picked[i] in views && SnapshotsIn(views[picked[i]], names[i], lists[i])
  }

  /** The packets of one entry, as sent to its connection's address. */
  function Datagrams(packets: seq<Bytes>, addr: Addr): (r: seq<Datagram>)
    ensures |r| == |packets| && forall i :: 0 <= i < |r| ==> r[i] == Datagram(packets[i], addr)
  {
    seq(|packets|, i requires 0 <= i < |packets| => Datagram(packets[i], addr))
  }

  /** What send_stats does with the entry `e` whose stats it iterates as
      `items`: the packets of `messages` go out, or its error propagates. */
  ghost predicate Delivered(e: Entry, items: seq<(Bytes, Py)>, now: real, enc: DoubleEncoder,
                            sent0: seq<Datagram>, sent: seq<Datagram>, outcome: Outcome) {
    match Packetize(items, PyInt(e.when), now, e.conn.hostname, e.conn.pluginInst, e.conn.pluginName, enc)
    case Ok(packets) => outcome == Done && sent == sent0 + Datagrams(packets, e.conn.collectdAddr)
    case Err(err) => outcome == Raised(err) && sent == sent0
  }

  /** The `snaps` queue and the socket, fed from one registry. */
  class Collector {
    const registry: Registry
    var queue: seq<Entry>
    var sent: seq<Datagram>

    constructor(registry: Registry)
      ensures this.registry == registry && queue == [] && sent == []
    {
      this.registry := registry;
      queue := [];
      sent := [];
    }

    /** take_snapshots: every registered connection, in the order `order`,
        is snapshotted; those among them that held cells (`picked`) get one
        queue entry each. The clock is read once per queued entry, so the `k`-th
        entry queued by this call is stamped with `int(clock(k))`, where
        `clock(k)` is what the `k`-th reading of the clock returns. */
    method TakeSnapshots(clock: nat -> real)
        returns (ghost order: seq<Key>, ghost picked: seq<Key>, ghost names: seq<seq<Bytes>>,
                 ghost lists: seq<seq<map<Bytes, real>>>)
      requires registry.Valid()
      modifies this, registry.AllCounters()
      ensures registry.Valid() && registry.instances == old(registry.instances) && sent == old(sent)
      ensures Enumerates(order, registry.instances.Keys)
      ensures picked == LiveKeys(old(registry.Views()), order)
      ensures Snapped(old(registry.Views()), picked, names, lists)
      ensures Queued(old(queue), clock, registry.instances, picked, lists, queue)
      ensures |queue| == |old(queue)| + |LiveConns(old(registry.Views()))|
      ensures registry.Views() == PartlyZeroed(old(registry.Views()), {})
    {
      ghost var v0 := registry.Views();
      assert v0.Keys == registry.instances.Keys;
      var entries;
      entries, order, picked, names, lists := SnapshotAll(registry, clock);
      QueuedAfter(queue, clock, registry.instances, picked, lists, entries);
      label taken:
      queue := queue + entries;
      ViewsKept@taken(registry);
      QueuedPerConnection(v0, order, old(queue), clock, registry.instances, lists, queue);
    }

    /** send_stats: take the oldest entry and send the packets `messages`
        builds for it to its connection's collectd address. An empty queue
        raises Empty only when `raiseOnEmpty`. */
    method SendStats(raiseOnEmpty: bool, now: real, enc: DoubleEncoder) returns (outcome: Outcome, items: seq<(Bytes, Py)>)
      modifies this
      ensures old(queue) == [] ==>
                queue == [] && sent == old(sent) && outcome == (if raiseOnEmpty then Raised(Empty) else Done)
      ensures old(queue) != [] ==>
                queue == old(queue)[1..] && ItemsOf(items, old(queue)[0].stats) &&
                Delivered(old(queue)[0], items, now, enc, old(sent), sent, outcome)
      ensures forall i :: |old(sent)| <= i < |sent| ==>
                Walk(sent[i].packet) == Ok(KNOWN_CODES) && CheckPacket(8, sent[i].packet) == Done
    {
      items := [];
      if queue == [] {
        outcome := if raiseOnEmpty then Raised(Empty) else Done;
        return;
      }
      var e := queue[0];
      queue := queue[1..];
      items := Items(e.stats);
      var c := e.conn;
      var r := Messages(items, PyInt(e.when), now, c.hostname, c.pluginInst, c.pluginName, enc);
      if r.Err? {
        return Raised(r.error), items;
      }
      var packets := r.value;
      PacketsValid(items, PyInt(e.when), now, c.hostname, c.pluginInst, c.pluginName, enc, packets);
      SendAll(packets, c.collectdAddr);
      outcome := Done;
    }

    /** The `sendto` loop of send_stats. */
    method SendAll(packets: seq<Bytes>, addr: Addr)
      modifies this
      ensures queue == old(queue) && sent == old(sent) + Datagrams(packets, addr)
    {
      var i := 0;
      while i < |packets|
        invariant 0 <= i <= |packets|
        invariant queue == old(queue) && sent == old(sent) + Datagrams(packets[..i], addr)
      {
        assert packets[..i + 1] == packets[..i] + [packets[i]];
        sent := sent + [Datagram(packets[i], addr)];
        i := i + 1;
      }
      assert packets[..i] == packets;
    }
  }

  /** A connection's `_snapshot()` is empty exactly when no counter held a cell. */
  lemma SnapshotsEmpty(view: map<Bytes, Cells>, order: seq<Bytes>, snaps: seq<map<Bytes, real>>)
    requires SnapshotsIn(view, order, snaps)
    ensures snaps == [] <==> Live(view) == {}
  {
    if Live(view) != {} {
      var n :| n in Live(view);
      assert n in order;
      assert |snaps| == |order| > 0;
    } else if order != [] {
      FirstListed(order);
      assert false;
    }
  }

  lemma FirstListed<T>(s: seq<T>)
    ensures |s| > 0 ==> s[0] in s
  {
  }

  /** Halfway through take_snapshots: `order` lists the connections already
      visited, `picked` those of them that had cells, and the queue holds the
      entries made for them. */
  ghost predicate Walked(v0: map<Key, map<Bytes, Cells>>, conns: map<Key, Connection>, todo: set<Key>,
                         order: seq<Key>, picked: seq<Key>, names: seq<seq<Bytes>>,
                         lists: seq<seq<map<Bytes, real>>>, q0: seq<Entry>, clock: nat -> real, queue: seq<Entry>) {
    && Distinct(order) && (forall k :: k in order <==> k in conns && k !in todo)
    && picked == LiveKeys(v0, order)
    && Snapped(v0, picked, names, lists)
    && Queued(q0, clock, conns, picked, lists, queue)
  }

  lemma WalkedLive(v0: map<Key, map<Bytes, Cells>>, conns: map<Key, Connection>, todo: set<Key>,
                   order: seq<Key>, picked: seq<Key>, names: seq<seq<Bytes>>,
                   lists: seq<seq<map<Bytes, real>>>, q0: seq<Entry>, clock: nat -> real, queue: seq<Entry>,
                   key: Key, ord: seq<Bytes>, snaps: seq<map<Bytes, real>>)
    requires Walked(v0, conns, todo, order, picked, names, lists, q0, clock, queue)
    requires key in todo && key in conns && key in v0 && Live(v0[key]) != {} && SnapshotsIn(v0[key], ord, snaps)
    ensures Walked(v0, conns, todo - {key}, order + [key], picked + [key], names + [ord], lists + [snaps],
                   q0, clock, queue + [Entry(Trunc(clock(|picked|)), Merge(snaps), conns[key])])
  {
    assert (order + [key])[..|order|] == order;
    QueueStep(q0, clock, conns, picked, lists, queue, key, snaps);
    SnappedStep(v0, picked, names, lists, key, ord, snaps);
  }

  lemma WalkedSkip(v0: map<Key, map<Bytes, Cells>>, conns: map<Key, Connection>, todo: set<Key>,
                   order: seq<Key>, picked: seq<Key>, names: seq<seq<Bytes>>,
                   lists: seq<seq<map<Bytes, real>>>, q0: seq<Entry>, clock: nat -> real, queue: seq<Entry>, key: Key)
    requires Walked(v0, conns, todo, order, picked, names, lists, q0, clock, queue)
    requires key in todo && key in conns && key in v0 && Live(v0[key]) == {}
    ensures Walked(v0, conns, todo - {key}, order + [key], picked, names, lists, q0, clock, queue)
  {
    assert (order + [key])[..|order|] == order;
  }

  /** The views during take_snapshots: those in `todo` not yet snapshotted. */
  ghost function PartlyZeroed(v0: map<Key, map<Bytes, Cells>>, todo: set<Key>): map<Key, map<Bytes, Cells>> {
    map k | k in v0 :: if k in todo then v0[k] else ZeroedView(v0[k])
  }
  lemma ZeroStep(v0: map<Key, map<Bytes, Cells>>, todo: set<Key>, key: Key)
    requires key in todo && key in v0
    ensures PartlyZeroed(v0, todo)[key := ZeroedView(v0[key])] == PartlyZeroed(v0, todo - {key})
  {
  }

  /** The loop of take_snapshots, up to the `snaps.put` calls: the entries
      it puts, in order. */
  method SnapshotAll(registry: Registry, clock: nat -> real)
      returns (entries: seq<Entry>, ghost order: seq<Key>, ghost picked: seq<Key>, ghost names: seq<seq<Bytes>>,
               ghost lists: seq<seq<map<Bytes, real>>>)
    requires registry.Valid()
    modifies registry.AllCounters()
    ensures registry.Valid() && registry.instances == old(registry.instances)
    ensures Walked(old(registry.Views()), registry.instances, {}, order, picked, names, lists, [], clock, entries)
    ensures registry.Views() == PartlyZeroed(old(registry.Views()), {})
  {
    ghost var v0 := registry.Views();
    ghost var conns := registry.instances;
    entries, order, picked, names, lists := [], [], [], [], [];
    var todo := registry.instances.Keys;
    while todo != {}
      invariant registry.instances == conns && todo <= conns.Keys
      invariant Walked(v0, conns, todo, order, picked, names, lists, [], clock, entries)
      invariant registry.Valid() && registry.Views() == PartlyZeroed(v0, todo)
      decreases |todo|
    {
      var key :| key in todo;
      registry.OwnedInAll(key);
      entries, order, picked, names, lists := Visit(registry, key, clock, v0, todo, entries, order, picked, names, lists);
      todo := todo - {key};
    }
  }

  /** The body of take_snapshots' loop for the connection under `key`: its
      snapshot, and the entry that gets queued for it when that is not
      empty. */
  method Visit(registry: Registry, key: Key, clock: nat -> real, ghost v0: map<Key, map<Bytes, Cells>>, ghost todo: set<Key>,
               entries: seq<Entry>, ghost order: seq<Key>, ghost picked: seq<Key>, ghost names: seq<seq<Bytes>>,
               ghost lists: seq<seq<map<Bytes, real>>>)
      returns (entries': seq<Entry>, ghost order': seq<Key>, ghost picked': seq<Key>, ghost names': seq<seq<Bytes>>,
               ghost lists': seq<seq<map<Bytes, real>>>)
    requires registry.Valid() && key in todo && todo <= registry.instances.Keys
    requires Walked(v0, registry.instances, todo, order, picked, names, lists, [], clock, entries)
    requires registry.Views() == PartlyZeroed(v0, todo)
    modifies registry.instances[key].Owned()
    ensures registry.Valid() && registry.instances == old(registry.instances)
    ensures Walked(v0, registry.instances, todo - {key}, order', picked', names', lists', [], clock, entries')
    ensures registry.Views() == PartlyZeroed(v0, todo - {key})
  {
    ghost var conns := registry.instances;
    var conn := registry.instances[key];
    assert key in registry.Views();
    var snapshots, ord := Advance(registry, key, v0, todo);
    SnapshotsEmpty(v0[key], ord, snapshots);
    if snapshots != [] {
      label snapped:
      var stats := MergeAll(snapshots);
      ViewsKept@snapped(registry);
      WalkedLive(v0, conns, todo, order, picked, names, lists, [], clock, entries, key, ord, snapshots);
      entries' := entries + [Entry(Trunc(clock(|entries|)), stats, conn)];
      picked', names', lists' := picked + [key], names + [ord], lists + [snapshots];
    } else {
      WalkedSkip(v0, conns, todo, order, picked, names, lists, [], clock, entries, key);
      entries', picked', names', lists' := entries, picked, names, lists;
    }
    order' := order + [key];
  }

  /** One round of take_snapshots' loop, as far as the counters go. */
  method Advance(registry: Registry, key: Key, ghost v0: map<Key, map<Bytes, Cells>>, ghost todo: set<Key>)
      returns (snaps: seq<map<Bytes, real>>, ghost order: seq<Bytes>)
    requires registry.Valid() && key in registry.instances && key in todo && key in v0
    requires registry.Views() == PartlyZeroed(v0, todo)
    modifies registry.instances[key].Owned()
    ensures registry.Valid() && registry.instances == old(registry.instances)
    ensures SnapshotsIn(v0[key], order, snaps)
    ensures registry.Views() == PartlyZeroed(v0, todo - {key})
  {
    ghost var before := registry.Views();
    snaps, order := registry.SnapshotOne(key);
    assert before[key] == v0[key];
    ZeroStep(v0, todo, key);
  }

  /** The counters' cells depend only on the registry, its connections and
      their counters. */
  twostate lemma ViewsKept(r: Registry)
    requires unchanged(r) && unchanged(old(r.Conns())) && unchanged(old(r.AllCounters()))
    ensures r.Views() == old(r.Views())
  {
  }

  lemma QueuedAfter(q0: seq<Entry>, clock: nat -> real, conns: map<Key, Connection>, picked: seq<Key>,
                    lists: seq<seq<map<Bytes, real>>>, entries: seq<Entry>)
    requires Queued([], clock, conns, picked, lists, entries)
    ensures Queued(q0, clock, conns, picked, lists, q0 + entries)
  {
    assert (q0 + entries)[..|q0|] == q0;
  }

  lemma QueueStep(q0: seq<Entry>, clock: nat -> real, conns: map<Key, Connection>, picked: seq<Key>,
                  lists: seq<seq<map<Bytes, real>>>, queue: seq<Entry>, key: Key, snaps: seq<map<Bytes, real>>)
    requires Queued(q0, clock, conns, picked, lists, queue) && key in conns
    ensures Queued(q0, clock, conns, picked + [key], lists + [snaps], queue + [Entry(Trunc(clock(|picked|)), Merge(snaps), conns[key])])
  {
    var queue' := queue + [Entry(Trunc(clock(|picked|)), Merge(snaps), conns[key])];
    assert queue'[..|q0|] == queue[..|q0|];
  }

  lemma SnappedStep(views: map<Key, map<Bytes, Cells>>, picked: seq<Key>, names: seq<seq<Bytes>>,
                    lists: seq<seq<map<Bytes, real>>>, key: Key, order: seq<Bytes>, snaps: seq<map<Bytes, real>>)
    requires Snapped(views, picked, names, lists) && key in views && SnapshotsIn(views[key], order, snaps)
    ensures Snapped(views, picked + [key], names + [order], lists + [snaps])
  {
  }

  /** The connections whose counters hold at least one cell. */
  ghost function LiveConns(views: map<Key, map<Bytes, Cells>>): set<Key> {
    set k | k in views && Live(views[k]) != {}
  }

  /** take_snapshots queues exactly one entry per connection that holds a
      cell, whatever order it visits the connections in: none when there is
      no connection or none has counted anything. */
  lemma QueuedPerConnection(views: map<Key, map<Bytes, Cells>>, order: seq<Key>, q0: seq<Entry>, clock: nat -> real,
                            conns: map<Key, Connection>, lists: seq<seq<map<Bytes, real>>>, queue: seq<Entry>)
    requires Enumerates(order, views.Keys)
    requires Queued(q0, clock, conns, LiveKeys(views, order), lists, queue)
    ensures |queue| == |q0| + |LiveConns(views)|
  {
    LiveKeysDistinct(views, order);
    EnumeratesCard(LiveKeys(views, order), LiveConns(views));
  }

  /** A clock that never goes back stamps the entries of one take_snapshots
      in queue order: a later entry never has an earlier second. */
  lemma StampsOrdered(q0: seq<Entry>, clock: nat -> real, conns: map<Key, Connection>, picked: seq<Key>,
                      lists: seq<seq<map<Bytes, real>>>, queue: seq<Entry>)
    requires Queued(q0, clock, conns, picked, lists, queue)
    requires forall i: nat, j: nat :: i <= j ==> clock(i) <= clock(j)
    ensures forall i, j :: |q0| <= i <= j < |queue| ==> queue[i].when <= queue[j].when
  {
    forall i, j | |q0| <= i <= j < |queue|
      ensures queue[i].when <= queue[j].when
    {
      assert queue[i] == Entry(Trunc(clock(i - |q0|)), Merge(lists[i - |q0|]), conns[picked[i - |q0|]]);
      assert queue[j] == Entry(Trunc(clock(j - |q0|)), Merge(lists[j - |q0|]), conns[picked[j - |q0|]]);
      TruncMonotone(clock(i - |q0|), clock(j - |q0|));
    }
  }

  /** Picking from a list without repeats gives a list without repeats. */
  lemma {:induction false} LiveKeysDistinct(views: map<Key, map<Bytes, Cells>>, order: seq<Key>)
    requires Distinct(order)
    ensures Distinct(LiveKeys(views, order))
    decreases |order|
  {
    if order != [] {
      var front := order[..|order| - 1];
      assert forall i :: 0 <= i < |front| ==> front[i] == order[i];
      LiveKeysDistinct(views, front);
      assert order[|order| - 1] !in front;
    }
  }

  /** A list of the members of a set, each once, is as long as the set is
      large. */
  lemma {:induction false} EnumeratesCard<T(!new)>(s: seq<T>, members: set<T>)
    requires Enumerates(s, members)
    ensures |s| == |members|
    decreases |s|
  {
    if s == [] {
      assert members == {};
    } else {
      var x := s[|s| - 1];
      var front := s[..|s| - 1];
      assert forall i :: 0 <= i < |front| ==> front[i] == s[i];
      assert forall y :: y in front <==> y in members - {x};
      EnumeratesCard(front, members - {x});
    }
  }
}
