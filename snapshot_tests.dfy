/** The take_snapshots tests of unit_tests.py, replayed on the model:
    connections and counters are made through the registry, take_snapshots
    runs on a collector, and `assertQueued` checks how many entries were
    queued and that the stats of each make one valid packet, whatever order
    the dict yields them in. The hostname is a parameter `here`; the clock
    gives
    take_snapshots the readings `clock(0)`, `clock(1)`, ... and `messages` the
    reading `later`. */
module SnapshotTests {
  import opened Python
  import opened Wire
  import opened Counters
  import opened Connections
  import opened PacketCheck
  import opened Pipeline
  import opened PacketTests
  import opened UnitTests

  /** assertQueued(size) passes on the entries `queue`. */
  ghost predicate QueuedValid(size: int, queue: seq<Entry>, later: real, here: Bytes, enc: DoubleEncoder) {
    && |queue| == size
    && forall i, items :: 0 <= i < |queue| && ItemsOf(items, queue[i].stats) ==>
         ValidMessages(1, DefaultMessages(items, later, here, enc)) == Done
  }

  /** The items of a dict with one key. */
  lemma SingleItems(items: seq<(Bytes, Py)>, name: Bytes, v: real)
    requires ItemsOf(items, map[name := v])
    ensures items == [(name, PyFloat(v))]
  {
    EnumeratesCard(Pipeline.Names(items), {name});
    assert Pipeline.Names(items)[0] == items[0].0;
  }

  /** The items of a dict with two keys, in either order. */
  lemma PairItems(items: seq<(Bytes, Py)>, a: Bytes, b: Bytes, u: real, v: real)
    requires a != b && ItemsOf(items, map[a := u, b := v])
    ensures |items| == 2 && Sizes(items) == 40 + |a| + |b| && AllNumeric(items)
  {
    var names := Pipeline.Names(items);
    EnumeratesCard(names, {a, b});
    assert names[0] == items[0].0 && names[1] == items[1].0;
    assert items[1..][1..] == [];
    assert IsNumeric(items[0].1) && IsNumeric(items[1].1);
  }

  /** A stat of a counter with one cell under the empty specific is worth
      one valid packet. */
  lemma OneStat(items: seq<(Bytes, Py)>, name: Bytes, v: real, later: real, here: Bytes, enc: DoubleEncoder)
    requires ItemsOf(items, map[name := v]) && ClockFits(later) && 72 + |here| + |name| <= MAX_PACKET_SIZE
    ensures ValidMessages(1, DefaultMessages(items, later, here, enc)) == Done
  {
    SingleItems(items, name, v);
    SmallMessages(items, later, here, enc);
  }

  /** The entry of a connection whose one counter `cat` recorded `stat`
      once, under the empty specific, is worth one valid packet. */
  lemma OneEntry(cat: Bytes, stat: Bytes, order: seq<Bytes>, snaps: seq<map<Bytes, real>>, items: seq<(Bytes, Py)>,
                 later: real, here: Bytes, enc: DoubleEncoder)
    requires Plain(cat) && Plain(stat) && ClockFits(later) && 73 + |here| + |cat| + |stat| <= MAX_PACKET_SIZE
    requires SnapshotsIn(map[cat := map["" := map[stat := 5.0]]], order, snaps)
    requires ItemsOf(items, Merge(snaps))
    ensures ValidMessages(1, DefaultMessages(items, later, here, enc)) == Done
  {
    var name := cat + "-" + stat;
    var cells: Cells := map["" := map[stat := 5.0]];
    assert "" in cells;
    OneCounter(cat, cells, order, snaps);
    TopName(cat, stat);
    OneCellAs(Naming(cat), stat, name, 5.0, snaps[0]);
    MergeOne(snaps);
    OneStat(items, name, 5.0, later, here, enc);
  }

  /** `_snapshot()` of a connection with two counters that both hold cells:
      one snapshot per counter, in either order. */
  lemma TwoCounters(a: Bytes, ca: Cells, b: Bytes, cb: Cells, order: seq<Bytes>, snaps: seq<map<Bytes, real>>)
    requires a != b && ca != map[] && cb != map[]
    requires SnapshotsIn(map[a := ca, b := cb], order, snaps)
    ensures |snaps| == 2
    ensures || (IsSnapshot(a, ca, snaps[0]) && IsSnapshot(b, cb, snaps[1]))
            || (IsSnapshot(b, cb, snaps[0]) && IsSnapshot(a, ca, snaps[1]))
  {
    var view := map[a := ca, b := cb];
    assert Live(view) == {a, b};
    EnumeratesCard(order, Live(view));
    assert order[0] in order && order[1] in order;
  }

  /** `record(stat=5)` on a new counter. */
  method RecordFive(counter: Counter, stat: Bytes)
    requires counter.counts == map[]
    modifies counter
    ensures counter.counts == map["" := map[stat := 5.0]]
  {
    var empty: Cells := map[];
    RecordTop(empty, [(stat, PyInt(5))]);
    AddNew(empty, "", stat, PyInt(5));
    var _ := counter.Record([], [(stat, PyInt(5))]);
  }

  /** The cells of a connection without counters. */
  lemma NoView(conn: Connection)
    requires conn.counters == map[]
    ensures conn.View() == map[]
  {
  }

  /** The cells of a connection with one counter. */
  lemma OneView(conn: Connection, name: Bytes, c: Counter)
    requires conn.counters == map[name := c]
    ensures conn.View() == map[name := c.counts]
  {
  }

  /** The cells of a connection with two counters. */
  lemma TwoViews(conn: Connection, a: Bytes, ca: Counter, b: Bytes, cb: Counter)
    requires conn.counters == map[a := ca, b := cb]
    ensures conn.View() == map[a := ca.counts, b := cb.counts]
  {
  }

  /** The cells of a registry with one connection. */
  lemma OneConn(registry: Registry, key: Key, conn: Connection)
    requires registry.instances == map[key := conn]
    ensures registry.Views() == map[key := conn.View()]
  {
  }

  /** The cells of a registry with two connections. */
  lemma TwoConns(registry: Registry, k1: Key, conn1: Connection, k2: Key, conn2: Connection)
    requires registry.instances == map[k1 := conn1, k2 := conn2]
    ensures registry.Views() == map[k1 := conn1.View(), k2 := conn2.View()]
  {
  }

  /** The counters of a registry with one connection and one counter. */
  lemma CountersOne(registry: Registry, key: Key, conn: Connection, name: Bytes, c: Counter)
    requires registry.instances == map[key := conn] && conn.counters == map[name := c]
    ensures registry.AllCounters() == {c}
  {
    assert registry.instances[key].counters[name] == c;
  }

  /** The counters of a registry with one connection and two counters. */
  lemma CountersTwo(registry: Registry, key: Key, conn: Connection, a: Bytes, ca: Counter, b: Bytes, cb: Counter)
    requires registry.instances == map[key := conn] && conn.counters == map[a := ca, b := cb] && a != b
    ensures registry.AllCounters() == {ca, cb}
  {
    assert registry.instances[key].counters[a] == ca;
    assert registry.instances[key].counters[b] == cb;
  }

  /** The counters of a registry with two connections of one counter each. */
  lemma CountersPair(registry: Registry, k1: Key, conn1: Connection, a: Bytes, ca: Counter,
                     k2: Key, conn2: Connection, b: Bytes, cb: Counter)
    requires k1 != k2 && registry.instances == map[k1 := conn1, k2 := conn2]
    requires conn1.counters == map[a := ca] && conn2.counters == map[b := cb]
    ensures registry.AllCounters() == {ca, cb}
  {
    assert registry.instances[k1].counters[a] == ca;
    assert registry.instances[k2].counters[b] == cb;
  }

  /** The counters of a registry with one connection that has none. */
  lemma CountersNone(registry: Registry, key: Key, conn: Connection)
    requires registry.instances == map[key := conn] && conn.counters == map[]
    ensures registry.AllCounters() == {}
  {
  }

  /** take_snapshots on the collector's registry, from an empty queue: one
      entry per connection that held cells, each merging that connection's
      snapshots. */
  method Take(collector: Collector, registry: Registry, clock: nat -> real, ghost views: map<Key, map<Bytes, Cells>>)
      returns (queue: seq<Entry>, ghost picked: seq<Key>, ghost names: seq<seq<Bytes>>,
               ghost lists: seq<seq<map<Bytes, real>>>)
    requires collector.registry == registry && collector.queue == []
    requires registry.Valid() && registry.Views() == views
    modifies collector, registry.AllCounters()
    ensures collector.queue == queue && registry.Valid() && registry.instances == old(registry.instances)
    ensures |queue| == |LiveConns(views)|
    ensures Snapped(views, picked, names, lists)
    ensures Queued([], clock, registry.instances, picked, lists, queue)
  {
    ghost var order;
    order, picked, names, lists := collector.TakeSnapshots(clock);
    queue := collector.queue;
  }

  /** `Connection(here)` on an empty registry. */
  method NewConn(here: Bytes) returns (registry: Registry, collector: Collector, conn: Connection)
    ensures fresh(registry) && fresh(collector) && fresh(conn) && registry.Valid()
    ensures collector.registry == registry && collector.queue == []
    ensures registry.instances == map[DefaultKey(here) := conn] && conn.counters == map[]
  {
    registry := new Registry();
    collector := new Collector(registry);
    conn := registry.Connect(DefaultKey(here));
  }

  /** `conn.<name>.record(stat=5)` for a name the connection has no counter
      for yet. */
  method RecordNew(registry: Registry, key: Key, name: Bytes, stat: Bytes) returns (counter: Counter)
    requires registry.Valid() && key in registry.instances && name !in registry.instances[key].counters
    requires Plain(name)
    modifies registry.instances[key]
    ensures registry.Valid() && registry.instances == old(registry.instances) && fresh(counter)
    ensures registry.instances[key].counters == old(registry.instances[key].counters)[name := counter]
    ensures counter.counts == map["" := map[stat := 5.0]]
  {
    PlainNoUnderscore(name);
    var r := registry.Attribute(key, name);
    counter := r.value;
    RecordFive(counter, stat);
  }

  /** test_none: with no connection, nothing is queued. */
  method NoConnections(clock: nat -> real) returns (queued: seq<Entry>)
    ensures queued == []
  {
    var registry := new Registry();
    var collector := new Collector(registry);
    ghost var views: map<Key, map<Bytes, Cells>> := map[];
    assert registry.Views() == views;
    assert LiveConns(views) == {};
    var queue, picked, names, lists := Take(collector, registry, clock, views);
    queued := queue;
  }

  /** test_empty: neither a connection without counters nor one whose
      counter holds no cell has anything to queue. The test's second
      `assertQueued(0)` follows `conn.test` without another take_snapshots;
      here take_snapshots runs again and still queues nothing, which implies
      the test's assertion since take_snapshots only ever appends. */
  method EmptyCounters(here: Bytes, test: Bytes, clock: nat -> real) returns (first: seq<Entry>, second: seq<Entry>)
    requires Plain(test)
    ensures first == [] && second == []
  {
    var registry, collector, conn := NewConn(here);
    var key := DefaultKey(here);
    NoView(conn);
    OneConn(registry, key, conn);
    CountersNone(registry, key, conn);
    ghost var views: map<Key, map<Bytes, Cells>> := map[key := map[]];
    assert LiveConns(views) == {};
    ghost var picked, names, lists;
    first, picked, names, lists := Take(collector, registry, clock, views);
    var counter := AddEmpty(registry, key, test);
    ghost var views' := EmptyView(registry, key, conn, test, counter);
    second, picked, names, lists := Take(collector, registry, clock, views');
  }

  /** `conn.<name>` for a name the connection has no counter for yet. */
  method AddEmpty(registry: Registry, key: Key, name: Bytes) returns (counter: Counter)
    requires registry.Valid() && key in registry.instances && name !in registry.instances[key].counters
    requires Plain(name)
    modifies registry.instances[key]
    ensures registry.Valid() && registry.instances == old(registry.instances) && fresh(counter)
    ensures registry.instances[key].counters == old(registry.instances[key].counters)[name := counter]
    ensures counter.counts == map[]
  {
    PlainNoUnderscore(name);
    var r := registry.Attribute(key, name);
    counter := r.value;
  }

  /** A registry whose one connection has one counter with no cell. */
  lemma EmptyView(registry: Registry, key: Key, conn: Connection, name: Bytes, counter: Counter)
      returns (views: map<Key, map<Bytes, Cells>>)
    requires registry.instances == map[key := conn] && conn.counters == map[name := counter]
    requires counter.counts == map[]
    ensures registry.Views() == views && LiveConns(views) == {} && registry.AllCounters() == {counter}
  {
    var noCells: Cells := map[];
    views := map[key := map[name := noCells]];
    OneView(conn, name, counter);
    OneConn(registry, key, conn);
    CountersOne(registry, key, conn, name, counter);
    assert Live(views[key]) == {};
  }

  /** test_regular: one counter of one connection that recorded a stat
      gives one entry. */
  method Regular(here: Bytes, test: Bytes, foo: Bytes, clock: nat -> real, later: real, enc: DoubleEncoder)
    returns (queued: seq<Entry>)
    requires Plain(test) && Plain(foo) && ClockFits(later) && 73 + |here| + |test| + |foo| <= MAX_PACKET_SIZE
    ensures QueuedValid(1, queued, later, here, enc)
  {
    var registry, collector, conn := NewConn(here);
    var key := DefaultKey(here);
    var counter := RecordNew(registry, key, test, foo);
    var cells: Cells := map["" := map[foo := 5.0]];
    ghost var views := map[key := map[test := cells]];
    OneView(conn, test, counter);
    OneConn(registry, key, conn);
    CountersOne(registry, key, conn, test, counter);
    ghost var picked, names, lists;
    queued, picked, names, lists := Take(collector, registry, clock, views);
    RegularQueue(key, test, foo, views, picked, names, lists, queued, clock, registry.instances, later, here, enc);
  }

  lemma RegularQueue(key: Key, test: Bytes, foo: Bytes, views: map<Key, map<Bytes, Cells>>, picked: seq<Key>,
                     names: seq<seq<Bytes>>, lists: seq<seq<map<Bytes, real>>>, queue: seq<Entry>, clock: nat -> real,
                     conns: map<Key, Connection>, later: real, here: Bytes, enc: DoubleEncoder)
    requires Plain(test) && Plain(foo) && ClockFits(later) && 73 + |here| + |test| + |foo| <= MAX_PACKET_SIZE
    requires views == map[key := map[test := map["" := map[foo := 5.0]]]]
    requires |queue| == |LiveConns(views)| && Snapped(views, picked, names, lists)
    requires Queued([], clock, conns, picked, lists, queue)
    ensures QueuedValid(1, queue, later, here, enc)
  {
    LiveOne(key, test, foo, views);
    forall i, items | 0 <= i < |queue| && ItemsOf(items, queue[i].stats)
      ensures ValidMessages(1, DefaultMessages(items, later, here, enc)) == Done
    {
      OneEntry(test, foo, names[i], lists[i], items, later, here, enc);
    }
  }

  /** The connection of test_regular holds a cell. */
  lemma LiveOne(key: Key, test: Bytes, foo: Bytes, views: map<Key, map<Bytes, Cells>>)
    requires views == map[key := map[test := map["" := map[foo := 5.0]]]]
    ensures |LiveConns(views)| == 1
  {
    assert "" in views[key][test];
    assert test in Live(views[key]);
    assert LiveConns(views) == {key};
  }

  /** test_multiple_counters: two counters of one connection give one entry
      that merges their snapshots. */
  method MultipleCounters(here: Bytes, foo: Bytes, bar: Bytes, baz: Bytes, clock: nat -> real, later: real, enc: DoubleEncoder)
    returns (queued: seq<Entry>)
    requires Plain(foo) && Plain(bar) && Plain(baz) && foo != bar && ClockFits(later)
    requires 94 + |here| + |foo| + |bar| + 2 * |baz| <= MAX_PACKET_SIZE
    ensures QueuedValid(1, queued, later, here, enc)
  {
    var registry, collector, key, c1, c2 := CountersSetup(here, foo, bar, baz);
    ghost var cells: Cells := map["" := map[baz := 5.0]];
    ghost var views := map[key := map[foo := cells, bar := cells]];
    ghost var picked, names, lists;
    queued, picked, names, lists := Take(collector, registry, clock, views);
    CountersQueue(key, foo, bar, baz, views, picked, names, lists, queued, clock, registry.instances, later, here, enc);
  }

  /** `conn = Connection(here)`, then `conn.<foo>.record(<baz>=5)` and
      `conn.<bar>.record(<baz>=5)`. */
  method CountersSetup(here: Bytes, foo: Bytes, bar: Bytes, baz: Bytes)
      returns (registry: Registry, collector: Collector, key: Key, c1: Counter, c2: Counter)
    requires Plain(foo) && Plain(bar) && foo != bar
    ensures fresh(registry) && fresh(collector) && fresh(c1) && fresh(c2) && registry.AllCounters() == {c1, c2}
    ensures collector.registry == registry && collector.queue == [] && registry.Valid() && key == DefaultKey(here)
    ensures registry.Views() == map[key := map[foo := map["" := map[baz := 5.0]], bar := map["" := map[baz := 5.0]]]]
  {
    var conn;
    registry, collector, conn := NewConn(here);
    key := DefaultKey(here);
    c1 := RecordNew(registry, key, foo, baz);
    c2 := RecordNew(registry, key, bar, baz);
    TwoViews(conn, foo, c1, bar, c2);
    OneConn(registry, key, conn);
    CountersTwo(registry, key, conn, foo, c1, bar, c2);
  }

  lemma CountersQueue(key: Key, foo: Bytes, bar: Bytes, baz: Bytes, views: map<Key, map<Bytes, Cells>>, picked: seq<Key>,
                      names: seq<seq<Bytes>>, lists: seq<seq<map<Bytes, real>>>, queue: seq<Entry>, clock: nat -> real,
                      conns: map<Key, Connection>, later: real, here: Bytes, enc: DoubleEncoder)
    requires Plain(foo) && Plain(bar) && Plain(baz) && foo != bar && ClockFits(later)
    requires 94 + |here| + |foo| + |bar| + 2 * |baz| <= MAX_PACKET_SIZE
    requires views == map[key := map[foo := map["" := map[baz := 5.0]], bar := map["" := map[baz := 5.0]]]]
    requires |queue| == |LiveConns(views)| && Snapped(views, picked, names, lists)
    requires Queued([], clock, conns, picked, lists, queue)
    ensures QueuedValid(1, queue, later, here, enc)
  {
    var cells: Cells := map["" := map[baz := 5.0]];
    assert "" in views[key][foo];
    assert foo in Live(views[key]);
    assert LiveConns(views) == {key};
    var nFoo, nBar := foo + "-" + baz, bar + "-" + baz;
    TwoCounters(foo, cells, bar, cells, names[0], lists[0]);
    TopName(foo, baz);
    TopName(bar, baz);
    PrefixesDiffer(foo, bar, baz);
    var snaps: seq<map<Bytes, real>> := lists[0];
    if IsSnapshot(foo, cells, snaps[0]) && IsSnapshot(bar, cells, snaps[1]) {
      OneCellAs(Naming(foo), baz, nFoo, 5.0, snaps[0]);
      OneCellAs(Naming(bar), baz, nBar, 5.0, snaps[1]);
    } else {
      OneCellAs(Naming(bar), baz, nBar, 5.0, snaps[0]);
      OneCellAs(Naming(foo), baz, nFoo, 5.0, snaps[1]);
    }
    MergePair(snaps);
    UnionPair(nFoo, nBar, 5.0);
    assert |nFoo| + |nBar| == |foo| + |bar| + 2 * |baz| + 2;
    PairStats(queue, later, here, enc, nFoo, nBar, 5.0);
  }

  /** Two one-entry dicts unite into the same dict in either order. */
  lemma UnionPair(a: Bytes, b: Bytes, v: real)
    requires a != b
    ensures map[a := v] + map[b := v] == map[a := v, b := v]
    ensures map[b := v] + map[a := v] == map[a := v, b := v]
  {
  }

  /** One snapshot merges into itself. */
  lemma MergeOne(snaps: seq<map<Bytes, real>>)
    requires |snaps| == 1
    ensures Merge(snaps) == snaps[0]
  {
    assert snaps[..0] == [];
    assert map[] + snaps[0] == snaps[0];
  }

  /** Two snapshots merge into their union, the later one winning. */
  lemma MergePair(snaps: seq<map<Bytes, real>>)
    requires |snaps| == 2
    ensures Merge(snaps) == snaps[0] + snaps[1]
  {
    var front := snaps[..1];
    assert front[..0] == [] && front[0] == snaps[0];
    assert Merge(front) == snaps[0] by {
      assert map[] + snaps[0] == snaps[0];
    }
  }

  /** One queued entry of two stats fits one valid packet. */
  lemma PairStats(queue: seq<Entry>, later: real, here: Bytes, enc: DoubleEncoder, a: Bytes, b: Bytes, v: real)
    requires |queue| == 1 && a != b && ClockFits(later) && 92 + |here| + |a| + |b| <= MAX_PACKET_SIZE
    requires queue[0].stats == map[a := v, b := v]
    ensures QueuedValid(1, queue, later, here, enc)
  {
    forall i, items | 0 <= i < |queue| && ItemsOf(items, queue[i].stats)
      ensures ValidMessages(1, DefaultMessages(items, later, here, enc)) == Done
    {
      assert i == 0;
      PairItems(items, a, b, v, v);
      SmallMessages(items, later, here, enc);
    }
  }

  /** Names of one stat under two different categories differ. */
  lemma PrefixesDiffer(foo: Bytes, bar: Bytes, baz: Bytes)
    requires foo != bar
    ensures foo + "-" + baz != bar + "-" + baz
  {
    if |foo| == |bar| {
      assert (foo + "-" + baz)[..|foo|] == foo && (bar + "-" + baz)[..|bar|] == bar;
    } else {
      assert |foo + "-" + baz| != |bar + "-" + baz|;
    }
  }

  /** `Connection(collectd_host=localhost)` and
      `Connection(collectd_host=127.0.0.1)` on an empty registry. */
  method NewConns(here: Bytes) returns (registry: Registry, collector: Collector, k1: Key, conn1: Connection,
                                        k2: Key, conn2: Connection)
    ensures fresh(registry) && fresh(collector) && fresh(conn1) && fresh(conn2) && registry.Valid() && k1 != k2
    ensures collector.registry == registry && collector.queue == []
    ensures k1 == DefaultKey(here).(collectdHost := "localhost") && k2 == DefaultKey(here).(collectdHost := "127.0.0.1")
    ensures registry.instances == map[k1 := conn1, k2 := conn2] && conn1.counters == map[] && conn2.counters == map[]
  {
    registry := new Registry();
    collector := new Collector(registry);
    k1 := DefaultKey(here).(collectdHost := "localhost");
    k2 := DefaultKey(here).(collectdHost := "127.0.0.1");
    assert k1 != k2 by {
      assert k1.collectdHost[0] != k2.collectdHost[0];
    }
    conn1 := registry.Connect(k1);
    conn2 := registry.Connect(k2);
  }

  /** test_multiple_conns: connections to two collectd hosts, each with a
      counter that recorded a stat, give one entry each. */
  method MultipleConns(here: Bytes, foo: Bytes, bar: Bytes, baz: Bytes, clock: nat -> real, later: real, enc: DoubleEncoder)
    returns (queued: seq<Entry>)
    requires Plain(foo) && Plain(bar) && Plain(baz) && ClockFits(later)
    requires 73 + |here| + |foo| + |baz| <= MAX_PACKET_SIZE && 73 + |here| + |bar| + |baz| <= MAX_PACKET_SIZE
    ensures QueuedValid(2, queued, later, here, enc)
  {
    var registry, collector, k1, k2, c1, c2 := ConnsSetup(here, foo, bar, baz);
    ghost var cells: Cells := map["" := map[baz := 5.0]];
    ghost var views := map[k1 := map[foo := cells], k2 := map[bar := cells]];
    ghost var picked, names, lists;
    queued, picked, names, lists := Take(collector, registry, clock, views);
    ConnsQueue(k1, k2, foo, bar, baz, views, picked, names, lists, queued, clock, registry.instances, later, here, enc);
  }

  /** `Connection(collectd_host=localhost).<foo>.record(<baz>=5)` and
      `Connection(collectd_host=127.0.0.1).<bar>.record(<baz>=5)`. */
  method ConnsSetup(here: Bytes, foo: Bytes, bar: Bytes, baz: Bytes)
      returns (registry: Registry, collector: Collector, k1: Key, k2: Key, c1: Counter, c2: Counter)
    requires Plain(foo) && Plain(bar)
    ensures fresh(registry) && fresh(collector) && fresh(c1) && fresh(c2) && registry.AllCounters() == {c1, c2}
    ensures collector.registry == registry && collector.queue == [] && registry.Valid() && k1 != k2
    ensures registry.Views() == map[k1 := map[foo := map["" := map[baz := 5.0]]], k2 := map[bar := map["" := map[baz := 5.0]]]]
  {
    var conn1, conn2;
    registry, collector, k1, conn1, k2, conn2 := NewConns(here);
    c1 := RecordNew(registry, k1, foo, baz);
    c2 := RecordNew(registry, k2, bar, baz);
    OneView(conn1, foo, c1);
    OneView(conn2, bar, c2);
    TwoConns(registry, k1, conn1, k2, conn2);
    CountersPair(registry, k1, conn1, foo, c1, k2, conn2, bar, c2);
  }

  lemma ConnsQueue(k1: Key, k2: Key, foo: Bytes, bar: Bytes, baz: Bytes, views: map<Key, map<Bytes, Cells>>,
                   picked: seq<Key>, names: seq<seq<Bytes>>, lists: seq<seq<map<Bytes, real>>>, queue: seq<Entry>,
                   clock: nat -> real, conns: map<Key, Connection>, later: real, here: Bytes, enc: DoubleEncoder)
    requires Plain(foo) && Plain(bar) && Plain(baz) && ClockFits(later) && k1 != k2
    requires 73 + |here| + |foo| + |baz| <= MAX_PACKET_SIZE && 73 + |here| + |bar| + |baz| <= MAX_PACKET_SIZE
    requires views == map[k1 := map[foo := map["" := map[baz := 5.0]]], k2 := map[bar := map["" := map[baz := 5.0]]]]
    requires |queue| == |LiveConns(views)| && Snapped(views, picked, names, lists)
    requires Queued([], clock, conns, picked, lists, queue)
    ensures QueuedValid(2, queue, later, here, enc)
  {
    LiveTwo(k1, k2, foo, bar, baz, views);
    forall i, items | 0 <= i < |queue| && ItemsOf(items, queue[i].stats)
      ensures ValidMessages(1, DefaultMessages(items, later, here, enc)) == Done
    {
      ConnEntry(k1, k2, foo, bar, baz, views, picked[i], names[i], lists[i], items, later, here, enc);
    }
  }

  /** Both connections of test_multiple_conns hold a cell. */
  lemma LiveTwo(k1: Key, k2: Key, foo: Bytes, bar: Bytes, baz: Bytes, views: map<Key, map<Bytes, Cells>>)
    requires k1 != k2
    requires views == map[k1 := map[foo := map["" := map[baz := 5.0]]], k2 := map[bar := map["" := map[baz := 5.0]]]]
    ensures |LiveConns(views)| == 2
  {
    assert "" in views[k1][foo] && "" in views[k2][bar];
    assert foo in Live(views[k1]) && bar in Live(views[k2]);
    assert LiveConns(views) == {k1, k2};
  }

  /** The entry of either connection of test_multiple_conns. */
  lemma ConnEntry(k1: Key, k2: Key, foo: Bytes, bar: Bytes, baz: Bytes, views: map<Key, map<Bytes, Cells>>,
                  key: Key, order: seq<Bytes>, snaps: seq<map<Bytes, real>>, items: seq<(Bytes, Py)>,
                  later: real, here: Bytes, enc: DoubleEncoder)
    requires k1 != k2 && Plain(foo) && Plain(bar) && Plain(baz) && ClockFits(later)
    requires 73 + |here| + |foo| + |baz| <= MAX_PACKET_SIZE && 73 + |here| + |bar| + |baz| <= MAX_PACKET_SIZE
    requires views == map[k1 := map[foo := map["" := map[baz := 5.0]]], k2 := map[bar := map["" := map[baz := 5.0]]]]
    requires key in views && SnapshotsIn(views[key], order, snaps) && ItemsOf(items, Merge(snaps))
    ensures ValidMessages(1, DefaultMessages(items, later, here, enc)) == Done
  {
    if key == k1 {
      assert views[key] == map[foo := map["" := map[baz := 5.0]]];
      OneEntry(foo, baz, order, snaps, items, later, here, enc);
    } else {
      assert key == k2;
      assert views[key] == map[bar := map["" := map[baz := 5.0]]];
      OneEntry(bar, baz, order, snaps, items, later, here, enc);
    }
  }
}
