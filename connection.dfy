/** The Connection class (collectd.py:151-189): one per distinct set of
    constructor arguments, kept in the class-level registry `instances`, each
    owning the counters created on first access by attribute name. */
module Connections {
  import opened Python
  import opened Wire
  import opened Counters

  /** The constructor arguments that identify a connection:
      (hostname, collectd_host, collectd_port, plugin_inst, plugin_name). */
  datatype Key = Key(hostname: Bytes, collectdHost: Bytes, collectdPort: int, pluginInst: Bytes, pluginName: Bytes)

  /** `self._collectd_addr`: where the packets go. */
  datatype Addr = Addr(host: Bytes, port: int)

  const DEFAULT_COLLECTD_HOST: Bytes := "localhost"
  const DEFAULT_COLLECTD_PORT: int := 25826

  /** The key of `Connection(hostname)` with every other argument defaulted;
      the default hostname, `socket.gethostname()`, is a parameter. */
  function DefaultKey(hostname: Bytes): Key {
    Key(hostname, DEFAULT_COLLECTD_HOST, DEFAULT_COLLECTD_PORT, DEFAULT_PLUGIN_INST, DEFAULT_PLUGIN_NAME)
  }

  /** The counters of a connection that hold at least one cell. */
  function Live(view: map<Bytes, Cells>): set<Bytes> {
    set n | n in view && view[n] != map[]
  }

  /** Every counter after a snapshot. */
  function ZeroedView(view: map<Bytes, Cells>): map<Bytes, Cells> {
    map n | n in view :: Zeroed(view[n])
  }

  ghost predicate Distinct<T>(s: seq<T>) {
    forall i, j :: 0 <= i < j < |s| ==> s[i] != s[j]
  }

  /** `order` lists the members of `s`, each once. */
  ghost predicate Enumerates<T(!new)>(order: seq<T>, s: set<T>) {
    Distinct(order) && forall x :: x in order <==> x in s
  }

  /** `snaps` is what `_snapshot` returns for counters in the states `view`,
      visited in the order `order`. */
  ghost predicate SnapshotsIn(view: map<Bytes, Cells>, order: seq<Bytes>, snaps: seq<map<Bytes, real>>) {
    && Enumerates(order, Live(view))
    && |snaps| == |order|
    && forall i :: 0 <= i < |order| ==> order[i] in view && IsSnapshot(order[i], view[order[i]], snaps[i])
  }

  class Connection {
    const hostname: Bytes
    const collectdAddr: Addr
    const pluginInst: Bytes
    const pluginName: Bytes
    var counters: map<Bytes, Counter>

    /** The arguments this connection was made with. */
    function Args(): Key {
      Key(hostname, collectdAddr.host, collectdAddr.port, pluginInst, pluginName)
    }

    ghost function Owned(): set<Counter>
      reads this
    {
      set n | n in counters :: counters[n]
    }

    /** Each counter is the one made for its name. */
    ghost predicate Valid()
      reads this
    {
      forall n :: n in counters ==> counters[n].category == n
    }

    /** The cells of every counter, by name. */
    ghost function View(): map<Bytes, Cells>
      reads this, Owned()
    {
      map n | n in counters :: counters[n].counts
    }

    /** __init__ on a new instance: no counters yet. */
    constructor(key: Key)
      ensures Args() == key && counters == map[] && Valid()
    {
      hostname := key.hostname;
      collectdAddr := Addr(key.collectdHost, key.collectdPort);
      pluginInst := key.pluginInst;
      pluginName := key.pluginName;
      counters := map[];
    }

    /** `__getattr__(name)`: a name starting with an underscore is refused;
        any other gives the counter of that name, made on first use. */
    method CounterNamed(name: Bytes) returns (r: Result<Counter>)
      requires Valid()
      modifies this
      ensures Valid()
      ensures StartsWithUnderscore(name) ==> r == Err(AttributeError) && counters == old(counters)
      ensures !StartsWithUnderscore(name) ==> r.Ok? && counters == old(counters)[name := r.value]
      ensures !StartsWithUnderscore(name) && name in old(counters) ==> r.value == old(counters)[name]
      ensures !StartsWithUnderscore(name) && name !in old(counters) ==>
                fresh(r.value) && r.value.category == name && r.value.counts == map[]
    {
      if StartsWithUnderscore(name) {
        return Err(AttributeError);
      }
      if name !in counters {
        var c := new Counter(name);
        counters := counters[name := c];
      }
      return Ok(counters[name]);
    }

    /** `_snapshot()`: the snapshots of the counters that hold cells, in the
        order the dict yields them (`order`); every counter is left zeroed. */
    method Snapshot() returns (snaps: seq<map<Bytes, real>>, ghost order: seq<Bytes>)
      requires Valid()
      modifies Owned()
      ensures SnapshotsIn(old(View()), order, snaps)
      ensures View() == ZeroedView(old(View()))
    {
      ghost var v0 := View();
      snaps := [];
      order := [];
      var todo := counters.Keys;
      while todo != {}
        invariant todo <= counters.Keys
        invariant View() == Partly(v0, todo)
        invariant Progress(v0, todo, order, snaps)
        decreases |todo|
      {
        var name :| name in todo;
        var c := counters[name];
        ghost var before := View();
        assert forall n :: n in counters && n != name ==> counters[n] != c;
        if c.counts != map[] {
          var t := c.Snapshot();
          ProgressStep(v0, todo, order, snaps, name, t);
          snaps := snaps + [t];
          order := order + [name];
        } else {
          ProgressSkip(v0, todo, order, snaps, name);
        }
        ghost var after := View();
        UpdatedAt(after, before, name, Zeroed(v0[name]));
        PartlyStep(v0, todo, name);
        todo := todo - {name};
      }
      PartlyDone(v0);
      ProgressDone(v0, order, snaps);
    }
  }

  /** The counters during `_snapshot`: those in `todo` not yet visited. */
  ghost function Partly(v0: map<Bytes, Cells>, todo: set<Bytes>): map<Bytes, Cells> {
    map n | n in v0 :: if n in todo then v0[n] else Zeroed(v0[n])
  }

  lemma PartlyStep(v0: map<Bytes, Cells>, todo: set<Bytes>, name: Bytes)
    requires name in todo && name in v0
    ensures Partly(v0, todo)[name := Zeroed(v0[name])] == Partly(v0, todo - {name})
  {
  }

  lemma PartlyDone(v0: map<Bytes, Cells>)
    ensures Partly(v0, {}) == ZeroedView(v0)
  {
  }

  /** Halfway through `_snapshot`: `order` lists the live counters already
      visited, and `snaps` holds their snapshots. */
  ghost predicate Progress(v0: map<Bytes, Cells>, todo: set<Bytes>, order: seq<Bytes>, snaps: seq<map<Bytes, real>>) {
    && Distinct(order)
    && (forall x :: x in order <==> x in Live(v0) && x !in todo)
    && |snaps| == |order|
    && forall i :: 0 <= i < |order| ==> order[i] in v0 && IsSnapshot(order[i], v0[order[i]], snaps[i])
  }

  lemma ProgressStep(v0: map<Bytes, Cells>, todo: set<Bytes>, order: seq<Bytes>, snaps: seq<map<Bytes, real>>,
                     name: Bytes, t: map<Bytes, real>)
    requires Progress(v0, todo, order, snaps)
    requires name in todo && name in v0 && v0[name] != map[] && IsSnapshot(name, v0[name], t)
    ensures Progress(v0, todo - {name}, order + [name], snaps + [t])
  {
  }

  lemma ProgressSkip(v0: map<Bytes, Cells>, todo: set<Bytes>, order: seq<Bytes>, snaps: seq<map<Bytes, real>>, name: Bytes)
    requires Progress(v0, todo, order, snaps)
    requires name in todo && name in v0 && v0[name] == map[]
    ensures Progress(v0, todo - {name}, order, snaps)
  {
  }

  lemma ProgressDone(v0: map<Bytes, Cells>, order: seq<Bytes>, snaps: seq<map<Bytes, real>>)
    requires Progress(v0, {}, order, snaps)
    ensures SnapshotsIn(v0, order, snaps)
  {
  }

  lemma UpdatedAt<K, V>(m: map<K, V>, m0: map<K, V>, key: K, v: V)
    requires m.Keys == m0.Keys && key in m && m[key] == v
    requires forall k :: k in m && k != key ==> m[k] == m0[k]
    ensures m == m0[key := v]
  {
  }

  /** A connection's cells depend only on it and its counters. */
  twostate lemma ViewKept(c: Connection)
    requires unchanged(c) && unchanged(old(c.Owned()))
    ensures c.View() == old(c.View())
  {
  }

  /** `Connection.instances`, the registry `__new__` consults. */
  class Registry {
    var instances: map<Key, Connection>

    ghost function Conns(): set<Connection>
      reads this
    {
      set k | k in instances :: instances[k]
    }

    /** Every counter of every registered connection. */
    ghost function AllCounters(): set<Counter>
      reads this, Conns()
    {
      set k, n | k in instances && n in instances[k].counters :: instances[k].counters[n]
    }

    /** The cells of every counter of every registered connection. */
    ghost function Views(): map<Key, map<Bytes, Cells>>
      reads this, Conns(), AllCounters()
    {
      map k | k in instances :: instances[k].View()
    }

    /** Each connection is registered under its own arguments, and two
        connections never share a counter. */
    ghost predicate Valid()
      reads this, Conns()
    {
      && (forall k :: k in instances ==> instances[k].Args() == k && instances[k].Valid())
      && (forall k1, k2, n1, n2 ::
            k1 in instances && k2 in instances && k1 != k2 &&
            n1 in instances[k1].counters && n2 in instances[k2].counters ==>
            instances[k1].counters[n1] != instances[k2].counters[n2])
    }

    constructor()
      ensures instances == map[] && Valid()
    {
      instances := map[];
    }

    /** `Connection(*key)`: `__new__` returns the registered connection for
        these arguments, or makes, registers and initialises a new one;
        `__init__` leaves an existing one as it is. */
    method Connect(key: Key) returns (conn: Connection)
      requires Valid()
      modifies this
      ensures Valid() && key in instances && instances[key] == conn && conn.Args() == key
      ensures key in old(instances) ==> instances == old(instances) && conn == old(instances[key])
      ensures key !in old(instances) ==>
                instances == old(instances)[key := conn] && fresh(conn) && conn.counters == map[]
    {
      if key in instances {
        return instances[key];
      }
      conn := new Connection(key);
      instances := instances[key := conn];
    }

    /** `conns[key]._snapshot()` as seen from the registry: that connection
        gives its snapshots and is zeroed; no other connection changes. */
    method SnapshotOne(key: Key) returns (snaps: seq<map<Bytes, real>>, ghost order: seq<Bytes>)
      requires Valid() && key in instances
      modifies instances[key].Owned()
      ensures Valid() && key in old(Views())
      ensures SnapshotsIn(old(Views())[key], order, snaps)
      ensures Views() == old(Views())[key := ZeroedView(old(Views())[key])]
    {
      var conn := instances[key];
      ghost var before := Views();
      assert forall k :: k in instances && k != key ==> instances[k].Owned() !! conn.Owned();
      label pre:
      snaps, order := conn.Snapshot();
      ValidKept@pre();
      forall k | k in instances && k != key
        ensures instances[k].View() == before[k]
      {
        ViewKept@pre(instances[k]);
      }
      ghost var after := Views();
      UpdatedAt(after, before, key, ZeroedView(before[key]));
    }

    /** Whether the registry is well formed does not depend on the counters'
        cells. */
    twostate lemma ValidKept()
      requires old(Valid()) && unchanged(this) && unchanged(old(Conns()))
      ensures Valid()
    {
    }

    lemma OwnedInAll(key: Key)
      requires key in instances
      ensures instances[key].Owned() <= AllCounters()
    {
    }

    /** `conn.<name>` on the connection registered under `key`. */
    method Attribute(key: Key, name: Bytes) returns (r: Result<Counter>)
      requires Valid() && key in instances
      modifies instances[key]
      ensures Valid() && instances == old(instances)
      ensures StartsWithUnderscore(name) ==>
                r == Err(AttributeError) && instances[key].counters == old(instances[key].counters)
      ensures !StartsWithUnderscore(name) ==> r.Ok? && instances[key].counters == old(instances[key].counters)[name := r.value]
      ensures !StartsWithUnderscore(name) && name in old(instances[key].counters) ==>
                r.value == old(instances[key].counters)[name]
      ensures !StartsWithUnderscore(name) && name !in old(instances[key].counters) ==>
                fresh(r.value) && r.value.category == name && r.value.counts == map[]
    {
      r := instances[key].CounterNamed(name);
    }
  }
}
