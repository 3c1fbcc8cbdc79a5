# collectd.py, modelled in Dafny

A model of the collectd Python client (`collectd.py`) and of the checks in its
test suite (`unit_tests.py`). The client counts named statistics in process
and sends them, every ten seconds, to a collectd daemon over UDP, in
collectd's binary network protocol. The model covers these parts:

- **Wire** (`wire.dfy`): the field encoders of the protocol.
  - `pack_numeric` and `pack_string`.
  - `pack_value`: a stat name followed by a gauge value.
  - the `pack` dispatcher.
  - `message_start`: the six header fields every packet starts with.
  - Each encoder is a function returning `Result`, with the errors `struct`
    and the `assert` raise.
- **Packets** (`packets.dfy`): `messages`.
  - Every stat is packed.
  - Fields that cannot fit beside the header are dropped.
  - The rest are packed greedily into packets of at most
    `MAX_PACKET_SIZE` = 1024 bytes.
  - The greedy loop is a method proved against a specification function.
- **Sanitizer** (`sanitize.dfy`): `sanitize`.
  - Every run of non-alphanumeric bytes becomes one `_`.
  - The result is stripped of `_` at both ends.
- **Counters** (`counter.dfy`): the `Counter` class with `record`,
  `set_exact` and `snapshot`.
  - The cells live in a two-level map, from specific to stat to value.
  - A snapshot reports each cell under a derived name and resets it to 0.0.
- **Connections** (`connection.dfy`): `Connection`.
  - The class-level `instances` registry makes one object per distinct set
    of constructor arguments.
  - `__getattr__` creates counters on first access.
  - `_snapshot` snapshots every counter that holds a cell.
- **Pipeline** (`pipeline.dfy`): the module-level `snaps` queue and socket,
  with `take_snapshots` and `send_stats`.
- **PacketCheck** (`packet_check.dfy`): the suite's `assertValidPacket` and
  `assertValidMessages`.
  - These are executable checks, so each is a method proved equal to a
    specification function.
  - The functions are proved to accept everything the encoders produce.
- **UnitTests**, **PacketTests**, **SnapshotTests** (`unit_tests.dfy`,
  `packet_tests.dfy`, `snapshot_tests.dfy`): the Counter, Connection,
  Packet and Snapshot test cases, stated as methods and lemmas.
  - Their concrete names and numbers become parameters where the property
    holds for all of them.

How Python values are represented:

- A Python 2 `str` is `Bytes`, a sequence of chars below 256.
- A dynamically typed argument is the datatype `Py`:
  - `PyInt` holds an integer of any size. `IsInt` marks a Python 2 `int`,
    which lies within a C long; the rest are `long`s and fail
    `isinstance(v, int)`.
  - `PyFloat` holds a real.
  - `PyStr`, `PyNone` and `PyOther` (for anything else).
- An exception is an `Error` value, carried by `Result` or
  `Outcome = Done | Raised(error)`.

Where the client iterates over a dict, the order is unspecified:

- Methods pick the next key with `:|`.
- Contracts talk about a ghost enumeration (`order`) that lists each key
  exactly once.

## Model

| member | source | states |
|---|---|---|
| Python.Trunc | collectd.py:203 | `int()` of a float truncates toward zero: the result is within one of x, on the side of zero |
| Python.TruncMonotone | collectd.py:203 | truncation keeps the order of its arguments |
| Wire.BigEndian | collectd.py:46 | the `!` (network order) encoding of n in `width` bytes decodes back to n |
| Wire.Int64 | collectd.py:46 | the `!q` encoding is 8 bytes and decodes as a signed 64-bit value back to v |
| Wire.PackNumeric | collectd.py:45-46 | succeeds iff the code fits 16 bits and the number is an int or float within int64; else a struct error; the 12 bytes decode to the code, the length 12 and the number, a float truncated |
| Wire.PackString | collectd.py:48-49 | succeeds iff the value is a string and code and length fit 16 bits; the field decodes to the code and the length 5+len, carries the string's bytes and ends in NUL |
| Wire.PackValue | collectd.py:51-56 | succeeds iff the name's field fits and the value is numeric; the type-instance field of the name is followed by code 6, length 15, count 1, kind VALUE_GAUGE and the double |
| Wire.Pack | collectd.py:58-66 | a code that is neither a time/interval nor a string code raises AssertionError; time/interval fields are 12 bytes; string fields need a string and take 5+len bytes; a name needs a number and takes 20+len bytes |
| Wire.StringDispatch | collectd.py:63-64 | pack with any of the five string codes is pack_string |
| Wire.NumericDispatch | collectd.py:61-62 | pack with the time or interval code is pack_numeric |
| Wire.MessageStart | collectd.py:68-76 | succeeds iff the strings fit and the time (`when or time.time()`) is a number in int64 range; the header is host, time, plugin, plugin instance, type "gauge" and interval 10, in that order, 49 bytes plus the three strings |
| Packets.PackAll | collectd.py:81 | the packed parts are all Ok iff every pack is Ok; then one part per stat, in iteration order |
| Packets.Fitting | collectd.py:82 | a part is kept iff it is one of the packed parts and fits beside the header; nothing is added |
| Packets.FittingFits | collectd.py:82 | every kept part fits beside the header |
| Packets.FittingAll | collectd.py:82 | when every part fits, the filter keeps all of them |
| Packets.FittingAppend | collectd.py:82 | filtering a concatenation is the concatenation of the filtered halves |
| Packets.FittingOne | collectd.py:82 | a single part is kept exactly when it fits beside the header |
| Packets.Seal | collectd.py:84-91 | each packet is the header followed by its group of parts |
| Packets.GreedyOne | collectd.py:85-91 | parts that fit together go into a single packet |
| Packets.GreedyTwo | collectd.py:86-88 | the part that would overflow the packet starts a new one |
| Packets.GreedyWellPacked | collectd.py:83-91 | the greedy grouping keeps the parts in order; every group is non-empty and fits; each group after the first exists only because its first part overflowed the group before it |
| Packets.PackClose | collectd.py:86-89 | closing the current packet on overflow keeps the grouping well packed |
| Packets.PackJoin | collectd.py:89-90 | appending a part that fits keeps the grouping well packed |
| Packets.SealShape | collectd.py:84-91 | every packet starts with the header, is longer than the header and is at most MAX_PACKET_SIZE |
| Packets.SplitShape | collectd.py:82-92 | the split gives no packet iff no part fits; every packet is header-prefixed and at most 1024 bytes; the grouping is well packed; the payloads, joined, are the kept parts in order |
| Packets.PacketizeShape | collectd.py:78-92 | the same guarantees for `messages` itself: no part is lost, reordered or duplicated, and no packet is over the limit |
| Packets.PacketizeIsSplit | collectd.py:78-92 | `messages` is the header followed by the greedy split of the fitting parts |
| Packets.PartsNonEmpty | collectd.py:51-56 | every stat field is at least 20 bytes, so no packet holds only the header |
| Packets.Payloads | collectd.py:87 | every packet is its header prefix followed by its payload |
| Packets.SealPayloads | collectd.py:84-91 | the payloads of the sealed packets, joined, are the grouped parts, flattened |
| Packets.Messages | collectd.py:78-92 | the imperative `messages` returns exactly the packets of the specification, or the error of the first failing pack |
| Packets.Fill | collectd.py:83-91 | the packing loop, with its current packet and running length, builds exactly the greedy grouping sealed with the header |
| Sanitizer.DropRun | collectd.py:97 | dropping a leading run of non-alphanumeric bytes leaves a suffix that is empty or starts alphanumeric |
| Sanitizer.DropRunSplits | collectd.py:97 | the dropped prefix has no alphanumeric byte |
| Sanitizer.TakeWord | collectd.py:97 | a word is the longest alphanumeric prefix |
| Sanitizer.StripLeft | collectd.py:97 | `lstrip("_")`: the result does not start with `_` |
| Sanitizer.StripRight | collectd.py:97 | `rstrip("_")`: the result does not end with `_` |
| Sanitizer.WordsAreWords | collectd.py:97 | the maximal alphanumeric runs of a string are non-empty and alphanumeric |
| Sanitizer.CollapseWords | collectd.py:97 | `re.sub` of the runs is the words joined by `_`, with the leading and trailing runs each turned into a single `_` |
| Sanitizer.SanitizeWords | collectd.py:96-97 | sanitize(s) is the alphanumeric words of s joined by single underscores |
| Sanitizer.SanitizeClean | collectd.py:96-97 | a sanitized name is alphanumeric bytes and single inner underscores, with none at either end |
| Sanitizer.SanitizeIdempotent | collectd.py:96-97 | sanitizing twice is sanitizing once |
| Sanitizer.SanitizeAlnum | collectd.py:96-97 | a purely alphanumeric name is unchanged |
| Sanitizer.SanitizeRuns | collectd.py:96-97 | two words wrapped in runs of other bytes become the words joined by one underscore |
| Counters.PutCells | collectd.py:131 | a defaultdict update adds exactly one cell and changes only it |
| Counters.Zeroed | collectd.py:148 | zeroing keeps exactly the cells present and sets each to 0.0 |
| Counters.Counter.constructor | collectd.py:119-122 | a new counter has its category and no cells |
| Counters.Counter.Record | collectd.py:124-131 | the counts after `record(*args, **kwargs)` and the logged outcome are the reference fold over `args + [""]` |
| Counters.Counter.SetExact | collectd.py:133-138 | the counts after `set_exact(**kwargs)` and the logged outcome are the reference fold over the stats |
| Counters.Counter.Snapshot | collectd.py:140-149 | the totals name every cell by its derived name with its value, and every cell is reset to 0.0 |
| Counters.Counter.Drain | collectd.py:142-149 | the snapshot loop, for any naming function, reports every cell under its name and resets it |
| Counters.WitnessedSnapshot | collectd.py:143-147 | once every cell is visited, each reported name has the value of a cell with that name |
| Counters.ResetAll | collectd.py:148 | once every cell is visited, the counts are the zeroed counts |
| Counters.AddStatsSum | collectd.py:129-131 | adding numeric stats to one specific succeeds; it creates exactly the cells of that specific and those stats; each cell grows by the stat's total over the kwargs |
| Counters.AddStatsStops | collectd.py:130 | the first non-numeric value raises AssertionError, and the earlier additions stay |
| Counters.RecordedSum | collectd.py:127-131 | recording with string specifics succeeds; the cells are the old ones plus every listed specific times every stat; each grows by its number of occurrences times the stat's total |
| Counters.RecordedStopsAtSpecific | collectd.py:127-128 | the first specific that is not a string raises AssertionError, and cells updated before it stay |
| Counters.RecordedStopsAtValue | collectd.py:129-130 | a non-numeric value stops the record inside the first specific, keeping what came before it |
| Counters.RecordedNothing | collectd.py:127-131 | recording no stats changes no cell, whatever the specifics |
| Counters.SetAllLast | collectd.py:135-138 | set_exact with numbers succeeds; it creates exactly the top-level cells of the stats; each is set to the stat's last value, and every other cell is unchanged |
| Counters.SetAllStops | collectd.py:137 | the first non-numeric value raises AssertionError, and the earlier assignments stay |
| Counters.SnapshotNames | collectd.py:143-147 | the snapshot's names are exactly the derived names of the cells |
| Counters.SnapshotValues | collectd.py:147 | without name collisions, every cell's value is reported under its derived name |
| Counters.SnapshotDeterministic | collectd.py:140-149 | without collisions, the snapshot is unique |
| Counters.SnapshotAgain | collectd.py:148 | a snapshot right after a snapshot reports the same names, all 0.0 |
| Counters.SnapshotEmpty | collectd.py:142-149 | a counter with no cells snapshots to {} |
| Counters.NameParts | collectd.py:145-146 | the derived name is category-specific-stat, sanitized, with the specific's dash dropped when the specific is empty |
| Counters.UndoubleJoin | collectd.py:146 | `replace("--", "-")` only removes the doubled dash of an empty middle part |
| Counters.Times | collectd.py:131 | repeated addition of a total n times is n times the total |
| Connections.Connection.constructor | collectd.py:167-176 | a new connection remembers its arguments and has no counters |
| Connections.Connection.CounterNamed | collectd.py:178-185 | a name starting with `_` raises AttributeError with nothing created; otherwise it gives the existing counter of that name, or registers a fresh empty one under it |
| Connections.Connection.Snapshot | collectd.py:187-189 | the result is one snapshot per counter that held a cell, each counter listed once; every counter is zeroed |
| Connections.PartlyDone | collectd.py:189 | zeroing every counter one by one is zeroing the whole connection |
| Connections.ProgressDone | collectd.py:189 | the loop's partial list, once every counter is visited, is the connection's snapshot list |
| Connections.Registry.constructor | collectd.py:153 | the registry starts empty |
| Connections.Registry.Connect | collectd.py:155-176 | arguments seen before give the same object, with nothing changed; new arguments register a fresh connection without counters |
| Connections.Registry.SnapshotOne | collectd.py:187-189 | snapshotting one registered connection zeroes it and changes no other connection |
| Connections.Registry.Attribute | collectd.py:178-185 | `conn.name` on a registered connection, with the registry kept valid and no other connection touched |
| Pipeline.MergeLatest | collectd.py:200-202 | a name is in the merged stats iff some snapshot has it, and the last snapshot that has it gives its value |
| Pipeline.MergeAll | collectd.py:200-202 | the `stats.update` loop computes the merge |
| Pipeline.ItemsDetermine | collectd.py:208 | the stats are determined by their items |
| Pipeline.Items | collectd.py:81 | `stats.items()` lists every stat exactly once with its value |
| Pipeline.LiveKeys | collectd.py:197-199 | a connection is queued iff it is registered and one of its counters holds a cell |
| Pipeline.Datagrams | collectd.py:208-209 | one datagram per packet, in order, to the connection's address |
| Pipeline.Collector.constructor | collectd.py:193-194 | the queue and the sent log start empty |
| Pipeline.Collector.TakeSnapshots | collectd.py:196-203 | every registered connection is visited once; each that held a cell appends one entry, the k-th of them stamped with the truncated k-th clock reading, holding its merged snapshots; every counter is zeroed; nothing is sent |
| Pipeline.Collector.SendStats | collectd.py:205-212 | an empty queue raises Empty only when asked to; otherwise the oldest entry is removed and its packets go out in order, or its error propagates; every packet sent passes the 8-code validity check |
| Pipeline.Collector.SendAll | collectd.py:208-209 | the `sendto` loop sends every packet, in order, and nothing else |
| Pipeline.SnapshotsEmpty | collectd.py:189 | a connection's snapshot list is empty iff none of its counters holds a cell |
| Pipeline.ZeroStep | collectd.py:197-198 | snapshotting one more connection zeroes it in the registry's view |
| Pipeline.SnapshotAll | collectd.py:197-203 | the loop over the connections visits each once, zeroes it and collects its entry |
| Pipeline.QueuedPerConnection | collectd.py:197-203 | the queue grows by exactly the number of connections that held a cell |
| Pipeline.StampsOrdered | collectd.py:203 | when the clock never goes back, the entries of one take_snapshots carry stamps in queue order |
| Pipeline.LiveKeysDistinct | collectd.py:197 | no connection is queued twice |
| Pipeline.EnumeratesCard | collectd.py:197 | an enumeration of a set has as many entries as the set |
| PacketCheck.CountValues | unit_tests.py:29-36 | the values loop accepts iff the payload is a whole number of 9-byte entries, each of a known kind; then it counts them |
| PacketCheck.Slice | unit_tests.py:29 | Python slicing clamps to the string |
| PacketCheck.CheckField | unit_tests.py:21-37 | a numeric field must have size 12; a string field must end in NUL and have size at least 4 |
| PacketCheck.Walk | unit_tests.py:13-38 | the fields walk collects only known codes, and the first field's code among them |
| PacketCheck.WalkStep | unit_tests.py:13-38 | a short header is a struct error; a zero size, an overlong size or an unknown code is an assertion error; otherwise the field is checked and the walk continues after it |
| PacketCheck.AssertValidPacket | unit_tests.py:11-39 | the imperative check gives exactly the outcome of the specification |
| PacketCheck.CountEntries | unit_tests.py:29-37 | the inner loop over the values counts exactly as the specification |
| PacketCheck.NumericFields | collectd.py:45-46 | a numeric field is one valid field of its code |
| PacketCheck.StringFields | collectd.py:48-49 | a string field is one valid field of its code |
| PacketCheck.ValueFields | collectd.py:51-56 | a packed stat is a valid type-instance field followed by a valid values field |
| PacketCheck.StartFields | collectd.py:68-76 | the header is six valid fields of the six header codes |
| PacketCheck.KnownCodesCount | unit_tests.py:18-20 | the known codes are the six header codes and the two stat codes: eight in all |
| PacketCheck.PacketsValid | unit_tests.py:41-45 | every packet `messages` produces walks through all eight codes and passes `assertValidPacket(8, packet)` |
| PacketCheck.PacketWalk | unit_tests.py:13-38 | the header followed by a non-empty group of stat fields walks to exactly the eight codes |
| PacketCheck.FieldsWalk | unit_tests.py:13-38 | a sequence of valid fields walks to exactly their codes |
| PacketCheck.PackValid | unit_tests.py:161-174 | every field pack produces passes `assertValidPacket(1, ...)` |
| PacketCheck.StartValid | unit_tests.py:181-183 | every header `message_start` produces passes `assertValidPacket(6, ...)` |
| PacketCheck.CheckMessagesCounts | unit_tests.py:41-45 | `assertValidMessages` fails on a pack error or a wrong packet count and passes otherwise |
| PacketCheck.AllValid | unit_tests.py:44-45 | packets that each pass the check pass the loop |
| PacketCheck.AssertValidMessages | unit_tests.py:41-45 | the imperative check gives exactly the specification's outcome |
| PacketCheck.CheckEach | unit_tests.py:44-45 | the loop over the packets stops at the first invalid one |
| UnitTests.TopName | collectd.py:145-146 | a top-level cell of plain names is named category-stat |
| UnitTests.SubName | collectd.py:145-146 | a cell under a plain specific is named category-specific-stat |
| UnitTests.CounterSnapshotReset | unit_tests.py:61-65 | a new counter snapshots to {}; after `record(foo=2)`, to {test-foo: 2}; then to {test-foo: 0} |
| UnitTests.CounterRecordAdding | unit_tests.py:67-70 | two records of one stat add up |
| UnitTests.CounterRecordMany | unit_tests.py:72-74 | one record counts several stats |
| UnitTests.RecordTwice | unit_tests.py:76-79 | two specifics and the top level each get the value |
| UnitTests.CounterRecordDuplicates | unit_tests.py:76-79 | the snapshot names the top-level cell and both specifics |
| UnitTests.CounterRecordHierarchy | unit_tests.py:81-85 | the top-level cell sums what was recorded under each specific |
| UnitTests.CounterExact | unit_tests.py:87-99 | set_exact overwrites, the snapshot resets, and record and set_exact combine as the test states (2, 0, 2, 7) |
| UnitTests.CounterNoStats | unit_tests.py:101-109 | record or set_exact without stats leaves the snapshot empty |
| UnitTests.CounterBadStats | unit_tests.py:111-119 | a non-string specific or a non-numeric value is refused with an AssertionError and leaves no cell |
| UnitTests.NamingSanitized | unit_tests.py:121-131 | a stat wrapped in runs of non-alphanumeric bytes is named `test-foo_bar` |
| UnitTests.CounterSanitize | unit_tests.py:121-131 | record and set_exact of such a stat both snapshot to {test-foo_bar: 5} |
| UnitTests.OneCounter | unit_tests.py:141-143 | a connection with one counter snapshots to no list when the counter is empty, otherwise to a one-element list holding its snapshot |
| UnitTests.ConnectionSnapshotReset | unit_tests.py:134-149 | test_snapshot_reset through `conn.test` and `_snapshot()[0]` |
| UnitTests.Sameness | unit_tests.py:151-157 | other arguments give another object, plugin_inst "xkcd" yet another, and the same arguments the same object |
| UnitTests.SamenessCases | unit_tests.py:151-157 | the same for hostname 127.0.0.1 and for collectd_port 1337 |
| PacketTests.NumericPacking | unit_tests.py:161-169 | for the time and interval codes, pack succeeds iff the value is a number in int64 range, and what it packs passes the check |
| PacketTests.StringPacking | unit_tests.py:171-179 | for the five string codes, pack succeeds iff the value is a string whose field length fits 16 bits, and what it packs passes the check |
| PacketTests.StartCases | unit_tests.py:181-183 | message_start with no time or with a current time, for any host name including "", passes `assertValidPacket(6, ...)` |
| PacketTests.DefaultSplit | collectd.py:78-92 | with the defaults, the header is 52 bytes plus the host name, and the packets are its greedy split |
| PacketTests.PackedSize | collectd.py:51-56 | numeric stats all pack, into 20 bytes plus the name each |
| PacketTests.Counted | unit_tests.py:41-45 | the messages of the default connection pass `assertValidMessages` with their own count |
| PacketTests.EmptyMessages | unit_tests.py:185-186 | no stats: no packet |
| PacketTests.SmallMessages | unit_tests.py:188-190 | stats whose fields fit one packet make exactly one |
| PacketTests.LargeMessages | unit_tests.py:192-194 | two 512-byte names make two packets |
| PacketTests.ManyMessages | unit_tests.py:196-201 | one 4-byte name more than fits makes two packets |
| PacketTests.ManySplit | collectd.py:83-91 | the greedy split of one 24-byte part too many gives two packets |
| PacketTests.OversizeAlone | unit_tests.py:203-204 | a 1024-byte name is dropped: no packet |
| PacketTests.OversizePair | unit_tests.py:205 | beside a small stat, only the small one is sent: one packet |
| PacketTests.DroppedPair | collectd.py:82-91 | of two parts one of which does not fit, one packet remains |
| SnapshotTests.OneEntry | unit_tests.py:214-218 | the entry of a connection whose one counter holds 5.0 gives one valid packet |
| SnapshotTests.TwoCounters | collectd.py:189 | two non-empty counters give two snapshots, in one of the two orders |
| SnapshotTests.MergePair | collectd.py:200-202 | merging two snapshots is their union, the second winning |
| SnapshotTests.NoConnections | unit_tests.py:220-222 | take_snapshots with no connection queues nothing |
| SnapshotTests.EmptyCounters | unit_tests.py:224-229 | a connection without counters, and then one with an empty counter, queue nothing |
| SnapshotTests.Regular | unit_tests.py:231-234 | one recorded counter queues one entry, whose stats make one valid packet |
| SnapshotTests.MultipleCounters | unit_tests.py:236-241 | two counters of one connection queue one entry, which makes one valid packet |
| SnapshotTests.MultipleConns | unit_tests.py:243-249 | two connections with different collectd hosts queue two entries, each making one valid packet |

## Left out

- The UDP socket is a log of sent datagrams (`Collector.sent`). Binding,
  receiving and the whole of `SocketTests` (unit_tests.py:252-325) are not
  modelled.
- Threads and locks are not modelled. The operations are atomic.
  - This covers `synchronized`, the RLocks, `daemonize`, `start_threads`
    and its semaphore (collectd.py:111-116, 214-235).
  - The ten-second sleep is not modelled either.
- The queue's 0.1-second timeout is reduced to "the queue is empty" in `send_stats`.
- The clock and the host name are parameters:
  - `clock(k)` stands for the value of the k-th `time.time()` call made by
    one take_snapshots, one call per queued entry;
  - `now` stands for `time.time()` in `messages`;
  - `here` (a hostname) stands for `socket.gethostname()`.
- Logging is not modelled. `swallow_errors` is modelled as the `Outcome`
  that Record and SetExact return, where the source logs it.
- Hardware doubles are not modelled.
  - Numbers are `real`, so NaN and infinity, as tried in `test_numeric_invalid`, are not represented.
  - The `<d` encoding is a parameter (`DoubleEncoder`).
- `float` and `int` counter values are both held as `real`. The model does
  not keep Python 2's distinction between an int cell and a float cell.
- `str()` coercion of specifics and stat names, and unicode strings
  (`test_unicode`), are not modelled. Names are byte strings throughout.
- Dict iteration order is left open. Any order is allowed, through a ghost
  enumeration.
- The tests' concrete strings and numbers are mostly parameters.
  - `test_start_valid` is stated for a host name of any length that fits, and therefore also for "".
  - `test_large_messages` and `test_many_messages` are stated for host names of at most 440 and 948 bytes respectively.
- `ConnectionTests` inherits every Counter test. Only `test_snapshot_reset`
  is restated through a connection. The rest follow from the Counter
  lemmas together with `UnitTests.OneCounter`.
- `assertQueued` drains the queue. The model reads the queued entries
  instead, and does not model the drain.
- The socket tests' `send_stats(raise_on_empty = True)` path is covered by
  `Collector.SendStats`, not by a test case of its own.
- Counters.Counter.Snapshot: when two cells derive the same name, the
  snapshot keeps the value of whichever cell the dict visits last. The
  contract says only that the value is that of some cell with that name.
  It is exact without collisions (`Counters.SnapshotValues`).
- Pipeline.Collector.TakeSnapshots: it does not fix the order of the
  queued entries among connections, because the source iterates a dict of
  instances.
- UnitTests.CounterBadStats: the second loop in `test_bad_stats` records
  the literal "invalid" on every turn and ignores its loop variable. The
  model states the test for any non-numeric value, with "invalid" as one
  case.
- Connections.Registry.Attribute: in Python, `conn.instances` finds the
  class-level registry before `__getattr__` is consulted, so it never makes a
  counter. The model has no class attributes and makes a counter named
  "instances". That is the only name without a leading `_` that the class
  defines.
- Python.Truthy: an empty list, tuple or dict is false in Python. `Py` has
  no container values, and `PyOther` is always true, so a `when` given as an
  empty container (`message_start(when=[])`) is not modelled.
- UnitTests.Sameness: states object identity only. The registry's contents
  are stated by `Connections.Registry.Connect`.
