/** The packet tests of unit_tests.py, replayed on the model: the single fields
    `pack` builds, the header `message_start` builds, and the number of
    packets `messages` splits a dict of stats into. The hostname is a
    parameter `host`, the clock a parameter `now`, and a dict's items are
    taken in either order wherever the count of packets could depend on it. */
module PacketTests {
  import opened Python
  import opened Wire
  import opened Packets
  import opened PacketCheck

  /** The clock reading packs as a signed 64-bit time. */
  predicate ClockFits(now: real) {
    INT64_MIN <= Trunc(now) <= INT64_MAX
  }

  /** `pack(type_code, x)` succeeds and the field passes
      assertValidPacket(1, ...). */
  predicate PacksValid(typeCode: int, x: Py, enc: DoubleEncoder) {
    Pack(Code(typeCode), x, enc).Ok? && CheckPacket(1, Pack(Code(typeCode), x, enc).value) == Done
  }

  /** test_numeric_valid and test_numeric_invalid: a time or interval field
      packs exactly the numbers whose integer part is in the signed 64-bit
      range, and every field it packs passes assertValidPacket(1, ...). */
  lemma NumericPacking(typeCode: int, x: Py, enc: DoubleEncoder)
    requires typeCode in LONG_INT_CODES
    ensures Pack(Code(typeCode), x, enc).Ok? <==> IsNumeric(x) && INT64_MIN <= IntArgument(x) <= INT64_MAX
    ensures Pack(Code(typeCode), x, enc).Ok? ==> CheckPacket(1, Pack(Code(typeCode), x, enc).value) == Done
  {
    if Pack(Code(typeCode), x, enc).Ok? {
      PackValid(typeCode, x, enc);
    }
  }

  /** test_string_valid and test_string_invalid: a string field packs exactly
      the strings whose field length fits in 16 bits, and every field it
      packs passes assertValidPacket(1, ...). */
  lemma StringPacking(typeCode: int, x: Py, enc: DoubleEncoder)
    requires typeCode in STRING_CODES
    ensures Pack(Code(typeCode), x, enc).Ok? <==> x.PyStr? && FitsU16(5 + |x.s|)
    ensures Pack(Code(typeCode), x, enc).Ok? ==> CheckPacket(1, Pack(Code(typeCode), x, enc).value) == Done
  {
    if Pack(Code(typeCode), x, enc).Ok? {
      PackValid(typeCode, x, enc);
    }
  }

  /** `message_start(when, host)` succeeds and passes
      assertValidPacket(6, ...). */
  predicate StartsValid(when: Py, now: real, host: Bytes, enc: DoubleEncoder) {
    var r := MessageStart(when, now, host, DEFAULT_PLUGIN_INST, DEFAULT_PLUGIN_NAME, enc);
    r.Ok? && CheckPacket(6, r.value) == Done
  }

  /** test_start_valid: message_start() with its defaults, with host "", and
      with `when` a time, gives six valid fields whenever the time and the
      host name fit their fields. */
  lemma StartCases(when: Py, now: real, host: Bytes, enc: DoubleEncoder)
    requires ClockFits(now) && FitsU16(5 + |host|)
    requires when == PyNone || (when.PyFloat? && ClockFits(when.f))
    ensures StartsValid(when, now, host, enc)
  {
    StartValid(when, now, host, DEFAULT_PLUGIN_INST, DEFAULT_PLUGIN_NAME, enc);
  }

  /** `messages(counts)` with its defaults, once the header and the stats
      pack: the packets the loop makes of the parts that fit. */
  lemma DefaultSplit(counts: seq<(Bytes, Py)>, now: real, host: Bytes, enc: DoubleEncoder)
    requires ClockFits(now) && FitsU16(5 + |host|) && PackAll(counts, enc).Ok?
    ensures var start := MessageStart(PyNone, now, host, DEFAULT_PLUGIN_INST, DEFAULT_PLUGIN_NAME, enc);
            && start.Ok? && |start.value| == 52 + |host|
            && DefaultMessages(counts, now, host, enc) == Ok(Split(start.value, Fitting(|start.value|, PackAll(counts, enc).value)))
  {
    assert |DEFAULT_PLUGIN_INST| == 0 && |DEFAULT_PLUGIN_NAME| == 3;
  }

  /** The bytes a stat takes in a packet: its type-instance field and its
      values field. */
  function Sizes(counts: seq<(Bytes, Py)>): nat {
    if counts == [] then 0 else 20 + |counts[0].0| + Sizes(counts[1..])
  }

  predicate AllNumeric(counts: seq<(Bytes, Py)>) {
    forall i :: 0 <= i < |counts| ==> IsNumeric(counts[i].1)
  }

  /** The stats pack when every value is a number and every name fits. */
  lemma {:induction false} PackedSize(counts: seq<(Bytes, Py)>, enc: DoubleEncoder)
    requires AllNumeric(counts) && forall i :: 0 <= i < |counts| ==> FitsU16(5 + |counts[i].0|)
    ensures PackAll(counts, enc).Ok?
    ensures |Concat(PackAll(counts, enc).value)| == Sizes(counts)
  {
    if counts != [] {
      var rest := counts[1..];
      assert forall i :: 0 <= i < |rest| ==> rest[i] == counts[i + 1];
      PackedSize(rest, enc);
      var parts := PackAll(counts, enc).value;
      assert parts == [parts[0]] + PackAll(rest, enc).value;
      assert |parts[0]| == 20 + |counts[0].0|;
    }
  }

  /** Every name is shorter than all the stats' sizes together. */
  lemma {:induction false} SizesBound(counts: seq<(Bytes, Py)>)
    ensures forall i :: 0 <= i < |counts| ==> 20 + |counts[i].0| <= Sizes(counts)
  {
    if counts != [] {
      SizesBound(counts[1..]);
      assert forall i :: 1 <= i < |counts| ==> counts[i] == counts[1..][i - 1];
    }
  }

  /** No part is longer than all of them together. */
  lemma {:induction false} ConcatBound(parts: seq<Bytes>)
    ensures forall p :: p in parts ==> |p| <= |Concat(parts)|
  {
    if parts != [] {
      ConcatBound(parts[1..]);
      assert forall p :: p in parts ==> p == parts[0] || p in parts[1..];
    }
  }

  /** Parts of one size. */
  lemma {:induction false} UniformSize(parts: seq<Bytes>, k: nat)
    requires forall i :: 0 <= i < |parts| ==> |parts[i]| == k
    ensures |Concat(parts)| == k * |parts|
  {
    if parts != [] {
      UniformSize(parts[1..], k);
      assert k * |parts| == k + k * |parts[1..]|;
    }
  }

  /** Parts that fit behind the header all together make one packet. */
  lemma SplitOne(start: Bytes, parts: seq<Bytes>)
    requires parts != [] && |start| + |Concat(parts)| <= MAX_PACKET_SIZE
    ensures |Split(start, Fitting(|start|, parts))| == 1
  {
    ConcatBound(parts);
    FittingAll(|start|, parts);
    GreedyOne(|start|, parts);
    assert Groups(|start|, parts) == [parts];
  }

  /** Parts that each fit behind the header, where all but the last fit
      together and the last does not fit beside them, make two packets. */
  lemma SplitTwo(start: Bytes, pre: seq<Bytes>, last: Bytes)
    requires pre != [] && forall p :: p in pre + [last] ==> |start| + |p| <= MAX_PACKET_SIZE
    requires |start| + |Concat(pre)| <= MAX_PACKET_SIZE < |start| + |Concat(pre)| + |last|
    ensures |Split(start, Fitting(|start|, pre + [last]))| == 2
  {
    FittingAll(|start|, pre + [last]);
    GreedyTwo(|start|, pre, last);
  }

  /** assertValidMessages(n, ...) passes once `messages` returns n packets. */
  lemma Counted(n: int, counts: seq<(Bytes, Py)>, now: real, host: Bytes, enc: DoubleEncoder)
    requires DefaultMessages(counts, now, host, enc).Ok? && |DefaultMessages(counts, now, host, enc).value| == n
    ensures ValidMessages(n, DefaultMessages(counts, now, host, enc)) == Done
  {
    CheckMessagesCounts(n, counts, PyNone, now, host, DEFAULT_PLUGIN_INST, DEFAULT_PLUGIN_NAME, enc);
  }

  /** test_empty_messages: no stats, no packet. */
  lemma EmptyMessages(now: real, host: Bytes, enc: DoubleEncoder)
    requires ClockFits(now) && FitsU16(5 + |host|)
    ensures ValidMessages(0, DefaultMessages([], now, host, enc)) == Done
  {
    DefaultSplit([], now, host, enc);
    Counted(0, [], now, host, enc);
  }

  /** test_small_messages: stats that fit behind one header together make
      one packet, whatever the dict's order. */
  lemma SmallMessages(counts: seq<(Bytes, Py)>, now: real, host: Bytes, enc: DoubleEncoder)
    requires counts != [] && AllNumeric(counts) && ClockFits(now)
    requires 52 + |host| + Sizes(counts) <= MAX_PACKET_SIZE
    ensures ValidMessages(1, DefaultMessages(counts, now, host, enc)) == Done
  {
    SizesBound(counts);
    PackedSize(counts, enc);
    DefaultSplit(counts, now, host, enc);
    SplitOne(MessageStart(PyNone, now, host, DEFAULT_PLUGIN_INST, DEFAULT_PLUGIN_NAME, enc).value, PackAll(counts, enc).value);
    Counted(1, counts, now, host, enc);
  }

  /** Every stat packs into its own part of `20 + len(name)` bytes. */
  lemma PackedEach(counts: seq<(Bytes, Py)>, enc: DoubleEncoder)
    requires forall i :: 0 <= i < |counts| ==> IsNumeric(counts[i].1) && |counts[i].0| <= MAX_PACKET_SIZE
    ensures PackAll(counts, enc).Ok? && |PackAll(counts, enc).value| == |counts|
    ensures forall i :: 0 <= i < |counts| ==> |PackAll(counts, enc).value[i]| == 20 + |counts[i].0|
  {
    assert forall i :: 0 <= i < |counts| ==> Pack(Name(counts[i].0), counts[i].1, enc).Ok?;
  }

  /** test_large_messages: two stats with names of half a packet each go into
      two packets. */
  lemma LargeMessages(counts: seq<(Bytes, Py)>, now: real, host: Bytes, enc: DoubleEncoder)
    requires |counts| == 2 && forall i :: 0 <= i < 2 ==> |counts[i].0| == MAX_PACKET_SIZE / 2 && IsNumeric(counts[i].1)
    requires ClockFits(now) && |host| <= 440
    ensures ValidMessages(2, DefaultMessages(counts, now, host, enc)) == Done
  {
    PackedEach(counts, enc);
    DefaultSplit(counts, now, host, enc);
    LargeSplit(MessageStart(PyNone, now, host, DEFAULT_PLUGIN_INST, DEFAULT_PLUGIN_NAME, enc).value, PackAll(counts, enc).value);
    Counted(2, counts, now, host, enc);
  }

  /** Two parts of half a packet and the stat header each make two packets. */
  lemma LargeSplit(start: Bytes, parts: seq<Bytes>)
    requires |parts| == 2 && forall i :: 0 <= i < 2 ==> |parts[i]| == 20 + MAX_PACKET_SIZE / 2
    requires |start| <= MAX_PACKET_SIZE - 20 - MAX_PACKET_SIZE / 2
    ensures |Split(start, Fitting(|start|, parts))| == 2
  {
    assert parts == [parts[0]] + [parts[1]];
    assert Concat([parts[0]]) == parts[0] + Concat([]);
    SplitTwo(start, [parts[0]], parts[1]);
  }

  /** test_many_messages: one stat more than fits behind the header, every
      stat 24 bytes long, goes into two packets. */
  lemma ManyMessages(counts: seq<(Bytes, Py)>, now: real, host: Bytes, enc: DoubleEncoder)
    requires ClockFits(now) && |host| <= 948
    requires |counts| == (MAX_PACKET_SIZE - (52 + |host|)) / 24 + 1
    requires forall i :: 0 <= i < |counts| ==> |counts[i].0| == 4 && IsNumeric(counts[i].1)
    ensures ValidMessages(2, DefaultMessages(counts, now, host, enc)) == Done
  {
    PackedEach(counts, enc);
    DefaultSplit(counts, now, host, enc);
    ManySplit(MessageStart(PyNone, now, host, DEFAULT_PLUGIN_INST, DEFAULT_PLUGIN_NAME, enc).value, PackAll(counts, enc).value, 52 + |host|);
    Counted(2, counts, now, host, enc);
  }

  /** One 24-byte part more than fits behind the header makes two packets. */
  lemma ManySplit(start: Bytes, parts: seq<Bytes>, headerLen: nat)
    requires |start| == headerLen <= 1000 && |parts| == (MAX_PACKET_SIZE - headerLen) / 24 + 1
    requires forall i :: 0 <= i < |parts| ==> |parts[i]| == 24
    ensures |Split(start, Fitting(|start|, parts))| == 2
  {
    ManyParts(parts, headerLen);
    var n := |parts|;
    assert parts == parts[..n - 1] + [parts[n - 1]];
    SplitTwo(start, parts[..n - 1], parts[n - 1]);
  }

  /** The arithmetic of test_many_messages: `avail // val_size + 1` parts of
      24 bytes each overflow the room behind the header by one part. */
  lemma ManyParts(parts: seq<Bytes>, headerLen: nat)
    requires headerLen <= 1000 && |parts| == (MAX_PACKET_SIZE - headerLen) / 24 + 1
    requires forall i :: 0 <= i < |parts| ==> |parts[i]| == 24
    ensures var n := |parts|; n >= 2 && forall p :: p in parts[..n - 1] + [parts[n - 1]] ==> headerLen + |p| <= MAX_PACKET_SIZE
    ensures var n := |parts|; headerLen + |Concat(parts[..n - 1])| <= MAX_PACKET_SIZE < headerLen + |Concat(parts[..n - 1])| + 24
  {
    var n := |parts|;
    var avail := MAX_PACKET_SIZE - headerLen;
    UniformSize(parts[..n - 1], 24);
    assert 24 * (n - 1) <= avail < 24 * n;
    assert parts[..n - 1] + [parts[n - 1]] == parts;
  }

  /** test_oversize_messages, first call: a stat too large for any packet is
      dropped, and no packet is left. */
  lemma OversizeAlone(counts: seq<(Bytes, Py)>, now: real, host: Bytes, enc: DoubleEncoder)
    requires |counts| == 1 && |counts[0].0| == MAX_PACKET_SIZE && IsNumeric(counts[0].1)
    requires ClockFits(now) && FitsU16(5 + |host|)
    ensures ValidMessages(0, DefaultMessages(counts, now, host, enc)) == Done
  {
    PackedEach(counts, enc);
    DefaultSplit(counts, now, host, enc);
    var parts := PackAll(counts, enc).value;
    assert parts == [parts[0]];
    assert Fitting(52 + |host|, parts) == [];
    Counted(0, counts, now, host, enc);
  }

  /** test_oversize_messages, second call: beside a stat that fits, the
      oversized one is dropped and the other is sent, in either order of
      the dict. */
  lemma OversizePair(counts: seq<(Bytes, Py)>, big: nat, now: real, host: Bytes, enc: DoubleEncoder)
    requires |counts| == 2 && big < 2 && |counts[big].0| == MAX_PACKET_SIZE
    requires IsNumeric(counts[0].1) && IsNumeric(counts[1].1)
    requires ClockFits(now) && 52 + |host| + 20 + |counts[1 - big].0| <= MAX_PACKET_SIZE
    ensures ValidMessages(1, DefaultMessages(counts, now, host, enc)) == Done
  {
    PairParts(counts, big, 52 + |host|, enc);
    DefaultSplit(counts, now, host, enc);
    DroppedPair(MessageStart(PyNone, now, host, DEFAULT_PLUGIN_INST, DEFAULT_PLUGIN_NAME, enc).value, PackAll(counts, enc).value, big);
    Counted(1, counts, now, host, enc);
  }

  /** The parts of test_oversize_messages: behind a header of `room` bytes,
      the oversized stat does not fit and the other does. */
  lemma PairParts(counts: seq<(Bytes, Py)>, big: nat, room: nat, enc: DoubleEncoder)
    requires |counts| == 2 && big < 2 && |counts[big].0| == MAX_PACKET_SIZE
    requires IsNumeric(counts[0].1) && IsNumeric(counts[1].1)
    requires room + 20 + |counts[1 - big].0| <= MAX_PACKET_SIZE
    ensures PackAll(counts, enc).Ok? && |PackAll(counts, enc).value| == 2
    ensures room + |PackAll(counts, enc).value[big]| > MAX_PACKET_SIZE
    ensures room + |PackAll(counts, enc).value[1 - big]| <= MAX_PACKET_SIZE
  {
    PackedEach(counts, enc);
    var sizes := PackAll(counts, enc).value;
    assert |sizes[0]| == 20 + |counts[0].0| && |sizes[1]| == 20 + |counts[1].0|;
  }

  /** Of two parts, the one too large for any packet is dropped and the other
      makes one packet. */
  lemma DroppedPair(start: Bytes, parts: seq<Bytes>, big: nat)
    requires |parts| == 2 && big < 2
    requires |start| + |parts[big]| > MAX_PACKET_SIZE && |start| + |parts[1 - big]| <= MAX_PACKET_SIZE
    ensures |Split(start, Fitting(|start|, parts))| == 1
  {
    var small := parts[1 - big];
    assert parts[1..] == [parts[1]] && parts[1..][1..] == [];
    assert Fitting(|start|, parts) == [small];
    assert Concat([small]) == small + Concat([]);
    SplitOne(start, [small]);
  }
}
