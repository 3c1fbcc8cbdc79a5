/** The packet validator of the test suite, `assertValidPacket` and
    `assertValidMessages` (unit_tests.py:11-45): a walk over the fields of a
    packet that checks each header, each payload and, at the end, how many
    distinct type codes were seen. */
module PacketCheck {
  import opened Python
  import opened Wire
  import opened Packets

  /** The codes the walker accepts: the two numeric codes, the five string
      codes and the values code. */
  const KNOWN_CODES: set<int> := LONG_INT_CODES + STRING_CODES + {TYPE_VALUES}

  /** The kind byte of the `k`-th nine-byte entry of a values payload. */
  function KindAt(values: Bytes, k: nat): int
    requires 9 * k < |values|
  {
    values[9 * k] as int
  }

  /** The inner loop over the entries of a values field: each entry is a known
      kind byte and eight bytes that `struct.unpack` reads. */
  function CountValues(values: Bytes): (r: Result<nat>)
    decreases |values|
    ensures r.Ok? <==> |values| % 9 == 0 && forall k :: 0 <= k < |values| / 9 ==> KindAt(values, k) in VALUE_CODES
    ensures r.Ok? ==> r.value == |values| / 9
  {
    if values == [] then Ok(0)
    else if values[0] as int !in VALUE_CODES then
      assert |values| >= 9 ==> KindAt(values, 0) == values[0] as int;
      Err(AssertionError)
    else if |values| < 9 then Err(StructError)
    else
      var rest := values[9..];
      DivNine(|rest|);
      assert KindAt(values, 0) == values[0] as int;
      assert forall k :: 0 <= k < |rest| / 9 ==> KindAt(rest, k) == KindAt(values, k + 1);
      assert forall k :: 1 <= k < |values| / 9 ==> KindAt(values, k) == KindAt(rest, k - 1);
      var count :- CountValues(rest);
      Ok(count + 1)
  }

  lemma DivNine(n: nat)
    ensures (n + 9) / 9 == n / 9 + 1 && (n + 9) % 9 == n % 9
  {
  }

  /** `s[lo:hi]` with Python's clamping, for `0 <= lo`. */
  function Slice(s: Bytes, lo: nat, hi: nat): (r: Bytes)
    ensures |r| == if lo <= hi && hi <= |s| then hi - lo else if lo <= hi && lo <= |s| then |s| - lo else 0
  {
    if hi <= lo || |s| <= lo then [] else if hi <= |s| then s[lo..hi] else s[lo..]
  }

  /** The checks on one field of `size` bytes at the front of `s`. */
  function CheckField(code: int, size: nat, s: Bytes): (r: Outcome)
    requires 0 < size <= |s| && code in KNOWN_CODES
    ensures code in LONG_INT_CODES ==> (r == Done <==> size == 12)
    ensures code in STRING_CODES ==> (r == Done <==> s[size - 1] == '\0' && 4 <= size)
  {
    if code in LONG_INT_CODES then
      if size == 12 then Done else Raised(AssertionError)
    else if code in STRING_CODES then
      if s[size - 1] != '\0' then Raised(AssertionError)
      // `struct.unpack(str(size - 4) + "s", ...)` rejects a negative count
      else if size < 4 then Raised(StructError)
      else Done
    else
      match CountValues(Slice(s, 6, size))
      case Err(e) => Raised(e)
      case Ok(count) =>
        if |s| < 6 then Raised(StructError)
        else if count != FromBigEndian(s[4..6]) then Raised(AssertionError)
        else Done
  }

  /** The outer loop: the set of type codes of the fields of `s`, or the
      exception that stops the walk. */
  function Walk(s: Bytes): (r: Result<set<int>>)
    decreases |s|
    ensures r.Ok? ==> r.value <= KNOWN_CODES
    ensures r.Ok? && s != [] ==> |s| >= 4 && FromBigEndian(s[..2]) in r.value
  {
    if s == [] then Ok({})
    else if |s| < 4 then Err(StructError)
    else
      var code := FromBigEndian(s[..2]);
      var size := FromBigEndian(s[2..4]);
      if size == 0 || |s| < size || code !in KNOWN_CODES then Err(AssertionError)
      else
        match CheckField(code, size, s)
        case Raised(e) => Err(e)
        case Done =>
          var codes :- Walk(s[size..]);
          Ok({code} + codes)
  }

  /** assertValidPacket(expected_type_count, s), as a function. */
  function CheckPacket(expectedTypeCount: int, s: Bytes): Outcome {
    match Walk(s)
    case Err(e) => Raised(e)
    case Ok(codes) => if |codes| == expectedTypeCount then Done else Raised(AssertionError)
  }

  /** One step of the walk: a short or bad header stops it, so does a field
      whose checks fail, and a field whose checks pass is followed by the
      walk of what comes after it. */
  lemma WalkStep(s: Bytes, code: int, size: int)
    requires s != [] && (|s| >= 4 ==> code == FromBigEndian(s[..2]) && size == FromBigEndian(s[2..4]))
    ensures |s| < 4 ==> Walk(s) == Err(StructError)
    ensures |s| >= 4 && (size == 0 || |s| < size || code !in KNOWN_CODES) ==> Walk(s) == Err(AssertionError)
    ensures |s| >= 4 && 0 < size <= |s| && code in KNOWN_CODES ==>
              Walk(s) == match CheckField(code, size, s)
                         case Raised(e) => Err(e)
                         case Done => After({code}, Walk(s[size..]))
  {
  }

  /** The codes seen so far joined to the result of walking what is left. */
  function After(codes: set<int>, r: Result<set<int>>): Result<set<int>> {
    if r.Ok? then Ok(codes + r.value) else r
  }

  lemma AfterNothing(r: Result<set<int>>)
    ensures After({}, r) == r
  {
    if r.Ok? {
      assert {} + r.value == r.value;
    }
  }

  lemma AfterAfter(a: set<int>, b: set<int>, r: Result<set<int>>)
    ensures After(a, After(b, r)) == After(a + b, r)
  {
    if r.Ok? {
      assert a + (b + r.value) == (a + b) + r.value;
    }
  }

  /** The entries counted so far added to the count of what is left. */
  function Plus(count: nat, r: Result<nat>): Result<nat> {
    if r.Ok? then Ok(count + r.value) else r
  }

  /** assertValidPacket: the `while s:` loop over fields, with the inner
      `while values:` loop over the entries of a values field. The dictionary
      `type_codes`, whose values are all 1, is kept as the set of its keys. */
  method AssertValidPacket(expectedTypeCount: int, s: Bytes) returns (outcome: Outcome)
    ensures outcome == CheckPacket(expectedTypeCount, s)
  {
    var typeCodes: set<int> := {};
    var rest := s;
    AfterNothing(Walk(s));
    while rest != []
      invariant Walk(s) == After(typeCodes, Walk(rest))
      decreases |rest|
    {
      if |rest| < 4 {
        WalkStep(rest, 0, 0);
        return Raised(StructError);
      }
      var typeCode, size := FromBigEndian(rest[..2]), FromBigEndian(rest[2..4]);
      WalkStep(rest, typeCode, size);
      if size == 0 || |rest| < size || typeCode !in KNOWN_CODES {
        return Raised(AssertionError);
      }
      if typeCode in LONG_INT_CODES {
        if size != 12 {
          return Raised(AssertionError);
        }
      } else if typeCode in STRING_CODES {
        if rest[size - 1] != '\0' {
          return Raised(AssertionError);
        }
        if size < 4 {
          return Raised(StructError);
        }
      } else {
        var count := CountEntries(Slice(rest, 6, size));
        if count.Err? {
          return Raised(count.error);
        }
        if |rest| < 6 {
          return Raised(StructError);
        }
        if count.value != FromBigEndian(rest[4..6]) {
          return Raised(AssertionError);
        }
      }
      AfterAfter(typeCodes, {typeCode}, Walk(rest[size..]));
      typeCodes := typeCodes + {typeCode};
      rest := rest[size..];
    }
    if |typeCodes| != expectedTypeCount {
      return Raised(AssertionError);
    }
    return Done;
  }

  /** The `while values:` loop of assertValidPacket. */
  method CountEntries(values: Bytes) returns (r: Result<nat>)
    ensures r == CountValues(values)
  {
    var rest := values;
    var count: nat := 0;
    while rest != []
      invariant CountValues(values) == Plus(count, CountValues(rest))
      decreases |rest|
    {
      if rest[0] as int !in VALUE_CODES {
        return Err(AssertionError);
      }
      if |rest| < 9 {
        return Err(StructError);
      }
      rest := rest[9..];
      count := count + 1;
    }
    return Ok(count);
  }

  /** `f` is a run of valid fields that carries exactly the type codes
      `codes`, whatever follows it. */
  ghost predicate Fields(f: Bytes, codes: set<int>) {
    forall rest {:trigger Walk(f + rest)} :: Walk(f + rest) == After(codes, Walk(rest))
  }

  lemma NoFields()
    ensures Fields([], {})
  {
    forall rest ensures Walk([] + rest) == After({}, Walk(rest)) {
      assert [] + rest == rest;
      AfterNothing(Walk(rest));
    }
  }

  /** Two runs of valid fields one after the other are one run. */
  lemma FieldsJoin(a: Bytes, codesA: set<int>, b: Bytes, codesB: set<int>)
    requires Fields(a, codesA) && Fields(b, codesB)
    ensures Fields(a + b, codesA + codesB)
  {
    forall rest ensures Walk(a + b + rest) == After(codesA + codesB, Walk(rest)) {
      assert a + b + rest == a + (b + rest);
      AfterAfter(codesA, codesB, Walk(rest));
    }
  }

  /** A numeric field is one valid field whose code is its type code. */
  lemma NumericFields(typeCode: int, number: Py)
    requires typeCode in LONG_INT_CODES && PackNumeric(typeCode, number).Ok?
    ensures Fields(PackNumeric(typeCode, number).value, {typeCode})
  {
    var f := PackNumeric(typeCode, number).value;
    forall rest ensures Walk(f + rest) == After({typeCode}, Walk(rest)) {
      var s := f + rest;
      assert s[..2] == f[..2] && s[2..4] == f[2..4] && s[12..] == rest;
      WalkStep(s, typeCode, 12);
    }
  }

  /** A string field is one valid field whose code is its type code. */
  lemma StringFields(typeCode: int, str: Py)
    requires typeCode in STRING_CODES && PackString(typeCode, str).Ok?
    ensures Fields(PackString(typeCode, str).value, {typeCode})
  {
    var f := PackString(typeCode, str).value;
    forall rest ensures Walk(f + rest) == After({typeCode}, Walk(rest)) {
      var s := f + rest;
      assert s[..2] == f[..2] && s[2..4] == f[2..4] && s[|f|..] == rest && s[|f| - 1] == f[|f| - 1];
      WalkStep(s, typeCode, |f|);
    }
  }

  /** A values field holding one entry of a known kind is one valid field. */
  lemma ValuesFields(field: Bytes)
    requires |field| == 15 && FromBigEndian(field[..2]) == TYPE_VALUES && FromBigEndian(field[2..4]) == 15
    requires FromBigEndian(field[4..6]) == 1 && field[6] as int in VALUE_CODES
    ensures Fields(field, {TYPE_VALUES})
  {
    forall rest ensures Walk(field + rest) == After({TYPE_VALUES}, Walk(rest)) {
      var s := field + rest;
      assert s[..2] == field[..2] && s[2..4] == field[2..4] && s[4..6] == field[4..6] && s[15..] == rest;
      var entries := Slice(s, 6, 15);
      assert entries == field[6..];
      assert KindAt(entries, 0) == field[6] as int;
      assert CountValues(entries) == Ok(1);
      assert CheckField(TYPE_VALUES, 15, s) == Done;
      WalkStep(s, TYPE_VALUES, 15);
    }
  }

  const STAT_CODES: set<int> := {TYPE_TYPE_INSTANCE, TYPE_VALUES}
  const HEADER_CODES: set<int> := {TYPE_HOST, TYPE_TIME, TYPE_PLUGIN, TYPE_PLUGIN_INSTANCE, TYPE_TYPE, TYPE_INTERVAL}

  /** An encoded stat is a valid type-instance field followed by a valid
      values field holding one gauge. */
  lemma ValueFields(name: Bytes, value: Py, enc: DoubleEncoder)
    requires PackValue(name, value, enc).Ok?
    ensures Fields(PackValue(name, value, enc).value, STAT_CODES)
  {
    var f := PackValue(name, value, enc).value;
    var k := 5 + |name|;
    var instance := PackString(TYPE_TYPE_INSTANCE, PyStr(name)).value;
    var field := f[k..];
    assert f == instance + field;
    StringFields(TYPE_TYPE_INSTANCE, PyStr(name));
    assert field[..2] == f[k..k + 2] && field[2..4] == f[k + 2..k + 4] && field[4..6] == f[k + 4..k + 6];
    ValuesFields(field);
    FieldsJoin(instance, {TYPE_TYPE_INSTANCE}, field, {TYPE_VALUES});
    assert {TYPE_TYPE_INSTANCE} + {TYPE_VALUES} == STAT_CODES;
  }

  /** The header is six valid fields: host, time, plugin, plugin instance,
      type and interval. */
  lemma StartFields(when: Py, now: real, host: Bytes, pluginInst: Bytes, pluginName: Bytes, enc: DoubleEncoder)
    requires MessageStart(when, now, host, pluginInst, pluginName, enc).Ok?
    ensures Fields(MessageStart(when, now, host, pluginInst, pluginName, enc).value, HEADER_CODES)
  {
    var hostField := PackString(TYPE_HOST, PyStr(host)).value;
    var timeField := PackNumeric(TYPE_TIME, ResolveTime(when, now)).value;
    var pluginField := PackString(TYPE_PLUGIN, PyStr(pluginName)).value;
    var instanceField := PackString(TYPE_PLUGIN_INSTANCE, PyStr(pluginInst)).value;
    var typeField := PackString(TYPE_TYPE, PyStr(PLUGIN_TYPE)).value;
    var intervalField := PackNumeric(TYPE_INTERVAL, PyInt(SEND_INTERVAL)).value;
    StringFields(TYPE_HOST, PyStr(host));
    NumericFields(TYPE_TIME, ResolveTime(when, now));
    StringFields(TYPE_PLUGIN, PyStr(pluginName));
    StringFields(TYPE_PLUGIN_INSTANCE, PyStr(pluginInst));
    StringFields(TYPE_TYPE, PyStr(PLUGIN_TYPE));
    NumericFields(TYPE_INTERVAL, PyInt(SEND_INTERVAL));
    assert MessageStart(when, now, host, pluginInst, pluginName, enc).value
           == hostField + timeField + pluginField + instanceField + typeField + intervalField;
    HeaderFields(hostField, timeField, pluginField, instanceField, typeField, intervalField);
  }

  /** Six single fields, one of each header code, make a run of the six. */
  lemma HeaderFields(hostField: Bytes, timeField: Bytes, pluginField: Bytes, instanceField: Bytes,
                     typeField: Bytes, intervalField: Bytes)
    requires Fields(hostField, {TYPE_HOST}) && Fields(timeField, {TYPE_TIME})
    requires Fields(pluginField, {TYPE_PLUGIN}) && Fields(instanceField, {TYPE_PLUGIN_INSTANCE})
    requires Fields(typeField, {TYPE_TYPE}) && Fields(intervalField, {TYPE_INTERVAL})
    ensures Fields(hostField + timeField + pluginField + instanceField + typeField + intervalField, HEADER_CODES)
  {
    var f2, c2 := hostField + timeField, {TYPE_HOST} + {TYPE_TIME};
    FieldsJoin(hostField, {TYPE_HOST}, timeField, {TYPE_TIME});
    var f3, c3 := f2 + pluginField, c2 + {TYPE_PLUGIN};
    FieldsJoin(f2, c2, pluginField, {TYPE_PLUGIN});
    var f4, c4 := f3 + instanceField, c3 + {TYPE_PLUGIN_INSTANCE};
    FieldsJoin(f3, c3, instanceField, {TYPE_PLUGIN_INSTANCE});
    var f5, c5 := f4 + typeField, c4 + {TYPE_TYPE};
    FieldsJoin(f4, c4, typeField, {TYPE_TYPE});
    FieldsJoin(f5, c5, intervalField, {TYPE_INTERVAL});
    assert c5 + {TYPE_INTERVAL} == HEADER_CODES;
  }

  /** Encoded stats one after the other are valid fields of the type-instance
      and values codes. */
  lemma {:induction false} StatsFields(parts: seq<Bytes>)
    requires forall p :: p in parts ==> Fields(p, STAT_CODES)
    ensures Fields(Concat(parts), if parts == [] then {} else STAT_CODES)
  {
    if parts == [] {
      NoFields();
    } else {
      assert parts[0] in parts;
      assert forall p :: p in parts[1..] ==> p in parts;
      StatsFields(parts[1..]);
      var seen: set<int> := if parts[1..] == [] then {} else STAT_CODES;
      FieldsJoin(parts[0], STAT_CODES, Concat(parts[1..]), seen);
      assert STAT_CODES + seen == STAT_CODES;
    }
  }

  /** Every part `pack` produced for a list of stats is an encoded stat. */
  lemma PartsAreStats(counts: seq<(Bytes, Py)>, enc: DoubleEncoder)
    requires PackAll(counts, enc).Ok?
    ensures forall p :: p in PackAll(counts, enc).value ==> Fields(p, STAT_CODES)
  {
    var parts := PackAll(counts, enc).value;
    forall p | p in parts ensures Fields(p, STAT_CODES) {
      var j :| 0 <= j < |parts| && parts[j] == p;
      assert PackValue(counts[j].0, counts[j].1, enc) == Pack(Name(counts[j].0), counts[j].1, enc);
      ValueFields(counts[j].0, counts[j].1, enc);
    }
  }

  lemma KnownCodesCount()
    ensures KNOWN_CODES == HEADER_CODES + STAT_CODES
    ensures |KNOWN_CODES| == 8 && |HEADER_CODES| == 6
  {
    assert HEADER_CODES == {0, 1, 2, 3, 4, 7};
    assert KNOWN_CODES == {0, 1, 2, 3, 4, 5, 6, 7};
  }

  /** The test suite's main claim about the encoder: every packet `messages`
      returns walks cleanly and carries all eight type codes, so that
      assertValidPacket(8, packet) passes. */
  lemma PacketsValid(counts: seq<(Bytes, Py)>, when: Py, now: real, host: Bytes, pluginInst: Bytes,
                     pluginName: Bytes, enc: DoubleEncoder, packets: seq<Bytes>)
    requires Packetize(counts, when, now, host, pluginInst, pluginName, enc) == Ok(packets)
    ensures forall i :: 0 <= i < |packets| ==> Walk(packets[i]) == Ok(KNOWN_CODES) && CheckPacket(8, packets[i]) == Done
    ensures FirstInvalid(packets) == Done
  {
    PacketizeShape(counts, when, now, host, pluginInst, pluginName, enc, packets);
    var start := MessageStart(when, now, host, pluginInst, pluginName, enc).value;
    var kept := Fitting(|start|, PackAll(counts, enc).value);
    if kept != [] {
      var groups :| WellPacked(|start|, kept, groups) && packets == Seal(start, groups);
      PartsAreStats(counts, enc);
      KnownCodesCount();
      StartFields(when, now, host, pluginInst, pluginName, enc);
      forall i | 0 <= i < |packets| ensures Walk(packets[i]) == Ok(KNOWN_CODES) && CheckPacket(8, packets[i]) == Done {
        GroupFields(groups, i);
        PacketWalk(start, groups[i]);
      }
    }
    AllValid(packets);
  }

  /** A group of a packing of encoded stats holds encoded stats. */
  lemma GroupFields(groups: seq<seq<Bytes>>, i: nat)
    requires i < |groups| && forall p :: p in Flatten(groups) ==> Fields(p, STAT_CODES)
    ensures forall p :: p in groups[i] ==> Fields(p, STAT_CODES)
  {
    forall p | p in groups[i] ensures Fields(p, STAT_CODES) {
      var j :| 0 <= j < |groups[i]| && groups[i][j] == p;
      FlattenMember(groups, i, j);
    }
  }

  /** A header followed by a non-empty group of encoded stats walks to all
      eight codes. */
  lemma PacketWalk(start: Bytes, group: seq<Bytes>)
    requires Fields(start, HEADER_CODES) && group != [] && forall p :: p in group ==> Fields(p, STAT_CODES)
    ensures Walk(start + Concat(group)) == Ok(HEADER_CODES + STAT_CODES)
  {
    StatsFields(group);
    FieldsJoin(start, HEADER_CODES, Concat(group), STAT_CODES);
    var p := start + Concat(group);
    assert Walk(p + []) == After(HEADER_CODES + STAT_CODES, Walk([]));
    assert p + [] == p;
    assert Walk([]) == Ok({});
    assert (HEADER_CODES + STAT_CODES) + {} == HEADER_CODES + STAT_CODES;
  }

  /** A run of valid fields with nothing after it walks to its codes. */
  lemma FieldsWalk(f: Bytes, codes: set<int>)
    requires Fields(f, codes)
    ensures Walk(f) == Ok(codes)
  {
    assert Walk(f + []) == After(codes, Walk([]));
    assert f + [] == f;
    assert Walk([]) == Ok({});
    assert codes + {} == codes;
  }

  /** A single numeric or string field is a valid packet with one type code
      (unit_tests.py:161-179). */
  lemma PackValid(typeCode: int, value: Py, enc: DoubleEncoder)
    requires Pack(Code(typeCode), value, enc).Ok?
    ensures CheckPacket(1, Pack(Code(typeCode), value, enc).value) == Done
  {
    if typeCode in LONG_INT_CODES {
      NumericFields(typeCode, value);
    } else {
      StringFields(typeCode, value);
    }
    FieldsWalk(Pack(Code(typeCode), value, enc).value, {typeCode});
  }

  /** The header alone is a valid packet with six type codes
      (unit_tests.py:181-183). */
  lemma StartValid(when: Py, now: real, host: Bytes, pluginInst: Bytes, pluginName: Bytes, enc: DoubleEncoder)
    requires MessageStart(when, now, host, pluginInst, pluginName, enc).Ok?
    ensures CheckPacket(6, MessageStart(when, now, host, pluginInst, pluginName, enc).value) == Done
  {
    StartFields(when, now, host, pluginInst, pluginName, enc);
    FieldsWalk(MessageStart(when, now, host, pluginInst, pluginName, enc).value, HEADER_CODES);
    KnownCodesCount();
  }

  /** The first packet that fails assertValidPacket(8, ...), if any. */
  function FirstInvalid(packets: seq<Bytes>): Outcome {
    if packets == [] then Done
    else if CheckPacket(8, packets[0]).Raised? then CheckPacket(8, packets[0])
    else FirstInvalid(packets[1..])
  }

  /** assertValidMessages(expected_message_count, stats), as a function of
      what `messages(stats)` returned or raised. */
  function ValidMessages(expectedMessageCount: int, r: Result<seq<Bytes>>): Outcome {
    match r
    case Err(e) => Raised(e)
    case Ok(packets) =>
      if |packets| != expectedMessageCount then Raised(AssertionError) else FirstInvalid(packets)
  }

  /** `messages(stats)` with its default arguments, where the clock reads
      `now` and the host is called `host`. */
  function DefaultMessages(counts: seq<(Bytes, Py)>, now: real, host: Bytes, enc: DoubleEncoder): Result<seq<Bytes>> {
    Packetize(counts, PyNone, now, host, DEFAULT_PLUGIN_INST, DEFAULT_PLUGIN_NAME, enc)
  }

  /** assertValidMessages passes exactly when `messages` does not raise and
      returns the expected number of packets: their validity is never in
      doubt. */
  lemma CheckMessagesCounts(expectedMessageCount: int, counts: seq<(Bytes, Py)>, when: Py, now: real, host: Bytes,
                            pluginInst: Bytes, pluginName: Bytes, enc: DoubleEncoder)
    ensures var r := Packetize(counts, when, now, host, pluginInst, pluginName, enc);
            ValidMessages(expectedMessageCount, r)
            == if r.Err? then Raised(r.error) else if |r.value| != expectedMessageCount then Raised(AssertionError) else Done
  {
    var r := Packetize(counts, when, now, host, pluginInst, pluginName, enc);
    if r.Ok? {
      PacketsValid(counts, when, now, host, pluginInst, pluginName, enc, r.value);
    }
    ValidMessagesOf(expectedMessageCount, r);
  }

  lemma ValidMessagesOf(expectedMessageCount: int, r: Result<seq<Bytes>>)
    requires r.Ok? ==> FirstInvalid(r.value) == Done
    ensures ValidMessages(expectedMessageCount, r)
            == if r.Err? then Raised(r.error) else if |r.value| != expectedMessageCount then Raised(AssertionError) else Done
  {
  }

  lemma {:induction false} AllValid(packets: seq<Bytes>)
    requires forall i :: 0 <= i < |packets| ==> CheckPacket(8, packets[i]) == Done
    ensures FirstInvalid(packets) == Done
  {
    if packets != [] {
      assert forall i :: 0 <= i < |packets[1..]| ==> packets[1..][i] == packets[i + 1];
      AllValid(packets[1..]);
    }
  }

  /** assertValidMessages: call `messages` with its default arguments, compare
      the number of packets, then check each packet in turn. */
  method AssertValidMessages(expectedMessageCount: int, counts: seq<(Bytes, Py)>, now: real, host: Bytes,
                             enc: DoubleEncoder) returns (outcome: Outcome)
    ensures outcome == ValidMessages(expectedMessageCount, DefaultMessages(counts, now, host, enc))
  {
    var r := Messages(counts, PyNone, now, host, DEFAULT_PLUGIN_INST, DEFAULT_PLUGIN_NAME, enc);
    assert r == DefaultMessages(counts, now, host, enc);
    if r.Err? {
      return Raised(r.error);
    }
    var packets := r.value;
    if |packets| != expectedMessageCount {
      return Raised(AssertionError);
    }
    outcome := CheckEach(packets);
  }

  /** The loop `for packet in packets: self.assertValidPacket(8, packet)`. */
  method CheckEach(packets: seq<Bytes>) returns (outcome: Outcome)
    ensures outcome == FirstInvalid(packets)
  {
    for i := 0 to |packets|
      invariant FirstInvalid(packets) == FirstInvalid(packets[i..])
    {
      SuffixTail(packets, i);
      outcome := AssertValidPacket(8, packets[i]);
      if outcome.Raised? {
        return outcome;
      }
    }
    assert packets[|packets|..] == [];
    return Done;
  }
}
