/** Field encoders of the collectd network protocol (collectd.py:17-76).
    Every field is a type-length-value triple: a big-endian 16-bit type code,
    a big-endian 16-bit length that counts the four header bytes, and the
    payload. */
module Wire {
  import opened Python

  const SEND_INTERVAL: int := 10
  const MAX_PACKET_SIZE: int := 1024

  const PLUGIN_TYPE: Bytes := "gauge"

  /** The defaults of the plugin_inst and plugin_name arguments of
      message_start, messages and Connection. */
  const DEFAULT_PLUGIN_INST: Bytes := ""
  const DEFAULT_PLUGIN_NAME: Bytes := "any"

  const TYPE_HOST: int := 0x0000
  const TYPE_TIME: int := 0x0001
  const TYPE_PLUGIN: int := 0x0002
  const TYPE_PLUGIN_INSTANCE: int := 0x0003
  const TYPE_TYPE: int := 0x0004
  const TYPE_TYPE_INSTANCE: int := 0x0005
  const TYPE_VALUES: int := 0x0006
  const TYPE_INTERVAL: int := 0x0007

  const LONG_INT_CODES: set<int> := {TYPE_TIME, TYPE_INTERVAL}
  const STRING_CODES: set<int> := {TYPE_HOST, TYPE_PLUGIN, TYPE_PLUGIN_INSTANCE, TYPE_TYPE, TYPE_TYPE_INSTANCE}

  const VALUE_COUNTER: int := 0
  const VALUE_GAUGE: int := 1
  const VALUE_DERIVE: int := 2
  const VALUE_ABSOLUTE: int := 3
  const VALUE_CODES: set<int> := {VALUE_COUNTER, VALUE_GAUGE, VALUE_DERIVE, VALUE_ABSOLUTE}

  const TWO_16: nat := 0x1_0000
  const TWO_64: nat := 0x1_0000_0000_0000_0000

  /** The first argument of `pack`: a stat name, or a numeric type code. */
  datatype Id = Name(name: Bytes) | Code(code: int)

  /** The IEEE-754 little-endian encoding `struct.pack("<d", x)`, which the
      model takes as given. */
  type DoubleEncoder = real -> Bytes8

  function Pow256(width: nat): (p: nat)
    ensures p > 0
  {
    if width == 0 then 1 else 256 * Pow256(width - 1)
  }

  lemma Pow256Values()
    ensures Pow256(2) == TWO_16 && Pow256(8) == TWO_64
  {
    assert Pow256(0) == 1;
    assert Pow256(1) == 256;
    assert Pow256(2) == 0x1_0000;
    assert Pow256(3) == 0x100_0000;
    assert Pow256(4) == 0x1_0000_0000;
    assert Pow256(5) == 0x100_0000_0000;
    assert Pow256(6) == 0x1_0000_0000_0000;
    assert Pow256(7) == 0x100_0000_0000_0000;
  }

  /** The unsigned integer a big-endian byte string denotes. */
  function FromBigEndian(b: Bytes): (n: nat)
    ensures n < Pow256(|b|)
  {
    if b == [] then 0
    else
      var high := FromBigEndian(b[..|b| - 1]);
      assert high <= Pow256(|b| - 1) - 1;
      assert high * 256 <= Pow256(|b|) - 256;
      high * 256 + b[|b| - 1] as int
  }

  /** `n` as an unsigned big-endian integer of `width` bytes. */
  function BigEndian(n: nat, width: nat): (r: Bytes)
    requires n < Pow256(width)
    ensures |r| == width && FromBigEndian(r) == n
  {
    if width == 0 then []
    else
      var high := BigEndian(n / 256, width - 1);
      var r := high + [(n % 256) as char];
      assert r[..|r| - 1] == high;
      r
  }

  /** `struct.pack("!H", n)`. */
  function U16(n: int): (r: Bytes)
    requires 0 <= n < TWO_16
    ensures |r| == 2 && FromBigEndian(r) == n
  {
    Pow256Values();
    BigEndian(n, 2)
  }

  /** The two's-complement reading `struct.unpack("!q", b)` of eight bytes. */
  function Signed64(b: Bytes): int
    requires |b| == 8
  {
    var u := FromBigEndian(b);
    if u < TWO_64 / 2 then u else u - TWO_64
  }

  /** `struct.pack("!q", v)`. */
  function Int64(v: int): (r: Bytes)
    requires INT64_MIN <= v <= INT64_MAX
    ensures |r| == 8 && Signed64(r) == v
  {
    Pow256Values();
    BigEndian(if v < 0 then v + TWO_64 else v, 8)
  }

  /** The arguments `struct.pack` accepts for a numeric format: ints, longs
      and floats. For an integer format CPython 2 truncates a float, with a
      deprecation warning. */
  predicate IsNumeric(v: Py) {
    v.PyInt? || v.PyFloat?
  }

  /** The integer `struct.pack` encodes for a numeric argument. */
  function IntArgument(v: Py): int
    requires IsNumeric(v)
  {
    if v.PyInt? then v.i else Trunc(v.f)
  }

  predicate FitsU16(n: int) {
    0 <= n < TWO_16
  }

  /** pack_numeric: `struct.pack("!HHq", type_code, 12, number)`. */
  function PackNumeric(typeCode: int, number: Py): (r: Result<Bytes>)
    ensures r.Ok? <==> FitsU16(typeCode) && IsNumeric(number)
                       && INT64_MIN <= IntArgument(number) <= INT64_MAX
    ensures r.Err? ==> r.error == StructError
    ensures r.Ok? ==> && |r.value| == 12
                      && FromBigEndian(r.value[..2]) == typeCode
                      && FromBigEndian(r.value[2..4]) == 12
                      && Signed64(r.value[4..]) == IntArgument(number)
  {
    if !FitsU16(typeCode) || !IsNumeric(number) then Err(StructError)
    else
      var n := IntArgument(number);
      if n < INT64_MIN || INT64_MAX < n then Err(StructError)
      else
        var r := U16(typeCode) + U16(12) + Int64(n);
        assert r[..2] == U16(typeCode) && r[2..4] == U16(12) && r[4..] == Int64(n);
        Ok(r)
  }

  /** pack_string: the header, the bytes of the string and a NUL. Anything but
      a string raises, at `len` or at the concatenation. */
  function PackString(typeCode: int, str: Py): (r: Result<Bytes>)
    ensures r.Ok? <==> str.PyStr? && FitsU16(typeCode) && FitsU16(5 + |str.s|)
    ensures r.Ok? ==> && |r.value| == 4 + |str.s| + 1
                      && FromBigEndian(r.value[..2]) == typeCode
                      && FromBigEndian(r.value[2..4]) == 5 + |str.s|
                      && r.value[4..|r.value| - 1] == str.s
                      && r.value[|r.value| - 1] == '\0'
  {
    if !str.PyStr? then Err(TypeError)
    else if !FitsU16(typeCode) || !FitsU16(5 + |str.s|) then Err(StructError)
    else
      var r := U16(typeCode) + U16(5 + |str.s|) + str.s + "\0";
      assert r[..2] == U16(typeCode) && r[2..4] == U16(5 + |str.s|) && r[4..|r| - 1] == str.s;
      Ok(r)
  }

  /** The 15-byte values field that follows a stat name: code 6, length 15,
      one value, of kind gauge, then the eight bytes of the double. */
  function GaugeField(payload: Bytes8): (r: Bytes)
    ensures |r| == 15
  {
    U16(TYPE_VALUES) + U16(15) + U16(1) + [VALUE_GAUGE as char] + payload
  }

  /** pack_value: the type-instance field for the name, then the values field. */
  function PackValue(name: Bytes, value: Py, enc: DoubleEncoder): (r: Result<Bytes>)
    decreases 1
    ensures r.Ok? <==> FitsU16(5 + |name|) && IsNumeric(value)
    ensures r.Ok? ==> var k := 5 + |name|;
                      && |r.value| == k + 15
                      && r.value[..k] == PackString(TYPE_TYPE_INSTANCE, PyStr(name)).value
                      && FromBigEndian(r.value[k..k + 2]) == TYPE_VALUES
                      && FromBigEndian(r.value[k + 2..k + 4]) == 15
                      && FromBigEndian(r.value[k + 4..k + 6]) == 1
                      && r.value[k + 6] as int == VALUE_GAUGE
                      && r.value[k + 7..] == enc(AsReal(value))
  {
    var instance :- Pack(Code(TYPE_TYPE_INSTANCE), PyStr(name), enc);
    if !IsNumeric(value) then Err(StructError)
    else
      var field := GaugeField(enc(AsReal(value)));
      var r := instance + field;
      assert r[..|instance|] == instance;
      assert r[|instance|..|instance| + 2] == U16(TYPE_VALUES);
      assert r[|instance| + 2..|instance| + 4] == U16(15);
      assert r[|instance| + 4..|instance| + 6] == U16(1);
      Ok(r)
  }

  /** pack: a string id is a stat name; a time or interval code takes a number,
      the five string codes a string; any other code is refused. */
  function Pack(id: Id, value: Py, enc: DoubleEncoder): (r: Result<Bytes>)
    decreases if id.Name? then 2 else 0
    ensures id.Code? && id.code !in LONG_INT_CODES + STRING_CODES ==> r == Err(AssertionError)
    ensures r.Ok? && id.Code? && id.code in LONG_INT_CODES ==> |r.value| == 12
    ensures r.Ok? && id.Code? && id.code in STRING_CODES ==> value.PyStr? && |r.value| == 5 + |value.s|
    ensures r.Ok? && id.Name? ==> IsNumeric(value) && |r.value| == 20 + |id.name|
  {
    match id
    case Name(name) => PackValue(name, value, enc)
    case Code(code) =>
      if code in LONG_INT_CODES then PackNumeric(code, value)
      else if code in STRING_CODES then PackString(code, value)
      else Err(AssertionError)
  }

  /** The time field's argument: `when or time.time()`. */
  function ResolveTime(when: Py, now: real): Py {
    if Truthy(when) then when else PyFloat(now)
  }

  /** message_start: host, time, plugin name, plugin instance, the type
      "gauge" and the interval 10, in that order. */
  function MessageStart(when: Py, now: real, host: Bytes, pluginInst: Bytes, pluginName: Bytes,
                        enc: DoubleEncoder): (r: Result<Bytes>)
    ensures r.Ok? <==> && FitsU16(5 + |host|) && FitsU16(5 + |pluginName|) && FitsU16(5 + |pluginInst|)
                       && IsNumeric(ResolveTime(when, now))
                       && INT64_MIN <= IntArgument(ResolveTime(when, now)) <= INT64_MAX
    ensures r.Ok? ==> && r.value == PackString(TYPE_HOST, PyStr(host)).value
                                    + PackNumeric(TYPE_TIME, ResolveTime(when, now)).value
                                    + PackString(TYPE_PLUGIN, PyStr(pluginName)).value
                                    + PackString(TYPE_PLUGIN_INSTANCE, PyStr(pluginInst)).value
                                    + PackString(TYPE_TYPE, PyStr(PLUGIN_TYPE)).value
                                    + PackNumeric(TYPE_INTERVAL, PyInt(SEND_INTERVAL)).value
                      && |r.value| == 49 + |host| + |pluginName| + |pluginInst|
  {
    StringDispatch(TYPE_HOST, PyStr(host), enc);
    NumericDispatch(TYPE_TIME, ResolveTime(when, now), enc);
    StringDispatch(TYPE_PLUGIN, PyStr(pluginName), enc);
    StringDispatch(TYPE_PLUGIN_INSTANCE, PyStr(pluginInst), enc);
    StringDispatch(TYPE_TYPE, PyStr(PLUGIN_TYPE), enc);
    NumericDispatch(TYPE_INTERVAL, PyInt(SEND_INTERVAL), enc);
    // The type and interval fields are constant and never fail.
    var typeField := Pack(Code(TYPE_TYPE), PyStr(PLUGIN_TYPE), enc).value;
    var intervalField := Pack(Code(TYPE_INTERVAL), PyInt(SEND_INTERVAL), enc).value;
    var hostField :- Pack(Code(TYPE_HOST), PyStr(host), enc);
    var timeField :- Pack(Code(TYPE_TIME), ResolveTime(when, now), enc);
    var pluginField :- Pack(Code(TYPE_PLUGIN), PyStr(pluginName), enc);
    var instanceField :- Pack(Code(TYPE_PLUGIN_INSTANCE), PyStr(pluginInst), enc);
    Ok(hostField + timeField + pluginField + instanceField + typeField + intervalField)
  }

  /** pack with a string code is pack_string. */
  lemma StringDispatch(code: int, value: Py, enc: DoubleEncoder)
    requires code in STRING_CODES
    ensures Pack(Code(code), value, enc) == PackString(code, value)
  {
  }

  /** pack with a time or interval code is pack_numeric. */
  lemma NumericDispatch(code: int, value: Py, enc: DoubleEncoder)
    requires code in LONG_INT_CODES
    ensures Pack(Code(code), value, enc) == PackNumeric(code, value)
  {
  }
}
