/** The parts of Python 2 that the collectd client relies on: byte strings,
    the dynamically typed values it inspects with `isinstance`, truth values,
    `int()` truncation of floats, and the exceptions it raises. */
module Python {

  /** One byte of a Python 2 `str`. A character below 256 stands for the byte
      with that value, so that string literals read as they do in the source. */
  type Byte = c: char | c as int < 256

  /** A Python 2 `str` is a string of bytes. */
  type Bytes = seq<Byte>

  /** Exactly eight bytes: the size of a packed double. */
  type Bytes8 = s: Bytes | |s| == 8 witness ['\0', '\0', '\0', '\0', '\0', '\0', '\0', '\0']

  /** The Python values that reach the core through `*args`, `**kwargs` and the
      arguments of `pack`. `PyInt` holds an integer of any size: a Python 2
      `int` when it fits a C long (`IsInt`), a `long` otherwise. `PyOther`
      stands for every other object (a type object, a tuple, ...); the core
      treats them all alike, and the model takes them all as true. */
  datatype Py = PyInt(i: int) | PyFloat(f: real) | PyStr(s: Bytes) | PyNone | PyOther

  /** The exceptions the core raises. */
  datatype Error =
    | StructError     // struct.pack could not encode an argument
    | TypeError       // an operation applied to a value of the wrong type
    | AssertionError  // one of the core's asserts failed
    | AttributeError  // Connection.__getattr__ refused a name
    | Empty           // Queue.get found nothing within its timeout

  /** A value, or the exception that was raised instead. */
  datatype Result<+T> = Ok(value: T) | Err(error: Error) {
    predicate IsFailure() { Err? }
    function PropagateFailure<U>(): Result<U> requires Err? { Err(error) }
    function Extract(): T requires Ok? { value }
  }

  /** A call that returns None, or the exception it raised. */
  datatype Outcome = Done | Raised(error: Error)

  const INT64_MIN: int := -0x8000_0000_0000_0000
  const INT64_MAX: int := 0x7fff_ffff_ffff_ffff

  /** `isinstance(v, int)`: on a 64-bit CPython 2 an `int` is a C long; larger
      integers are of type `long` and fail the test. */
  predicate IsInt(v: Py) {
    v.PyInt? && INT64_MIN <= v.i <= INT64_MAX
  }

  /** `isinstance(v, (int, float))`. */
  predicate IsNumber(v: Py) {
    IsInt(v) || v.PyFloat?
  }

  /** The real number an int, long or float stands for. */
  function AsReal(v: Py): real
    requires v.PyInt? || v.PyFloat?
  {
    if v.PyInt? then v.i as real else v.f
  }

  /** `bool(v)`: zero, the empty string and None are false. An empty
      container is false in Python too; the model has no empty containers,
      `PyOther` being true. */
  predicate Truthy(v: Py) {
    match v
    case PyInt(i) => i != 0
    case PyFloat(f) => f != 0.0
    case PyStr(s) => s != []
    case PyNone => false
    case PyOther => true
  }

  /** `int(x)` for a float: truncation toward zero. */
  function Trunc(x: real): (r: int)
    ensures 0.0 <= x ==> r as real <= x < r as real + 1.0
    ensures x < 0.0 ==> r as real - 1.0 < x <= r as real
  {
    if 0.0 <= x then x.Floor else -((-x).Floor)
  }

  /** Truncation keeps the order of its arguments. */
  lemma TruncMonotone(x: real, y: real)
    requires x <= y
    ensures Trunc(x) <= Trunc(y)
  {
  }

  /** `s.startswith("_")`. */
  predicate StartsWithUnderscore(s: Bytes) {
    |s| > 0 && s[0] == '_'
  }

  /** The suffix from `i`, less its first element, is the suffix from `i + 1`. */
  lemma SuffixTail<T>(s: seq<T>, i: nat)
    requires i < |s|
    ensures s[i..][0] == s[i] && s[i..][1..] == s[i + 1..]
  {
  }

  /** `"".join(parts)`. */
  function Concat(parts: seq<Bytes>): Bytes {
    if parts == [] then [] else parts[0] + Concat(parts[1..])
  }

  lemma {:induction false} ConcatAppend(parts: seq<Bytes>, p: Bytes)
    ensures Concat(parts + [p]) == Concat(parts) + p
  {
    if parts == [] {
      assert [] + [p] == [p];
      assert Concat([p]) == p + Concat([]);
    } else {
      assert (parts + [p])[1..] == parts[1..] + [p];
      ConcatAppend(parts[1..], p);
    }
  }

  /** `"".join(a + b)` is the join of `a` followed by the join of `b`. */
  lemma {:induction false} ConcatJoin(a: seq<Bytes>, b: seq<Bytes>)
    ensures Concat(a + b) == Concat(a) + Concat(b)
  {
    if a == [] {
      assert a + b == b;
    } else {
      assert (a + b)[1..] == a[1..] + b;
      ConcatJoin(a[1..], b);
    }
  }
}
