/** Decoded body values and the conversions the filter engine performs on them
    (app/server/gateway/filter.go). */
module Values {
  import opened Optional

  type Byte = b: int | 0 <= b < 0x100
  type Int64 = i: int | -0x8000_0000_0000_0000 <= i < 0x8000_0000_0000_0000
  type Uint64 = u: int | 0 <= u < 0x1_0000_0000_0000_0000

  /** Finite float64 values, as the reals they denote. The constraint is what float64 imposes on
      whole numbers: they survive rounding to 53 significant bits. */
  type Float64 = f: real | f == f.Floor as real ==> RoundToFloat64(f.Floor) == f.Floor witness 0.0

  /** Distance between neighbouring float64 values around `n`. */
  function Ulp(n: nat): (u: nat)
    ensures u >= 1
  {
    if n < 0x20_0000_0000_0000 then 1 else 2 * Ulp(n / 2)
  }

  /** Go's float64(n): nearest multiple of the ulp, ties to the even multiple. */
  function RoundToFloat64(n: int): int {
    if n < 0 then -RoundNat(-n) else RoundNat(n)
  }

  function RoundNat(n: nat): int {
    var u := Ulp(n);
    var q, r := n / u, n % u;
    if 2 * r < u || (2 * r == u && q % 2 == 0) then q * u else (q + 1) * u
  }

  /** A value produced by decoding a msgpack body, plus the any-match sentinel that path
      extraction returns for `[*]` segments. Integer and float widths are collapsed: every consumer
      widens them before use. `Opaque` stands for decoded types no operator looks into. */
  datatype Value =
    | Nil
    | Bool(b: bool)
    | Int(i: Int64)
    | Uint(u: Uint64)
    | Float(f: Float64)
    | Str(s: string)
    | Time(unix: Int64)
    | Slice(elems: seq<Value>)
    | Map(fields: map<string, Value>)
    | Opaque
    | AnyMatch(values: seq<Value>)

  type Document = map<string, Value>

  // ---- numeric conversions ----

  function Truncate(f: real): int {
    if f >= 0.0 then f.Floor else -(-f).Floor
  }

  function WrapInt64(n: int): Int64 {
    (n + 0x8000_0000_0000_0000) % 0x1_0000_0000_0000_0000 - 0x8000_0000_0000_0000
  }

  function WrapInt32(n: int): int {
    (n + 0x8000_0000) % 0x1_0000_0000 - 0x8000_0000
  }

  /** Go's int64(f); out-of-range conversions yield the amd64 result. */
  function FloatToInt64(f: real): Int64 {
    var t := Truncate(f);
    if -0x8000_0000_0000_0000 <= t < 0x8000_0000_0000_0000 then t else -0x8000_0000_0000_0000
  }

  /** Go's uint64(f); negative inputs wrap and out-of-range ones saturate as on amd64. */
  function FloatToUint64(f: real): Uint64 {
    var t := Truncate(f);
    if 0 <= t < 0x1_0000_0000_0000_0000 then t
    else if -0x8000_0000_0000_0000 <= t < 0 then t + 0x1_0000_0000_0000_0000
    else 0x8000_0000_0000_0000
  }

  function ToInt64(v: Value): Option<Int64> {
    match v
    case Int(i) => Some(i)
    case Uint(u) => if u < 0x8000_0000_0000_0000 then Some(u) else None
    case Float(f) => Some(FloatToInt64(f))
    case Time(unix) => Some(unix)
    case _ => None
  }

  function ToUint64(v: Value): Option<Uint64> {
    match v
    case Uint(u) => Some(u)
    case Int(i) => if i >= 0 then Some(i) else None
    case Float(f) => Some(FloatToUint64(f))
    case _ => None
  }

  function ToFloat64(v: Value): Option<real> {
    match v
    case Float(f) => Some(f)
    case Int(i) => Some(RoundToFloat64(i) as real)
    case Uint(u) => Some(RoundToFloat64(u) as real)
    case _ => None
  }

  // ---- comparison operators ----

  /** Relational.Operator; `UnknownOp` stands for enum numbers this server does not know. */
  datatype Operator =
    | EQUAL | GREATER_THAN | GREATER_THAN_OR_EQUAL | LESS_THAN | LESS_THAN_OR_EQUAL | NOT_EQUAL
    | CONTAINS | NOT_CONTAINS | STARTS_WITH | ENDS_WITH
    | IS_EMPTY | IS_NOT_EMPTY | HAS_KEY | HAS_NOT_KEY
    | SLICE_CONTAINS | SLICE_NOT_CONTAINS | SLICE_CONTAINS_SUBSTRING | SLICE_NOT_CONTAINS_SUBSTRING
    | STRING_IN | INT32_IN | INT64_IN
    | UnknownOp

  /** compareOrdered, given how the actual value relates to the reference. */
  predicate OrderHolds(op: Operator, less: bool, equal: bool) {
    match op
    case EQUAL => equal
    case NOT_EQUAL => !equal
    case GREATER_THAN => !less && !equal
    case GREATER_THAN_OR_EQUAL => !less
    case LESS_THAN => less
    case LESS_THAN_OR_EQUAL => less || equal
    case _ => false
  }

  predicate CompareInt(actual: int, op: Operator, ref: int) {
    OrderHolds(op, actual < ref, actual == ref)
  }

  predicate CompareReal(actual: real, op: Operator, ref: real) {
    OrderHolds(op, actual < ref, actual == ref)
  }

  /** Lexicographic order on strings. */
  predicate StringLess(a: string, b: string) {
    b != "" && (a == "" || a[0] < b[0] || (a[0] == b[0] && StringLess(a[1..], b[1..])))
  }

  predicate HasPrefix(s: string, prefix: string) {
    prefix <= s
  }

  predicate HasSuffix(s: string, suffix: string) {
    |suffix| <= |s| && s[|s| - |suffix|..] == suffix
  }

  predicate ContainsSubstring(s: string, sub: string) {
    exists i | 0 <= i <= |s| :: HasPrefix(s[i..], sub)
  }

  predicate CompareString(actual: string, op: Operator, ref: string) {
    match op
    case CONTAINS => ContainsSubstring(actual, ref)
    case NOT_CONTAINS => !ContainsSubstring(actual, ref)
    case STARTS_WITH => HasPrefix(actual, ref)
    case ENDS_WITH => HasSuffix(actual, ref)
    case _ => OrderHolds(op, StringLess(actual, ref), actual == ref)
  }

  predicate CompareBool(actual: bool, op: Operator, ref: bool) {
    match op
    case EQUAL => actual == ref
    case NOT_EQUAL => actual != ref
    case _ => false
  }
}
