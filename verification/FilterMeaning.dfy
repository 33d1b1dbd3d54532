/** What each filter operator accepts, said in terms of the built-in orders, concatenation and the fields of a
    treasure (app/server/gateway/filter.go, app/server/gateway/filter_native.go). */
module FilterMeaning {
  import opened Optional
  import opened Values
  import opened Paths
  import opened Filters

  // ---- orders ----

  /** The relation an ordering operator names. */
  predicate IntRelates(a: int, op: Operator, b: int) {
    (op == EQUAL && a == b) || (op == NOT_EQUAL && a != b) || (op == GREATER_THAN && a > b) ||
    (op == GREATER_THAN_OR_EQUAL && a >= b) || (op == LESS_THAN && a < b) || (op == LESS_THAN_OR_EQUAL && a <= b)
  }

  predicate RealRelates(a: real, op: Operator, b: real) {
    (op == EQUAL && a == b) || (op == NOT_EQUAL && a != b) || (op == GREATER_THAN && a > b) ||
    (op == GREATER_THAN_OR_EQUAL && a >= b) || (op == LESS_THAN && a < b) || (op == LESS_THAN_OR_EQUAL && a <= b)
  }

  /** Strings compare at their first difference; a proper prefix comes first. */
  predicate DiffersBelow(a: string, b: string) {
    exists i | 0 <= i <= |a| && i < |b| :: a[..i] == b[..i] && (i == |a| || a[i] < b[i])
  }

  ghost predicate Contains(s: string, part: string) {
    exists before, after :: s == before + part + after
  }

  ghost predicate StartsWith(s: string, part: string) {
    exists after :: s == part + after
  }

  ghost predicate EndsWith(s: string, part: string) {
    exists before :: s == before + part
  }

  ghost predicate StringRelates(a: string, op: Operator, b: string) {
    (op == EQUAL && a == b) || (op == NOT_EQUAL && a != b) || (op == GREATER_THAN && DiffersBelow(b, a)) ||
    (op == GREATER_THAN_OR_EQUAL && (a == b || DiffersBelow(b, a))) || (op == LESS_THAN && DiffersBelow(a, b)) ||
    (op == LESS_THAN_OR_EQUAL && (a == b || DiffersBelow(a, b))) ||
    (op == CONTAINS && Contains(a, b)) || (op == NOT_CONTAINS && !Contains(a, b)) ||
    (op == STARTS_WITH && StartsWith(a, b)) || (op == ENDS_WITH && EndsWith(a, b))
  }

  lemma CompareIntMeans(a: int, op: Operator, b: int)
    ensures CompareInt(a, op, b) <==> IntRelates(a, op, b)
  {}

  lemma CompareRealMeans(a: real, op: Operator, b: real)
    ensures CompareReal(a, op, b) <==> RealRelates(a, op, b)
  {}

  lemma {:induction false} StringLessMeans(a: string, b: string)
    ensures StringLess(a, b) <==> DiffersBelow(a, b)
  {
    if b != "" {
      if a == "" || a[0] < b[0] {
        assert a[..0] == b[..0];
      } else if a[0] == b[0] {
        StringLessMeans(a[1..], b[1..]);
        var a', b' := a[1..], b[1..];
        if i :| 0 <= i <= |a'| && i < |b'| && a'[..i] == b'[..i] && (i == |a'| || a'[i] < b'[i]) {
          assert a[..i + 1] == [a[0]] + a[1..][..i] && b[..i + 1] == [b[0]] + b[1..][..i];
        }
        if i :| 0 <= i <= |a| && i < |b| && a[..i] == b[..i] && (i == |a| || a[i] < b[i]) {
          assert i > 0 && a[1..][..i - 1] == a[..i][1..] && b[1..][..i - 1] == b[..i][1..];
        }
      } else if i :| 0 <= i <= |a| && i < |b| && a[..i] == b[..i] && (i == |a| || a[i] < b[i]) {
        assert i > 0 ==> a[..i][0] == b[..i][0];
      }
    }
  }

  /** Of two different strings exactly one comes first. */
  lemma {:induction false} StringOrder(a: string, b: string)
    ensures !StringLess(a, a)
    ensures a != b ==> StringLess(a, b) != StringLess(b, a)
  {
    if a != "" {
      StringOrder(a[1..], if b != "" then b[1..] else "");
      if b != "" && a[0] == b[0] && a[1..] == b[1..] { assert a == [a[0]] + a[1..] && b == [b[0]] + b[1..]; }
    }
  }

  lemma ContainsMeans(s: string, part: string)
    ensures ContainsSubstring(s, part) <==> Contains(s, part)
  {
    if i :| 0 <= i <= |s| && HasPrefix(s[i..], part) {
      var after := s[i..][|part|..];
      assert s[i..] == part + after;
      assert s == s[..i] + part + after;
    }
    if before, after :| s == before + part + after {
      assert s[|before|..] == part + after;
      assert HasPrefix(s[|before|..], part);
    }
  }

  lemma StartsWithMeans(s: string, part: string)
    ensures HasPrefix(s, part) <==> StartsWith(s, part)
  {
    if HasPrefix(s, part) { assert s == part + s[|part|..]; }
  }

  lemma EndsWithMeans(s: string, part: string)
    ensures HasSuffix(s, part) <==> EndsWith(s, part)
  {
    if HasSuffix(s, part) { assert s == s[..|s| - |part|] + part; }
    if before :| s == before + part { assert s[|before|..] == part; }
  }

  lemma CompareStringMeans(a: string, op: Operator, b: string)
    ensures CompareString(a, op, b) <==> StringRelates(a, op, b)
  {
    match op
    case CONTAINS => ContainsMeans(a, b);
    case NOT_CONTAINS => ContainsMeans(a, b);
    case STARTS_WITH => StartsWithMeans(a, b);
    case ENDS_WITH => EndsWithMeans(a, b);
    case _ => StringOrderMeans(a, b);
  }

  lemma StringOrderMeans(a: string, b: string)
    ensures StringLess(a, b) <==> DiffersBelow(a, b)
    ensures (!StringLess(a, b) && a != b) <==> DiffersBelow(b, a)
  {
    StringLessMeans(a, b);
    StringLessMeans(b, a);
    StringOrder(a, b);
  }

  // ---- conversions ----

  /** A real cut off toward zero. */
  predicate CutTo(f: real, n: int) {
    if f >= 0.0 then n as real <= f < n as real + 1.0 else n as real - 1.0 < f <= n as real
  }

  /** The signed integer a field value stands for: itself, an unsigned value that fits, a time's seconds, or a
      float cut toward zero (on amd64 the least integer when that does not fit). */
  predicate StandsForInt(v: Value, n: int) {
    -0x8000_0000_0000_0000 <= n < 0x8000_0000_0000_0000 &&
    ((v.Int? && v.i == n) || (v.Uint? && v.u == n) || (v.Time? && v.unix == n) || (v.Float? && CutsToInt(v.f, n)))
  }

  predicate CutsToInt(f: real, n: int) {
    CutTo(f, n) || (n == -0x8000_0000_0000_0000 && (f >= 9223372036854775808.0 || f <= -9223372036854775809.0))
  }

  lemma CutIsTruncate(f: real, n: int)
    ensures CutTo(f, n) <==> n == Truncate(f)
  {}

  lemma ToInt64Means(v: Value, n: Int64)
    ensures ToInt64(v) == Some(n) <==> StandsForInt(v, n)
  {
    if v.Float? { CutIsTruncate(v.f, n); }
  }

  /** The same for unsigned references, where times do not count and negative floats wrap. */
  predicate StandsForUint(v: Value, n: int) {
    0 <= n < 0x1_0000_0000_0000_0000 &&
    ((v.Uint? && v.u == n) || (v.Int? && v.i == n) || (v.Float? && CutsToUint(v.f, n)))
  }

  predicate CutsToUint(f: real, n: int) {
    CutTo(f, n) || (n >= 0x8000_0000_0000_0000 && CutTo(f, n - 0x1_0000_0000_0000_0000)) ||
    (n == 0x8000_0000_0000_0000 && (f >= 18446744073709551616.0 || f <= -9223372036854775809.0))
  }

  lemma ToUint64Means(v: Value, n: Uint64)
    ensures ToUint64(v) == Some(n) <==> StandsForUint(v, n)
  {
    if v.Float? {
      CutIsTruncate(v.f, n);
      CutIsTruncate(v.f, n - 0x1_0000_0000_0000_0000);
    }
  }

  /** Float64 spacing at a magnitude: 53 significant bits. */
  lemma {:induction false} UlpMeans(n: nat)
    ensures if n < 0x20_0000_0000_0000 then Ulp(n) == 1
            else 0x10_0000_0000_0000 * Ulp(n) <= n < 0x20_0000_0000_0000 * Ulp(n) && Ulp(n) % 2 == 0
  {
    if n >= 0x20_0000_0000_0000 { UlpMeans(n / 2); }
  }

  /** Rounding to float64 goes to a nearest multiple of the spacing, and to the even one on a tie. */
  lemma RoundMeans(n: nat)
    ensures exists q: nat :: RoundNat(n) == q * Ulp(n) && 2 * Distance(RoundNat(n), n) <= Ulp(n) &&
                             (2 * Distance(RoundNat(n), n) == Ulp(n) ==> q % 2 == 0)
  {
    var u := Ulp(n);
    var q, r := n / u, n % u;
    assert n == q * u + r;
    assert (q + 1) * u == q * u + u;
    var k := if 2 * r < u || (2 * r == u && q % 2 == 0) then q else q + 1;
    assert RoundNat(n) == k * u;
  }

  function Distance(a: int, b: int): nat {
    if a < b then b - a else a - b
  }

  /** Negative integers round as their magnitude does, and below 2^53 nothing is rounded. */
  lemma RoundToFloatMeans(n: int)
    ensures RoundToFloat64(n) == if n < 0 then -RoundNat(-n) else RoundNat(n)
    ensures -0x20_0000_0000_0000 < n < 0x20_0000_0000_0000 ==> RoundToFloat64(n) == n
  {}

  /** The float a field value stands for. */
  predicate StandsForFloat(v: Value, r: real) {
    (v.Float? && v.f == r) || (v.Int? && r == RoundToFloat64(v.i) as real) ||
    (v.Uint? && r == RoundToFloat64(v.u) as real)
  }

  // ---- leaves on a field value ----

  ghost predicate SignedRelates(v: Value, op: Operator, n: int) {
    exists a :: StandsForInt(v, a) && IntRelates(a, op, n)
  }

  ghost predicate UnsignedRelates(v: Value, op: Operator, n: int) {
    exists a :: StandsForUint(v, a) && IntRelates(a, op, n)
  }

  ghost predicate FloatRelates(v: Value, op: Operator, r: real) {
    exists a :: StandsForFloat(v, a) && RealRelates(a, op, r)
  }

  /** A field value against a reference, by the reference's type. */
  ghost predicate FieldRelates(v: Value, op: Operator, ref: CompareValue) {
    match ref
    case SignedVal(_, n) => SignedRelates(v, op, n)
    case UnsignedVal(_, n) => UnsignedRelates(v, op, n)
    case FloatVal(_, r) => FloatRelates(v, op, r)
    case StringVal(s) => v.Str? && StringRelates(v.s, op, s)
    case BoolVal(b) => v.Bool? && ((op == EQUAL && v.b == b) || (op == NOT_EQUAL && v.b != b))
    case _ => false
  }

  lemma SignedMeans(v: Value, op: Operator, n: Int64)
    ensures (ToInt64(v).Some? && CompareInt(ToInt64(v).value, op, n)) <==> SignedRelates(v, op, n)
  {
    if ToInt64(v).Some? {
      ToInt64Means(v, ToInt64(v).value);
      CompareIntMeans(ToInt64(v).value, op, n);
    }
    if a :| StandsForInt(v, a) && IntRelates(a, op, n) {
      ToInt64Means(v, a);
      CompareIntMeans(a, op, n);
    }
  }

  lemma UnsignedMeans(v: Value, op: Operator, n: Uint64)
    ensures (ToUint64(v).Some? && CompareInt(ToUint64(v).value, op, n)) <==> UnsignedRelates(v, op, n)
  {
    if ToUint64(v).Some? {
      ToUint64Means(v, ToUint64(v).value);
      CompareIntMeans(ToUint64(v).value, op, n);
    }
    if a :| StandsForUint(v, a) && IntRelates(a, op, n) {
      ToUint64Means(v, a);
      CompareIntMeans(a, op, n);
    }
  }

  lemma FloatMeans(v: Value, op: Operator, r: real)
    ensures (ToFloat64(v).Some? && CompareReal(ToFloat64(v).value, op, r)) <==> FloatRelates(v, op, r)
  {
    if ToFloat64(v).Some? {
      assert StandsForFloat(v, ToFloat64(v).value);
      CompareRealMeans(ToFloat64(v).value, op, r);
    }
    if a :| StandsForFloat(v, a) && RealRelates(a, op, r) { CompareRealMeans(a, op, r); }
  }

  lemma CompareSigned(v: Value, op: Operator, ref: CompareValue)
    requires ref.SignedVal?
    ensures CompareHolds(v, op, ref) <==> FieldRelates(v, op, ref)
  {
    SignedMeans(v, op, ref.n);
  }

  lemma CompareUnsigned(v: Value, op: Operator, ref: CompareValue)
    requires ref.UnsignedVal?
    ensures CompareHolds(v, op, ref) <==> FieldRelates(v, op, ref)
  {
    UnsignedMeans(v, op, ref.u);
  }

  lemma CompareFloat(v: Value, op: Operator, ref: CompareValue)
    requires ref.FloatVal?
    ensures CompareHolds(v, op, ref) <==> FieldRelates(v, op, ref)
  {
    FloatMeans(v, op, ref.r);
  }

  lemma CompareOther(v: Value, op: Operator, ref: CompareValue)
    requires !ref.SignedVal? && !ref.UnsignedVal? && !ref.FloatVal?
    ensures CompareHolds(v, op, ref) <==> FieldRelates(v, op, ref)
  {
    if ref.StringVal? && v.Str? { CompareStringMeans(v.s, op, ref.s); }
  }

  lemma CompareHoldsMeans(v: Value, op: Operator, ref: CompareValue)
    ensures CompareHolds(v, op, ref) <==> FieldRelates(v, op, ref)
  {
    if ref.SignedVal? {
      CompareSigned(v, op, ref);
    } else if ref.UnsignedVal? {
      CompareUnsigned(v, op, ref);
    } else if ref.FloatVal? {
      CompareFloat(v, op, ref);
    } else {
      CompareOther(v, op, ref);
    }
  }

  /** Membership leaves: a listed string, or a listed integer the value stands for. */
  lemma InMeans(v: Value, strings: seq<string>, ints: seq<Int64>)
    ensures StringInHolds(v, strings) <==> exists s | s in strings :: v == Str(s)
    ensures IntInHolds(v, ints) <==> exists n | n in ints :: StandsForInt(v, n)
  {
    forall n: Int64 ensures ToInt64(v) == Some(n) <==> StandsForInt(v, n) { ToInt64Means(v, n); }
    if n :| n in ints && StandsForInt(v, n) { assert ToInt64(v) == Some(n); }
  }

  /** What a slice must hold for SLICE_CONTAINS and its substring form. */
  ghost predicate SliceHasElement(v: Value, ref: CompareValue) {
    v.Slice? && exists e | e in v.elems ::
      (ref.StringVal? && e == Str(ref.s)) || (ref.SignedVal? && ref.signedKind != I16 && StandsForInt(e, ref.n))
  }

  ghost predicate SliceHasSubstring(env: Env, v: Value, ref: CompareValue) {
    v.Slice? && ref.StringVal? && exists e | e in v.elems :: e.Str? && Contains(env.lower(e.s), env.lower(ref.s))
  }

  /** The two forms, and their NOT forms as exact negations. */
  lemma SliceMeans(env: Env, v: Value, ref: CompareValue)
    ensures SliceHolds(env, v, SLICE_CONTAINS, ref) <==> SliceHasElement(v, ref)
    ensures SliceHolds(env, v, SLICE_NOT_CONTAINS, ref) <==> !SliceHasElement(v, ref)
    ensures SliceHolds(env, v, SLICE_CONTAINS_SUBSTRING, ref) <==> SliceHasSubstring(env, v, ref)
    ensures SliceHolds(env, v, SLICE_NOT_CONTAINS_SUBSTRING, ref) <==> !SliceHasSubstring(env, v, ref)
  {
    if v.Slice? && ref.SignedVal? && ref.signedKind != I16 {
      forall e | e in v.elems ensures ToInt64(e) == Some(ref.n) <==> StandsForInt(e, ref.n) { ToInt64Means(e, ref.n); }
    }
    if v.Slice? && ref.StringVal? {
      forall e | e in v.elems && e.Str?
        ensures ContainsSubstring(env.lower(e.s), env.lower(ref.s)) <==> Contains(env.lower(e.s), env.lower(ref.s))
      {
        ContainsMeans(env.lower(e.s), env.lower(ref.s));
      }
    }
  }

  /** Every body operator, on the one value its path selects. */
  ghost predicate FieldAccepts(env: Env, v: Value, f: TreasureFilter) {
    match f.op
    case STRING_IN => exists s | s in f.stringIn :: v == Str(s)
    case INT32_IN => exists n | n in f.int32In :: StandsForInt(v, n)
    case INT64_IN => exists n | n in f.int64In :: StandsForInt(v, n)
    case IS_EMPTY => v == Nil || v == Str("")
    case IS_NOT_EMPTY => v != Nil && v != Str("")
    case HAS_KEY => v.Map? && f.value.StringVal? && f.value.s in v.fields
    case HAS_NOT_KEY => !v.Map? || (f.value.StringVal? && f.value.s !in v.fields)
    case SLICE_CONTAINS => SliceHasElement(v, f.value)
    case SLICE_NOT_CONTAINS => !SliceHasElement(v, f.value)
    case SLICE_CONTAINS_SUBSTRING => SliceHasSubstring(env, v, f.value)
    case SLICE_NOT_CONTAINS_SUBSTRING => !SliceHasSubstring(env, v, f.value)
    case _ => FieldRelates(v, f.op, f.value)
  }

  lemma FieldMeans(env: Env, v: Value, f: TreasureFilter)
    ensures FieldHolds(env, v, f) <==> FieldAccepts(env, v, f)
  {
    SliceMeans(env, v, f.value);
    InMeans(v, f.stringIn, f.int32In);
    InMeans(v, f.stringIn, f.int64In);
    CompareHoldsMeans(v, f.op, f.value);
  }

  /** A wildcard leaf for emptiness: nothing collected, or nothing but empty values. */
  lemma AnyMatchEmptyMeans(values: seq<Value>, f: TreasureFilter)
    ensures f.op == IS_EMPTY ==> (AnyMatchHolds(values, f) <==> forall v | v in values :: v == Nil || v == Str(""))
    ensures f.op == IS_NOT_EMPTY ==> (AnyMatchHolds(values, f) <==> exists v | v in values :: v != Nil && v != Str(""))
  {}

  // ---- leaves on a treasure ----

  predicate HoldsSigned(t: Treasure, k: SignedKind) {
    t.content.SignedContent? && t.content.signedKind == k
  }

  predicate HoldsUnsigned(t: Treasure, k: UnsignedKind) {
    t.content.UnsignedContent? && t.content.unsignedKind == k
  }

  predicate HoldsFloat(t: Treasure, k: FloatKind) {
    t.content.FloatContent? && t.content.floatKind == k
  }

  /** A leaf without a body path: the treasure's own content of the reference's exact type, or the timestamp the
      reference names, which must be set. */
  ghost predicate TypedRelates(t: Treasure, op: Operator, ref: CompareValue) {
    match ref
    case SignedVal(k, n) => HoldsSigned(t, k) && IntRelates(t.content.n, op, n)
    case UnsignedVal(k, n) => HoldsUnsigned(t, k) && IntRelates(t.content.u, op, n)
    case FloatVal(k, r) => HoldsFloat(t, k) && RealRelates(t.content.r, op, r)
    case StringVal(s) => t.content.StringContent? && StringRelates(t.content.s, op, s)
    case BoolVal(b) =>
      (op == EQUAL && t.content == BoolContent(b)) || (op == NOT_EQUAL && t.content == BoolContent(!b))
    case CreatedAtVal(at) => t.createdAt != 0 && at.Some? && IntRelates(t.createdAt, op, at.value)
    case UpdatedAtVal(at) => t.modifiedAt != 0 && at.Some? && IntRelates(t.modifiedAt, op, at.value)
    case ExpiredAtVal(at) => t.expiresAt != 0 && at.Some? && IntRelates(t.expiresAt, op, at.value)
    case NoValue => false
  }

  /** Emptiness without a body path: no content of the reference's type, an empty string, or an unset timestamp. */
  predicate TypedEmpty(t: Treasure, ref: CompareValue) {
    match ref
    case SignedVal(k, _) => !HoldsSigned(t, k)
    case UnsignedVal(k, _) => !HoldsUnsigned(t, k)
    case FloatVal(k, _) => !HoldsFloat(t, k)
    case StringVal(_) => !t.content.StringContent? || t.content == StringContent("")
    case BoolVal(_) => t.content != BoolContent(true) && t.content != BoolContent(false)
    case CreatedAtVal(_) => t.createdAt == 0
    case UpdatedAtVal(_) => t.modifiedAt == 0
    case ExpiredAtVal(_) => t.expiresAt == 0
    case NoValue => true
  }

  lemma TypedMeans(t: Treasure, op: Operator, ref: CompareValue)
    ensures TypedHolds(t, op, ref) <==>
            if op == IS_EMPTY then TypedEmpty(t, ref)
            else if op == IS_NOT_EMPTY then !TypedEmpty(t, ref)
            else TypedRelates(t, op, ref)
  {
    TypedEmptyMeans(t, ref);
    if op != IS_EMPTY && op != IS_NOT_EMPTY { TypedRelatesMeans(t, op, ref); }
  }

  lemma TypedEmptyMeans(t: Treasure, ref: CompareValue)
    ensures TypedFieldIsEmpty(t, ref) <==> TypedEmpty(t, ref)
  {}

  lemma TypedRelatesMeans(t: Treasure, op: Operator, ref: CompareValue)
    requires op != IS_EMPTY && op != IS_NOT_EMPTY
    ensures TypedHolds(t, op, ref) <==> TypedRelates(t, op, ref)
  {
    match ref
    case SignedVal(k, n) => if HoldsSigned(t, k) { CompareIntMeans(t.content.n, op, n); }
    case UnsignedVal(k, n) => if HoldsUnsigned(t, k) { CompareIntMeans(t.content.u, op, n); }
    case FloatVal(k, r) => if HoldsFloat(t, k) { CompareRealMeans(t.content.r, op, r); }
    case StringVal(s) => if t.content.StringContent? { CompareStringMeans(t.content.s, op, s); }
    case BoolVal(_) =>
    case CreatedAtVal(at) => if at.Some? { CompareIntMeans(t.createdAt, op, at.value); }
    case UpdatedAtVal(at) => if at.Some? { CompareIntMeans(t.modifiedAt, op, at.value); }
    case ExpiredAtVal(at) => if at.Some? { CompareIntMeans(t.expiresAt, op, at.value); }
    case NoValue =>
  }

  /** A body leaf reads the msgpack behind the two prefix bytes; without such a body only IS_EMPTY holds. */
  lemma BodyLeafMeans(env: Env, t: Treasure, f: TreasureFilter, body: seq<Byte>)
    requires f.path.Some?
    ensures t.content == BytesContent([0xC7, 0x00] + body) && env.decode(body).Some? ==>
              (LeafHolds(env, t, f) <==> LeafOnMap(env, env.decode(body).value, f))
    ensures t.content == BytesContent([0xC7, 0x00] + body) && env.decode(body).None? ==>
              (LeafHolds(env, t, f) <==> f.op == IS_EMPTY)
    ensures !Prefixed(t) ==> (LeafHolds(env, t, f) <==> f.op == IS_EMPTY)
  {
    if t.content == BytesContent([0xC7, 0x00] + body) { assert t.content.raw[2..] == body; }
    if t.content.BytesContent? && IsMsgpackEncoded(t.content.raw) {
      assert t.content.raw == [0xC7, 0x00] + t.content.raw[2..];
    }
  }

  /** Put together: a leaf on a prefixed body that decodes accepts by the value its path selects. */
  lemma LeafMeans(env: Env, t: Treasure, f: TreasureFilter, body: seq<Byte>)
    requires f.path.Some? && t.content == BytesContent([0xC7, 0x00] + body) && env.decode(body).Some?
    requires !Extract(env.decode(body).value, f.path.value).AnyMatch?
    ensures LeafHolds(env, t, f) <==> FieldAccepts(env, Extract(env.decode(body).value, f.path.value), f)
  {
    BodyLeafMeans(env, t, f, body);
    FieldMeans(env, Extract(env.decode(body).value, f.path.value), f);
  }

  ghost predicate Prefixed(t: Treasure) {
    exists body: seq<Byte> :: t.content == BytesContent([0xC7, 0x00] + body)
  }

  /** An undecodable body is to a nested-slice filter what an empty document is. */
  lemma NestedWithoutBody(env: Env, t: Treasure, nf: NestedFilter)
    requires DecodedBody(env, t).None?
    ensures NestedHolds(env, t, nf) <==> NestedOnMap(env, map[], nf)
  {
    EmptyDocumentHasNoSlice(nf.slicePath);
    assert SliceAt(map[], nf) == [];
    assert Verdicts(env, [], nf.conditions) == [];
  }

  lemma EmptyDocumentHasNoSlice(path: string)
    ensures !Extract(map[], path).Slice?
  {
    if path != "" {
      var parts := SplitDots(path);
      WalkNil(parts[1..]);
    }
  }

  /** The match counter wraps to the int32 congruent to the count. */
  lemma WrapMeans(n: int)
    ensures -0x8000_0000 <= WrapInt32(n) < 0x8000_0000 && (WrapInt32(n) - n) % 0x1_0000_0000 == 0
  {}

  // ---- paths ----

  lemma WildcardSegmentMeans(part: string)
    ensures IsWildcard(part) <==> exists name :: part == name + "[*]"
  {
    EndsWithMeans(part, "[*]");
  }

  /** `#len` is the number of elements or fields, and nothing else has a length. */
  lemma LengthMeans(v: Value, rest: seq<string>)
    ensures v.Slice? && |v.elems| < 0x8000_0000_0000_0000 ==> Walk(v, ["#len"] + rest) == Int(|v.elems|)
    ensures v.Map? && |v.fields| < 0x8000_0000_0000_0000 ==> Walk(v, ["#len"] + rest) == Int(|v.fields|)
    ensures !v.Slice? && !v.Map? ==> Walk(v, ["#len"] + rest) == Nil
  {}

  /** A bare `[*]` ranges over the value itself; with nothing after it the elements are collected as they are. */
  lemma BareWildcardMeans(v: Value)
    ensures Walk(v, ["[*]"]) == if v.Slice? then AnyMatch(v.elems) else Nil
  {
    WildcardSegmentMeans("[*]");
    assert "[*]" == "" + "[*]" && ["[*]"][1..] == [];
    if v.Slice? { ElementsThemselves(v.elems); }
  }

  lemma {:induction false} ElementsThemselves(elems: seq<Value>)
    ensures WalkElements(elems, []) == elems
  {
    if elems != [] {
      ElementsThemselves(elems[1..]);
      assert elems == [elems[0]] + elems[1..];
    }
  }

  /** Inside nested conditions a leaf without a body path is skipped: an AND of such leaves holds everywhere, an
      OR of them nowhere. */
  lemma TypedLeavesAreSkipped(env: Env, doc: Document, logic: Logic, leaves: seq<TreasureFilter>)
    requires leaves != [] && forall f | f in leaves :: f.path.None?
    ensures GroupOnMap(env, doc, FilterGroup(logic, leaves, [], [], [], [], [])) <==> logic != OR
  {}
}
