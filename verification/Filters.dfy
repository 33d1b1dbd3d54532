/** Filter messages and the evaluators that give them meaning
    (app/server/gateway/filter.go, app/server/gateway/filter_native.go). */
module Filters {
  import opened Optional
  import opened Values
  import opened Paths

  // ---- treasures ----

  datatype SignedKind = I8 | I16 | I32 | I64
  datatype UnsignedKind = U8 | U16 | U32 | U64
  datatype FloatKind = F32 | F64

  datatype Content =
    | Void
    | SignedContent(signedKind: SignedKind, n: Int64)
    | UnsignedContent(unsignedKind: UnsignedKind, u: Uint64)
    | FloatContent(floatKind: FloatKind, r: Float64)
    | StringContent(s: string)
    | BoolContent(b: bool)
    | BytesContent(raw: seq<Byte>)
    | OtherContent

  /** Timestamps are Unix nanoseconds; zero means unset. */
  datatype Treasure = Treasure(
    key: string, content: Content,
    createdAt: int, createdBy: string, modifiedAt: int, modifiedBy: string, expiresAt: int)

  /** At most one treasure per key. */
  predicate DistinctKeys(ts: seq<Treasure>) {
    forall i, j | 0 <= i < j < |ts| :: ts[i].key != ts[j].key
  }

  predicate IsMsgpackEncoded(raw: seq<Byte>) {
    |raw| >= 2 && raw[0] == 0xC7 && raw[1] == 0x00
  }

  // ---- filter messages ----

  datatype CompareValue =
    | NoValue
    | SignedVal(signedKind: SignedKind, n: Int64)
    | UnsignedVal(unsignedKind: UnsignedKind, u: Uint64)
    | FloatVal(floatKind: FloatKind, r: Float64)
    | StringVal(s: string)
    | BoolVal(b: bool)
    | CreatedAtVal(at: Option<int>)
    | UpdatedAtVal(at: Option<int>)
    | ExpiredAtVal(at: Option<int>)

  datatype TreasureFilter = TreasureFilter(
    op: Operator, value: CompareValue, path: Option<string>, labelText: string,
    stringIn: seq<string>, int32In: seq<Int64>, int64In: seq<Int64>)

  /** Phrase, vector and geo filters are judged by the environment; only their labels are read. */
  datatype PhraseFilter = PhraseFilter(phraseId: int, labelText: string)
  datatype VectorFilter = VectorFilter(vectorId: int, labelText: string)
  datatype GeoFilter = GeoFilter(geoId: int, labelText: string)

  /** `UnknownLogic` and `UnknownMode` stand for enum numbers outside the schema, which proto3
      carries through unchanged. */
  datatype Logic = AND | OR | UnknownLogic
  datatype Mode = ANY | ALL | NONE | COUNT | UnknownMode

  datatype FilterGroup = FilterGroup(
    logic: Logic, filters: seq<TreasureFilter>, subGroups: seq<FilterGroup>,
    phrases: seq<PhraseFilter>, vectors: seq<VectorFilter>, geos: seq<GeoFilter>,
    nested: seq<NestedFilter>)

  datatype NestedFilter = NestedFilter(
    mode: Mode, slicePath: string, conditions: Option<FilterGroup>, labelText: string,
    countOp: Operator, countValue: int)

  /** Library and floating-point behaviour the filters rely on: msgpack decoding, case folding, and
      the verdicts of phrase, vector (with its score) and geo filters. */
  datatype Env = Env(
    decode: seq<Byte> -> Option<Document>,
    lower: string -> string,
    phrase: (Treasure, PhraseFilter) -> bool,
    vector: (Treasure, VectorFilter) -> (bool, real),
    geo: (Treasure, GeoFilter) -> bool)

  // ---- leaves against a decoded body ----

  predicate IsEmptyField(v: Value) {
    v.Nil? || (v.Str? && v.s == "")
  }

  predicate StringInHolds(v: Value, allowed: seq<string>) {
    v.Str? && v.s in allowed
  }

  predicate IntInHolds(v: Value, allowed: seq<Int64>) {
    var n := ToInt64(v);
    n.Some? && n.value in allowed
  }

  /** The closing type switch of evaluateBytesFieldFilterAgainstMap. */
  predicate CompareHolds(v: Value, op: Operator, ref: CompareValue) {
    match ref
    case SignedVal(_, n) => var a := ToInt64(v); a.Some? && CompareInt(a.value, op, n)
    case UnsignedVal(_, n) => var a := ToUint64(v); a.Some? && CompareInt(a.value, op, n)
    case FloatVal(_, r) => var a := ToFloat64(v); a.Some? && CompareReal(a.value, op, r)
    case StringVal(s) => v.Str? && CompareString(v.s, op, s)
    case BoolVal(b) => v.Bool? && CompareBool(v.b, op, b)
    case _ => false
  }

  predicate HasKeyHolds(v: Value, op: Operator, ref: CompareValue)
    requires op in {HAS_KEY, HAS_NOT_KEY}
  {
    if !v.Map? then op == HAS_NOT_KEY
    else if !ref.StringVal? then false
    else (ref.s in v.fields) == (op == HAS_KEY)
  }

  /** evaluateSliceContains; 16-bit, unsigned, float and bool references never match. */
  predicate SliceHolds(env: Env, v: Value, op: Operator, ref: CompareValue) {
    var negate := op == SLICE_NOT_CONTAINS || op == SLICE_NOT_CONTAINS_SUBSTRING;
    if !v.Slice? then negate
    else if op == SLICE_CONTAINS_SUBSTRING || op == SLICE_NOT_CONTAINS_SUBSTRING then
      if !ref.StringVal? then negate
      else
        negate != (exists e | e in v.elems :: e.Str? && ContainsSubstring(env.lower(e.s), env.lower(ref.s)))
    else if ref.SignedVal? && ref.signedKind != I16 then
      negate != (exists e | e in v.elems :: ToInt64(e) == Some(ref.n))
    else if ref.StringVal? then negate != (Str(ref.s) in v.elems)
    else negate
  }

  predicate FieldHolds(env: Env, v: Value, f: TreasureFilter) {
    match f.op
    case STRING_IN => StringInHolds(v, f.stringIn)
    case INT32_IN => IntInHolds(v, f.int32In)
    case INT64_IN => IntInHolds(v, f.int64In)
    case IS_EMPTY => IsEmptyField(v)
    case IS_NOT_EMPTY => !IsEmptyField(v)
    case HAS_KEY => HasKeyHolds(v, f.op, f.value)
    case HAS_NOT_KEY => HasKeyHolds(v, f.op, f.value)
    case SLICE_CONTAINS => SliceHolds(env, v, f.op, f.value)
    case SLICE_NOT_CONTAINS => SliceHolds(env, v, f.op, f.value)
    case SLICE_CONTAINS_SUBSTRING => SliceHolds(env, v, f.op, f.value)
    case SLICE_NOT_CONTAINS_SUBSTRING => SliceHolds(env, v, f.op, f.value)
    case _ => CompareHolds(v, f.op, f.value)
  }

  /** Compare types evaluateAnyMatch handles. */
  predicate AnyMatchCompares(ref: CompareValue) {
    (ref.SignedVal? && ref.signedKind != I16) || ref.StringVal? || ref.BoolVal? ||
    (ref.FloatVal? && ref.floatKind == F64)
  }

  /** evaluateAnyMatch. */
  predicate AnyMatchHolds(values: seq<Value>, f: TreasureFilter) {
    if values == [] then f.op == IS_EMPTY
    else match f.op
      case IS_NOT_EMPTY => exists v | v in values :: !IsEmptyField(v)
      case IS_EMPTY => forall v | v in values :: IsEmptyField(v)
      case STRING_IN => exists v | v in values :: StringInHolds(v, f.stringIn)
      case INT32_IN => exists v | v in values :: IntInHolds(v, f.int32In)
      case INT64_IN => exists v | v in values :: IntInHolds(v, f.int64In)
      case _ => AnyMatchCompares(f.value) && exists v | v in values :: CompareHolds(v, f.op, f.value)
  }

  /** evaluateBytesFieldFilterAgainstMap. */
  predicate LeafOnMap(env: Env, doc: Document, f: TreasureFilter)
    requires f.path.Some?
  {
    var v := Extract(doc, f.path.value);
    if v.AnyMatch? then AnyMatchHolds(v.values, f) else FieldHolds(env, v, f)
  }

  // ---- groups and nested slices against a decoded body ----

  predicate IsEmptyOnMap(g: FilterGroup) {
    g.filters == [] && g.subGroups == [] && g.nested == []
  }

  /** evaluateFilterGroupAgainstMap: leaves without a body path are skipped; phrase, vector and geo
      filters are not consulted. */
  predicate GroupOnMap(env: Env, doc: Document, g: FilterGroup)
    decreases g, 0
  {
    IsEmptyOnMap(g) ||
    if g.logic == OR then
      (exists f | f in g.filters :: f.path.Some? && LeafOnMap(env, doc, f)) ||
      (exists sg | sg in g.subGroups :: GroupOnMap(env, doc, sg)) ||
      (exists nf | nf in g.nested :: NestedOnMap(env, doc, nf))
    else
      (forall f | f in g.filters :: f.path.Some? ==> LeafOnMap(env, doc, f)) &&
      (forall sg | sg in g.subGroups :: GroupOnMap(env, doc, sg)) &&
      (forall nf | nf in g.nested :: NestedOnMap(env, doc, nf))
  }

  predicate HasConditions(conditions: Option<FilterGroup>) {
    conditions.Some? && !IsEmptyOnMap(conditions.value)
  }

  /** Does a slice element satisfy the conditions? Without conditions every element does; with them
      only map elements can. */
  predicate ElementMatches(env: Env, elem: Value, conditions: Option<FilterGroup>)
    decreases conditions, 0
  {
    HasConditions(conditions) ==> elem.Map? && GroupOnMap(env, elem.fields, conditions.value)
  }

  /** Element by element, whether the conditions hold. */
  function Verdicts(env: Env, elems: seq<Value>, conditions: Option<FilterGroup>): (vs: seq<bool>)
    ensures |vs| == |elems|
    ensures forall i | 0 <= i < |elems| :: vs[i] == ElementMatches(env, elems[i], conditions)
    decreases conditions, 1
  {
    seq(|elems|, i requires 0 <= i < |elems| => ElementMatches(env, elems[i], conditions))
  }

  function CountTrue(vs: seq<bool>): nat {
    if vs == [] then 0
    else
      var last := |vs| - 1;
      CountTrue(vs[..last]) + if vs[last] then 1 else 0
  }

  /** The slice a nested filter ranges over: empty when the path is missing or not a slice. */
  function SliceAt(doc: Document, nf: NestedFilter): seq<Value> {
    var v := Extract(doc, nf.slicePath);
    if v.Slice? then v.elems else []
  }

  predicate CountHolds(count: int, nf: NestedFilter) {
    CompareInt(count, nf.countOp, nf.countValue)
  }

  /** The verdict on a slice, given the verdicts on its elements. */
  predicate ModeHolds(vs: seq<bool>, nf: NestedFilter) {
    match nf.mode
    case ANY => true in vs
    case ALL => false !in vs
    case NONE => true !in vs
    case COUNT => CountHolds(WrapInt32(CountTrue(vs)), nf)
    case UnknownMode => vs != [] && !HasConditions(nf.conditions)
  }

  /** evaluateNestedSliceWhereAgainstMap. */
  predicate NestedOnMap(env: Env, doc: Document, nf: NestedFilter)
    decreases nf
  {
    ModeHolds(Verdicts(env, SliceAt(doc, nf), nf.conditions), nf)
  }

  /** evaluateNestedSliceWhereAgainstMap as written, with its special cases and early returns. */
  method EvaluateNestedSlice(env: Env, doc: Document, nf: NestedFilter) returns (holds: bool)
    ensures holds == NestedOnMap(env, doc, nf)
  {
    var sliceVal := ExtractFieldByPath(doc, nf.slicePath);
    ghost var vs := Verdicts(env, SliceAt(doc, nf), nf.conditions);
    if !sliceVal.Slice? || sliceVal.elems == [] {
      assert vs == [];
      match nf.mode
      case ANY => return false;
      case ALL => return true;
      case NONE => return true;
      case COUNT => return CountHolds(0, nf);
      case UnknownMode => return false;
    }
    var arr := sliceVal.elems;
    if nf.conditions.None? || IsEmptyOnMap(nf.conditions.value) {
      CountAllTrue(vs);
      assert vs[0];
      match nf.mode
      case ANY => return true;
      case ALL => return true;
      case NONE => return false;
      case COUNT => return CountHolds(WrapInt32(|arr|), nf);
      case UnknownMode => return true;
    }
    holds := ScanElements(env, arr, nf);
  }

  /** The element loop, with its int32 counter. */
  method ScanElements(env: Env, arr: seq<Value>, nf: NestedFilter) returns (holds: bool)
    requires arr != [] && HasConditions(nf.conditions)
    ensures holds == ModeHolds(Verdicts(env, arr, nf.conditions), nf)
  {
    ghost var vs := Verdicts(env, arr, nf.conditions);
    var matchCount := 0;
    for i := 0 to |arr|
      invariant Undecided(vs[..i], nf.mode)
      invariant nf.mode == COUNT ==> matchCount == WrapInt32(CountTrue(vs[..i]))
    {
      VerdictStep(vs, i, nf);
      CounterStep(vs, i);
      var matched := ElementMatches(env, arr[i], nf.conditions);
      assert matched == vs[i] && (matched ==> arr[i].Map?);
      if !arr[i].Map? {
        if nf.mode == ALL { return false; }
      } else {
        match nf.mode
        case ANY => if matched { return true; }
        case ALL => if !matched { return false; }
        case NONE => if matched { return false; }
        case COUNT => if matched { matchCount := WrapInt32(matchCount + 1); }
        case UnknownMode =>
      }
    }
    assert vs[..|arr|] == vs;
    match nf.mode
    case ANY => return false;
    case ALL => return true;
    case NONE => return true;
    case COUNT => return CountHolds(matchCount, nf);
    case UnknownMode => return false;
  }

  /** No element so far has settled the mode's verdict. */
  predicate Undecided(vs: seq<bool>, mode: Mode) {
    (mode == ANY || mode == NONE ==> true !in vs) && (mode == ALL ==> false !in vs)
  }

  /** One more element settles the verdict or leaves it open. */
  lemma VerdictStep(vs: seq<bool>, i: nat, nf: NestedFilter)
    requires i < |vs| && Undecided(vs[..i], nf.mode)
    ensures nf.mode == ANY && vs[i] ==> ModeHolds(vs, nf)
    ensures nf.mode == ALL && !vs[i] ==> !ModeHolds(vs, nf)
    ensures nf.mode == NONE && vs[i] ==> !ModeHolds(vs, nf)
    ensures Undecided([vs[i]], nf.mode) ==> Undecided(vs[..i + 1], nf.mode)
  {
    assert vs[..i + 1] == vs[..i] + [vs[i]];
    assert vs[i] in vs && vs[i] in [vs[i]];
  }

  /** It moves the wrapping counter by one or not at all. */
  lemma CounterStep(vs: seq<bool>, i: nat)
    requires i < |vs|
    ensures WrapInt32(CountTrue(vs[..i + 1])) ==
            if vs[i] then WrapInt32(WrapInt32(CountTrue(vs[..i])) + 1) else WrapInt32(CountTrue(vs[..i]))
  {
    CountStep(vs, i);
    WrapSucceeds(CountTrue(vs[..i]));
  }

  lemma CountStep(vs: seq<bool>, i: nat)
    requires i < |vs|
    ensures CountTrue(vs[..i + 1]) == CountTrue(vs[..i]) + if vs[i] then 1 else 0
  {
    assert vs[..i + 1][..i] == vs[..i];
  }

  lemma WrapSucceeds(n: nat)
    ensures WrapInt32(WrapInt32(n) + 1) == WrapInt32(n + 1)
  {}

  lemma {:induction false} CountAllTrue(vs: seq<bool>)
    requires false !in vs
    ensures CountTrue(vs) == |vs|
  {
    if vs != [] { CountAllTrue(vs[..|vs| - 1]); }
  }

  // ---- evaluation against a treasure ----

  /** The decoded body, when the treasure holds msgpack bytes that decode. */
  function DecodedBody(env: Env, t: Treasure): Option<Document> {
    if t.content.BytesContent? && IsMsgpackEncoded(t.content.raw) then env.decode(t.content.raw[2..]) else None
  }

  predicate TimestampHolds(nanos: int, op: Operator, at: Option<int>) {
    nanos != 0 && at.Some? && CompareInt(nanos, op, at.value)
  }

  /** nativeFieldIsEmpty. */
  predicate TypedFieldIsEmpty(t: Treasure, ref: CompareValue) {
    match ref
    case SignedVal(k, _) => !(t.content.SignedContent? && t.content.signedKind == k)
    case UnsignedVal(k, _) => !(t.content.UnsignedContent? && t.content.unsignedKind == k)
    case FloatVal(k, _) => !(t.content.FloatContent? && t.content.floatKind == k)
    case StringVal(_) => !t.content.StringContent? || t.content.s == ""
    case BoolVal(_) => !t.content.BoolContent?
    case CreatedAtVal(_) => t.createdAt == 0
    case UpdatedAtVal(_) => t.modifiedAt == 0
    case ExpiredAtVal(_) => t.expiresAt == 0
    case NoValue => true
  }

  /** evaluateNativeSingleFilter for a filter without a body path. */
  predicate TypedHolds(t: Treasure, op: Operator, ref: CompareValue) {
    if op == IS_EMPTY then TypedFieldIsEmpty(t, ref)
    else if op == IS_NOT_EMPTY then !TypedFieldIsEmpty(t, ref)
    else match ref
      case SignedVal(k, n) => t.content.SignedContent? && t.content.signedKind == k && CompareInt(t.content.n, op, n)
      case UnsignedVal(k, u) =>
        t.content.UnsignedContent? && t.content.unsignedKind == k && CompareInt(t.content.u, op, u)
      case FloatVal(k, r) => t.content.FloatContent? && t.content.floatKind == k && CompareReal(t.content.r, op, r)
      case StringVal(s) => t.content.StringContent? && CompareString(t.content.s, op, s)
      case BoolVal(b) => t.content.BoolContent? && CompareBool(t.content.b, op, b)
      case CreatedAtVal(at) => TimestampHolds(t.createdAt, op, at)
      case UpdatedAtVal(at) => TimestampHolds(t.modifiedAt, op, at)
      case ExpiredAtVal(at) => TimestampHolds(t.expiresAt, op, at)
      case NoValue => false
  }

  /** evaluateNativeSingleFilter. */
  predicate LeafHolds(env: Env, t: Treasure, f: TreasureFilter) {
    if f.path.Some? then
      var doc := DecodedBody(env, t);
      if doc.Some? then LeafOnMap(env, doc.value, f) else f.op == IS_EMPTY
    else TypedHolds(t, f.op, f.value)
  }

  /** evaluateNativeNestedSliceWhereFilter: an undecodable body counts as a missing slice. */
  predicate NestedHolds(env: Env, t: Treasure, nf: NestedFilter) {
    var doc := DecodedBody(env, t);
    if doc.Some? then NestedOnMap(env, doc.value, nf)
    else nf.mode == ALL || nf.mode == NONE || (nf.mode == COUNT && CountHolds(0, nf))
  }

  predicate IsEmptyGroup(g: FilterGroup) {
    g.filters == [] && g.subGroups == [] && g.phrases == [] && g.vectors == [] && g.geos == [] && g.nested == []
  }

  /** evaluateNativeFilterGroup through evaluateFilterGroupWith. */
  predicate GroupHolds(env: Env, t: Treasure, g: FilterGroup)
    decreases g
  {
    IsEmptyGroup(g) ||
    if g.logic == OR then
      (exists f | f in g.filters :: LeafHolds(env, t, f)) ||
      (exists sg | sg in g.subGroups :: GroupHolds(env, t, sg)) ||
      (exists pf | pf in g.phrases :: env.phrase(t, pf)) ||
      (exists vf | vf in g.vectors :: env.vector(t, vf).0) ||
      (exists gf | gf in g.geos :: env.geo(t, gf)) ||
      (exists nf | nf in g.nested :: NestedHolds(env, t, nf))
    else
      (forall f | f in g.filters :: LeafHolds(env, t, f)) &&
      (forall sg | sg in g.subGroups :: GroupHolds(env, t, sg)) &&
      (forall pf | pf in g.phrases :: env.phrase(t, pf)) &&
      (forall vf | vf in g.vectors :: env.vector(t, vf).0) &&
      (forall gf | gf in g.geos :: env.geo(t, gf)) &&
      (forall nf | nf in g.nested :: NestedHolds(env, t, nf))
  }

  /** An absent group filters nothing. */
  predicate FilterHolds(env: Env, t: Treasure, g: Option<FilterGroup>) {
    g.None? || GroupHolds(env, t, g.value)
  }
}
