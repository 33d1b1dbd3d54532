/** What a field bucket files a treasure under (app/core/hydra/swamp/bucket and its valuecanon package), and
    how a lookup's equality relates to the filter leaf the planner took it from. */
module Bucket {
  import opened Optional
  import opened Values
  import opened Paths
  import opened Filters
  import opened FilterLaws
  import opened Planner

  // ---- canonical keys (valuecanon) ----

  datatype CanonKey =
    | NullKey
    | BoolKey(b: bool)
    | IntKey(i: Int64)
    | UintKey(u: Uint64)
    | FloatKey(f: Float64)
    | StringKey(s: string)

  function Canonicalize(v: Value): CanonKey {
    match v
    case Bool(b) => BoolKey(b)
    case Int(i) => IntKey(i)
    case Uint(u) => UintKey(u)
    case Float(f) => FloatKey(f)
    case Str(s) => StringKey(s)
    case Time(unix) => IntKey(unix)
    case _ => NullKey
  }

  /** toFloat64Lossless. */
  function LosslessFloat(k: CanonKey): Option<real> {
    match k
    case FloatKey(f) => Some(f)
    case IntKey(i) => if RoundToFloat64(i) == i then Some(i as real) else None
    case UintKey(u) => if RoundToFloat64(u) == u then Some(u as real) else None
    case _ => None
  }

  predicate IsNumeric(k: CanonKey) {
    k.IntKey? || k.UintKey? || k.FloatKey?
  }

  /** valuecanon.Equal. */
  predicate CanonEqual(a: CanonKey, b: CanonKey) {
    match (a, b)
    case (NullKey, NullKey) => true
    case (BoolKey(x), BoolKey(y)) => x == y
    case (IntKey(x), IntKey(y)) => x == y
    case (UintKey(x), UintKey(y)) => x == y
    case (FloatKey(x), FloatKey(y)) => x == y
    case (StringKey(x), StringKey(y)) => x == y
    case (IntKey(x), UintKey(y)) => x >= 0 && x == y
    case (UintKey(x), IntKey(y)) => y >= 0 && x == y
    case _ =>
      IsNumeric(a) && IsNumeric(b) && LosslessFloat(a).Some? && LosslessFloat(a) == LosslessFloat(b)
  }

  /** The number a value denotes, exactly. */
  function Numeric(v: Value): Option<real> {
    match v
    case Int(i) => Some(i as real)
    case Uint(u) => Some(u as real)
    case Float(f) => Some(f)
    case Time(unix) => Some(unix as real)
    case _ => None
  }

  /** Values a hint can carry. */
  predicate HintValue(w: Value) {
    w.Int? || w.Uint? || w.Float? || w.Str? || w.Bool?
  }

  /** Index equality is exact: same number whatever the kinds, or same string or bool. */
  lemma CanonEqualIsExact(v: Value, w: Value)
    requires HintValue(w)
    ensures CanonEqual(Canonicalize(v), Canonicalize(w)) <==>
            ((w.Str? || w.Bool?) && v == w) || (Numeric(v).Some? && Numeric(v) == Numeric(w))
  {
    if w.Float? && Numeric(v) == Numeric(w) { WholeFloat(w.f); }
    if v.Float? && Numeric(v) == Numeric(w) { WholeFloat(v.f); }
  }

  /** A whole number that equals a float64 is itself float64-representable. */
  lemma WholeFloat(f: Float64)
    ensures forall i: int :: i as real == f ==> f.Floor == i && RoundToFloat64(i) == i
  {}

  /** Equality as the filter leaf computes it for a hint value: convert the field to the reference's
      kind, then compare. */
  predicate FilterEqual(v: Value, w: Value) {
    match w
    case Int(n) => ToInt64(v) == Some(n)
    case Uint(n) => ToUint64(v) == Some(n)
    case Float(r) => ToFloat64(v) == Some(r)
    case _ => v == w
  }

  /** The pairs on which the filter's conversion and the index part ways: a float truncated onto an
      integer, an integer rounded onto a float, and times, which the filter converts to signed integers
      only. */
  predicate Lossy(v: Value, w: Value) {
    match (v, w)
    case (Float(f), Int(n)) => FloatToInt64(f) == n && f != n as real
    case (Float(f), Uint(n)) => FloatToUint64(f) == n && f != n as real
    case (Int(i), Float(r)) => RoundToFloat64(i) as real == r && r != i as real
    case (Uint(u), Float(r)) => RoundToFloat64(u) as real == r && r != u as real
    case (Time(s), Uint(n)) => s == n
    case (Time(s), Float(r)) => s as real == r
    case _ => false
  }

  /** Filter equality and index equality agree exactly off the lossy pairs. */
  lemma EqualityAgreesOffLossyPairs(v: Value, w: Value)
    requires HintValue(w)
    ensures (FilterEqual(v, w) <==> CanonEqual(Canonicalize(v), Canonicalize(w))) <==> !Lossy(v, w)
  {
    CanonEqualIsExact(v, w);
    if w.Float? { WholeFloat(w.f); }
    if v.Float? && w.Int? && v.f == w.i as real { TruncateWhole(w.i); }
    if v.Float? && w.Uint? && v.f == w.u as real { TruncateWhole(w.u); }
  }

  lemma TruncateWhole(i: int)
    ensures Truncate(i as real) == i
  {}

  // ---- keys of treasures ----

  /** The bucket's own path walk: plain field names only. */
  function PlainWalk(current: Value, parts: seq<string>): Value
    decreases |parts|
  {
    if parts == [] then current else PlainWalk(FieldOf(current, parts[0]), parts[1..])
  }

  /** The body as the bucket decodes it: the two-byte prefix is optional here. */
  function IndexedBody(env: Env, t: Treasure): Option<Document> {
    if !t.content.BytesContent? || t.content.raw == [] then None
    else env.decode(if IsMsgpackEncoded(t.content.raw) then t.content.raw[2..] else t.content.raw)
  }

  /** The bucket decodes what follows the two prefix bytes, or the whole of a body without them, and nothing of
      an empty body or of other contents. */
  lemma IndexedBodyMeans(env: Env, t: Treasure, body: seq<Byte>)
    ensures t.content == BytesContent([0xC7, 0x00] + body) ==> IndexedBody(env, t) == env.decode(body)
    ensures t.content == BytesContent(body) && body != [] && !([0xC7, 0x00] <= body) ==>
              IndexedBody(env, t) == env.decode(body)
    ensures t.content == BytesContent([]) || !t.content.BytesContent? ==> IndexedBody(env, t) == None
  {
    if t.content == BytesContent([0xC7, 0x00] + body) { assert t.content.raw[2..] == body; }
  }

  /** extractKey; undecodable bodies index as null. */
  function IndexKey(env: Env, t: Treasure, path: string): CanonKey {
    var doc := IndexedBody(env, t);
    if doc.None? then NullKey
    else Canonicalize(if path == "" then Map(doc.value) else PlainWalk(Map(doc.value), SplitDots(path)))
  }

  /** Does a lookup for the hint return this treasure? */
  predicate IndexHits(env: Env, t: Treasure, h: BucketHint) {
    KeyHits(IndexKey(env, t, h.path), h)
  }

  /** Is a treasure filed under the key among a lookup's answers? */
  predicate KeyHits(key: CanonKey, h: BucketHint) {
    if h.op == HintEqual then h.values != [] && CanonEqual(key, Canonicalize(h.values[0]))
    else exists w | w in h.values :: CanonEqual(key, Canonicalize(w))
  }

  lemma {:induction false} PlainWalkIsWalk(current: Value, parts: seq<string>)
    requires PlainSegments(parts)
    ensures PlainWalk(current, parts) == Walk(current, parts)
    decreases |parts|
  {
    if parts != [] {
      assert parts[0] in parts && parts[0] != "#len" && !IsWildcard(parts[0]);
      assert forall p | p in parts[1..] :: p in parts;
      PlainWalkIsWalk(FieldOf(current, parts[0]), parts[1..]);
      assert Walk(current, parts) == Walk(FieldOf(current, parts[0]), parts[1..]);
    }
  }

  predicate PlainPath(path: string) {
    PlainSegments(SplitDots(path))
  }

  /** The field value a plain hint path selects in a decoded body. */
  function FieldAt(doc: Document, path: string): Value {
    Walk(Map(doc), SplitDots(path))
  }

  /** The hints the planner makes: one value, or a list of integers or strings. */
  predicate UniformHint(h: BucketHint) {
    h.values != [] && (forall w | w in h.values :: HintValue(w)) &&
    (h.op == HintEqual ==> h.values == [h.values[0]]) &&
    (h.op == HintIn ==> forall w | w in h.values :: w.Int? || w.Str?)
  }

  lemma HintShape(f: TreasureFilter, h: BucketHint)
    requires IndexableHint(f) == Some(h)
    ensures UniformHint(h)
  {}

  /** Without wildcards, `#len` or any-match values, an indexable leaf is filter equality with one of its
      hint values. */
  lemma LeafIsFilterEqual(env: Env, doc: Document, f: TreasureFilter, h: BucketHint)
    requires IndexableHint(f) == Some(h) && !FieldAt(doc, h.path).AnyMatch?
    ensures LeafOnMap(env, doc, f) <==> exists w | w in h.values :: FilterEqual(FieldAt(doc, h.path), w)
  {
    match f.op
    case EQUAL =>
      assert h.values[0] in h.values;
    case STRING_IN =>
      assert forall i | 0 <= i < |f.stringIn| :: h.values[i] in h.values;
    case INT32_IN =>
      assert forall i | 0 <= i < |f.int32In| :: h.values[i] in h.values;
    case INT64_IN =>
      assert forall i | 0 <= i < |f.int64In| :: h.values[i] in h.values;
  }

  /** The decoder never produces the any-match sentinel, which only path extraction makes. */
  predicate DecodesPlainly(env: Env, t: Treasure) {
    DecodedBody(env, t).Some? ==> Decoded(Map(DecodedBody(env, t).value))
  }

  /** When a lookup answers for its leaf on a plain path. A prefixed body that decodes: no hint value forms a
      lossy pair with the field. Otherwise the leaf fails, so the field of a body that decodes without the
      prefix must not equal a hint value. */
  predicate Exact(env: Env, t: Treasure, h: BucketHint) {
    var doc, indexed := DecodedBody(env, t), IndexedBody(env, t);
    if doc.Some? then forall w | w in h.values :: !Lossy(FieldAt(doc.value, h.path), w)
    else indexed.Some? ==>
      forall w | w in h.values :: !CanonEqual(Canonicalize(FieldAt(indexed.value, h.path)), Canonicalize(w))
  }

  /** For every treasure and plain path, lookup and leaf agree iff the condition holds. */
  lemma LookupExact(env: Env, t: Treasure, f: TreasureFilter, h: BucketHint)
    requires IndexableHint(f) == Some(h) && PlainPath(h.path) && DecodesPlainly(env, t)
    ensures (IndexHits(env, t, h) <==> LeafHolds(env, t, f)) <==> Exact(env, t, h)
  {
    HintShape(f, h);
    var doc, indexed := DecodedBody(env, t), IndexedBody(env, t);
    if doc.Some? {
      WalkStaysDecoded(Map(doc.value), SplitDots(h.path));
      DocLookupExact(env, doc.value, f, h);
    } else if indexed.Some? {
      PlainWalkIsWalk(Map(indexed.value), SplitDots(h.path));
      assert h.values[0] in h.values;
    }
  }

  /** The key a document is filed under. */
  function DocKey(doc: Document, path: string): CanonKey {
    Canonicalize(PlainWalk(Map(doc), SplitDots(path)))
  }

  /** The same on a decoded body. */
  lemma DocLookupExact(env: Env, doc: Document, f: TreasureFilter, h: BucketHint)
    requires IndexableHint(f) == Some(h) && PlainPath(h.path) && !FieldAt(doc, h.path).AnyMatch?
    ensures (KeyHits(DocKey(doc, h.path), h) <==> LeafOnMap(env, doc, f)) <==>
            forall w | w in h.values :: !Lossy(FieldAt(doc, h.path), w)
  {
    var v := FieldAt(doc, h.path);
    PlainWalkIsWalk(Map(doc), SplitDots(h.path));
    LeafIsFilterEqual(env, doc, f, h);
    HintShape(f, h);
    if forall w | w in h.values :: !Lossy(v, w) {
      HitIsFilterEqual(v, h);
    } else {
      var w :| w in h.values && Lossy(v, w);
      if h.op == HintEqual {
        EqualityAgreesOffLossyPairs(v, w);
      } else {
        forall other | other in h.values
          ensures FilterEqual(v, w) && !CanonEqual(Canonicalize(v), Canonicalize(other))
        {
          NoExactBesideLossy(v, w, other);
        }
      }
    }
  }

  /** What a caller can check about a leaf and a treasure. */
  predicate Faithful(env: Env, t: Treasure, h: BucketHint) {
    PlainPath(h.path) && DecodesPlainly(env, t) && Exact(env, t, h)
  }

  /** On faithful inputs a lookup returns exactly the treasures its leaf holds on. */
  lemma LookupIsLeaf(env: Env, t: Treasure, f: TreasureFilter, h: BucketHint)
    requires IndexableHint(f) == Some(h) && Faithful(env, t, h)
    ensures IndexHits(env, t, h) <==> LeafHolds(env, t, f)
  {
    LookupExact(env, t, f, h);
  }

  lemma HitIsFilterEqual(v: Value, h: BucketHint)
    requires forall w | w in h.values :: HintValue(w) && !Lossy(v, w)
    ensures (exists w | w in h.values :: FilterEqual(v, w)) <==>
            exists w | w in h.values :: CanonEqual(Canonicalize(v), Canonicalize(w))
  {
    forall w | w in h.values ensures FilterEqual(v, w) <==> CanonEqual(Canonicalize(v), Canonicalize(w)) {
      EqualityAgreesOffLossyPairs(v, w);
    }
  }

  /** In a list of integers or strings, a float truncated onto one entry equals none of them. */
  lemma NoExactBesideLossy(v: Value, w: Value, other: Value)
    requires (w.Int? || w.Str?) && (other.Int? || other.Str?) && Lossy(v, w)
    ensures FilterEqual(v, w) && !CanonEqual(Canonicalize(v), Canonicalize(other))
  {
    CanonEqualIsExact(v, other);
    if other.Int? { TruncateWhole(other.i); }
  }

  /** Float field 5.5 and an int64 filter for 5: the leaf truncates and matches, the lookup does not. */
  lemma TruncationIsLossy()
    ensures FilterEqual(Float(5.5), Int(5)) && !CanonEqual(Canonicalize(Float(5.5)), Canonicalize(Int(5)))
  {
    assert Truncate(5.5) == 5;
    assert Lossy(Float(5.5), Int(5));
    EqualityAgreesOffLossyPairs(Float(5.5), Int(5));
  }

  /** A wildcard leg is planned as a lookup of the literal field name: whenever the body has no field of
      that literal name, the lookup misses although the leaf may hold. */
  lemma WildcardLookupMisses(env: Env, t: Treasure, doc: Document, name: string, rest: string, h: BucketHint)
    requires '.' !in name && h.path == WildcardPath(name, rest)
    requires forall w | w in h.values :: HintValue(w)
    requires IndexedBody(env, t) == Some(doc) && name + "[*]" !in doc
    ensures !IndexHits(env, t, h)
  {
    SplitPrepend(name + "[*]", rest);
    assert h.path == (name + "[*]") + "." + rest;
    var parts := SplitDots(h.path);
    assert parts[0] == name + "[*]";
    PlainWalkNil(parts[1..]);
    assert h.values != [] ==> h.values[0] in h.values;
  }

  lemma {:induction false} PlainWalkNil(parts: seq<string>)
    ensures PlainWalk(Nil, parts) == Nil
  {
    if parts != [] { PlainWalkNil(parts[1..]); }
  }

  /** The leaf `slice[*].field == 5`. */
  function WildcardFive(slice: string, field: string): TreasureFilter {
    TreasureFilter(EQUAL, SignedVal(I64, 5), Some(WildcardPath(slice, field)), "", [], [], [])
  }

  /** So on `{slice: [{field: 5}]}` the leaf `slice[*].field == 5` holds, it is planned as a lookup, and the
      lookup misses. */
  lemma WildcardDisagrees(env: Env, t: Treasure, slice: string, field: string)
    requires PlainName(slice) && PlainName(field)
    requires DecodedBody(env, t) == Some(map[slice := Slice([Map(map[field := Int(5)])])])
    ensures var f := WildcardFive(slice, field);
            IndexableHint(f).Some? && LeafHolds(env, t, f) && !IndexHits(env, t, IndexableHint(f).value)
  {
    var item := map[field := Int(5)];
    var doc := map[slice := Slice([Map(item)])];
    var f := WildcardFive(slice, field);
    WildcardOfOne(slice, item, field, Int(5));
    FiveMatches(f);
    WildcardLookupMisses(env, t, doc, slice, field, IndexableHint(f).value);
  }

  lemma WildcardOfOne(slice: string, item: Document, field: string, v: Value)
    requires PlainName(slice) && PlainName(field) && field in item && item[field] == v && !v.Nil?
    ensures Extract(map[slice := Slice([Map(item)])], WildcardPath(slice, field)) == AnyMatch([v])
  {
    var doc := map[slice := Slice([Map(item)])];
    PlainField(doc, slice);
    WildcardExtraction(doc, slice, field);
    OneElement(item, field, v);
  }

  lemma OneElement(item: Document, field: string, v: Value)
    requires PlainName(field) && field in item && item[field] == v && !v.Nil?
    ensures WalkElements([Map(item)], SplitDots(field)) == [v]
  {
    PlainField(item, field);
    assert [Map(item)][1..] == [] && JoinDots([field]) == field;
    assert WalkElements([], [field]) == [];
  }

  lemma FiveMatches(f: TreasureFilter)
    requires f.op == EQUAL && f.value == SignedVal(I64, 5)
    ensures AnyMatchHolds([Int(5)], f)
  {
    assert Int(5) in [Int(5)] && CompareHolds(Int(5), EQUAL, f.value);
  }

  // ---- plain paths are the guard ----

  /** A body whose fields are literally the segments of a path, around a value. */
  function Literal(parts: seq<string>, v: Value): Value {
    if parts == [] then v else Map(map[parts[0] := Literal(parts[1..], v)])
  }

  /** The same, but with another field in place of the first `#len`. */
  function Renamed(parts: seq<string>, v: Value): Value {
    if parts == [] then v
    else if parts[0] == "#len" then Map(map["" := v])
    else Map(map[parts[0] := Renamed(parts[1..], v)])
  }

  /** Of the special segments, `#len` comes before any wildcard. */
  predicate LengthFirst(parts: seq<string>) {
    parts != [] && !IsWildcard(parts[0]) && (parts[0] == "#len" || LengthFirst(parts[1..]))
  }

  lemma {:induction false} LiteralWalks(parts: seq<string>, v: Value)
    requires Decoded(v)
    ensures PlainWalk(Literal(parts, v), parts) == v && Decoded(Literal(parts, v))
    ensures !PlainSegments(parts) ==> Walk(Literal(parts, v), parts) == if LengthFirst(parts) then Int(1) else Nil
  {
    if parts != [] {
      var current, inner := Literal(parts, v), Literal(parts[1..], v);
      LiteralWalks(parts[1..], v);
      assert FieldOf(current, parts[0]) == inner;
      if IsWildcard(parts[0]) {
        assert parts[0] != "#len";
        assert |parts[0][..|parts[0]| - 3]| != |parts[0]|;
      } else if parts[0] == "#len" {
        assert |current.fields| == 1;
      } else {
        assert parts == [parts[0]] + parts[1..];
        assert PlainSegments(parts[1..]) ==> PlainSegments(parts);
      }
    }
  }

  lemma {:induction false} RenamedWalks(parts: seq<string>, v: Value)
    requires LengthFirst(parts) && Decoded(v)
    ensures PlainWalk(Renamed(parts, v), parts) == Nil && Walk(Renamed(parts, v), parts) == Int(1)
    ensures Decoded(Renamed(parts, v)) && Renamed(parts, v).Map?
  {
    var current := Renamed(parts, v);
    if parts[0] == "#len" {
      assert |current.fields| == 1;
      PlainWalkNil(parts[1..]);
    } else {
      RenamedWalks(parts[1..], v);
    }
  }

  /** Lookup and leaf agree on every body that decodes, lossy pairs apart. */
  ghost predicate AnswersForLeaf(env: Env, f: TreasureFilter, h: BucketHint)
    requires f.path == Some(h.path)
  {
    forall doc | Decoded(Map(doc)) && NotLossy(doc, h) :: KeyHits(DocKey(doc, h.path), h) <==> LeafOnMap(env, doc, f)
  }

  predicate NotLossy(doc: Document, h: BucketHint) {
    var v := PlainWalk(Map(doc), SplitDots(h.path));
    forall w | w in h.values :: !Lossy(v, w)
  }

  /** The guard the planner lacks, exactly: a hint answers for its leaf iff its path is plain. */
  lemma PlainPathIsTheGuard(env: Env, f: TreasureFilter, h: BucketHint)
    requires IndexableHint(f) == Some(h)
    ensures AnswersForLeaf(env, f, h) <==> PlainPath(h.path)
  {
    if PlainPath(h.path) {
      forall doc | Decoded(Map(doc)) && NotLossy(doc, h)
        ensures KeyHits(DocKey(doc, h.path), h) <==> LeafOnMap(env, doc, f)
      {
        PlainWalkIsWalk(Map(doc), SplitDots(h.path));
        WalkStaysDecoded(Map(doc), SplitDots(h.path));
        DocLookupExact(env, doc, f, h);
      }
    } else {
      var doc := SpecialPathDisagrees(env, f, h);
      assert !(KeyHits(DocKey(doc, h.path), h) <==> LeafOnMap(env, doc, f));
    }
  }

  /** For every hint on a `[*]` or `#len` path there is a body, with no lossy pair in it, on which lookup and
      leaf disagree: one that holds the segments literally, or one that is as long as the leaf asks. */
  lemma SpecialPathDisagrees(env: Env, f: TreasureFilter, h: BucketHint) returns (doc: Document)
    requires IndexableHint(f) == Some(h) && !PlainPath(h.path)
    ensures Decoded(Map(doc)) && NotLossy(doc, h)
    ensures KeyHits(DocKey(doc, h.path), h) != LeafOnMap(env, doc, f)
  {
    HintShape(f, h);
    NilFails(env, f, h);
    LiteralFound(h);
    var parts, w := SplitDots(h.path), h.values[0];
    if LengthFirst(parts) && FieldHolds(env, Int(1), f) {
      RenamedMissed(h);
      RenamedHolds(env, f, parts, w);
      doc := Renamed(parts, w).fields;
    } else {
      LiteralFails(env, f, parts, w);
      doc := Literal(parts, w).fields;
    }
  }

  /** Where the special segment comes first, the leaf sees a length of one or nothing at all. */
  lemma LiteralFails(env: Env, f: TreasureFilter, parts: seq<string>, v: Value)
    requires f.path.Some? && f.path.value != "" && parts == SplitDots(f.path.value) && !PlainSegments(parts)
    requires Decoded(v) && !FieldHolds(env, if LengthFirst(parts) then Int(1) else Nil, f)
    ensures Literal(parts, v).Map? && !LeafOnMap(env, Literal(parts, v).fields, f)
  {
    LiteralWalks(parts, v);
    LeafOfField(env, Literal(parts, v).fields, f, if LengthFirst(parts) then Int(1) else Nil);
  }

  lemma RenamedHolds(env: Env, f: TreasureFilter, parts: seq<string>, v: Value)
    requires f.path.Some? && f.path.value != "" && parts == SplitDots(f.path.value) && LengthFirst(parts)
    requires Decoded(v) && FieldHolds(env, Int(1), f)
    ensures Renamed(parts, v).Map? && LeafOnMap(env, Renamed(parts, v).fields, f)
  {
    RenamedWalks(parts, v);
    LeafOfField(env, Renamed(parts, v).fields, f, Int(1));
  }

  lemma LeafOfField(env: Env, doc: Document, f: TreasureFilter, v: Value)
    requires f.path.Some? && f.path.value != "" && !v.AnyMatch? && Walk(Map(doc), SplitDots(f.path.value)) == v
    ensures LeafOnMap(env, doc, f) <==> FieldHolds(env, v, f)
  {}

  /** A lookup finds the body that holds its path literally. */
  lemma LiteralFound(h: BucketHint)
    requires UniformHint(h)
    ensures var body := Literal(SplitDots(h.path), h.values[0]);
            Decoded(h.values[0]) && body.Map? && Decoded(body) &&
            NotLossy(body.fields, h) && KeyHits(DocKey(body.fields, h.path), h)
  {
    assert h.values[0] in h.values;
    LiteralHits(h);
    LiteralWalks(SplitDots(h.path), h.values[0]);
  }

  /** It misses the body whose field of that name is called otherwise. */
  lemma RenamedMissed(h: BucketHint)
    requires UniformHint(h) && LengthFirst(SplitDots(h.path))
    ensures var body := Renamed(SplitDots(h.path), h.values[0]);
            body.Map? && Decoded(body) && NotLossy(body.fields, h) && !KeyHits(DocKey(body.fields, h.path), h)
  {
    assert h.values[0] in h.values;
    LiteralHits(h);
    RenamedWalks(SplitDots(h.path), h.values[0]);
  }

  /** A key holds its own value, and values of one hint form no lossy pairs. */
  lemma LiteralHits(h: BucketHint)
    requires UniformHint(h)
    ensures KeyHits(Canonicalize(h.values[0]), h) && !KeyHits(NullKey, h)
    ensures forall w | w in h.values :: !Lossy(h.values[0], w) && !Lossy(Nil, w)
  {
    assert h.values[0] in h.values;
  }

  lemma NilFails(env: Env, f: TreasureFilter, h: BucketHint)
    requires IndexableHint(f) == Some(h)
    ensures !FieldHolds(env, Nil, f)
  {}
}
