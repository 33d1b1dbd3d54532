/** Laws relating the evaluators: nested-slice modes, wildcard paths against nested slices, and
    body-only groups against the decoded-map evaluator. */
module FilterLaws {
  import opened Optional
  import opened Values
  import opened Paths
  import opened Filters

  // ---- nested-slice modes ----

  lemma {:induction false} CountBounds(vs: seq<bool>)
    ensures CountTrue(vs) <= |vs|
    ensures CountTrue(vs) >= 1 <==> true in vs
    ensures CountTrue(vs) == |vs| <==> false !in vs
  {
    if vs != [] {
      var init, last := vs[..|vs| - 1], vs[|vs| - 1];
      CountBounds(init);
      assert true in vs <==> true in init || last;
      assert false in vs <==> false in init || !last;
    }
  }

  lemma ModesAreCounts(vs: seq<bool>, nf: NestedFilter)
    requires |vs| < 0x8000_0000
    ensures ModeHolds(vs, nf.(mode := NONE)) <==> !ModeHolds(vs, nf.(mode := ANY))
    ensures ModeHolds(vs, nf.(mode := ANY)) <==>
            ModeHolds(vs, nf.(mode := COUNT, countOp := GREATER_THAN_OR_EQUAL, countValue := 1))
    ensures ModeHolds(vs, nf.(mode := ALL)) <==>
            ModeHolds(vs, nf.(mode := COUNT, countOp := EQUAL, countValue := |vs|))
  {
    CountBounds(vs);
  }

  /** ANY, ALL and NONE are count comparisons over the same slice and conditions: NONE negates ANY,
      ANY is COUNT >= 1, ALL is COUNT == length. Missing slices, absent conditions, non-map elements
      and nested conditions included. */
  lemma NestedModesAreCounts(env: Env, doc: Document, nf: NestedFilter)
    requires |SliceAt(doc, nf)| < 0x8000_0000
    ensures NestedOnMap(env, doc, nf.(mode := NONE)) <==> !NestedOnMap(env, doc, nf.(mode := ANY))
    ensures NestedOnMap(env, doc, nf.(mode := ANY)) <==>
            NestedOnMap(env, doc, nf.(mode := COUNT, countOp := GREATER_THAN_OR_EQUAL, countValue := 1))
    ensures NestedOnMap(env, doc, nf.(mode := ALL)) <==>
            NestedOnMap(env, doc, nf.(mode := COUNT, countOp := EQUAL, countValue := |SliceAt(doc, nf)|))
  {
    ModesAreCounts(Verdicts(env, SliceAt(doc, nf), nf.conditions), nf);
  }

  // ---- wildcard paths ----

  /** Segments that navigate by plain field name. */
  predicate PlainSegments(parts: seq<string>) {
    forall p | p in parts :: p != "#len" && !IsWildcard(p)
  }

  predicate WildcardFree(path: string) {
    forall p | p in SplitDots(path) :: !IsWildcard(p)
  }

  /** `F[*].P` as the client writes it. */
  function WildcardPath(slicePath: string, fieldPath: string): string {
    slicePath + "[*]." + fieldPath
  }

  /** Operators the any-match evaluator applies value by value. */
  predicate PointwiseOp(f: TreasureFilter) {
    match f.op
    case STRING_IN => true
    case INT32_IN => true
    case INT64_IN => true
    case IS_NOT_EMPTY => true
    case IS_EMPTY => false
    case HAS_KEY => false
    case HAS_NOT_KEY => false
    case SLICE_CONTAINS => false
    case SLICE_NOT_CONTAINS => false
    case SLICE_CONTAINS_SUBSTRING => false
    case SLICE_NOT_CONTAINS_SUBSTRING => false
    case _ => AnyMatchCompares(f.value)
  }

  /** The nested filter that says the same as a wildcard leaf: ANY element of F with P op v. */
  function AsNestedAny(slicePath: string, fieldPath: string, f: TreasureFilter): NestedFilter {
    NestedFilter(ANY, slicePath,
      Some(FilterGroup(AND, [f.(path := Some(fieldPath))], [], [], [], [], [])), "", EQUAL, 0)
  }

  lemma {:induction false} JoinConcat(a: seq<string>, b: seq<string>)
    requires a != [] && b != []
    ensures JoinDots(a + b) == JoinDots(a) + "." + JoinDots(b)
  {
    assert (a + b)[1..] == a[1..] + b;
    if |a| > 1 { JoinConcat(a[1..], b); }
  }

  lemma {:induction false} JoinExtendLast(init: seq<string>, last: string, b: string)
    ensures JoinDots(init + [last + b]) == JoinDots(init + [last]) + b
  {
    if init != [] {
      JoinConcat(init, [last + b]);
      JoinConcat(init, [last]);
    }
  }

  lemma SplitAppend(a: string, b: string, init: seq<string>, last: string)
    requires '.' !in b && SplitDots(a) == init + [last]
    ensures SplitDots(a + b) == init + [last + b]
  {
    JoinSplit(a);
    SplitNoDots(a);
    JoinExtendLast(init, last, b);
    assert last in SplitDots(a) && forall p | p in init :: p in SplitDots(a);
    SplitJoin(init + [last + b]);
  }

  lemma SplitConcat(a: string, b: string)
    ensures SplitDots(a + "." + b) == SplitDots(a) + SplitDots(b)
  {
    JoinSplit(a);
    JoinSplit(b);
    SplitNoDots(a);
    SplitNoDots(b);
    JoinConcat(SplitDots(a), SplitDots(b));
    SplitJoin(SplitDots(a) + SplitDots(b));
  }

  /** Walking plain segments and then the rest. */
  lemma {:induction false} WalkThrough(current: Value, plain: seq<string>, rest: seq<string>)
    requires PlainSegments(plain)
    ensures Walk(current, plain + rest) == Walk(Walk(current, plain), rest)
    decreases |plain|
  {
    if plain == [] {
      assert plain + rest == rest;
    } else {
      assert (plain + rest)[1..] == plain[1..] + rest;
      WalkThrough(FieldOf(current, plain[0]), plain[1..], rest);
    }
  }

  /** Without wildcard segments the extraction is never the any-match sentinel on a document whose
      values are decoded ones. */
  predicate Decoded(v: Value)
    decreases v
  {
    match v
    case AnyMatch(_) => false
    case Slice(elems) => forall e | e in elems :: Decoded(e)
    case Map(fields) => forall k | k in fields :: Decoded(fields[k])
    case _ => true
  }

  lemma {:induction false} WalkStaysDecoded(v: Value, parts: seq<string>)
    requires Decoded(v) && forall p | p in parts :: !IsWildcard(p)
    ensures Decoded(Walk(v, parts))
    decreases |parts|
  {
    if parts != [] && parts[0] != "#len" { WalkStaysDecoded(FieldOf(v, parts[0]), parts[1..]); }
  }

  lemma SplitWildcard(slicePath: string, fieldPath: string, init: seq<string>, last: string)
    requires SplitDots(slicePath) == init + [last]
    ensures SplitDots(WildcardPath(slicePath, fieldPath)) == init + ([last + "[*]"] + SplitDots(fieldPath))
  {
    SplitConcat(slicePath + "[*]", fieldPath);
    SplitAppend(slicePath, "[*]", init, last);
    assert WildcardPath(slicePath, fieldPath) == (slicePath + "[*]") + "." + fieldPath;
  }

  lemma WalkWildcard(owner: Value, name: string, rest: seq<string>)
    requires name != ""
    ensures var arr := FieldOf(owner, name);
            Walk(owner, [name + "[*]"] + rest) == if arr.Slice? then AnyMatch(WalkElements(arr.elems, rest)) else Nil
  {
    var wild := name + "[*]";
    assert wild[..|wild| - 3] == name && wild[|wild| - 3..] == "[*]";
    assert wild != "#len" by { assert wild[|wild| - 1] == ']'; }
    assert ([wild] + rest)[1..] == rest;
  }

  /** What a wildcard path extracts: the any-match sentinel over the field values of the slice, or
      nothing when there is no slice. */
  lemma WildcardExtraction(doc: Document, slicePath: string, fieldPath: string)
    requires var ps := SplitDots(slicePath); PlainSegments(ps) && ps[|ps| - 1] != ""
    ensures var arr := Extract(doc, slicePath);
            Extract(doc, WildcardPath(slicePath, fieldPath)) ==
            if arr.Slice? then AnyMatch(WalkElements(arr.elems, SplitDots(fieldPath))) else Nil
  {
    var parts := SplitDots(slicePath);
    var init, last := parts[..|parts| - 1], parts[|parts| - 1];
    assert parts == init + [last];
    SplitWildcard(slicePath, fieldPath, init, last);
    var tail := [last + "[*]"] + SplitDots(fieldPath);
    WalkThrough(Map(doc), init, tail);
    WalkThrough(Map(doc), init, [last]);
    var owner := Walk(Map(doc), init);
    WalkWildcard(owner, last, SplitDots(fieldPath));
    assert [last][1..] == [] && Walk(FieldOf(owner, last), []) == FieldOf(owner, last);
    assert slicePath != "" && WildcardPath(slicePath, fieldPath) != "";
  }

  /** A wildcard leaf `F[*].P op v` and the nested filter "ANY element of F with P op v" agree on every
      document, for the value-by-value operators. */
  lemma WildcardIsNestedAny(env: Env, doc: Document, slicePath: string, fieldPath: string, f: TreasureFilter)
    requires Decoded(Map(doc))
    requires var ps := SplitDots(slicePath); PlainSegments(ps) && ps[|ps| - 1] != ""
    requires fieldPath != "" && WildcardFree(fieldPath)
    requires PointwiseOp(f)
    ensures LeafOnMap(env, doc, f.(path := Some(WildcardPath(slicePath, fieldPath)))) <==>
            NestedOnMap(env, doc, AsNestedAny(slicePath, fieldPath, f))
  {
    WildcardExtraction(doc, slicePath, fieldPath);
    var nf := AsNestedAny(slicePath, fieldPath, f);
    var leaf := f.(path := Some(WildcardPath(slicePath, fieldPath)));
    var arr := Extract(doc, slicePath);
    AnyVerdict(env, SliceAt(doc, nf), nf.conditions);
    if arr.Slice? {
      WalkStaysDecoded(Map(doc), SplitDots(slicePath));
      AnyMatchIsPointwise(WalkElements(arr.elems, SplitDots(fieldPath)), leaf);
      SomeElementPoint(env, arr.elems, fieldPath, f, nf.conditions);
    } else {
      FieldIsPoint(env, Nil, leaf);
    }
  }

  lemma AnyVerdict(env: Env, elems: seq<Value>, conditions: Option<FilterGroup>)
    ensures true in Verdicts(env, elems, conditions) <==> exists e | e in elems :: ElementMatches(env, e, conditions)
  {
    var vs := Verdicts(env, elems, conditions);
    if e :| e in elems && ElementMatches(env, e, conditions) {
      var i :| 0 <= i < |elems| && elems[i] == e;
      assert vs[i];
    }
  }

  lemma FieldIsPoint(env: Env, v: Value, f: TreasureFilter)
    requires PointwiseOp(f) && !v.AnyMatch?
    ensures FieldHolds(env, v, f) <==> !v.Nil? && PointHolds(v, f)
  {}

  /** Some collected value satisfies the operator iff some element satisfies the condition. */
  lemma {:induction false} SomeElementPoint(
      env: Env, elems: seq<Value>, fieldPath: string, f: TreasureFilter, conditions: Option<FilterGroup>)
    requires PointwiseOp(f) && fieldPath != "" && WildcardFree(fieldPath)
    requires forall e | e in elems :: Decoded(e)
    requires conditions == Some(FilterGroup(AND, [f.(path := Some(fieldPath))], [], [], [], [], []))
    ensures (exists v | v in WalkElements(elems, SplitDots(fieldPath)) :: PointHolds(v, f)) <==>
            exists e | e in elems :: ElementMatches(env, e, conditions)
  {
    if elems != [] {
      var rest := SplitDots(fieldPath);
      JoinSplit(fieldPath);
      SomeElementPoint(env, elems[1..], fieldPath, f, conditions);
      ElementIsPoint(env, elems[0], fieldPath, f, conditions);
      assert (exists e | e in elems :: ElementMatches(env, e, conditions)) <==>
             ElementMatches(env, elems[0], conditions) ||
             exists e | e in elems[1..] :: ElementMatches(env, e, conditions) by {
        assert elems == [elems[0]] + elems[1..];
      }
    }
  }

  /** The verdict of a value-by-value operator on one non-nil value. */
  predicate PointHolds(v: Value, f: TreasureFilter) {
    match f.op
    case STRING_IN => StringInHolds(v, f.stringIn)
    case INT32_IN => IntInHolds(v, f.int32In)
    case INT64_IN => IntInHolds(v, f.int64In)
    case IS_NOT_EMPTY => !IsEmptyField(v)
    case _ => CompareHolds(v, f.op, f.value)
  }

  lemma AnyMatchIsPointwise(values: seq<Value>, f: TreasureFilter)
    requires PointwiseOp(f)
    ensures AnyMatchHolds(values, f) <==> exists v | v in values :: PointHolds(v, f)
  {
    if f.op == IS_NOT_EMPTY {
      assert forall v | v in values :: PointHolds(v, f) == !IsEmptyField(v);
    } else if f.op !in {STRING_IN, INT32_IN, INT64_IN} {
      assert forall v | v in values :: PointHolds(v, f) == CompareHolds(v, f.op, f.value);
    }
  }

  lemma ElementIsPoint(env: Env, e: Value, fieldPath: string, f: TreasureFilter, conditions: Option<FilterGroup>)
    requires Decoded(e) && PointwiseOp(f) && fieldPath != "" && WildcardFree(fieldPath)
    requires conditions == Some(FilterGroup(AND, [f.(path := Some(fieldPath))], [], [], [], [], []))
    ensures var v := Walk(e, SplitDots(fieldPath));
            ElementMatches(env, e, conditions) <==> e.Map? && !v.Nil? && PointHolds(v, f)
  {
    var leaf := f.(path := Some(fieldPath));
    WalkStaysDecoded(e, SplitDots(fieldPath));
    FieldIsPoint(env, Walk(e, SplitDots(fieldPath)), leaf);
    SingleLeafCondition(env, e, leaf);
  }

  /** The reference types outside AnyMatchCompares (int16, unsigned, float32) are outside the
      correspondence: a wildcard comparison against one of them matches no document at all. */
  lemma WildcardBlindToOtherTypes(env: Env, doc: Document, slicePath: string, fieldPath: string, f: TreasureFilter)
    requires var ps := SplitDots(slicePath); PlainSegments(ps) && ps[|ps| - 1] != ""
    requires OrderedOp(f.op)
    requires !AnyMatchCompares(f.value)
    ensures !LeafOnMap(env, doc, f.(path := Some(WildcardPath(slicePath, fieldPath))))
  {
    WildcardExtraction(doc, slicePath, fieldPath);
  }

  /** Comparison operators that order their operands. */
  predicate OrderedOp(op: Operator) {
    op == EQUAL || op == NOT_EQUAL || op == LESS_THAN || op == LESS_THAN_OR_EQUAL ||
    op == GREATER_THAN || op == GREATER_THAN_OR_EQUAL
  }

  /** So for the ordered operators and every reference type: the wildcard leaf is the nested filter, cut down to
      the reference types evaluateAnyMatch compares. */
  lemma WildcardExact(env: Env, doc: Document, slicePath: string, fieldPath: string, f: TreasureFilter)
    requires Decoded(Map(doc))
    requires var ps := SplitDots(slicePath); PlainSegments(ps) && ps[|ps| - 1] != ""
    requires fieldPath != "" && WildcardFree(fieldPath)
    requires OrderedOp(f.op)
    ensures LeafOnMap(env, doc, f.(path := Some(WildcardPath(slicePath, fieldPath)))) <==>
            AnyMatchCompares(f.value) && NestedOnMap(env, doc, AsNestedAny(slicePath, fieldPath, f))
  {
    if AnyMatchCompares(f.value) {
      WildcardIsNestedAny(env, doc, slicePath, fieldPath, f);
    } else {
      WildcardBlindToOtherTypes(env, doc, slicePath, fieldPath, f);
    }
  }

  /** The reference five in each of the types a wildcard comparison is blind to. */
  predicate BlindFive(ref: CompareValue) {
    ref == SignedVal(I16, 5) || (ref.UnsignedVal? && ref.u == 5) || ref == FloatVal(F32, 5.0)
  }

  /** The types differ: on `{slice: [{field: 5}]}` the nested filter matches field == 5 for a reference of each
      blind type, and the wildcard leaf does not. */
  lemma BlindTypesDisagree(env: Env, slice: string, field: string, ref: CompareValue)
    requires PlainName(slice) && PlainName(field) && BlindFive(ref)
    ensures var doc := map[slice := Slice([Map(map[field := Int(5)])])];
            var f := TreasureFilter(EQUAL, ref, None, "", [], [], []);
            NestedOnMap(env, doc, AsNestedAny(slice, field, f)) &&
            !LeafOnMap(env, doc, f.(path := Some(WildcardPath(slice, field))))
  {
    var item := map[field := Int(5)];
    var doc := map[slice := Slice([Map(item)])];
    var f := TreasureFilter(EQUAL, ref, None, "", [], [], []);
    PlainField(doc, slice);
    PlainField(item, field);
    FiveCompares(ref);
    SingleLeafCondition(env, Map(item), f.(path := Some(field)));
    var nf := AsNestedAny(slice, field, f);
    assert Verdicts(env, SliceAt(doc, nf), nf.conditions)[0];
    WildcardBlindToOtherTypes(env, doc, slice, field, f);
  }

  lemma FiveCompares(ref: CompareValue)
    requires BlindFive(ref)
    ensures CompareHolds(Int(5), EQUAL, ref) && !AnyMatchCompares(ref)
  {
    assert RoundToFloat64(5) == 5;
  }

  predicate PlainName(name: string) {
    '.' !in name && name != "" && name != "#len" && !IsWildcard(name)
  }

  /** A one-leaf condition is that leaf. */
  lemma SingleLeafCondition(env: Env, e: Value, f: TreasureFilter)
    requires f.path.Some?
    ensures ElementMatches(env, e, Some(FilterGroup(AND, [f], [], [], [], [], []))) <==>
            e.Map? && LeafOnMap(env, e.fields, f)
  {
    var g := FilterGroup(AND, [f], [], [], [], [], []);
    assert g.filters == [f];
    assert e.Map? ==> (GroupOnMap(env, e.fields, g) <==> LeafOnMap(env, e.fields, f));
  }

  lemma PlainField(doc: Document, name: string)
    requires PlainName(name)
    ensures SplitDots(name) == [name] && PlainSegments([name])
    ensures Extract(doc, name) == FieldOf(Map(doc), name)
  {
    SplitOne(name);
    assert [name][1..] == [];
    assert Walk(FieldOf(Map(doc), name), []) == FieldOf(Map(doc), name);
  }

  // ---- body-only groups ----

  /** validateBodyOnlyFilterGroup accepts: every leaf has a body path, through all sub-groups, and no
      phrase, vector or geo filter occurs. Nested-slice conditions are not inspected. */
  predicate BodyOnly(g: FilterGroup)
    decreases g
  {
    (forall f | f in g.filters :: f.path.Some? && f.path.value != "") &&
    g.phrases == [] && g.vectors == [] && g.geos == [] &&
    forall sg | sg in g.subGroups :: BodyOnly(sg)
  }

  /** On a body-only group the treasure evaluator is the decoded-map evaluator. */
  lemma {:induction false} BodyOnlyAgrees(env: Env, t: Treasure, doc: Document, g: FilterGroup)
    requires BodyOnly(g)
    requires DecodedBody(env, t) == Some(doc)
    ensures GroupHolds(env, t, g) <==> GroupOnMap(env, doc, g)
    decreases g
  {
    forall sg | sg in g.subGroups ensures GroupHolds(env, t, sg) <==> GroupOnMap(env, doc, sg) {
      BodyOnlyAgrees(env, t, doc, sg);
    }
    assert forall f | f in g.filters :: LeafHolds(env, t, f) <==> LeafOnMap(env, doc, f);
    assert forall nf | nf in g.nested :: NestedHolds(env, t, nf) <==> NestedOnMap(env, doc, nf);
  }
}
