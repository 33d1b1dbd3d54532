/** The query planner (app/server/gateway/bucket_planner.go): a filter group becomes bucket lookups plus a
    residual predicate. */
module Planner {
  import opened Optional
  import opened Values
  import opened Filters

  datatype PlanMode = Bypass | And | OrUnion
  datatype HintOp = HintEqual | HintIn

  /** One bucket lookup; the values are the canonical Go types the bucket expects. */
  datatype BucketHint = BucketHint(path: string, op: HintOp, values: seq<Value>)

  datatype Plan = Plan(mode: PlanMode, hints: seq<BucketHint>, residual: Option<FilterGroup>)

  const BYPASS := Plan(Bypass, [], None)

  /** compareValueToAny. */
  function CanonicalReference(ref: CompareValue): Option<Value> {
    match ref
    case SignedVal(_, n) => Some(Int(n))
    case UnsignedVal(_, u) => Some(Uint(u))
    case FloatVal(_, r) => Some(Float(r))
    case StringVal(s) => Some(Str(s))
    case BoolVal(b) => Some(Bool(b))
    case _ => None
  }

  function InHint(path: string, values: seq<Value>): Option<BucketHint> {
    if values == [] then None else Some(BucketHint(path, HintIn, values))
  }

  function Strings(vals: seq<string>): (vs: seq<Value>)
    ensures |vs| == |vals| && forall i | 0 <= i < |vals| :: vs[i] == Str(vals[i])
  {
    seq(|vals|, i requires 0 <= i < |vals| => Str(vals[i]))
  }

  function Ints(vals: seq<Int64>): (vs: seq<Value>)
    ensures |vs| == |vals| && forall i | 0 <= i < |vals| :: vs[i] == Int(vals[i])
  {
    seq(|vals|, i requires 0 <= i < |vals| => Int(vals[i]))
  }

  /** indexableHint: body-field equality or IN against simple values. */
  function IndexableHint(f: TreasureFilter): Option<BucketHint> {
    if f.path.None? || f.path.value == "" then None
    else
      match f.op
      case EQUAL =>
        var ref := CanonicalReference(f.value);
        if ref.None? then None else Some(BucketHint(f.path.value, HintEqual, [ref.value]))
      case STRING_IN => InHint(f.path.value, Strings(f.stringIn))
      case INT32_IN => InHint(f.path.value, Ints(f.int32In))
      case INT64_IN => InHint(f.path.value, Ints(f.int64In))
      case _ => None
  }

  /** Exactly the leaves a lookup can stand for: equality with a number, string or boolean, or membership in a
      non-empty list, of a body field. */
  lemma IndexableMeans(f: TreasureFilter)
    ensures IndexableHint(f).Some? <==>
            f.path.Some? && f.path.value != "" &&
            ((f.op == EQUAL && (f.value.SignedVal? || f.value.UnsignedVal? || f.value.FloatVal? ||
                                f.value.StringVal? || f.value.BoolVal?)) ||
             (f.op == STRING_IN && f.stringIn != []) || (f.op == INT32_IN && f.int32In != []) ||
             (f.op == INT64_IN && f.int64In != []))
    ensures IndexableHint(f).Some? ==>
              var h := IndexableHint(f).value;
              h.path == f.path.value && (h.op == HintEqual <==> f.op == EQUAL) &&
              (f.op == STRING_IN ==> |h.values| == |f.stringIn|) && (f.op == INT32_IN ==> |h.values| == |f.int32In|) &&
              (f.op == INT64_IN ==> |h.values| == |f.int64In|)
  {}

  function RemoveAt<T>(s: seq<T>, i: nat): seq<T>
    requires i < |s|
  {
    s[..i] + s[i + 1..]
  }

  /** Index of the first indexable leaf, or the length. */
  function FirstIndexable(fs: seq<TreasureFilter>): (i: nat)
    ensures i <= |fs|
    ensures i < |fs| ==> IndexableHint(fs[i]).Some?
    ensures forall j | 0 <= j < i :: IndexableHint(fs[j]).None?
  {
    if fs == [] || IndexableHint(fs[0]).Some? then 0 else 1 + FirstIndexable(fs[1..])
  }

  /** Index of the first sub-group whose own plan is an OR union, or the length. */
  function FirstUnion(subs: seq<FilterGroup>): (i: nat)
    ensures i <= |subs|
    ensures i < |subs| ==> PlanGroup(subs[i]).mode == OrUnion
    ensures forall j | 0 <= j < i :: PlanGroup(subs[j]).mode != OrUnion
  {
    if subs == [] || PlanGroup(subs[0]).mode == OrUnion then 0 else 1 + FirstUnion(subs[1..])
  }

  function PlanAnd(g: FilterGroup): (p: Plan)
    ensures p.mode != OrUnion
    decreases g, 0
  {
    var i := FirstIndexable(g.filters);
    if i < |g.filters| then
      Plan(And, [IndexableHint(g.filters[i]).value], Some(g.(filters := RemoveAt(g.filters, i))))
    else
      var j := FirstUnion(g.subGroups);
      if j < |g.subGroups| then
        Plan(And, PlanGroup(g.subGroups[j]).hints, Some(g.(subGroups := RemoveAt(g.subGroups, j))))
      else BYPASS
  }

  function PlanOr(g: FilterGroup): (p: Plan)
    ensures p.mode != And
    ensures p.mode == OrUnion ==> p.residual.None?
  {
    if g.subGroups != [] || g.phrases != [] || g.vectors != [] || g.geos != [] || g.nested != [] then BYPASS
    else if g.filters == [] || exists f | f in g.filters :: IndexableHint(f).None? then BYPASS
    else
      Plan(OrUnion,
        seq(|g.filters|, i requires 0 <= i < |g.filters| => IndexableHint(g.filters[i]).value), None)
  }

  function PlanGroup(g: FilterGroup): Plan
    decreases g, 1
  {
    if IsEmptyGroup(g) then BYPASS
    else if g.logic == AND then PlanAnd(g)
    else PlanOr(g)
  }

  /** PlanFilter: an absent filter yields Bypass. */
  function PlanFilter(g: Option<FilterGroup>): Plan {
    if g.None? then BYPASS else PlanGroup(g.value)
  }

  /** PlanFilter with its loops. */
  method ComputePlan(g: FilterGroup) returns (p: Plan)
    ensures p == PlanGroup(g)
    decreases g
  {
    if IsEmptyGroup(g) { return BYPASS; }
    if g.logic != AND {
      p := ComputeOr(g);
      return;
    }
    for i := 0 to |g.filters|
      invariant forall j | 0 <= j < i :: IndexableHint(g.filters[j]).None?
    {
      var hint := IndexableHint(g.filters[i]);
      if hint.Some? {
        return Plan(And, [hint.value], Some(g.(filters := RemoveAt(g.filters, i))));
      }
    }
    for i := 0 to |g.subGroups|
      invariant forall j | 0 <= j < i :: PlanGroup(g.subGroups[j]).mode != OrUnion
    {
      var subPlan := ComputePlan(g.subGroups[i]);
      if subPlan.mode == OrUnion {
        return Plan(And, subPlan.hints, Some(g.(subGroups := RemoveAt(g.subGroups, i))));
      }
    }
    return BYPASS;
  }

  /** planOr with its hint-collecting loop. */
  method ComputeOr(g: FilterGroup) returns (p: Plan)
    ensures p == PlanOr(g)
  {
    if g.subGroups != [] || g.phrases != [] || g.vectors != [] || g.geos != [] || g.nested != [] { return BYPASS; }
    var hints: seq<BucketHint> := [];
    for i := 0 to |g.filters|
      invariant |hints| == i
      invariant forall j | 0 <= j < i :: IndexableHint(g.filters[j]) == Some(hints[j])
    {
      var hint := IndexableHint(g.filters[i]);
      if hint.None? { return BYPASS; }
      hints := hints + [hint.value];
    }
    if hints == [] { return BYPASS; }
    assert hints == PlanOr(g).hints;
    return Plan(OrUnion, hints, None);
  }

  // ---- meaning of a plan ----

  /** The group whose leaves the lookups replace: the group itself, or the sub-group it borrows. */
  ghost function Consumed(g: FilterGroup): FilterGroup
    requires PlanGroup(g).mode != Bypass
  {
    assert g.logic == AND ==> PlanGroup(g) == PlanAnd(g);
    if g.logic == AND && FirstIndexable(g.filters) == |g.filters| then g.subGroups[FirstUnion(g.subGroups)] else g
  }

  /** The leaves the lookups stand for, hint by hint. */
  ghost function PlanLegs(g: FilterGroup): seq<TreasureFilter>
    requires PlanGroup(g).mode != Bypass
  {
    if g.logic == AND && FirstIndexable(g.filters) < |g.filters| then [g.filters[FirstIndexable(g.filters)]]
    else Consumed(g).filters
  }

  /** What a bucket route computes when lookups return the treasures their leaf holds on. */
  ghost predicate PlannedVerdict(env: Env, t: Treasure, g: FilterGroup)
    requires PlanGroup(g).mode != Bypass
  {
    (exists f | f in PlanLegs(g) :: LeafHolds(env, t, f)) && FilterHolds(env, t, PlanGroup(g).residual)
  }

  /** Each hint is the hint of its leg. */
  lemma HintsMatchLegs(g: FilterGroup)
    requires PlanGroup(g).mode != Bypass
    ensures |PlanGroup(g).hints| == |PlanLegs(g)|
    ensures forall i | 0 <= i < |PlanLegs(g)| :: IndexableHint(PlanLegs(g)[i]) == Some(PlanGroup(g).hints[i])
  {
    if g.logic != AND { UnionHints(g); }
    else if FirstIndexable(g.filters) == |g.filters| { UnionHints(Consumed(g)); }
  }

  lemma UnionHints(g: FilterGroup)
    requires PlanGroup(g).mode == OrUnion
    ensures |PlanGroup(g).hints| == |g.filters| > 0
    ensures forall i | 0 <= i < |g.filters| :: IndexableHint(g.filters[i]) == Some(PlanGroup(g).hints[i])
  {
    assert forall i | 0 <= i < |g.filters| :: g.filters[i] in g.filters;
  }

  lemma RemoveAtMembers<T>(s: seq<T>, i: nat)
    requires i < |s|
    ensures forall x :: x in s <==> x == s[i] || x in RemoveAt(s, i)
  {
    assert s == s[..i] + [s[i]] + s[i + 1..];
  }

  /** Dropping a leaf from an AND group factors it out, even when nothing is left. */
  lemma FactorLeaf(env: Env, t: Treasure, g: FilterGroup, i: nat)
    requires g.logic == AND && i < |g.filters|
    ensures GroupHolds(env, t, g) <==>
            LeafHolds(env, t, g.filters[i]) && GroupHolds(env, t, g.(filters := RemoveAt(g.filters, i)))
  {
    RemoveAtMembers(g.filters, i);
  }

  lemma FactorSubGroup(env: Env, t: Treasure, g: FilterGroup, i: nat)
    requires g.logic == AND && i < |g.subGroups|
    ensures GroupHolds(env, t, g) <==>
            GroupHolds(env, t, g.subGroups[i]) && GroupHolds(env, t, g.(subGroups := RemoveAt(g.subGroups, i)))
  {
    RemoveAtMembers(g.subGroups, i);
  }

  lemma UnionVerdict(env: Env, t: Treasure, g: FilterGroup)
    requires PlanGroup(g).mode == OrUnion
    ensures g.logic == OR ==> (GroupHolds(env, t, g) <==> exists f | f in g.filters :: LeafHolds(env, t, f))
    ensures g.logic == UnknownLogic ==> (GroupHolds(env, t, g) <==> forall f | f in g.filters :: LeafHolds(env, t, f))
    ensures g.filters != []
  {}

  /** Legs that agree with one another on `t`. */
  ghost predicate Unanimous(env: Env, t: Treasure, legs: seq<TreasureFilter>) {
    (forall f | f in legs :: LeafHolds(env, t, f)) || (forall f | f in legs :: !LeafHolds(env, t, f))
  }

  /** When the plan means the filter: always, except that a consumed group with an out-of-schema logic
      number is planned as OR but evaluated as AND. Then verdicts agree exactly on the treasures whose
      legs are unanimous or whose residual fails. */
  lemma PlanExact(env: Env, t: Treasure, g: FilterGroup)
    requires PlanGroup(g).mode != Bypass
    ensures (PlannedVerdict(env, t, g) <==> GroupHolds(env, t, g)) <==>
            (Consumed(g).logic != UnknownLogic || Unanimous(env, t, PlanLegs(g)) ||
             !FilterHolds(env, t, PlanGroup(g).residual))
  {
    if g.logic != AND {
      UnionVerdict(env, t, g);
      assert g.filters[0] in g.filters;
    } else if FirstIndexable(g.filters) < |g.filters| {
      FactorLeaf(env, t, g, FirstIndexable(g.filters));
    } else {
      var j := FirstUnion(g.subGroups);
      FactorSubGroup(env, t, g, j);
      UnionVerdict(env, t, g.subGroups[j]);
      assert g.subGroups[j].filters[0] in g.subGroups[j].filters;
    }
  }

  predicate KnownLogic(g: FilterGroup) {
    g.logic != UnknownLogic && forall sg | sg in g.subGroups :: sg.logic != UnknownLogic
  }

  /** For every group in the schema's own logic values, planning preserves meaning: a treasure satisfies
      the filter iff it satisfies some planned leg and the residual. */
  lemma PlanPreserves(env: Env, t: Treasure, g: FilterGroup)
    requires PlanGroup(g).mode != Bypass && KnownLogic(g)
    ensures GroupHolds(env, t, g) <==> PlannedVerdict(env, t, g)
  {
    PlanExact(env, t, g);
  }

  /** The same, read off the hints: any lookup that answers each hint as the leaf it came from makes
      "some hint hits and the residual holds" the meaning of the filter. */
  lemma PlanPreservesUnderLookup(env: Env, t: Treasure, g: FilterGroup, hits: BucketHint -> bool)
    requires PlanGroup(g).mode != Bypass && KnownLogic(g)
    requires forall f | f in PlanLegs(g) && IndexableHint(f).Some? ::
               hits(IndexableHint(f).value) == LeafHolds(env, t, f)
    ensures GroupHolds(env, t, g) <==>
            (exists h | h in PlanGroup(g).hints :: hits(h)) && FilterHolds(env, t, PlanGroup(g).residual)
  {
    PlanPreserves(env, t, g);
    HintsMatchLegs(g);
    var legs := PlanLegs(g);
    assert forall i | 0 <= i < |legs| :: legs[i] in legs;
    SomePointwise(legs, PlanGroup(g).hints, f => LeafHolds(env, t, f), hits);
  }

  lemma SomePointwise<A, B>(xs: seq<A>, ys: seq<B>, p: A -> bool, q: B -> bool)
    requires |xs| == |ys| && forall i | 0 <= i < |xs| :: p(xs[i]) == q(ys[i])
    ensures (exists x | x in xs :: p(x)) <==> (exists y | y in ys :: q(y))
  {
    if x :| x in xs && p(x) {
      var i :| 0 <= i < |xs| && xs[i] == x;
      assert ys[i] in ys;
    }
    if y :| y in ys && q(y) {
      var i :| 0 <= i < |ys| && ys[i] == y;
      assert xs[i] in xs;
    }
  }

  /** A two-leg group with an out-of-schema logic number, on a treasure that satisfies one leg. */
  lemma UnknownLogicMisplanned(env: Env, t: Treasure, a: TreasureFilter, b: TreasureFilter)
    requires IndexableHint(a).Some? && IndexableHint(b).Some?
    requires LeafHolds(env, t, a) && !LeafHolds(env, t, b)
    ensures var g := FilterGroup(UnknownLogic, [a, b], [], [], [], [], []);
            PlanGroup(g).mode != Bypass && PlannedVerdict(env, t, g) && !GroupHolds(env, t, g)
  {
    var g := FilterGroup(UnknownLogic, [a, b], [], [], [], [], []);
    assert g.filters[0] == a && g.filters[1] == b;
    PlanExact(env, t, g);
  }
}
