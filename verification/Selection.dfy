/** Selection predicates that combine bucket candidates with a residual filter: candidate collection
    (app/server/gateway/bucket_exec.go), PatchExpired (app/server/gateway/gateway_patch_expired.go) and
    ShiftMatching (app/server/gateway/gateway_shift_matching.go). */
module Selection {
  import opened Optional
  import opened Sequences
  import opened Values
  import opened Filters
  import opened FilterLaws
  import opened Planner
  import opened Bucket

  /** A swamp's treasures at one moment, by key. */
  type Store = map<string, Treasure>

  predicate Stored(store: Store, t: Treasure) {
    t.key in store && store[t.key] == t
  }

  /** LookupByBucketEqual and LookupByBucketIn. */
  datatype Searches = Searches(equal: (string, Value) -> seq<Treasure>, among: (string, seq<Value>) -> seq<Treasure>)

  /** The lookup a hint asks for; an equality hint without a value asks for none. */
  function Hits(lookups: Searches, h: BucketHint): seq<Treasure> {
    if h.op == HintIn then lookups.among(h.path, h.values)
    else if h.values == [] then []
    else lookups.equal(h.path, h.values[0])
  }

  /** The lookups report the settled index of the store: each stored treasure whose index key matches,
      once. */
  ghost predicate Reflects(env: Env, store: Store, lookups: Searches) {
    forall h :: DistinctKeys(Hits(lookups, h)) &&
      forall t :: t in Hits(lookups, h) <==> Stored(store, t) && IndexHits(env, t, h)
  }

  predicate HitsAny(env: Env, t: Treasure, hints: seq<BucketHint>) {
    exists h | h in hints :: IndexHits(env, t, h)
  }

  // ---- collecting candidates ----

  /** collectBucketCandidates: a single hint's answer is passed through, several are merged and
      deduplicated by key. Every stored treasure that some hint hits is returned once. */
  method CollectBucketCandidates(ghost env: Env, ghost store: Store, lookups: Searches, hints: seq<BucketHint>)
    returns (out: seq<Treasure>)
    requires Reflects(env, store, lookups)
    ensures forall t :: t in out <==> Stored(store, t) && HitsAny(env, t, hints)
    ensures DistinctKeys(out)
  {
    if hints == [] { return []; }
    if |hints| == 1 {
      assert forall t :: HitsAny(env, t, hints) <==> IndexHits(env, t, hints[0]);
      return Hits(lookups, hints[0]);
    }
    var seen: set<string> := {};
    out := [];
    for i := 0 to |hints|
      invariant Seen(seen, out) && DistinctKeys(out)
      invariant forall t :: t in out <==> Stored(store, t) && HitsAny(env, t, hints[..i])
    {
      var hits := Hits(lookups, hints[i]);
      out, seen := MergeHits(store, out, seen, hits);
      assert hints[..i + 1] == hints[..i] + [hints[i]];
    }
    assert hints[..|hints|] == hints;
  }

  ghost predicate Seen(seen: set<string>, out: seq<Treasure>) {
    forall k :: k in seen <==> exists t | t in out :: t.key == k
  }

  /** The inner loop: hits whose key has not been seen. One key has one stored treasure, so a duplicate key
      is a treasure already collected. */
  method MergeHits(ghost store: Store, before: seq<Treasure>, seenBefore: set<string>, hits: seq<Treasure>)
    returns (out: seq<Treasure>, seen: set<string>)
    requires Seen(seenBefore, before) && DistinctKeys(before)
    requires (forall t | t in before :: Stored(store, t)) && forall t | t in hits :: Stored(store, t)
    ensures Seen(seen, out) && DistinctKeys(out)
    ensures forall t :: t in out <==> t in before || t in hits
  {
    out, seen := before, seenBefore;
    for j := 0 to |hits|
      invariant Seen(seen, out) && DistinctKeys(out)
      invariant forall t :: t in out <==> t in before || t in hits[..j]
    {
      var t := hits[j];
      assert hits[..j + 1] == hits[..j] + [t] && t in hits;
      if t.key !in seen {
        seen := seen + {t.key};
        AddSeen(out, t);
        out := out + [t];
      } else {
        ghost var u :| u in out && u.key == t.key;
        assert u == t by { assert u in before || u in hits; }
      }
    }
    assert hits[..|hits|] == hits;
  }

  lemma AddSeen(out: seq<Treasure>, t: Treasure)
    requires DistinctKeys(out) && forall u | u in out :: u.key != t.key
    ensures DistinctKeys(out + [t])
    ensures forall u :: u in out + [t] <==> u in out || u == t
  {}

  /** candidateKeySet: no candidates give a nil set. */
  method CandidateKeySet(candidates: seq<Treasure>) returns (keys: Option<set<string>>)
    ensures keys.None? <==> candidates == []
    ensures keys.Some? ==> forall k :: k in keys.value <==> exists t | t in candidates :: t.key == k
  {
    if candidates == [] { return None; }
    var out: set<string> := {};
    for i := 0 to |candidates|
      invariant forall k :: k in out <==> exists t | t in candidates[..i] :: t.key == k
    {
      assert candidates[..i + 1] == candidates[..i] + [candidates[i]];
      out := out + {candidates[i].key};
    }
    assert candidates[..|candidates|] == candidates;
    return Some(out);
  }

  // ---- time bounds ----

  datatype BeaconType = KeyBeacon | CreationTime | UpdateTime | ExpirationTime | ValueBeacon

  /** timestampExtractorFor; None where the index has no time axis. */
  function TimestampOf(axis: BeaconType, t: Treasure): Option<int> {
    match axis
    case CreationTime => Some(t.createdAt)
    case UpdateTime => Some(t.modifiedAt)
    case ExpirationTime => Some(t.expiresAt)
    case _ => None
  }

  predicate IsTimeAxis(axis: BeaconType) {
    axis == CreationTime || axis == UpdateTime || axis == ExpirationTime
  }

  const MAX_INT64: Int64 := 0x7FFF_FFFF_FFFF_FFFF
  const MIN_INT64: Int64 := -0x8000_0000_0000_0000

  /** timeBoundsNanos. */
  function TimeBoundsNanos(from: Option<Int64>, to: Option<Int64>): (Int64, Int64) {
    (if from.Some? then from.value else MIN_INT64, if to.Some? then to.value else MAX_INT64)
  }

  predicate InTimeRange(ts: int, fromNano: Int64, toNano: Int64) {
    fromNano <= ts < toNano
  }

  /** The documented reading: each bound applies only when given. */
  predicate WithinBounds(ts: int, from: Option<Int64>, to: Option<Int64>) {
    (from.Some? ==> from.value <= ts) && (to.Some? ==> ts < to.value)
  }

  /** The sentinels mean "unbounded" except at the very last instant. */
  lemma SentinelsExact(ts: Int64, from: Option<Int64>, to: Option<Int64>)
    ensures var (lo, hi) := TimeBoundsNanos(from, to);
            (InTimeRange(ts, lo, hi) <==> WithinBounds(ts, from, to)) <==>
            !(to.None? && ts == MAX_INT64 && WithinBounds(ts, from, to))
  {}

  /** The time test of the ShiftMatching predicate: ignored without bounds or without a time axis. */
  predicate InShiftRange(axis: BeaconType, from: Option<Int64>, to: Option<Int64>, t: Treasure) {
    (from.Some? || to.Some?) && IsTimeAxis(axis) ==>
      var (lo, hi) := TimeBoundsNanos(from, to);
      InTimeRange(TimestampOf(axis, t).value, lo, hi)
  }

  /** Axis by axis, the time test of ShiftMatching in treasure fields: with a bound given, the creation,
      modification or expiry time lies between them (an open upper bound stops short of the last instant); on
      the other indexes, or without bounds, it always holds. */
  lemma ShiftRangeMeans(axis: BeaconType, from: Option<Int64>, to: Option<Int64>, t: Treasure)
    ensures from.None? && to.None? ==> InShiftRange(axis, from, to, t)
    ensures axis == KeyBeacon || axis == ValueBeacon ==> InShiftRange(axis, from, to, t)
    ensures (from.Some? || to.Some?) && axis == CreationTime ==>
              (InShiftRange(axis, from, to, t) <==> Between(t.createdAt, from, to))
    ensures (from.Some? || to.Some?) && axis == UpdateTime ==>
              (InShiftRange(axis, from, to, t) <==> Between(t.modifiedAt, from, to))
    ensures (from.Some? || to.Some?) && axis == ExpirationTime ==>
              (InShiftRange(axis, from, to, t) <==> Between(t.expiresAt, from, to))
  {}

  predicate Between(at: int, from: Option<Int64>, to: Option<Int64>) {
    (if from.Some? then at >= from.value else at >= -0x8000_0000_0000_0000) &&
    (if to.Some? then at < to.value else at < 0x7FFF_FFFF_FFFF_FFFF)
  }

  /** beaconTimeOf: zero where the index has no time axis. */
  function BeaconTimeOf(t: Treasure, axis: BeaconType): int {
    var ts := TimestampOf(axis, t);
    if ts.Some? then ts.value else 0
  }

  function OnTime(axis: BeaconType, from: Option<Int64>, to: Option<Int64>): (p: Treasure -> bool)
    ensures forall t :: p(t) == WithinBounds(BeaconTimeOf(t, axis), from, to)
  {
    t => WithinBounds(BeaconTimeOf(t, axis), from, to)
  }

  /** Axis by axis, what applyTimeRange keeps; indexes without a time axis are tested at time zero. */
  lemma OnTimeMeans(axis: BeaconType, from: Option<Int64>, to: Option<Int64>, t: Treasure)
    ensures var at := match axis
                      case CreationTime => t.createdAt
                      case UpdateTime => t.modifiedAt
                      case ExpirationTime => t.expiresAt
                      case KeyBeacon => 0
                      case ValueBeacon => 0;
            OnTime(axis, from, to)(t) <==> (from.Some? ==> from.value <= at) && (to.Some? ==> at < to.value)
  {}

  /** applyTimeRange: the candidates within the given bounds, in order. */
  method ApplyTimeRange(candidates: seq<Treasure>, axis: BeaconType, from: Option<Int64>, to: Option<Int64>)
    returns (out: seq<Treasure>)
    ensures out == Passing(OnTime(axis, from, to), candidates)
    ensures forall t :: t in out <==> t in candidates && WithinBounds(BeaconTimeOf(t, axis), from, to)
  {
    ghost var onTime := OnTime(axis, from, to);
    PassingMembers(onTime, candidates);
    if from.None? && to.None? {
      AllPassing(onTime, candidates);
      return candidates;
    }
    out := [];
    for i := 0 to |candidates|
      invariant out == Passing(onTime, candidates[..i])
    {
      PassingStep(onTime, candidates, i);
      var ts := BeaconTimeOf(candidates[i], axis);
      if from.Some? && ts < from.value { continue; }
      if to.Some? && ts >= to.value { continue; }
      out := out + [candidates[i]];
    }
    assert candidates[..|candidates|] == candidates;
  }

  // ---- predicates as the handlers build them ----

  /** The closures returned by the two builders. A PatchExpired set may be nil, and membership in a nil map
      is false; ShiftMatching skips the test for a nil set. */
  datatype Selector =
    | SelectAll
    | Direct(filters: FilterGroup)
    | FromKeys(keys: Option<set<string>>, residual: Option<FilterGroup>)
    | Shift(axis: BeaconType, from: Option<Int64>, to: Option<Int64>, keys: Option<set<string>>,
            filterEval: Option<FilterGroup>)

  predicate Selects(env: Env, s: Selector, t: Treasure) {
    match s
    case SelectAll => true
    case Direct(filters) => GroupHolds(env, t, filters)
    case FromKeys(keys, residual) => keys.Some? && t.key in keys.value && FilterHolds(env, t, residual)
    case Shift(axis, from, to, keys, filterEval) =>
      InShiftRange(axis, from, to, t) && (keys.Some? ==> t.key in keys.value) && FilterHolds(env, t, filterEval)
  }

  /** Does the filter's plan route through the index, and do its lookups return this treasure? */
  predicate Routed(filters: Option<FilterGroup>) {
    PlanFilter(filters).mode != Bypass
  }

  predicate PlanHits(env: Env, t: Treasure, filters: Option<FilterGroup>) {
    HitsAny(env, t, PlanFilter(filters).hints)
  }

  /** Some stored treasure is returned by the plan's lookups. */
  ghost predicate HasCandidates(env: Env, store: Store, filters: Option<FilterGroup>) {
    exists t :: Stored(store, t) && PlanHits(env, t, filters)
  }

  /** buildPatchExpiredSelectionPredicate. */
  method BuildPatchExpiredSelector(env: Env, ghost store: Store, lookups: Searches, filters: Option<FilterGroup>)
    returns (s: Selector)
    requires Reflects(env, store, lookups)
    ensures forall t | Stored(store, t) :: Selects(env, s, t) ==
              if Routed(filters) then PlanHits(env, t, filters) && FilterHolds(env, t, PlanFilter(filters).residual)
              else FilterHolds(env, t, filters)
  {
    if filters.None? { return SelectAll; }
    var plan := ComputePlan(filters.value);
    if plan.mode == Bypass { return Direct(filters.value); }
    var keys := PlannedKeys(env, store, lookups, filters, plan.hints);
    return FromKeys(keys, plan.residual);
  }

  /** buildShiftMatchingPredicate. */
  method BuildShiftSelector(env: Env, ghost store: Store, lookups: Searches, axis: BeaconType,
                            filters: Option<FilterGroup>, from: Option<Int64>, to: Option<Int64>) returns (s: Selector)
    requires Reflects(env, store, lookups)
    ensures forall t | Stored(store, t) :: Selects(env, s, t) ==
              (InShiftRange(axis, from, to, t) &&
               if Routed(filters)
               then (HasCandidates(env, store, filters) ==> PlanHits(env, t, filters)) &&
                    FilterHolds(env, t, PlanFilter(filters).residual)
               else FilterHolds(env, t, filters))
  {
    s := Shift(axis, from, to, None, filters);
    if filters.Some? {
      var plan := ComputePlan(filters.value);
      if plan.mode != Bypass {
        var keys := PlannedKeys(env, store, lookups, filters, plan.hints);
        s := Shift(axis, from, to, keys, plan.residual);
        ShiftMeans(env, store, s, filters);
      }
    }
  }

  /** The candidate key set of a planned filter. */
  method PlannedKeys(ghost env: Env, ghost store: Store, lookups: Searches, ghost filters: Option<FilterGroup>,
                     hints: seq<BucketHint>)
    returns (keys: Option<set<string>>)
    requires Reflects(env, store, lookups) && hints == PlanFilter(filters).hints
    ensures keys.None? <==> !HasCandidates(env, store, filters)
    ensures forall t | Stored(store, t) :: (keys.Some? && t.key in keys.value) <==> PlanHits(env, t, filters)
  {
    var candidates := CollectBucketCandidates(env, store, lookups, hints);
    keys := CandidateKeySet(candidates);
    CandidateKeysAre(env, store, candidates, keys, hints);
    if candidates != [] { assert candidates[0] in candidates; }
  }

  lemma ShiftMeans(env: Env, store: Store, s: Selector, filters: Option<FilterGroup>)
    requires Routed(filters) && s.Shift? && s.filterEval == PlanFilter(filters).residual
    requires s.keys.None? <==> !HasCandidates(env, store, filters)
    requires forall t | Stored(store, t) :: (s.keys.Some? && t.key in s.keys.value) <==> PlanHits(env, t, filters)
    ensures forall t | Stored(store, t) :: Selects(env, s, t) ==
              (InShiftRange(s.axis, s.from, s.to, t) &&
               (HasCandidates(env, store, filters) ==> PlanHits(env, t, filters)) &&
               FilterHolds(env, t, PlanFilter(filters).residual))
  {}

  /** Among stored treasures the key set identifies the candidates. */
  lemma CandidateKeysAre(env: Env, store: Store, candidates: seq<Treasure>, keys: Option<set<string>>,
                         hints: seq<BucketHint>)
    requires forall t :: t in candidates <==> Stored(store, t) && HitsAny(env, t, hints)
    requires keys.None? <==> candidates == []
    requires keys.Some? ==> forall k :: k in keys.value <==> exists t | t in candidates :: t.key == k
    ensures forall t | Stored(store, t) :: (keys.Some? && t.key in keys.value) <==> HitsAny(env, t, hints)
  {}

  // ---- what they select ----

  /** The lookups answer the consumed leaves of this treasure faithfully (a filter in the schema's own logic
      values, and each planned leg faithful on the treasure). */
  ghost predicate FaithfulPlan(env: Env, t: Treasure, filters: Option<FilterGroup>) {
    Routed(filters) ==> KnownLogic(filters.value) && forall h | h in PlanFilter(filters).hints :: Faithful(env, t, h)
  }

  /** On faithful plans, "some lookup returns it and the residual holds" is the filter. */
  lemma RoutedIsFilter(env: Env, t: Treasure, filters: Option<FilterGroup>)
    requires Routed(filters) && FaithfulPlan(env, t, filters)
    ensures (PlanHits(env, t, filters) && FilterHolds(env, t, PlanFilter(filters).residual)) <==>
            FilterHolds(env, t, filters)
  {
    var g := filters.value;
    HintsMatchLegs(g);
    var legs, hints := PlanLegs(g), PlanGroup(g).hints;
    forall f | f in legs && IndexableHint(f).Some?
      ensures IndexHits(env, t, IndexableHint(f).value) == LeafHolds(env, t, f)
    {
      var i :| 0 <= i < |legs| && legs[i] == f;
      assert hints[i] in hints;
      LookupIsLeaf(env, t, f, hints[i]);
    }
    PlanPreservesUnderLookup(env, t, g, h => IndexHits(env, t, h));
  }

  /** For a plan of one lookup on a plain path the condition is exact: selection and filter agree on a treasure
      iff the lookup answers for its leaf or the residual fails. */
  lemma OneHintExact(env: Env, t: Treasure, filters: Option<FilterGroup>, h: BucketHint)
    requires Routed(filters) && KnownLogic(filters.value) && PlanFilter(filters).hints == [h]
    requires PlainPath(h.path) && DecodesPlainly(env, t)
    ensures var residual := FilterHolds(env, t, PlanFilter(filters).residual);
            ((PlanHits(env, t, filters) && residual) <==> FilterHolds(env, t, filters)) <==>
            (Exact(env, t, h) || !residual)
  {
    var g := filters.value;
    HintsMatchLegs(g);
    var legs := PlanLegs(g);
    var f := legs[0];
    assert legs == [f] && f in legs && h in [h];
    PlanPreserves(env, t, g);
    LookupExact(env, t, f, h);
    assert PlannedVerdict(env, t, g) <==> LeafHolds(env, t, f) && FilterHolds(env, t, PlanGroup(g).residual);
    assert PlanHits(env, t, filters) <==> IndexHits(env, t, h);
  }

  /** PatchExpired selects exactly what the original filter accepts. */
  method PatchExpiredSelectsFilter(env: Env, store: Store, lookups: Searches, filters: Option<FilterGroup>)
    returns (s: Selector)
    requires Reflects(env, store, lookups)
    requires forall t | Stored(store, t) :: FaithfulPlan(env, t, filters)
    ensures forall t | Stored(store, t) :: Selects(env, s, t) <==> FilterHolds(env, t, filters)
  {
    s := BuildPatchExpiredSelector(env, store, lookups, filters);
    if Routed(filters) {
      forall t | Stored(store, t)
        ensures (PlanHits(env, t, filters) && FilterHolds(env, t, PlanFilter(filters).residual)) <==>
                FilterHolds(env, t, filters)
      {
        RoutedIsFilter(env, t, filters);
      }
    }
  }

  /** When the ShiftMatching predicate means "in the time range and accepted by the filter": exactly when the
      lookups found some candidate, or the treasure is out of range or fails the residual anyway. */
  ghost predicate ShiftSound(env: Env, store: Store, axis: BeaconType, filters: Option<FilterGroup>,
                             from: Option<Int64>, to: Option<Int64>, t: Treasure) {
    Routed(filters) ==>
      HasCandidates(env, store, filters) || !InShiftRange(axis, from, to, t) ||
      !FilterHolds(env, t, PlanFilter(filters).residual)
  }

  method ShiftSelectsExactly(env: Env, store: Store, lookups: Searches, axis: BeaconType,
                             filters: Option<FilterGroup>, from: Option<Int64>, to: Option<Int64>) returns (s: Selector)
    requires Reflects(env, store, lookups)
    requires forall t | Stored(store, t) :: FaithfulPlan(env, t, filters)
    ensures forall t | Stored(store, t) ::
              (Selects(env, s, t) <==> InShiftRange(axis, from, to, t) && FilterHolds(env, t, filters)) <==>
              ShiftSound(env, store, axis, filters, from, to, t)
  {
    s := BuildShiftSelector(env, store, lookups, axis, filters, from, to);
    if Routed(filters) {
      forall t | Stored(store, t)
        ensures (PlanHits(env, t, filters) && FilterHolds(env, t, PlanFilter(filters).residual)) <==>
                FilterHolds(env, t, filters)
        ensures PlanHits(env, t, filters) ==> HasCandidates(env, store, filters)
      {
        RoutedIsFilter(env, t, filters);
      }
    }
  }

  /** A selection by time alone, in treasure fields. */
  method ShiftByTime(env: Env, ghost store: Store, lookups: Searches, axis: BeaconType, from: Option<Int64>,
                     to: Option<Int64>)
    returns (s: Selector)
    requires Reflects(env, store, lookups) && (from.Some? || to.Some?)
    ensures forall t | Stored(store, t) :: Selects(env, s, t) <==>
              match axis
              case CreationTime => Between(t.createdAt, from, to)
              case UpdateTime => Between(t.modifiedAt, from, to)
              case ExpirationTime => Between(t.expiresAt, from, to)
              case KeyBeacon => true
              case ValueBeacon => true
  {
    s := BuildShiftSelector(env, store, lookups, axis, None, from, to);
    forall t | Stored(store, t) ensures Selects(env, s, t) <==> InShiftRange(axis, from, to, t) {
      ShiftRangeMeans(axis, from, to, t);
    }
  }

  /** The failing family: one indexable condition that no stored treasure meets. The filter accepts nothing,
      the ShiftMatching predicate accepts everything in range. */
  method ShiftWithoutCandidates(env: Env, store: Store, lookups: Searches, axis: BeaconType, f: TreasureFilter,
                                from: Option<Int64>, to: Option<Int64>) returns (s: Selector)
    requires Reflects(env, store, lookups)
    requires IndexableHint(f).Some?
    requires forall t | Stored(store, t) :: Faithful(env, t, IndexableHint(f).value) && !LeafHolds(env, t, f)
    ensures forall t | Stored(store, t) :: !GroupHolds(env, t, OnlyLeaf(f))
    ensures forall t | Stored(store, t) :: Selects(env, s, t) <==> InShiftRange(axis, from, to, t)
  {
    var g := OnlyLeaf(f);
    OnlyLeafPlan(f);
    forall t | Stored(store, t) ensures !HitsAny(env, t, PlanGroup(g).hints) && !GroupHolds(env, t, g) {
      LookupIsLeaf(env, t, f, IndexableHint(f).value);
      assert g.filters[0] == f;
    }
    s := BuildShiftSelector(env, store, lookups, axis, Some(g), from, to);
  }

  /** A wildcard condition as the only filter: PatchExpired passes over `{slice: [{field: 5}]}` although
      `slice[*].field == 5` accepts it. */
  method PatchExpiredMissesWildcard(env: Env, store: Store, lookups: Searches, t: Treasure, slice: string,
                                    field: string)
    returns (s: Selector)
    requires Reflects(env, store, lookups) && Stored(store, t) && PlainName(slice) && PlainName(field)
    requires DecodedBody(env, t) == Some(map[slice := Slice([Map(map[field := Int(5)])])])
    ensures GroupHolds(env, t, OnlyLeaf(WildcardFive(slice, field))) && !Selects(env, s, t)
  {
    var f := WildcardFive(slice, field);
    var g := OnlyLeaf(f);
    WildcardDisagrees(env, t, slice, field);
    OnlyLeafPlan(f);
    OnlyLeafHolds(env, t, f);
    s := BuildPatchExpiredSelector(env, store, lookups, Some(g));
  }

  lemma OnlyLeafHolds(env: Env, t: Treasure, f: TreasureFilter)
    ensures GroupHolds(env, t, OnlyLeaf(f)) <==> LeafHolds(env, t, f)
  {
    assert OnlyLeaf(f).filters == [f] && f in [f];
  }

  function OnlyLeaf(f: TreasureFilter): FilterGroup {
    FilterGroup(AND, [f], [], [], [], [], [])
  }

  lemma OnlyLeafPlan(f: TreasureFilter)
    requires IndexableHint(f).Some?
    ensures var p := PlanGroup(OnlyLeaf(f));
            p.mode == And && p.hints == [IndexableHint(f).value] && p.residual.Some? && IsEmptyGroup(p.residual.value)
  {
    assert FirstIndexable([f]) == 0;
  }
}
