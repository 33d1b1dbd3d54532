/** Bucket lookups under the selection predicates and the streaming routes: swamps whose buckets mirror the
    store give lookups that reflect it. */
module Lookups {
  import opened Optional
  import opened Values
  import opened Filters
  import opened Planner
  import opened Bucket
  import opened Sequences
  import opened Selection
  import opened Streams
  import BucketIndex
  import SwampBuckets

  /** The slices the lookups return list, in any order, what the bucket of each path matches. */
  ghost predicate FromBuckets(lookups: Searches, entries: string -> BucketIndex.Entries) {
    (forall path, values ::
      SwampBuckets.Lists(lookups.among(path, values), BucketIndex.Matched(entries(path), values))) &&
    forall path, v :: SwampBuckets.Lists(lookups.equal(path, v), BucketIndex.Matched(entries(path), [v]))
  }

  ghost predicate AllMirror(env: Env, entries: string -> BucketIndex.Entries, store: Store) {
    forall path :: SwampBuckets.Mirrors(env, path, entries(path), store)
  }

  /** The values a hint's lookup is made with. */
  function Asked(h: BucketHint): seq<Value> {
    if h.op == HintEqual && h.values != [] then [h.values[0]] else h.values
  }

  lemma AskedHits(env: Env, t: Treasure, h: BucketHint)
    requires h.op == HintIn || h.values != []
    ensures IndexHits(env, t, h) <==> IndexHits(env, t, BucketHint(h.path, HintIn, Asked(h)))
  {
    if h.op == HintEqual { assert Asked(h) == [h.values[0]] && h.values[0] in Asked(h); }
  }

  /** Lookups over buckets that mirror the store reflect the store. */
  lemma BucketsReflect(env: Env, store: Store, lookups: Searches, entries: string -> BucketIndex.Entries)
    requires FromBuckets(lookups, entries) && AllMirror(env, entries, store)
    ensures Reflects(env, store, lookups)
  {
    forall h
      ensures DistinctKeys(Hits(lookups, h)) &&
              forall t :: t in Hits(lookups, h) <==> Stored(store, t) && IndexHits(env, t, h)
    {
      if h.op == HintIn || h.values != [] { HintReflects(env, store, lookups, entries, h); }
    }
  }

  lemma HintReflects(env: Env, store: Store, lookups: Searches, entries: string -> BucketIndex.Entries, h: BucketHint)
    requires FromBuckets(lookups, entries) && AllMirror(env, entries, store) && (h.op == HintIn || h.values != [])
    ensures DistinctKeys(Hits(lookups, h))
    ensures forall t :: t in Hits(lookups, h) <==> Stored(store, t) && IndexHits(env, t, h)
  {
    var index, values := entries(h.path), Asked(h);
    assert SwampBuckets.Lists(Hits(lookups, h), BucketIndex.Matched(index, values));
    forall t ensures t in Hits(lookups, h) <==> Stored(store, t) && IndexHits(env, t, h) {
      SwampBuckets.MirrorHits(env, h.path, index, store, values, t.key);
      AskedHits(env, t, h);
    }
  }

  /** PatchExpired end to end: over mirroring buckets it selects exactly what the filter accepts. */
  method PatchExpiredOverBuckets(env: Env, store: Store, lookups: Searches,
                                 ghost entries: string -> BucketIndex.Entries, filters: Option<FilterGroup>)
    returns (s: Selector)
    requires FromBuckets(lookups, entries) && AllMirror(env, entries, store)
    requires forall t | Stored(store, t) :: FaithfulPlan(env, t, filters)
    ensures forall t | Stored(store, t) :: Selects(env, s, t) <==> FilterHolds(env, t, filters)
  {
    BucketsReflect(env, store, lookups, entries);
    s := PatchExpiredSelectsFilter(env, store, lookups, filters);
  }

  /** Both routes of a KEY-index request accept the same treasures in the same order, however their inputs are
      sorted. */
  ghost predicate SameRoutes(env: Env, store: Store, req: Request, candidates: seq<Treasure>) {
    forall desc, sorted, stored, walk |
      SwampBuckets.Lists(stored, store) && SortedByKey(desc, candidates, sorted) && SortedByKey(desc, stored, walk) ::
      Passing(Accepting(env, req.(filters := PlanFilter(req.filters).residual)), Page(sorted, 0, 0)) ==
      Passing(Accepting(env, req), walk)
  }

  /** The bucket route end to end: candidates collected from mirroring buckets stream as the full walk does. */
  method CandidatesOverBuckets(env: Env, store: Store, lookups: Searches, ghost entries: string -> BucketIndex.Entries,
                               req: Request) returns (candidates: seq<Treasure>)
    requires FromBuckets(lookups, entries) && AllMirror(env, entries, store)
    requires Routed(req.filters) && forall t | Stored(store, t) :: FaithfulPlan(env, t, req.filters)
    ensures SameRoutes(env, store, req, candidates)
  {
    BucketsReflect(env, store, lookups, entries);
    candidates := CollectBucketCandidates(env, store, lookups, PlanFilter(req.filters).hints);
    CandidatesGiveRoutes(env, store, req, candidates);
  }

  lemma CandidatesGiveRoutes(env: Env, store: Store, req: Request, candidates: seq<Treasure>)
    requires Routed(req.filters) && forall t | Stored(store, t) :: FaithfulPlan(env, t, req.filters)
    requires DistinctKeys(candidates)
    requires forall t :: t in candidates <==> Stored(store, t) && PlanHits(env, t, req.filters)
    ensures SameRoutes(env, store, req, candidates)
  {
    forall desc, sorted, stored, walk |
      SwampBuckets.Lists(stored, store) && SortedByKey(desc, candidates, sorted) && SortedByKey(desc, stored, walk)
      ensures Passing(Accepting(env, req.(filters := PlanFilter(req.filters).residual)), Page(sorted, 0, 0)) ==
              Passing(Accepting(env, req), walk)
    {
      RoutesAgree(env, store, req, desc, candidates, sorted, stored, walk);
    }
  }

  // ---- starting from a bucket list ----

  /** Every bucket of the list is a settled mirror of the store. */
  ghost predicate ListMirrors(env: Env, list: SwampBuckets.BucketList, store: Store)
    reads list, list.buckets
  {
    list.Valid() &&
    forall b | b in list.buckets :: SwampBuckets.SettledMirror(env, b.fieldPath, SwampBuckets.StateOf(b), store)
  }

  /** The slice a lookup returns, in some order. */
  method ListTreasures(found: map<string, Treasure>) returns (ts: seq<Treasure>)
    requires SwampBuckets.Keyed(found)
    ensures SwampBuckets.Lists(ts, found)
  {
    ts := [];
    var todo := found.Keys;
    while todo != {}
      invariant todo <= found.Keys && DistinctKeys(ts)
      invariant forall t :: t in ts <==> t.key in found && found[t.key] == t && t.key !in todo
      decreases |todo|
    {
      var k :| k in todo;
      todo := todo - {k};
      AddSeen(ts, found[k]);
      ts := ts + [found[k]];
    }
  }

  /** collectBucketCandidates over the swamp's own bucket list: each hint's lookup builds or reuses a bucket. */
  method CollectOverList(env: Env, list: SwampBuckets.BucketList, snapshot: seq<Treasure>, ghost store: Store,
                         hints: seq<BucketHint>)
    returns (out: seq<Treasure>)
    requires ListMirrors(env, list, store) && SwampBuckets.Lists(snapshot, store) && SwampBuckets.Keyed(store)
    modifies list, list.buckets
    ensures ListMirrors(env, list, store)
    ensures DistinctKeys(out) && forall t :: t in out <==> Stored(store, t) && HitsAny(env, t, hints)
  {
    var seen: set<string> := {};
    out := [];
    for i := 0 to |hints|
      invariant ListMirrors(env, list, store) && forall b | b in list.buckets :: b in old(list.buckets) || fresh(b)
      invariant Seen(seen, out) && DistinctKeys(out)
      invariant forall t :: t in out <==> Stored(store, t) && HitsAny(env, t, hints[..i])
    {
      assert forall j | 0 <= j < |list.buckets| :: list.buckets[j] in list.buckets;
      var hits := HitsOverList(env, list, snapshot, store, hints[i]);
      out, seen := MergeHits(store, out, seen, hits);
      assert hints[..i + 1] == hints[..i] + [hints[i]];
    }
    assert hints[..|hints|] == hints;
  }

  /** One hint's lookup; an equality hint without a value asks for none. */
  method HitsOverList(env: Env, list: SwampBuckets.BucketList, snapshot: seq<Treasure>, ghost store: Store,
                      h: BucketHint)
    returns (hits: seq<Treasure>)
    requires ListMirrors(env, list, store) && SwampBuckets.Lists(snapshot, store) && SwampBuckets.Keyed(store)
    modifies list, list.buckets
    ensures ListMirrors(env, list, store) && forall b | b in list.buckets :: b in old(list.buckets) || fresh(b)
    ensures DistinctKeys(hits) && forall t :: t in hits <==> Stored(store, t) && IndexHits(env, t, h)
  {
    if h.op == HintEqual && h.values == [] { return []; }
    var found := SwampBuckets.LookupByBucket(env, list, h.path, Asked(h), snapshot, store);
    hits := ListTreasures(found);
    forall t ensures t in hits <==> Stored(store, t) && IndexHits(env, t, h) { AskedHits(env, t, h); }
  }

  /** PatchExpired from the bucket list: it selects exactly what the filter accepts. */
  method PatchExpiredFromList(env: Env, list: SwampBuckets.BucketList, snapshot: seq<Treasure>, ghost store: Store,
                              filters: Option<FilterGroup>)
    returns (s: Selector)
    requires ListMirrors(env, list, store) && SwampBuckets.Lists(snapshot, store) && SwampBuckets.Keyed(store)
    requires forall t | Stored(store, t) :: FaithfulPlan(env, t, filters)
    modifies list, list.buckets
    ensures ListMirrors(env, list, store)
    ensures forall t | Stored(store, t) :: Selects(env, s, t) <==> FilterHolds(env, t, filters)
  {
    if filters.None? { return SelectAll; }
    var plan := ComputePlan(filters.value);
    if plan.mode == Bypass { return Direct(filters.value); }
    var candidates := CollectOverList(env, list, snapshot, store, plan.hints);
    var keys := CandidateKeySet(candidates);
    CandidateKeysAre(env, store, candidates, keys, plan.hints);
    s := FromKeys(keys, plan.residual);
    forall t | Stored(store, t) ensures Selects(env, s, t) <==> FilterHolds(env, t, filters) {
      RoutedIsFilter(env, t, filters);
    }
  }

  /** The bucket route from the bucket list: its candidates stream as the full walk does. */
  method CandidatesFromList(env: Env, list: SwampBuckets.BucketList, snapshot: seq<Treasure>, ghost store: Store,
                            req: Request)
    returns (candidates: seq<Treasure>)
    requires ListMirrors(env, list, store) && SwampBuckets.Lists(snapshot, store) && SwampBuckets.Keyed(store)
    requires Routed(req.filters) && forall t | Stored(store, t) :: FaithfulPlan(env, t, req.filters)
    modifies list, list.buckets
    ensures ListMirrors(env, list, store) && SameRoutes(env, store, req, candidates)
  {
    candidates := CollectOverList(env, list, snapshot, store, PlanFilter(req.filters).hints);
    CandidatesGiveRoutes(env, store, req, candidates);
  }

  /** Buckets all just built from one list of the stored treasures. */
  lemma BuiltReflect(env: Env, store: Store, lookups: Searches, ts: seq<Treasure>)
    requires SwampBuckets.Lists(ts, store)
    requires FromBuckets(lookups, path => BucketIndex.Scan(env, path, ts))
    ensures Reflects(env, store, lookups)
  {
    forall h
      ensures DistinctKeys(Hits(lookups, h)) &&
              forall t :: t in Hits(lookups, h) <==> Stored(store, t) && IndexHits(env, t, h)
    {
      if h.op == HintIn || h.values != [] {
        assert SwampBuckets.Lists(Hits(lookups, h), BucketIndex.Matched(BucketIndex.Scan(env, h.path, ts), Asked(h)));
        forall t ensures t in Hits(lookups, h) <==> Stored(store, t) && IndexHits(env, t, h) {
          BucketIndex.ScanReflects(env, h.path, ts, Asked(h), t);
          AskedHits(env, t, h);
        }
      }
    }
  }
}
