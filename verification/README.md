# HydrAIDE: verified model of queries, indexes, locks and patches

A Dafny model of the parts of HydrAIDE whose correctness is least visible in the code, with proofs that hold
for every input, every run or every interleaving. `dafny verify dfyconfig.toml` checks the whole project.

| area | files |
|---|---|
| Filter semantics: native, with metadata, against a decoded map, nested slices, wildcards | `Optional.dfy`, `Values.dfy`, `Paths.dfy`, `Filters.dfy`, `FilterMeaning.dfy`, `FilterLaws.dfy`, `FilterMeta.dfy` |
| Query planner and what its plans mean | `Planner.dfy` |
| Field buckets: canonical keys, paired maps, the bucket object, the swamp's bucket list, lookups | `Bucket.dfy`, `PairedMaps.dfy`, `BucketIndex.dfy`, `SwampBuckets.dfy`, `Lookups.dfy` |
| Buckets built while writers run, as a step system | `BucketBuild.dfy` |
| Selection predicates and streaming routes | `Selection.dfy`, `Streams.dfy`, `Sequences.dfy` |
| FIFO lock with TTL, as an object and as a transition system | `LockQueue.dfy` |
| Patches and cap-budgeted batches | `PatchBatch.dfy` |
| Append-only log, length-prefixed framing, telemetry ring | `AppendLog.dfy`, `Framing.dfy`, `Telemetry.dfy` |

Code that changes things in place is a method or a class proved against a function on values; the properties
are then lemmas about that function. Library and environment behaviour (msgpack decoding and patching, case
folding, phrase, vector and geo verdicts, clocks, fresh ids, map iteration order) enters as parameters, and
every result holds for all of them.

## Where the code departs from what it promises

Each of these is stated with the failing inputs and, beside it, the exact condition under which the promise
holds.

- A bucket lookup is meant to return what its filter leaf accepts. Filters convert a field to the reference's
  type (truncating floats, rounding integers) and read prefixed bodies only; buckets compare exactly and read
  bodies with or without the prefix. On plain paths the two agree exactly as `Bucket.LookupExact` says. The
  planner also turns `[*]` and `#len` legs into lookups, which buckets do not support: a hint answers for its
  leaf iff its path is plain (`Bucket.PlainPathIsTheGuard`, `Bucket.WildcardDisagrees`). What this does to a
  selection is `Selection.OneHintExact` and `Selection.PatchExpiredMissesWildcard`.
- A group whose logic number is outside the schema is planned as OR and evaluated as AND (`Planner.PlanExact`,
  `Planner.UnknownLogicMisplanned`).
- ShiftMatching skips the candidate test when there are no candidates, so a filter nobody meets selects
  everything its residual accepts (`Selection.ShiftSelectsExactly`, `Selection.ShiftWithoutCandidates`).
- A caller that drains a bucket while another still holds a batch can always leave it permanently wrong, and
  otherwise it stays right in every interleaving (`BucketBuild.OverlapExact`); two first callers of an empty
  swamp get there (`BucketBuild.OverlappingDrainsBreak`).
- The number of matching treasures is counted before the cap mutex is taken. Provided some seed, ops and
  condition create a treasure the cap counts, the cap holds for every batch iff the count has not grown in
  between or the cap was used up (`PatchBatch.StaleCountExact`, `PatchBatch.StaleCountOverruns`).
- A file reads back as written iff its parts fit their length field and the last one is not empty
  (`Framing.RoundTrip`). A cut in the last frame is an error iff it leaves between one and all four bytes
  of the length header; elsewhere it goes unnoticed, and missing bytes read as zeros (`Framing.EveryCut`).
- An open upper time bound excludes the very last nanosecond (`Selection.SentinelsExact`).
- A wildcard comparison is the nested-slice form cut down to some reference types; against int16, unsigned or
  float32 it matches nothing (`FilterLaws.WildcardExact`, `FilterLaws.BlindTypesDisagree`).

## Model

| member | source | states |
|---|---|---|
| `Paths.JoinSplit` | app/server/gateway/filter.go:331-342 | re-joining the dotted segments of a path gives the path back |
| `Paths.SplitJoin` | app/server/gateway/filter.go:331-390 | splitting joined dot-free segments gives the segments back, so a remaining path survives the recursive call |
| `Paths.ExtractFieldByPath` | app/server/gateway/filter.go:331-390 | the string-level loop with `#len` and `[*]` computes the recursive extraction on segments |
| `Paths.CollectFromElements` | app/server/gateway/filter.go:352-380 | the wildcard branch collects, in order, the elements or their non-nil extractions |
| `Filters.EvaluateNestedSlice` | app/server/gateway/filter_native.go:739-817 | the evaluator with its special cases and early returns gives the mode's verdict over the element verdicts |
| `Filters.ScanElements` | app/server/gateway/filter_native.go:775-816 | the element loop with its wrapping int32 counter and early exits decides ANY, ALL, NONE and COUNT |
| `FilterMeaning.CompareIntMeans` | app/server/gateway/filter.go:498-516 | each of the six operators is the built-in relation on integers it names, and every other operator is false |
| `FilterMeaning.CompareRealMeans` | app/server/gateway/filter.go:498-516 | the same on reals |
| `FilterMeaning.StringLessMeans` | app/server/gateway/filter.go:498-516 | string order is decided at the first difference, a proper prefix coming first |
| `FilterMeaning.CompareStringMeans` | app/server/gateway/filter.go:518-532 | the six operators by that order; CONTAINS, STARTS_WITH and ENDS_WITH by concatenation, NOT_CONTAINS as a negation |
| `FilterMeaning.ToInt64Means` | app/server/gateway/filter.go:394-426 | the signed integer a field value stands for: itself, an unsigned value that fits, a time's seconds, a float cut toward zero |
| `FilterMeaning.ToUint64Means` | app/server/gateway/filter.go:428-466 | the same for unsigned references |
| `FilterMeaning.RoundMeans` | app/server/gateway/filter.go:468-496 | an integer becomes a nearest multiple of the float64 spacing, the even one on a tie |
| `FilterMeaning.UlpMeans` | app/server/gateway/filter.go:468-496 | that spacing leaves 53 significant bits |
| `FilterMeaning.CompareHoldsMeans` | app/server/gateway/filter_native.go:380-426 | a field against a reference of each type, in those terms |
| `FilterMeaning.InMeans` | app/server/gateway/filter_native.go:429-478 | IN holds iff the value is a listed string or stands for a listed integer |
| `FilterMeaning.SliceMeans` | app/server/gateway/filter.go:650-716 | SLICE_CONTAINS and its substring form by an element that qualifies; the NOT forms are their exact negations |
| `FilterMeaning.FieldMeans` | app/server/gateway/filter_native.go:311-426 | every body operator on the value its path selects |
| `FilterMeaning.AnyMatchEmptyMeans` | app/server/gateway/filter.go:718-740 | a wildcard is empty iff every collected value is |
| `FilterMeaning.TypedMeans` | app/server/gateway/filter_native.go:80-286 | a leaf without a body path: content of the reference's exact type, or the creation, modification or expiry time the reference names, which must be set |
| `FilterMeaning.BodyLeafMeans` | app/server/gateway/filter_native.go:288-306 | a body leaf reads the msgpack behind the two prefix bytes; without such a body only IS_EMPTY holds |
| `FilterMeaning.LeafMeans` | app/server/gateway/filter_native.go:288-426 | put together: a leaf on a prefixed body accepts by the value its path selects |
| `FilterMeaning.NestedWithoutBody` | app/server/gateway/filter_native.go:709-734 | an undecodable body is to a nested-slice filter what an empty document is |
| `FilterMeaning.WrapMeans` | app/server/gateway/filter_native.go:773-823 | the match counter is the int32 congruent to the count |
| `FilterMeaning.LengthMeans` | app/server/gateway/filter.go:341-350 | `#len` is the number of elements or fields, and nothing else has a length |
| `FilterMeaning.BareWildcardMeans` | app/server/gateway/filter.go:352-380 | a bare `[*]` collects the elements of the value itself |
| `FilterMeaning.WildcardSegmentMeans` | app/server/gateway/filter.go:352-354 | a wildcard segment is one that ends in `[*]` |
| `FilterMeaning.TypedLeavesAreSkipped` | app/server/gateway/filter_native.go:828-877 | against a decoded map, leaves without a body path are skipped: an AND of them holds everywhere, an OR nowhere |
| `FilterLaws.NestedModesAreCounts` | app/server/gateway/filter_native.go:739-823 | on every document and recursive condition NONE negates ANY, ANY is COUNT >= 1, ALL is COUNT == length |
| `FilterLaws.ModesAreCounts` | app/server/gateway/filter_native.go:739-823 | the same over any sequence of element verdicts shorter than 2^31 |
| `FilterLaws.CountBounds` | app/server/gateway/filter_native.go:775-823 | a count is positive iff some element matches and full iff none fails |
| `FilterLaws.WildcardExtraction` | app/server/gateway/filter.go:331-390 | extracting `F[*].P` is extracting P from every element of the slice at F |
| `FilterLaws.WildcardIsNestedAny` | app/server/gateway/filter.go:718-808 | `F[*].P op v` and "ANY element of F with P op v" give the same verdict on every document |
| `FilterLaws.WildcardBlindToOtherTypes` | app/server/gateway/filter.go:718-808 | outside the compare types evaluateAnyMatch handles, a wildcard comparison matches no document |
| `FilterLaws.WildcardExact` | app/server/gateway/filter.go:718-808 | for the ordered operators and every reference type: the wildcard leaf holds iff the type is one evaluateAnyMatch compares and the nested form holds |
| `FilterLaws.BlindTypesDisagree` | app/server/gateway/filter_native.go:311-426 | for int16, unsigned and float32 references, a document on which the nested form matches and the wildcard leaf does not |
| `FilterLaws.BodyOnlyAgrees` | app/server/gateway/gateway_cap_body.go:45-69 | on every group the validation accepts and every body that decodes, native and map evaluators agree |
| `FilterMeta.BodyOnlyMeans` | app/server/gateway/gateway_cap_body.go:45-69 | the validation accepts exactly the groups all of whose leaves, at any depth, are body-path filters or nested-slice filters |
| `FilterMeta.GroupIsItsLegs` | app/server/gateway/filter.go:221-312 | a group's verdict is the conjunction or disjunction of its members in evaluation order, true when empty |
| `FilterMeta.LegsInOrder` | app/server/gateway/filter.go:221-312 | the evaluation order: filters, sub-groups, phrases, vectors, geo filters, nested slices |
| `FilterMeta.EvaluateWithMeta` | app/server/gateway/filter_native.go:26-77 | same verdict as the short-circuiting evaluator; on a match, the labels and vector scores of the satisfied leaves under satisfied groups, in evaluation order |
| `FilterMeta.MetaIsLabelsAndScores` | app/server/gateway/filter_native.go:26-77 | the metadata of a match is the non-empty labels of the reported leaves and the scores of the reported vector leaves, in order |
| `FilterMeta.OneLabelReported` | app/server/gateway/filter_native.go:29-35 | a single satisfied labelled filter reports exactly its label |
| `FilterMeta.EvaluateOr` | app/server/gateway/filter.go:125-217 | the OR loop visits every member and accumulates the report of all of them |
| `FilterMeta.EvaluateAnd` | app/server/gateway/filter.go:125-217 | the AND loop stops at the first failure and otherwise reports every member |
| `FilterMeta.EvaluateLeg` | app/server/gateway/filter_native.go:28-74 | one member's verdict and contribution; a sub-group's metadata is kept only when it matched |
| `FilterMeta.LabelsAreOccurrences` | app/server/gateway/filter.go:88-122 | hasAnyLabels is exactly "some leaf occurrence would report something" |
| `FilterMeta.NoLabelsNoMeta` | app/server/gateway/filter.go:88-122 | without labels or vectors a match carries no metadata, so the fast path loses nothing |
| `Planner.ComputePlan` | app/server/gateway/bucket_planner.go:55-97 | the planning loops compute the plan function: first indexable leaf, else first OR-union sub-group |
| `Planner.ComputeOr` | app/server/gateway/bucket_planner.go:99-123 | the OR planner's loop: all legs indexable and nothing else in the group, or Bypass |
| `Planner.IndexableMeans` | app/server/gateway/bucket_planner.go:144-229 | a leaf is indexable iff it is equality with a number, string or boolean, or membership in a non-empty list, of a body field |
| `Planner.FirstIndexable` | app/server/gateway/bucket_planner.go:68-80 | the leaf chosen is indexable and none before it is |
| `Planner.FirstUnion` | app/server/gateway/bucket_planner.go:82-96 | the sub-group borrowed plans as an OR union and none before it does |
| `Planner.HintsMatchLegs` | app/server/gateway/bucket_planner.go:68-123 | the plan's hints are, one by one, the hints of the leaves it consumed |
| `Planner.FactorLeaf` | app/server/gateway/bucket_planner.go:231-245 | an AND group is the removed leaf and the group without it |
| `Planner.FactorSubGroup` | app/server/gateway/bucket_planner.go:247-261 | an AND group is the borrowed sub-group and the group without it |
| `Planner.PlanExact` | app/server/gateway/bucket_planner.go:55-123 | plan and filter agree on a treasure iff the consumed group's logic is known, or its legs are unanimous, or the residual fails |
| `Planner.PlanPreserves` | app/server/gateway/bucket_planner.go:55-123 | for every nested group in the schema's logic values, the filter holds iff some planned leg and the residual hold |
| `Planner.PlanPreservesUnderLookup` | app/server/gateway/bucket_planner.go:55-123 | the same for any lookup that answers each hint as its leaf: some hint hits and the residual holds |
| `Planner.UnknownLogicMisplanned` | app/server/gateway/bucket_planner.go:99-123 | two legs under an unknown logic number, one true and one false: the plan accepts what the filter rejects |
| `Bucket.CanonEqualIsExact` | app/core/hydra/swamp/bucket/valuecanon/valuecanon.go:104-181 | canonical equality is equality of the exact numbers, strings or booleans, across kinds |
| `Bucket.EqualityAgreesOffLossyPairs` | app/core/hydra/swamp/bucket/valuecanon/valuecanon.go:104-181 | filter equality and canonical equality agree iff the pair is not lossy |
| `Bucket.LeafIsFilterEqual` | app/server/gateway/bucket_planner.go:144-190 | an indexable leaf on a single value is filter equality with one of its hint's values |
| `Bucket.PlainWalkIsWalk` | app/core/hydra/swamp/bucket/bucket.go:485-507 | the bucket's path walk and the filter's agree on plain segments |
| `Bucket.IndexedBodyMeans` | app/core/hydra/swamp/bucket/bucket.go:462-476 | the bucket decodes what follows the prefix, or a whole body without one, and nothing of other contents |
| `Bucket.LookupIsLeaf` | app/core/hydra/swamp/bucket/bucket.go:462-481 | on faithful inputs a lookup returns a treasure iff the leaf it came from holds on it |
| `Bucket.LookupExact` | app/core/hydra/swamp/bucket/bucket.go:462-481 | for every treasure and plain path, equality and IN: lookup and leaf agree iff no hint value is lossy with the field of a prefixed body that decodes, and otherwise no hint value equals the field of a body that decodes without the prefix |
| `Bucket.TruncationIsLossy` | app/server/gateway/filter.go:394-426 | 5.5 equals int64 5 for the filter and not for the bucket |
| `Bucket.WildcardLookupMisses` | app/core/hydra/swamp/bucket/bucket.go:481-507 | a planned wildcard leg hits no body without a field of that literal name |
| `Bucket.WildcardDisagrees` | app/server/gateway/bucket_planner.go:144-190 | on `{slice: [{field: 5}]}` the leaf `slice[*].field == 5` holds, is planned as a lookup, and the lookup misses |
| `Bucket.SpecialPathDisagrees` | app/server/gateway/bucket_planner.go:144-190 | every hint on a `[*]` or `#len` path has a body, free of lossy pairs, on which lookup and leaf disagree |
| `Bucket.PlainPathIsTheGuard` | app/server/gateway/bucket_planner.go:144-190 | lossy pairs apart, a hint answers for its leaf on every body iff its path is plain: the guard the planner lacks |
| `PairedMaps.InsertRepresents` | app/core/hydra/swamp/bucket/bucket.go:363-371 | inserting keeps byValue and byKey in step with the abstract index, without empty slots |
| `PairedMaps.RemoveRepresents` | app/core/hydra/swamp/bucket/bucket.go:386-408 | so does removing |
| `BucketIndex.FieldBucket.constructor` | app/core/hydra/swamp/bucket/bucket.go:88-94 | an empty, uninitialised bucket |
| `BucketIndex.FieldBucket.Insert` | app/core/hydra/swamp/bucket/bucket.go:363-371 | both maps after the insertion, whatever was there; they stay in step unless the key was filed under another value |
| `BucketIndex.FieldBucket.Remove` | app/core/hydra/swamp/bucket/bucket.go:386-408 | exactly the key's entry goes, and an absent key changes nothing |
| `BucketIndex.FieldBucket.InsertOrUpdate` | app/core/hydra/swamp/bucket/bucket.go:373-384 | the key ends under its new value only, whatever slot it was in |
| `BucketIndex.FieldBucket.OnMutation` | app/core/hydra/swamp/bucket/bucket.go:215-277 | buffered while a build is in flight, ignored before the first build, applied otherwise |
| `BucketIndex.FieldBucket.BuildEquality` | app/core/hydra/swamp/bucket/bucket.go:145-160 | the first call indexes the snapshot, later calls change nothing |
| `BucketIndex.FieldBucket.DrainPending` | app/core/hydra/swamp/bucket/bucket.go:295-322 | the buffer is replayed in order and the flag cleared |
| `BucketIndex.FieldBucket.LookupIn` | app/core/hydra/swamp/bucket/bucket.go:165-199 | exactly the indexed keys whose value equals one of those asked for |
| `BucketIndex.ScanIsExact` | app/core/hydra/swamp/bucket/bucket.go:145-160 | a scan files every treasure under its own value and nothing else |
| `BucketIndex.ScanReflects` | app/core/hydra/swamp/bucket/bucket.go:177-199 | looking up values in a scanned bucket returns a treasure iff it was scanned and its index key matches |
| `BucketIndex.BuildAndDrain` | app/core/hydra/swamp/swamp_bucket.go:52-57 | whatever was buffered meanwhile ends up on top of the snapshot |
| `SwampBuckets.BucketList.GetOrBuildBucket` | app/core/hydra/swamp/swamp_bucket.go:30-58 | an initialised bucket is returned untouched; a new one is the scan of the snapshot; a registered, uninitialised one is the scan with its buffer on top; no other bucket changes |
| `SwampBuckets.BucketList.Notify` | app/core/hydra/swamp/swamp_bucket.go:93-141 | every bucket on the copied list receives the mutation, once |
| `SwampBuckets.ApplyMirrors` | app/core/hydra/swamp/swamp_bucket.go:93-141 | a bucket that mirrors the store and applies a mutation mirrors the mutated store |
| `SwampBuckets.ScanMirrors` | app/core/hydra/swamp/swamp_bucket.go:52-57 | a bucket built from all stored treasures mirrors the store |
| `SwampBuckets.MirrorHits` | app/core/hydra/swamp/swamp_bucket.go:61-71 | a lookup on a mirroring bucket returns exactly the stored treasures the hint hits |
| `SwampBuckets.SaveOrDelete` | app/core/hydra/swamp/swamp.go:2129-2150 | mutate then notify keeps each settled mirror of the store a mirror, whatever state the other buckets are in |
| `SwampBuckets.LookupByBucket` | app/core/hydra/swamp/swamp_bucket.go:61-71 | build or reuse, then look up: exactly the stored treasures the hint hits |
| `Lookups.BucketsReflect` | app/core/hydra/swamp/swamp_bucket.go:61-71 | lookups over buckets that mirror the store reflect the store, for every hint |
| `Lookups.BuiltReflect` | app/core/hydra/swamp/swamp_bucket.go:52-71 | so do lookups over buckets just built from the stored treasures |
| `Lookups.PatchExpiredOverBuckets` | app/server/gateway/gateway_patch_expired.go:31-52 | end to end over mirroring buckets, PatchExpired selects exactly what the filter accepts |
| `Lookups.CandidatesOverBuckets` | app/server/gateway/gateway.go:657-689 | end to end over mirroring buckets, the bucket route of a KEY-index request accepts what the full walk does, in the same order |
| `Lookups.HitsOverList` | app/core/hydra/swamp/swamp_bucket.go:61-71 | one hint looked up in the swamp's bucket list returns exactly the stored treasures it hits, each once |
| `Lookups.CollectOverList` | app/server/gateway/bucket_exec.go:33-73 | the candidates of any hints, collected through the bucket list that builds and reuses its buckets |
| `Lookups.PatchExpiredFromList` | app/server/gateway/gateway_patch_expired.go:31-52 | starting from a list of settled buckets, PatchExpired selects exactly what the filter accepts |
| `Lookups.CandidatesFromList` | app/server/gateway/gateway.go:657-689 | starting from a list of settled buckets, the bucket route accepts what the full walk does, in the same order |
| `BucketBuild.ReplayAt` | app/core/hydra/swamp/bucket/bucket.go:295-322 | what a replay leaves at a key is decided by the last operation on it |
| `BucketBuild.WriterStepsAvailable` | app/core/hydra/swamp/swamp.go:2119-2236 | the runs leave out nothing writers may do |
| `BucketBuild.CallerStepsAvailable` | app/core/hydra/swamp/swamp_bucket.go:30-88 | nor anything callers of GetOrBuildBucket may do once inside |
| `BucketBuild.EntryAvailable` | app/core/hydra/swamp/swamp_bucket.go:30-88 | nor entering, nor dropping the list |
| `BucketBuild.StepKeeps` | app/core/hydra/swamp/swamp_bucket.go:30-141 | every step of writers and callers keeps the invariant tying buffer, taken batch, view and snapshots to the store |
| `BucketBuild.MutationKeeps` | app/core/hydra/swamp/swamp.go:2129-2150 | a store mutation leaves every other key right and its own key owed to every bucket |
| `BucketBuild.TryKeeps` | app/core/hydra/swamp/bucket/bucket.go:266-277 | a delivery attempt buffers, schedules a direct apply, or is rightly ignored |
| `BucketBuild.DirectKeeps` | app/core/hydra/swamp/bucket/bucket.go:215-262 | applying a mutation directly under the bucket's mutex makes its key right |
| `BucketBuild.RegisterKeeps` | app/core/hydra/swamp/swamp_bucket.go:40-50 | registering a bucket mid-flight keeps the invariant |
| `BucketBuild.BuildKeeps` | app/core/hydra/swamp/bucket/bucket.go:145-160 | building once from a snapshot read key by key keeps the invariant |
| `BucketBuild.TakeKeeps` | app/core/hydra/swamp/bucket/bucket.go:296-305 | taking the buffer, or clearing the flag on an empty one, keeps the invariant |
| `BucketBuild.ReplayKeeps` | app/core/hydra/swamp/bucket/bucket.go:307-321 | replaying a taken batch keeps the invariant |
| `BucketBuild.RunKeeps` | app/core/hydra/swamp/swamp_bucket.go:30-141 | the invariant holds after every run whose drains do not overlap |
| `BucketBuild.StoreIsLastWritten` | app/core/hydra/swamp/swamp.go:2119-2236 | over every run the body stored at a key is that of its last insert or update, it is gone after a removal, and otherwise it is what it was |
| `BucketBuild.RunFiles` | app/core/hydra/swamp/swamp_bucket.go:40-50 | every registered bucket is for the path it is registered under |
| `BucketBuild.SettledBucketAgrees` | app/core/hydra/swamp/swamp_bucket.go:14-58 | in every such run, a bucket with its flag down shows for every key with no undelivered writer what a fresh scan would: the index key of the body last written to it, or of the initial one |
| `BucketBuild.ClearKeyAgrees` | app/core/hydra/swamp/swamp_bucket.go:14-58 | in every such run a built bucket shows the body last written, even with its flag up, on each key with no undelivered writer and no operation in the buffer or a taken batch |
| `BucketBuild.StaleBatchBreaks` | app/core/hydra/swamp/bucket/bucket.go:307-321 | replaying an outdated batch after the flag is down leaves a settled, wrong view |
| `BucketBuild.StrayBatchBreaks` | app/core/hydra/swamp/bucket/bucket.go:295-322 | from any state where the flag is down over a held batch, whatever writers are under way, some continuation leaves a settled view wrong for good |
| `BucketBuild.FinishWriters` | app/core/hydra/swamp/swamp_bucket.go:93-141 | writers under way can always be carried to the end of their deliveries |
| `BucketBuild.OverlapStrays` | app/core/hydra/swamp/bucket/bucket.go:295-322 | a take while another caller holds a batch brings the flag down over that batch |
| `BucketBuild.OverlapExact` | app/core/hydra/swamp/bucket/bucket.go:295-322 | after any run whose drains were apart, the next take keeps the invariant iff it overlaps no held batch; if it overlaps none, no settled bucket is wrong while drains stay apart, and if it overlaps one, some continuation leaves a settled bucket wrong with nothing outstanding |
| `BucketBuild.TwoCallersStray` | app/core/hydra/swamp/swamp_bucket.go:52-57 | two first callers and one write reach such a state |
| `BucketBuild.OverlappingDrainsBreak` | app/core/hydra/swamp/swamp_bucket.go:52-57 | so from an empty swamp there is a run that leaves the index wrong with nothing outstanding |
| `Selection.CollectBucketCandidates` | app/server/gateway/bucket_exec.go:33-73 | every stored treasure some hint hits, each once |
| `Selection.CandidateKeySet` | app/server/gateway/bucket_exec.go:150-159 | the candidates' keys, or nil when there are none |
| `Selection.ApplyTimeRange` | app/server/gateway/bucket_exec.go:80-103 | the candidates within the bounds given, in order |
| `Selection.OnTimeMeans` | app/server/gateway/bucket_exec.go:80-115 | axis by axis, in treasure fields: creation, modification or expiry time within the bounds, and time zero on indexes without a time axis |
| `Selection.SentinelsExact` | app/server/gateway/gateway_shift_matching.go:225-243 | the sentinel test is the documented half-open range except at the last instant of an open upper bound |
| `Selection.ShiftRangeMeans` | app/server/gateway/gateway_shift_matching.go:158-222 | axis by axis, in treasure fields: creation, modification or expiry time within the bounds; ignored on other indexes and without bounds |
| `Selection.ShiftByTime` | app/server/gateway/gateway_shift_matching.go:158-172 | without a filter the built predicate selects by that field alone |
| `Selection.RoutedIsFilter` | app/server/gateway/gateway_patch_expired.go:31-52 | on faithful plans "some lookup returns it and the residual holds" is the filter |
| `Selection.OneHintExact` | app/server/gateway/gateway_patch_expired.go:31-52 | for a one-lookup plan on a plain path, selection and filter agree on a treasure iff the lookup answers for its leaf or the residual fails |
| `Selection.BuildPatchExpiredSelector` | app/server/gateway/gateway_patch_expired.go:31-52 | what the built predicate selects among stored treasures, nil set included |
| `Selection.PatchExpiredSelectsFilter` | app/server/gateway/gateway_patch_expired.go:31-52 | on a fixed store the predicate equals direct evaluation of the original filter |
| `Selection.PatchExpiredMissesWildcard` | app/server/gateway/gateway_patch_expired.go:31-52 | with `slice[*].field == 5` as the only filter, PatchExpired passes over `{slice: [{field: 5}]}`, which the filter accepts |
| `Selection.BuildShiftSelector` | app/server/gateway/gateway_shift_matching.go:158-205 | what the built predicate selects, with time bounds and the skipped test for a nil set |
| `Selection.ShiftSelectsExactly` | app/server/gateway/gateway_shift_matching.go:158-205 | it means "in range and accepted by the filter" iff there are candidates, or the treasure is out of range or fails the residual |
| `Selection.ShiftWithoutCandidates` | app/server/gateway/gateway_shift_matching.go:173-205 | one indexable condition nobody meets: the filter accepts nothing, the predicate everything in range |
| `Streams.VisitRow` | app/server/gateway/gateway.go:690-741 | a row is answered iff the key lists permit it and the filter holds, with its metadata whichever path was taken |
| `Streams.AnsweredTreasures` | app/server/gateway/gateway.go:695-726 | a treasure is answered iff it is on the include list if there is one, not on the exclude list, and accepted by the filter |
| `Streams.RowCarries` | app/server/gateway/gateway.go:728-739 | a row carries the swamp's name, the key alone or the whole treasure, and the match's metadata |
| `Streams.StreamRows` | app/server/gateway/gateway.go:680-749 | the stream is the first MaxResults matching rows, all of them for a non-positive limit |
| `Streams.StreamQuery` | app/server/gateway/gateway.go:820-889 | one query sends its first queryMax rows, cut at what is left of the global limit |
| `Streams.StreamMany` | app/server/gateway/gateway.go:756-905 | the whole stream is take(globalMax) of the concatenation of take(queryMax) over the queries |
| `Streams.SortIsStrict` | app/server/gateway/bucket_exec.go:120-143 | any sort without inversions of distinctly keyed treasures enumerates them strictly by key |
| `Streams.OneEnumeration` | app/server/gateway/bucket_exec.go:120-143 | two strictly ordered enumerations of the same treasures are equal |
| `Streams.KeyOrderMeans` | app/server/gateway/bucket_exec.go:120-132 | ascending puts the key smaller at the first difference first, descending the other |
| `Streams.PageMeans` | app/server/gateway/bucket_exec.go:163-175 | a page starts at the offset, or at the start for a negative one, and has at most the limit, or all for none |
| `Streams.RoutesAgree` | app/server/gateway/gateway.go:657-689 | for a KEY index without time bounds or paging, bucket route and full walk accept the same treasures in the same order |
| `Streams.StreamsAgree` | app/server/gateway/gateway.go:657-749 | and stream the same payloads up to MaxResults |
| `LockQueue.LockTable.Enqueue` | app/core/hydra/lock/lock.go:74-82 | the caller is last; ready is closed iff the queue was empty; no double close |
| `LockQueue.LockTable.Remove` | app/core/hydra/lock/lock.go:87-107 | the search loop and splice remove exactly the caller, close done, and ready of the next iff it was head; no double close |
| `LockQueue.LockTable.Unlock` | app/core/hydra/lock/lock.go:167-177 | fails iff the id is not queued under the key |
| `LockQueue.WithoutIdAt` | app/core/hydra/lock/lock.go:90-95 | splicing at the first match is removal of the id |
| `LockQueue.StepsAvailable` | app/core/hydra/lock/lock.go:117-177 | the runs leave out nothing the source lets callers, watchdogs and clients do |
| `LockQueue.StepKeeps` | app/core/hydra/lock/lock.go:74-177 | every step of any caller, watchdog or client keeps the lock invariant |
| `LockQueue.RunKeeps` | app/core/hydra/lock/lock.go:74-177 | so does every run |
| `LockQueue.LockSafety` | app/core/hydra/lock/lock.go:74-177 | after any run: distinct ids, open done channels, ready closed for heads only, no channel closed twice, one holder per key, grants in enqueue order |
| `LockQueue.NoOvertaking` | app/core/hydra/lock/lock.go:74-107 | while a caller is queued nobody who enqueued later under its key has been granted |
| `LockQueue.StepPosition` | app/core/hydra/lock/lock.go:87-107 | a step moves a queued caller up by one iff it removes somebody ahead, and otherwise not at all |
| `LockQueue.GrantedAfterRemovals` | app/core/hydra/lock/lock.go:84-107 | a waiter at position p is granted after exactly p removals ahead of it, over every run |
| `LockQueue.HeadLeaves` | app/core/hydra/lock/lock.go:131-159 | whatever the head is doing, its own return, cancellation or TTL takes it out |
| `LockQueue.EveryWaiterServed` | app/core/hydra/lock/lock.go:117-160 | no lost wakeup: without any Unlock every queued caller can still be carried to its grant |
| `PatchBatch.Wrap` | app/core/hydra/swamp/swamp_patch.go:275-281 | a wrapped body is recognised as msgpack and unwraps to itself |
| `PatchBatch.ApplyPatchMeta` | app/core/hydra/swamp/swamp_patch.go:303-330 | each metadata field after stamping; creation fields only on create; clearing wins over setting the expiry |
| `PatchBatch.ConvertOps` | app/server/gateway/gateway_patch.go:233-249 | fails iff some op is nil, otherwise keeps the ops in order |
| `PatchBatch.Swamp.CreateTreasure` | app/core/hydra/swamp/swamp.go:2094-2117 | the stored treasure, an in-flight one, or a new in-flight one |
| `PatchBatch.Swamp.SpendBudget` | app/core/hydra/swamp/swamp_patch.go:249-261 | only the (no, yes) cell spends, and it is refused at zero |
| `PatchBatch.Swamp.PatchFields` | app/core/hydra/swamp/swamp_patch.go:161-272 | the imperative call with its deferred clean-up computes the pure patch function |
| `PatchBatch.Swamp.PatchAll` | app/server/gateway/gateway_patch.go:117-166 | the batch loop refines the left fold: same store, same budget, same statuses in order |
| `PatchBatch.FailureChangesNothing` | app/core/hydra/swamp/swamp_patch.go:161-261 | any status but PATCHED and CREATED leaves bodies, metadata and budget, and no new in-flight treasure |
| `PatchBatch.RefusalCases` | app/core/hydra/swamp/swamp_patch.go:161-237 | the refusals in their order with their statuses: nil op, missing key, unparsable seed, contents that cannot be patched |
| `PatchBatch.LibraryDecides` | app/core/hydra/swamp/swamp_patch.go:239-298 | otherwise the library's verdict on the seed or the unprefixed body decides: each error its status, a new body stored behind the prefix unless the cap stops it |
| `PatchBatch.MetadataWritten` | app/core/hydra/swamp/swamp_patch.go:303-330 | on success every metadata field, from the patch's own metadata or else the request's; creation fields on create only, clearing the expiry wins |
| `PatchBatch.OwnMetadataReplaces` | app/server/gateway/gateway_patch.go:130-136 | a patch with metadata of its own does not depend on the request's |
| `PatchBatch.StartsFrom` | app/core/hydra/swamp/swamp.go:2094-2117 | a patch starts from the stored treasure, else one in flight, else an empty one |
| `PatchBatch.CapWellFormedMeans` | app/server/gateway/gateway_cap_body.go:21-39 | a cap is accepted iff its limit is positive and its filter is given and decided by bodies alone |
| `PatchBatch.SuccessWritesAttempt` | app/core/hydra/swamp/swamp_patch.go:239-272 | success stores the attempted body under its key only, spends budget iff it crosses, and leaves nothing in flight |
| `PatchBatch.ExceededExactly` | app/core/hydra/swamp/swamp_patch.go:249-261 | CAP_EXCEEDED iff an otherwise successful patch crosses at zero budget |
| `PatchBatch.PatchKeepsBound` | app/core/hydra/swamp/swamp_patch.go:244-261 | one patch never raises count plus budget |
| `PatchBatch.BatchKeepsBound` | app/server/gateway/gateway_patch.go:80-166 | after a batch the count is at most the initial count plus the budget spent, and the budget stays in range |
| `PatchBatch.CapHolds` | app/server/gateway/gateway_patch.go:80-166 | after every prefix the count is at most max(initial count, MaxMatching), repeated keys and creates included |
| `PatchBatch.BudgetExact` | app/server/gateway/gateway_patch.go:80-166 | whatever budget a batch starts with, every batch ends within max(count, MaxMatching) iff count plus budget does, given that some seed, ops and condition create a treasure the cap counts |
| `PatchBatch.BudgetSuffices` | app/server/gateway/gateway_patch.go:80-166 | the half that needs no such creation: within count plus budget every batch stays |
| `PatchBatch.StaleCountExact` | app/server/gateway/gateway_patch.go:179-193 | with a budget from an earlier count, and matching treasures creatable at all, the cap holds for every batch iff the count has not grown since or had already used the cap up |
| `PatchBatch.CreationsSpend` | app/server/gateway/gateway_patch.go:117-166 | a batch of creations under new keys, by any seed, ops and condition that make a matching body, spends its budget one by one |
| `PatchBatch.StaleCountOverruns` | app/server/gateway/gateway_patch.go:179-193 | for any such seed, ops and condition, two batches that both counted an empty swamp exceed a cap of one |
| `PatchBatch.EqualityCapCreatable` | app/server/gateway/gateway_patch.go:82-97 | an ordinary cap `field == value` is among them as soon as ops can set the field |
| `PatchBatch.ResultAt` | app/server/gateway/gateway_patch.go:117-164 | result i is the outcome of patch i in the state its predecessors left |
| `PatchBatch.CapReachedExactly` | app/server/gateway/gateway_patch.go:151-153 | patch i reports the cap iff its (no, yes) transition met an exhausted budget |
| `PatchBatch.UnreachedCapIsInvisible` | app/server/gateway/gateway_patch.go:77-166 | a batch that does not report the cap has the same store and results as without one |
| `PatchBatch.CapCountsFilter` | app/server/gateway/gateway_patch.go:82-97 | on prefixed bodies that decode, what the cap counts is what its filter accepts |
| `PatchBatch.PatchTreasuresOneSwamp` | app/server/gateway/gateway_patch.go:40-167 | refusals (empty name, bad cap, failed summon) and empty batches change nothing; otherwise the fold from the counted budget, with CapReached and the bound |
| `AppendLog.LiveDecides` | app/core/hydra/swamp/chronicler/v2/reader.go:221-245 | a live entry's data is what the reader has for its key |
| `AppendLog.LiveExplains` | app/core/hydra/swamp/chronicler/v2/reader.go:221-245 | whatever the reader has comes from a live entry |
| `AppendLog.LiveReplaysAll` | app/hydraidectl/cmd/inspect.go:190-244 | replaying only the live entries gives the same map as replaying the whole log |
| `AppendLog.RewriteReplays` | app/hydraidectl/cmd/migrate_v2_migrate_format.go:327-338 | any log with one insert per key of a map replays to that map |
| `AppendLog.LiveCount` | app/hydraidectl/cmd/inspect.go:246-249 | there is exactly one live entry per key the reader sees |
| `AppendLog.ListedReplays` | app/hydraidectl/cmd/inspect.go:201-206 | leaving out the name entries does not change what a reader sees |
| `AppendLog.AnalyzeSwampForInspect` | app/hydraidectl/cmd/inspect.go:190-256 | an entry is marked live iff it is the last insert or update of its key with no later delete; live + dead = total, dead >= 0; the name is the last name entry's |
| `AppendLog.ReadEntries` | app/hydraidectl/cmd/inspect.go:190-233 | the reading loop tracks the position of every live entry and the last name |
| `AppendLog.MarkLive` | app/hydraidectl/cmd/inspect.go:239-244 | the marking loop marks exactly the live entries |
| `AppendLog.LoadIndex` | app/core/hydra/swamp/chronicler/v2/reader.go:221-245 | the index is the replay of the log; the name is the header's or the first non-empty one |
| `AppendLog.NameMeans` | app/core/hydra/swamp/chronicler/v2/reader.go:223-238 | the name read is the header's, else that of the first name entry with data |
| `AppendLog.InspectedNameMeans` | app/hydraidectl/cmd/inspect.go:201-206 | the name inspected is that of the last name entry |
| `AppendLog.MigrateFormat` | app/hydraidectl/cmd/migrate_v2_migrate_format.go:309-338 | fails iff there is no name; otherwise one INSERT per live key, in any order, replaying to the same map |
| `Framing.LengthRoundTrip` | app/core/filesystem/filesystem.go:514-523 | the length header reads back as the length modulo 2^32 |
| `Framing.HeaderBytes` | app/core/filesystem/filesystem.go:512-523 | the header's four bytes, least significant first, and what four bytes read as |
| `Framing.EncodeParts` | app/core/filesystem/filesystem.go:183-213 | the framing loop appends the frames of the parts to the existing content |
| `Framing.ParseBinaryData` | app/core/filesystem/filesystem.go:483-510 | the reader loop computes the recursive parse, short reads and both end-of-file errors included |
| `Framing.RoundTrip` | app/core/filesystem/filesystem.go:483-523 | parts read back as written iff each is shorter than 2^32 bytes and the last one is not empty |
| `Framing.EmptyLastPartFails` | app/core/filesystem/filesystem.go:499-504 | with an empty last part the whole parse fails with end of file |
| `Framing.AppendRoundTrip` | app/core/filesystem/filesystem.go:185-205 | appended content reads back as old parts then new parts iff the combined list is readable |
| `Framing.EveryCut` | app/core/filesystem/filesystem.go:483-510 | what a file reads as when cut anywhere in its last frame: an error if between one and all four bytes of the header remain; otherwise it reads as the earlier frames alone do, or as every part with zeros for the missing bytes |
| `Framing.TruncationIsSilent` | app/core/filesystem/filesystem.go:499-507 | in particular a last block cut short reads back zero-padded without an error |
| `Telemetry.RingAdvance` | app/server/telemetry/telemetry.go:179-184 | a write takes the newest slot and leaves the slots of the remaining events as they were |
| `Telemetry.RingWrite` | app/server/telemetry/telemetry.go:179-184 | writing at the head keeps the ring an enumeration of the latest events |
| `Telemetry.Collector.constructor` | app/server/telemetry/telemetry.go:137-158 | defaults for non-positive settings and an empty ring |
| `Telemetry.Collector.Record` | app/server/telemetry/telemetry.go:161-184 | after any run of calls the ring enumerates the last min(n, capacity) events in order, in bounds; a closed collector ignores the call |
| `Telemetry.Collector.EventAt` | app/server/telemetry/telemetry.go:252-253 | the index arithmetic reads the i-th oldest retained event, in bounds |
| `Telemetry.Collector.Keeps` | app/server/telemetry/telemetry.go:255-276 | the chain of checks is the query's predicate |
| `Telemetry.WantedMeans` | app/server/telemetry/telemetry.go:255-276 | check by check, which events a query refuses and which it wants |
| `Telemetry.PatternMeans` | app/server/telemetry/telemetry.go:422-434 | a pattern matches itself, or with a trailing star any continuation; the empty one matches everything |
| `Telemetry.CompletedMeans` | app/server/telemetry/telemetry.go:169-177 | recording fills in a missing id and time and changes nothing else |
| `Telemetry.Collector.GetHistory` | app/server/telemetry/telemetry.go:239-282 | the first `limit` retained events the query wants, in recording order; capacity for a non-positive limit |

## Left out

- Float values: only finite float64 values are modelled, as reals; NaN, infinities and float32 rounding are not.
- Out-of-range float-to-integer conversions: modelled with the amd64 results, which Go leaves to the platform.
- Strings: characters are compared as code units; case folding is a parameter.
- Phrase, vector and geo filters: their verdicts are parameters. Profile filters, which read one treasure per field, are not modelled.
- Msgpack decoding and patching, compression, hashing, file and network I/O: parameters or absent.
- Selection and route results for plans with a wildcard or `#len` hint: such hints do not answer for their leaf, so these results are stated for faithful plans.
- `BucketBuild`: a writer's mutation and delivery of one key are serialised, as the per-key guard intends; a delete racing with a re-creation under a different treasure object is not modelled.
- `BucketBuild`: a lookup made during a build may miss mutations that are buffered, taken or undelivered; agreement is claimed for all other keys.
- LockQueue.LockTable.Unlock: in runs, Unlock is given ids that a Lock call returned or that were never issued; guessing a waiting caller's id is not modelled.
- LockQueue.EveryWaiterServed: shows a continuation that serves the waiter, not a bound in time; scheduling fairness is not modelled.
- Streams.RoutesAgree: paging and time bounds are left out, because one route pages before the residual and the other before the whole filter; labels of the consumed leg are lost on the bucket route, so payloads are compared.
- Streams: client cancellation and failed sends, which cut a stream short.
- PatchBatch.CapHolds: one batch without interleaved writers and fewer than 2^31 matching treasures; the count is an int32. The error texts of statuses and the nil budget pointer, which the gateway never passes, are not modelled.
- PatchBatch.BudgetExact: a cap that only a chain of several patches to one key can meet is outside its hypothesis; for such caps only the bound itself (`PatchBatch.BudgetSuffices`) is stated.
- PatchExpired and ShiftMatching beyond their selection predicates: beacon removal and reindexing.
- SummonSwamp, subscriptions, increments, chronicler blocks and headers, SDK conversions, hydraidectl apart from the two log functions.
- Telemetry: statistics, the error store and subscriber delivery.
