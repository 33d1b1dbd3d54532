/** The bucket list of a swamp (app/core/hydra/swamp/swamp_bucket.go) as one goroutine at a time sees it:
    first lookups build, every mutation is forwarded to every bucket. Interleavings are in BucketBuild. */
module SwampBuckets {
  import opened Values
  import opened Filters
  import opened Planner
  import opened PairedMaps
  import opened Bucket
  import opened BucketIndex

  /** The bucket is a recomputation from the stored treasures. */
  ghost predicate Mirrors(env: Env, path: string, index: Entries, store: map<string, Treasure>) {
    (forall k :: k in index <==> k in store) &&
    forall k | k in store && k in index :: index[k] == Entry(IndexKey(env, store[k], path), store[k])
  }

  /** A mutation of the store. */
  function Mutate(store: map<string, Treasure>, op: PendingOp): map<string, Treasure> {
    match op
    case Upsert(t) => store[t.key := t]
    case Delete(key) => store - {key}
  }

  /** A mirrored bucket that applies the mutation mirrors the mutated store. */
  lemma ApplyMirrors(env: Env, path: string, index: Entries, store: map<string, Treasure>, op: PendingOp)
    requires Mirrors(env, path, index, store)
    ensures Mirrors(env, path, Apply(env, path, index, op), Mutate(store, op))
  {}

  /** What a lookup for a hint may return of a mirrored bucket: exactly the stored treasures it hits. */
  lemma MirrorHits(env: Env, path: string, index: Entries, store: map<string, Treasure>, values: seq<Value>, k: string)
    requires Mirrors(env, path, index, store)
    ensures (k in index && MatchesOne(index[k].value, values)) <==>
            (k in store && IndexHits(env, store[k], BucketHint(path, HintIn, values)))
  {}

  lemma ScanMirrors(env: Env, path: string, ts: seq<Treasure>, store: map<string, Treasure>)
    requires DistinctKeys(ts) && (forall t | t in ts :: t.key in store && store[t.key] == t)
    requires forall k | k in store :: store[k] in ts && store[k].key == k
    ensures Mirrors(env, path, Scan(env, path, ts), store)
  {
    ScanIsExact(env, path, ts);
    forall k ensures k in Scan(env, path, ts) <==> k in store {
      if k in store {
        var i :| 0 <= i < |ts| && ts[i] == store[k];
        assert ts[i].key == k;
      }
      if i :| 0 <= i < |ts| && ts[i].key == k { assert ts[i] in ts; }
    }
    forall k | k in store ensures Scan(env, path, ts)[k] == Entry(IndexKey(env, store[k], path), store[k]) {
      var i :| 0 <= i < |ts| && ts[i] == store[k];
      assert ts[i].key == k;
    }
  }

  /** The parts of a bucket a mutation can change. */
  datatype BucketState = BucketState(inFlight: bool, init: bool, entries: Entries, pending: seq<PendingOp>)

  ghost function StateOf(b: FieldBucket): BucketState
    reads b
  {
    BucketState(b.buildInFlight, b.equalityInit, b.entries, b.pending)
  }

  /** A bucket after a mutation is delivered to it. */
  ghost function Delivered(env: Env, path: string, s: BucketState, op: PendingOp): BucketState {
    if s.inFlight then s.(pending := s.pending + [op])
    else if s.init then s.(entries := Apply(env, path, s.entries, op))
    else s
  }

  /** A bucket after its build: the snapshot with what was buffered on top, flag down. */
  ghost function Completed(env: Env, path: string, snapshot: seq<Treasure>, pending: seq<PendingOp>): BucketState {
    BucketState(false, true, Replay(env, path, Scan(env, path, snapshot), pending), [])
  }

  method Deliver(env: Env, b: FieldBucket, op: PendingOp)
    requires b.Valid()
    modifies b
    ensures b.Valid() && StateOf(b) == Delivered(env, b.fieldPath, old(StateOf(b)), op)
  {
    b.OnMutation(env, op);
  }

  ghost predicate AllValid(bs: seq<FieldBucket>)
    reads bs
  {
    (forall i | 0 <= i < |bs| :: bs[i].Valid()) &&
    forall i, j | 0 <= i < j < |bs| :: bs[i].fieldPath != bs[j].fieldPath
  }

  lemma AddKeepsPaths(bs: seq<FieldBucket>, b: FieldBucket)
    requires AllValid(bs) && b.Valid() && forall i | 0 <= i < |bs| :: bs[i].fieldPath != b.fieldPath
    ensures AllValid(bs + [b])
  {}

  /** The registered buckets, one per field path. */
  class BucketList {
    var buckets: seq<FieldBucket>

    ghost predicate Valid()
      reads this, buckets
    {
      AllValid(buckets)
    }

    constructor ()
      ensures Valid() && buckets == []
    {
      buckets := [];
    }

    method Find(path: string) returns (i: nat)
      requires Valid()
      ensures i <= |buckets| && (i < |buckets| ==> buckets[i].fieldPath == path)
      ensures forall j | 0 <= j < i :: buckets[j].fieldPath != path
    {
      i := 0;
      while i < |buckets| && buckets[i].fieldPath != path
        invariant i <= |buckets| && forall j | 0 <= j < i :: buckets[j].fieldPath != path
      {
        i := i + 1;
      }
    }

    /** GetOrBuildBucket: an initialised bucket is returned untouched; a missing one is registered with its
        flag up; an uninitialised one is built from the snapshot and drained. */
    method GetOrBuildBucket(env: Env, path: string, snapshot: seq<Treasure>) returns (b: FieldBucket)
      requires Valid() && DistinctKeys(snapshot)
      modifies this, buckets
      ensures Valid() && b in buckets && b.fieldPath == path && b.equalityInit
      ensures b !in old(buckets) ==> fresh(b) && StateOf(b) == Completed(env, path, snapshot, [])
      ensures b in old(buckets) && old(b.equalityInit) ==> StateOf(b) == old(StateOf(b))
      ensures b in old(buckets) && !old(b.equalityInit) ==> StateOf(b) == Completed(env, path, snapshot, old(b.pending))
      ensures forall other | other in old(buckets) && other != b :: StateOf(other) == old(StateOf(other))
      ensures buckets == if b in old(buckets) then old(buckets) else old(buckets) + [b]
    {
      var i := Find(path);
      if i < |buckets| {
        b := buckets[i];
      } else {
        b := NewBucket(path);
        AddKeepsPaths(buckets, b);
        buckets := buckets + [b];
      }
      if !b.equalityInit { BuildBucket(env, b, snapshot); }
    }

    /** notifyBucketsInsert, -Update and -Delete: copy the list, then deliver to every bucket on it. */
    method Notify(env: Env, op: PendingOp)
      requires Valid()
      modifies buckets
      ensures Valid() && buckets == old(buckets)
      ensures forall b | b in buckets :: StateOf(b) == Delivered(env, b.fieldPath, old(StateOf(b)), op)
    {
      var bs := buckets;
      for i := 0 to |bs|
        invariant AllValid(bs)
        invariant forall j | 0 <= j < i :: StateOf(bs[j]) == Delivered(env, bs[j].fieldPath, old(StateOf(bs[j])), op)
        invariant forall j | i <= j < |bs| :: StateOf(bs[j]) == old(StateOf(bs[j]))
      {
        assert forall j | 0 <= j < |bs| && j != i :: bs[j] != bs[i];
        Deliver(env, bs[i], op);
      }
    }
  }

  method NewBucket(path: string) returns (b: FieldBucket)
    ensures fresh(b) && b.Valid() && b.fieldPath == path && StateOf(b) == BucketState(true, false, map[], [])
  {
    b := new FieldBucket(path);
    b.buildInFlight := true;
  }

  method BuildBucket(env: Env, b: FieldBucket, snapshot: seq<Treasure>)
    requires b.Valid() && !b.equalityInit && DistinctKeys(snapshot)
    modifies b
    ensures b.Valid()
    ensures StateOf(b) == Completed(env, b.fieldPath, snapshot, old(b.pending))
  {
    BuildAndDrain(env, b, snapshot);
  }

  /** Built, nothing buffered, and a recomputation from the store. */
  ghost predicate SettledMirror(env: Env, path: string, s: BucketState, store: map<string, Treasure>) {
    !s.inFlight && s.init && Mirrors(env, path, s.entries, store)
  }

  lemma DeliveryKeepsMirror(env: Env, path: string, s: BucketState, store: map<string, Treasure>, op: PendingOp)
    requires SettledMirror(env, path, s, store)
    ensures SettledMirror(env, path, Delivered(env, path, s, op), Mutate(store, op))
  {
    ApplyMirrors(env, path, s.entries, store, op);
  }

  /** Mutate, then notify: each settled bucket that mirrored the store before mirrors it afterwards, whatever
      state the others are in. */
  method SaveOrDelete(env: Env, list: BucketList, store: map<string, Treasure>, op: PendingOp)
    returns (after: map<string, Treasure>)
    requires list.Valid()
    modifies list.buckets
    ensures after == Mutate(store, op) && list.Valid() && list.buckets == old(list.buckets)
    ensures forall b | b in list.buckets :: StateOf(b) == Delivered(env, b.fieldPath, old(StateOf(b)), op)
    ensures forall b | b in list.buckets && SettledMirror(env, b.fieldPath, old(StateOf(b)), store) ::
              SettledMirror(env, b.fieldPath, StateOf(b), after)
  {
    after := Mutate(store, op);
    forall b | b in list.buckets && SettledMirror(env, b.fieldPath, StateOf(b), store)
      ensures SettledMirror(env, b.fieldPath, Delivered(env, b.fieldPath, StateOf(b), op), after)
    {
      DeliveryKeepsMirror(env, b.fieldPath, StateOf(b), store, op);
    }
    list.Notify(env, op);
  }

  /** The given treasures are all those stored, once each. */
  ghost predicate Lists(ts: seq<Treasure>, store: map<string, Treasure>) {
    DistinctKeys(ts) && forall t :: t in ts <==> t.key in store && store[t.key] == t
  }

  ghost predicate Keyed(store: map<string, Treasure>) {
    forall k | k in store :: store[k].key == k
  }

  /** LookupByBucketIn, and LookupByBucketEqual as its single-value case: the first lookup builds the bucket, a
      later one uses it. As long as the buckets already there are settled mirrors, the answer is the stored
      treasures the hint hits. */
  method LookupByBucket(env: Env, list: BucketList, path: string, values: seq<Value>, snapshot: seq<Treasure>,
                        ghost store: map<string, Treasure>) returns (out: map<string, Treasure>)
    requires list.Valid() && Lists(snapshot, store) && Keyed(store)
    requires forall b | b in list.buckets :: SettledMirror(env, b.fieldPath, StateOf(b), store)
    modifies list, list.buckets
    ensures list.Valid() && forall b | b in list.buckets :: SettledMirror(env, b.fieldPath, StateOf(b), store)
    ensures forall b | b in list.buckets :: b in old(list.buckets) || fresh(b)
    ensures forall k :: k in out <==> k in store && IndexHits(env, store[k], BucketHint(path, HintIn, values))
    ensures forall k | k in out :: out[k] == store[k]
  {
    var b := list.GetOrBuildBucket(env, path, snapshot);
    SnapshotMirrors(env, path, snapshot, store);
    out := b.LookupIn(values);
    forall k ensures (k in b.entries && MatchesOne(b.entries[k].value, values)) <==>
                     (k in store && IndexHits(env, store[k], BucketHint(path, HintIn, values)))
    {
      MirrorHits(env, path, b.entries, store, values, k);
    }
  }

  lemma SnapshotMirrors(env: Env, path: string, ts: seq<Treasure>, store: map<string, Treasure>)
    requires Lists(ts, store) && Keyed(store)
    ensures SettledMirror(env, path, Completed(env, path, ts, []), store)
  {
    ScanMirrors(env, path, ts, store);
  }
}
