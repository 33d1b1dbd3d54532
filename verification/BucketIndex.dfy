/** The mutable half of a bucket (app/core/hydra/swamp/bucket/bucket.go): the paired maps byValue and
    byKey, the pending buffer, and lookups. */
module BucketIndex {
  import opened Values
  import opened Filters
  import opened Planner
  import opened Bucket
  import opened PairedMaps

  datatype PendingOp = Upsert(t: Treasure) | Delete(key: string)

  /** Treasure key to canonical field value and treasure. */
  type Entries = map<string, Entry<CanonKey, Treasure>>

  function Apply(env: Env, path: string, index: Entries, op: PendingOp): Entries {
    match op
    case Upsert(t) => index[t.key := Entry(IndexKey(env, t, path), t)]
    case Delete(key) => index - {key}
  }

  function Replay(env: Env, path: string, index: Entries, ops: seq<PendingOp>): Entries {
    if ops == [] then index else Apply(env, path, Replay(env, path, index, ops[..|ops| - 1]), ops[|ops| - 1])
  }

  /** The index a scan of the given treasures builds. */
  function Scan(env: Env, path: string, ts: seq<Treasure>): Entries {
    if ts == [] then map[] else Apply(env, path, Scan(env, path, ts[..|ts| - 1]), Upsert(ts[|ts| - 1]))
  }

  predicate HasKey(ts: seq<Treasure>, k: string) {
    exists i | 0 <= i < |ts| :: ts[i].key == k
  }

  /** A scan of distinctly keyed treasures files each one under its own value, and nothing else. */
  lemma {:induction false} ScanIsExact(env: Env, path: string, ts: seq<Treasure>)
    requires DistinctKeys(ts)
    ensures forall k :: k in Scan(env, path, ts) <==> HasKey(ts, k)
    ensures forall i | 0 <= i < |ts| ::
              ts[i].key in Scan(env, path, ts) &&
              Scan(env, path, ts)[ts[i].key] == Entry(IndexKey(env, ts[i], path), ts[i])
  {
    if ts != [] {
      var init, last := ts[..|ts| - 1], ts[|ts| - 1];
      ScanIsExact(env, path, init);
      forall k ensures HasKey(ts, k) <==> HasKey(init, k) || k == last.key {
        if k == last.key { assert ts[|ts| - 1].key == k; }
        if i :| 0 <= i < |init| && init[i].key == k { assert ts[i].key == k; }
      }
    }
  }

  /** Scanning one more treasure of a distinctly keyed list adds an entry under a new key. */
  lemma ScanStep(env: Env, path: string, ts: seq<Treasure>, i: nat)
    requires DistinctKeys(ts) && i < |ts|
    ensures ts[i].key !in Scan(env, path, ts[..i])
    ensures Scan(env, path, ts[..i + 1]) ==
            Scan(env, path, ts[..i])[ts[i].key := Entry(IndexKey(env, ts[i], path), ts[i])]
  {
    ScanIsExact(env, path, ts[..i]);
    assert ts[..i + 1][..i] == ts[..i];
  }

  class FieldBucket {
    const fieldPath: string
    var equalityInit: bool
    var byValue: map<CanonKey, map<string, Treasure>>
    var byKey: map<string, CanonKey>
    var pending: seq<PendingOp>
    var buildInFlight: bool

    /** The abstract index. */
    ghost var entries: Entries

    /** The two maps describe the abstract index. */
    ghost predicate InStep()
      reads this
    {
      Represents(byValue, byKey, entries)
    }

    ghost predicate Valid()
      reads this
    {
      InStep() && (!equalityInit ==> entries == map[])
    }

    constructor (fieldPath: string)
      ensures Valid() && entries == map[] && this.fieldPath == fieldPath
      ensures !equalityInit && !buildInFlight && pending == []
    {
      this.fieldPath := fieldPath;
      equalityInit, buildInFlight := false, false;
      byValue, byKey, pending, entries := map[], map[], [], map[];
    }

    /** insertLocked, whatever is there already. It keeps the maps in step unless the key is filed under
        another value, which is why updates remove first. */
    method Insert(key: string, value: CanonKey, t: Treasure)
      modifies this`byValue, this`byKey, this`entries
      ensures byValue == SlotInsert(old(byValue), value, key, t) && byKey == old(byKey)[key := value]
      ensures entries == old(entries)[key := Entry(value, t)]
      ensures old(InStep()) && (key in old(entries) ==> old(entries)[key].value == value) ==> InStep()
    {
      if InStep() && (key in entries ==> entries[key].value == value) {
        InsertRepresents(byValue, byKey, entries, key, value, t);
      }
      byValue := SlotInsert(byValue, value, key, t);
      byKey := byKey[key := value];
      entries := entries[key := Entry(value, t)];
    }

    /** deleteLocked: an absent key is left alone. */
    method Remove(key: string)
      requires InStep()
      modifies this`byValue, this`byKey, this`entries
      ensures InStep() && entries == old(entries) - {key}
    {
      if key !in byKey {
        assert entries - {key} == entries;
        return;
      }
      RemoveRepresents(byValue, byKey, entries, key);
      byValue := SlotRemove(byValue, byKey[key], key);
      byKey := byKey - {key};
      entries := entries - {key};
    }

    /** insertOrUpdateLocked: a treasure whose value moved leaves its old slot first. */
    method InsertOrUpdate(key: string, value: CanonKey, t: Treasure)
      requires InStep()
      modifies this`byValue, this`byKey, this`entries
      ensures InStep() && entries == old(entries)[key := Entry(value, t)]
    {
      if key in byKey && byKey[key] != value { Remove(key); }
      Insert(key, value, t);
      assert entries == old(entries)[key := Entry(value, t)];
    }

    /** One buffered or direct mutation. */
    method ApplyOp(env: Env, op: PendingOp)
      requires Valid() && equalityInit
      modifies this`byValue, this`byKey, this`entries
      ensures Valid() && entries == Apply(env, fieldPath, old(entries), op)
    {
      match op
      case Upsert(t) => InsertOrUpdate(t.key, IndexKey(env, t, fieldPath), t);
      case Delete(key) => Remove(key);
    }

    /** OnInsert, OnUpdate and OnDelete: buffer while a build is in flight, ignore before the first
        build, apply directly afterwards. */
    method OnMutation(env: Env, op: PendingOp)
      requires Valid()
      modifies this`byValue, this`byKey, this`entries, this`pending
      ensures Valid()
      ensures pending == if buildInFlight then old(pending) + [op] else old(pending)
      ensures entries == if !buildInFlight && equalityInit then Apply(env, fieldPath, old(entries), op)
                           else old(entries)
    {
      if buildInFlight {
        pending := pending + [op];
      } else if equalityInit {
        ApplyOp(env, op);
      }
    }

    /** BuildEquality: the first call indexes the snapshot, given in iteration order; later calls do
        nothing. */
    method BuildEquality(env: Env, snapshot: seq<Treasure>)
      requires Valid() && DistinctKeys(snapshot)
      modifies this`byValue, this`byKey, this`entries, this`equalityInit
      ensures Valid() && equalityInit
      ensures entries == if old(equalityInit) then old(entries) else Scan(env, fieldPath, snapshot)
    {
      if equalityInit { return; }
      for i := 0 to |snapshot|
        invariant InStep() && entries == Scan(env, fieldPath, snapshot[..i])
      {
        ScanStep(env, fieldPath, snapshot, i);
        Insert(snapshot[i].key, IndexKey(env, snapshot[i], fieldPath), snapshot[i]);
      }
      equalityInit := true;
      assert snapshot[..|snapshot|] == snapshot;
    }

    /** DrainPending run by a single caller: replays the buffer in order and clears the flag. */
    method DrainPending(env: Env)
      requires Valid() && equalityInit
      modifies this`byValue, this`byKey, this`entries, this`pending, this`buildInFlight
      ensures Valid() && pending == [] && !buildInFlight
      ensures entries == Replay(env, fieldPath, old(entries), old(pending))
    {
      if pending != [] {
        var ops := pending;
        pending := [];
        for i := 0 to |ops|
          invariant Valid() && pending == []
          invariant entries == Replay(env, fieldPath, old(entries), ops[..i])
        {
          assert ops[..i + 1][..i] == ops[..i];
          ApplyOp(env, ops[i]);
        }
        assert ops[..|ops|] == ops;
      }
      buildInFlight := false;
    }

    /** LookupIn over collectMatchingLocked, deduplicated by key; LookupEqual is the single-value case.
        Returns exactly the indexed keys whose value equals one of the given ones. */
    method LookupIn(values: seq<Value>) returns (out: map<string, Treasure>)
      requires Valid()
      ensures out == Matched(entries, values)
    {
      out := map[];
      if !equalityInit { return; }
      var todo := byValue.Keys;
      assert forall k | k in entries :: InSlot(byValue, entries[k].value, k);
      while todo != {}
        invariant todo <= byValue.Keys
        invariant forall k :: k in out <==>
                    k in entries && entries[k].value !in todo && MatchesOne(entries[k].value, values)
        invariant forall k | k in out :: out[k] == entries[k].item
        decreases |todo|
      {
        var value :| value in todo;
        todo := todo - {value};
        assert forall k :: InSlot(byValue, value, k) <==> k in entries && entries[k].value == value;
        if MatchesOne(value, values) {
          out := out + byValue[value];
        }
      }
    }
  }

  predicate MatchesOne(key: CanonKey, values: seq<Value>) {
    exists w | w in values :: CanonEqual(key, Canonicalize(w))
  }

  /** The indexed treasures whose value equals one of those given. */
  function Matched(index: Entries, values: seq<Value>): map<string, Treasure> {
    map k | k in index && MatchesOne(index[k].value, values) :: index[k].item
  }

  /** What a lookup over a scanned bucket returns is what the index says of each treasure by itself. */
  lemma ScanReflects(env: Env, path: string, ts: seq<Treasure>, values: seq<Value>, t: Treasure)
    requires DistinctKeys(ts)
    ensures var index := Scan(env, path, ts);
            (t.key in index && index[t.key].item == t && MatchesOne(index[t.key].value, values)) <==>
            (t in ts && IndexHits(env, t, BucketHint(path, HintIn, values)))
  {
    ScanIsExact(env, path, ts);
    if t in ts {
      var i :| 0 <= i < |ts| && ts[i] == t;
    }
  }

  /** Build then drain: whatever was buffered meanwhile ends up on top of the snapshot. */
  method BuildAndDrain(env: Env, b: FieldBucket, snapshot: seq<Treasure>)
    requires b.Valid() && !b.equalityInit && DistinctKeys(snapshot)
    modifies b
    ensures b.Valid() && b.equalityInit && !b.buildInFlight && b.pending == []
    ensures b.entries == Replay(env, b.fieldPath, Scan(env, b.fieldPath, snapshot), old(b.pending))
  {
    b.BuildEquality(env, snapshot);
    b.DrainPending(env);
  }
}
