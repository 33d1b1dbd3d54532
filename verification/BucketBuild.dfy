/** Buckets built while writers run (app/core/hydra/swamp/swamp_bucket.go with
    app/core/hydra/swamp/bucket/bucket.go): a step system of writers that mutate, copy the bucket list and
    deliver, racing with callers of GetOrBuildBucket that register, snapshot, build once and drain. Each
    step is one critical section of the source. */
module BucketBuild {
  import opened Optional

  /** A delivered mutation. An upsert carries the treasure object; its body is read when it is applied. */
  datatype Op = Upsert(key: string, obj: nat) | Delete(key: string)

  /** The swamp: which object each key holds, the bodies of objects, and how a bucket for a field path
      derives its index key from a body. */
  datatype Memory<!B(!new), !V(!new)> = Memory(
    indexKey: (string, B) -> V, store: map<string, nat>, heap: nat -> B, inUse: set<nat>)

  /** Where a caller inside the slow path of GetOrBuildBucket stands. */
  datatype Phase<B> =
    | Entered
    | Snapping(objs: map<string, nat>, snap: map<string, B>)
    | Draining(batch: seq<Op>)

  datatype Bucket<B, V> = Bucket(
    path: string, inFlight: bool, initialized: bool, view: map<string, V>, pending: seq<Op>,
    callers: map<nat, Phase<B>>)

  /** A writer between its mutation and the end of its notify loop: before the list is copied every
      registered bucket is still owed; afterwards those in `todo`, and the one being applied to. */
  datatype Writer = Writer(op: Op, copied: bool, todo: set<nat>, applying: Option<nat>)

  datatype State<!B(!new), !V(!new)> = State(
    mem: Memory<B, V>, registered: map<string, nat>, buckets: map<nat, Bucket<B, V>>, writers: map<nat, Writer>)

  // ---- views ----

  function ApplyOp<B(!new), V(!new)>(m: Memory<B, V>, path: string, view: map<string, V>, op: Op): map<string, V> {
    match op
    case Upsert(key, obj) => view[key := m.indexKey(path, m.heap(obj))]
    case Delete(key) => view - {key}
  }

  function Replay<B(!new), V(!new)>(m: Memory<B, V>, path: string, view: map<string, V>, ops: seq<Op>): map<string, V> {
    if ops == [] then view
    else ApplyOp(m, path, Replay(m, path, view, ops[..|ops| - 1]), ops[|ops| - 1])
  }

  /** The last operation on a key. */
  function LastOn(ops: seq<Op>, key: string): Option<Op> {
    if ops == [] then None
    else if ops[|ops| - 1].key == key then Some(ops[|ops| - 1])
    else LastOn(ops[..|ops| - 1], key)
  }

  lemma LastOnAppend(ops: seq<Op>, op: Op, key: string)
    ensures LastOn(ops + [op], key) == if op.key == key then Some(op) else LastOn(ops, key)
  {
    assert (ops + [op])[..|ops|] == ops;
  }

  lemma {:induction false} LastOnKey(ops: seq<Op>, key: string)
    ensures LastOn(ops, key).Some? ==> LastOn(ops, key).value.key == key
  {
    if ops != [] { LastOnKey(ops[..|ops| - 1], key); }
  }

  /** What a replay leaves at a key is decided by the last operation on it. */
  lemma {:induction false} ReplayAt<B(!new), V(!new)>(
    m: Memory<B, V>, path: string, view: map<string, V>, ops: seq<Op>, key: string)
    ensures var after := Replay(m, path, view, ops);
            match LastOn(ops, key)
            case None => (key in after <==> key in view) && (key in view ==> after[key] == view[key])
            case Some(Upsert(_, obj)) => key in after && after[key] == m.indexKey(path, m.heap(obj))
            case Some(Delete(_)) => key !in after
  {
    if ops != [] { ReplayAt(m, path, view, ops[..|ops| - 1], key); }
  }

  // ---- memory and bucket transitions ----

  function Write<B(!new)>(heap: nat -> B, obj: nat, body: B): nat -> B {
    (o: nat) => if o == obj then body else heap(o)
  }

  /** beaconKey.Add of a new treasure. */
  function Insert<B(!new), V(!new)>(m: Memory<B, V>, key: string, obj: nat, body: B): Memory<B, V> {
    m.(store := m.store[key := obj], heap := Write(m.heap, obj, body), inUse := m.inUse + {obj})
  }

  /** In-place change of a stored treasure's body. */
  function Update<B(!new), V(!new)>(m: Memory<B, V>, key: string, body: B): Memory<B, V>
    requires key in m.store
  {
    m.(heap := Write(m.heap, m.store[key], body))
  }

  /** deleteHandler: the key leaves the store and the object's content may be cleared. */
  function Remove<B(!new), V(!new)>(m: Memory<B, V>, key: string, body: B): Memory<B, V>
    requires key in m.store
  {
    m.(store := m.store - {key}, heap := Write(m.heap, m.store[key], body))
  }

  /** tryEnqueue while the build is in flight. */
  function Buffered<B, V>(bk: Bucket<B, V>, op: Op): Bucket<B, V> {
    bk.(pending := bk.pending + [op])
  }

  /** The direct path under the bucket's mutex. */
  function Applied<B(!new), V(!new)>(m: Memory<B, V>, bk: Bucket<B, V>, op: Op): Bucket<B, V> {
    bk.(view := ApplyOp(m, bk.path, bk.view, op))
  }

  function WithPhase<B, V>(bk: Bucket<B, V>, i: nat, phase: Phase<B>): Bucket<B, V> {
    bk.(callers := bk.callers[i := phase])
  }

  function Left<B, V>(bk: Bucket<B, V>, i: nat): Bucket<B, V> {
    bk.(callers := bk.callers - {i})
  }

  /** BuildEquality under sync.Once: the first caller builds, later ones find it done. */
  function Built<B(!new), V(!new)>(m: Memory<B, V>, bk: Bucket<B, V>, i: nat, snap: map<string, B>): Bucket<B, V> {
    var built := if bk.initialized then bk
                 else bk.(initialized := true, view := map k | k in snap :: m.indexKey(bk.path, snap[k]));
    WithPhase(built, i, Draining([]))
  }

  /** DrainPending's section under pendingMu: clear the flag on an empty buffer, otherwise take it. */
  function Taken<B, V>(bk: Bucket<B, V>, i: nat): Bucket<B, V> {
    if bk.pending == [] then Left(bk.(inFlight := false), i)
    else WithPhase(bk.(pending := []), i, Draining(bk.pending))
  }

  /** DrainPending's replay of a taken batch under the bucket's mutex. */
  function Replayed<B(!new), V(!new)>(m: Memory<B, V>, bk: Bucket<B, V>, i: nat, batch: seq<Op>): Bucket<B, V> {
    WithPhase(bk.(view := Replay(m, bk.path, bk.view, batch)), i, Draining([]))
  }

  // ---- steps ----

  datatype Step<B> =
    | InsertStep(w: nat, key: string, obj: nat, body: B)
    | UpdateStep(w: nat, key: string, body: B)
    | RemoveStep(w: nat, key: string, body: B)
    | CopyList(w: nat)
    | TryEnqueue(w: nat, b: nat)
    | ApplyDirect(w: nat)
    | FinishWrite(w: nat)
    | Register(path: string, b: nat, i: nat)
    | FoundBuilt(b: nat, i: nat)
    | StartSnapshot(b: nat, i: nat)
    | SnapRead(b: nat, i: nat, key: string)
    | Build(b: nat, i: nat)
    | Take(b: nat, i: nat)
    | ApplyBatch(b: nat, i: nat)
    | DropAll

  predicate NoWriterOn<B(!new), V(!new)>(s: State<B, V>, key: string) {
    forall w | w in s.writers :: s.writers[w].op.key != key
  }

  predicate Delivering<B(!new), V(!new)>(s: State<B, V>, w: nat) {
    w in s.writers && s.writers[w].copied
  }

  predicate InPhase<B(!new), V(!new)>(s: State<B, V>, b: nat, i: nat) {
    b in s.buckets && i in s.buckets[b].callers
  }

  /** Is the step possible? Writers of one key are serialised by its guard. */
  predicate Enabled<B(!new), V(!new)>(s: State<B, V>, step: Step<B>) {
    match step
    case InsertStep(w, key, obj, _) =>
      w !in s.writers && NoWriterOn(s, key) && key !in s.mem.store && obj !in s.mem.inUse
    case UpdateStep(w, key, _) => w !in s.writers && NoWriterOn(s, key) && key in s.mem.store
    case RemoveStep(w, key, _) => w !in s.writers && NoWriterOn(s, key) && key in s.mem.store
    case CopyList(w) => w in s.writers && !s.writers[w].copied
    case TryEnqueue(w, b) => Delivering(s, w) && s.writers[w].applying.None? && b in s.writers[w].todo && b in s.buckets
    case ApplyDirect(w) => Delivering(s, w) && s.writers[w].applying.Some? && s.writers[w].applying.value in s.buckets
    case FinishWrite(w) => Delivering(s, w) && s.writers[w].todo == {} && s.writers[w].applying.None?
    case Register(path, b, i) =>
      if path in s.registered then b == s.registered[path] && b in s.buckets && i !in s.buckets[b].callers
      else b !in s.buckets
    case FoundBuilt(b, i) => InPhase(s, b, i) && s.buckets[b].callers[i].Entered? && s.buckets[b].initialized
    case StartSnapshot(b, i) => InPhase(s, b, i) && s.buckets[b].callers[i].Entered? && !s.buckets[b].initialized
    case SnapRead(b, i, key) =>
      InPhase(s, b, i) && s.buckets[b].callers[i].Snapping? && key in s.buckets[b].callers[i].objs
    case Build(b, i) =>
      InPhase(s, b, i) && s.buckets[b].callers[i].Snapping? &&
      s.buckets[b].callers[i].snap.Keys == s.buckets[b].callers[i].objs.Keys
    case Take(b, i) => InPhase(s, b, i) && s.buckets[b].callers[i] == Draining([])
    case ApplyBatch(b, i) =>
      InPhase(s, b, i) && s.buckets[b].callers[i].Draining? && s.buckets[b].callers[i].batch != []
    case DropAll => true
  }

  function WithBucket<B(!new), V(!new)>(s: State<B, V>, b: nat, bk: Bucket<B, V>): State<B, V> {
    s.(buckets := s.buckets[b := bk])
  }

  function WithWriter<B(!new), V(!new)>(s: State<B, V>, w: nat, writer: Writer): State<B, V> {
    s.(writers := s.writers[w := writer])
  }

  function Mutated<B(!new), V(!new)>(s: State<B, V>, m: Memory<B, V>, w: nat, op: Op): State<B, V> {
    WithWriter(s.(mem := m), w, Writer(op, false, {}, None))
  }

  function Tried<B(!new), V(!new)>(s: State<B, V>, w: nat, b: nat): State<B, V>
    requires w in s.writers && b in s.buckets
  {
    var writer := s.writers[w].(todo := s.writers[w].todo - {b});
    if s.buckets[b].inFlight then WithWriter(WithBucket(s, b, Buffered(s.buckets[b], writer.op)), w, writer)
    else if s.buckets[b].initialized then WithWriter(s, w, writer.(applying := Some(b)))
    else WithWriter(s, w, writer)
  }

  function Next<B(!new), V(!new)>(s: State<B, V>, step: Step<B>): State<B, V>
    requires Enabled(s, step)
  {
    match step
    case InsertStep(w, key, obj, body) => Mutated(s, Insert(s.mem, key, obj, body), w, Upsert(key, obj))
    case UpdateStep(w, key, body) => Mutated(s, Update(s.mem, key, body), w, Upsert(key, s.mem.store[key]))
    case RemoveStep(w, key, body) => Mutated(s, Remove(s.mem, key, body), w, Delete(key))
    case CopyList(w) => WithWriter(s, w, s.writers[w].(copied := true, todo := s.registered.Values))
    case TryEnqueue(w, b) => Tried(s, w, b)
    case ApplyDirect(w) =>
      var b := s.writers[w].applying.value;
      WithWriter(WithBucket(s, b, Applied(s.mem, s.buckets[b], s.writers[w].op)), w, s.writers[w].(applying := None))
    case FinishWrite(w) => s.(writers := s.writers - {w})
    case Register(path, b, i) =>
      if path in s.registered then WithBucket(s, b, WithPhase(s.buckets[b], i, Entered))
      else
        var bk := Bucket(path, true, false, map[], [], map[i := Entered]);
        WithBucket(s, b, bk).(registered := s.registered[path := b])
    case FoundBuilt(b, i) => WithBucket(s, b, Left(s.buckets[b], i))
    case StartSnapshot(b, i) => WithBucket(s, b, WithPhase(s.buckets[b], i, Snapping(s.mem.store, map[])))
    case SnapRead(b, i, key) =>
      var phase := s.buckets[b].callers[i];
      WithBucket(s, b, WithPhase(s.buckets[b], i, phase.(snap := phase.snap[key := s.mem.heap(phase.objs[key])])))
    case Build(b, i) => WithBucket(s, b, Built(s.mem, s.buckets[b], i, s.buckets[b].callers[i].snap))
    case Take(b, i) => WithBucket(s, b, Taken(s.buckets[b], i))
    case ApplyBatch(b, i) => WithBucket(s, b, Replayed(s.mem, s.buckets[b], i, s.buckets[b].callers[i].batch))
    case DropAll => s.(registered := map[])
  }

  /** Nothing the source lets writers do is missing from the runs: with no other writer on the key, an absent key
      may be inserted and a stored one updated or removed; a writer may then copy the list, try each bucket it
      owes, apply, and finish. */
  lemma WriterStepsAvailable<B(!new), V(!new)>(s: State<B, V>, w: nat, key: string, obj: nat, body: B, b: nat)
    ensures w !in s.writers && NoWriterOn(s, key) && key !in s.mem.store && obj !in s.mem.inUse ==>
              Enabled(s, InsertStep(w, key, obj, body))
    ensures w !in s.writers && NoWriterOn(s, key) && key in s.mem.store ==>
              Enabled(s, UpdateStep(w, key, body)) && Enabled(s, RemoveStep(w, key, body))
    ensures w in s.writers && !s.writers[w].copied ==> Enabled(s, CopyList(w))
    ensures w in s.writers && s.writers[w].copied && s.writers[w].applying.None? ==>
              (b in s.writers[w].todo && b in s.buckets ==> Enabled(s, TryEnqueue(w, b))) &&
              (s.writers[w].todo == {} ==> Enabled(s, FinishWrite(w)))
    ensures w in s.writers && s.writers[w].copied && s.writers[w].applying == Some(b) && b in s.buckets ==>
              Enabled(s, ApplyDirect(w))
  {}

  /** Nor what callers do: enter any registered or new bucket, */
  lemma EntryAvailable<B(!new), V(!new)>(s: State<B, V>, path: string, b: nat, i: nat)
    ensures path !in s.registered && b !in s.buckets ==> Enabled(s, Register(path, b, i))
    ensures path in s.registered && b == s.registered[path] && b in s.buckets && i !in s.buckets[b].callers ==>
              Enabled(s, Register(path, b, i))
    ensures Enabled<B, V>(s, DropAll)
  {}

  /** leave a built one, snapshot and read every stored key, build once all are read, take, and apply what was
      taken. */
  lemma CallerStepsAvailable<B(!new), V(!new)>(s: State<B, V>, b: nat, i: nat, key: string)
    requires InPhase(s, b, i)
    ensures match s.buckets[b].callers[i]
            case Entered =>
              if s.buckets[b].initialized then Enabled(s, FoundBuilt(b, i)) else Enabled(s, StartSnapshot(b, i))
            case Snapping(objs, snap) =>
              (key in objs ==> Enabled(s, SnapRead(b, i, key))) &&
              (snap.Keys == objs.Keys ==> Enabled(s, Build(b, i)))
            case Draining(batch) => if batch == [] then Enabled(s, Take(b, i)) else Enabled(s, ApplyBatch(b, i))
  {}

  // ---- the invariant ----

  ghost predicate Owes(writer: Writer, b: nat) {
    !writer.copied || b in writer.todo || writer.applying == Some(b)
  }

  /** Some writer of the key has mutated the store and not yet delivered to the bucket. */
  ghost predicate Owed<B(!new), V(!new)>(s: State<B, V>, b: nat, key: string) {
    exists w | w in s.writers :: s.writers[w].op.key == key && Owes(s.writers[w], b)
  }

  /** A caller draining the bucket with operations taken and not yet applied. */
  ghost predicate Holds<B, V>(bk: Bucket<B, V>, i: nat) {
    i in bk.callers && bk.callers[i].Draining? && bk.callers[i].batch != []
  }

  /** The operation's effect is what the store now says about its key. */
  ghost predicate Current<B(!new), V(!new)>(m: Memory<B, V>, op: Op) {
    match op
    case Upsert(key, obj) => key in m.store && m.store[key] == obj
    case Delete(key) => key !in m.store
  }

  /** The bucket's view of a key is a recomputation from the store. */
  ghost predicate ViewRight<B(!new), V(!new)>(m: Memory<B, V>, bk: Bucket<B, V>, key: string) {
    (key in bk.view <==> key in m.store) &&
    (key in m.store && key in bk.view ==> bk.view[key] == m.indexKey(bk.path, m.heap(m.store[key])))
  }

  /** A snapshot in progress agrees with the store on a key. */
  ghost predicate SnapRight<B(!new), V(!new)>(m: Memory<B, V>, phase: Phase<B>, key: string)
    requires phase.Snapping?
  {
    (key in phase.objs <==> key in m.store) &&
    (key in m.store && key in phase.objs ==> phase.objs[key] == m.store[key]) &&
    (key in phase.snap ==> key in m.store && phase.snap[key] == m.heap(m.store[key]))
  }

  /** What will decide the view of a key once everything outstanding is applied is right: the last buffered
      operation, else the last one in a taken batch, else the view or the snapshots it will come from. */
  ghost predicate KeyRight<B(!new), V(!new)>(m: Memory<B, V>, bk: Bucket<B, V>, key: string) {
    var buffered := LastOn(bk.pending, key);
    if buffered.Some? then Current(m, buffered.value)
    else
      (forall i | Holds(bk, i) && LastOn(bk.callers[i].batch, key).Some? ::
        Current(m, LastOn(bk.callers[i].batch, key).value)) &&
      ((forall i | Holds(bk, i) :: LastOn(bk.callers[i].batch, key).None?) ==>
        if bk.initialized then ViewRight(m, bk, key)
        else forall i | i in bk.callers && bk.callers[i].Snapping? :: SnapRight(m, bk.callers[i], key))
  }

  /** Structure of a bucket; a taken batch is the only one, and the flag is still up. */
  ghost predicate BucketShape<B, V>(bk: Bucket<B, V>) {
    (!bk.initialized ==> forall i | i in bk.callers :: !bk.callers[i].Draining?) &&
    (!bk.inFlight ==> bk.initialized && bk.pending == []) &&
    (forall i | Holds(bk, i) :: bk.inFlight) &&
    (forall i, j | Holds(bk, i) && Holds(bk, j) :: i == j)
  }

  /** Stored objects are in use and no two keys share one. */
  ghost predicate Separate<B(!new), V(!new)>(m: Memory<B, V>) {
    (forall k | k in m.store :: m.store[k] in m.inUse) &&
    forall k, k' | k in m.store && k' in m.store && m.store[k] == m.store[k'] :: k == k'
  }

  ghost predicate WritersShape<B(!new), V(!new)>(s: State<B, V>) {
    (forall w | w in s.writers :: Current(s.mem, s.writers[w].op)) &&
    (forall w, v | w in s.writers && v in s.writers && w != v :: s.writers[w].op.key != s.writers[v].op.key) &&
    (forall w | w in s.writers && s.writers[w].applying.Some? ::
      s.writers[w].applying.value in s.buckets && !s.buckets[s.writers[w].applying.value].inFlight)
  }

  ghost predicate Inv<B(!new), V(!new)>(s: State<B, V>) {
    Separate(s.mem) && WritersShape(s) &&
    (forall b | b in s.buckets :: BucketShape(s.buckets[b])) &&
    (forall p | p in s.registered :: s.registered[p] in s.buckets) &&
    forall p, key | p in s.registered ::
      Owed(s, s.registered[p], key) || KeyRight(s.mem, s.buckets[s.registered[p]], key)
  }

  // ---- bucket transitions keep keys right ----

  ghost predicate SameAt<B(!new), V(!new)>(m: Memory<B, V>, m': Memory<B, V>, key: string) {
    m'.indexKey == m.indexKey && (key in m'.store <==> key in m.store) &&
    (key in m.store && key in m'.store ==>
      m'.store[key] == m.store[key] && m'.heap(m.store[key]) == m.heap(m.store[key]))
  }

  /** A key's correctness reads the store at that key only. */
  lemma KeyRightFrame<B(!new), V(!new)>(m: Memory<B, V>, m': Memory<B, V>, bk: Bucket<B, V>, key: string)
    requires KeyRight(m, bk, key) && SameAt(m, m', key)
    ensures KeyRight(m', bk, key)
  {
    LastOnKey(bk.pending, key);
    forall i | Holds(bk, i)
      ensures LastOn(bk.callers[i].batch, key).Some? ==> LastOn(bk.callers[i].batch, key).value.key == key
    {
      LastOnKey(bk.callers[i].batch, key);
    }
  }

  lemma BufferRight<B(!new), V(!new)>(m: Memory<B, V>, bk: Bucket<B, V>, op: Op, key: string)
    requires Current(m, op) && (key == op.key || KeyRight(m, bk, key))
    ensures KeyRight(m, Buffered(bk, op), key)
  {
    LastOnAppend(bk.pending, op, key);
    assert forall i :: Holds(Buffered(bk, op), i) <==> Holds(bk, i);
  }

  lemma DirectRight<B(!new), V(!new)>(m: Memory<B, V>, bk: Bucket<B, V>, op: Op, key: string)
    requires Current(m, op) && BucketShape(bk) && !bk.inFlight && (key == op.key || KeyRight(m, bk, key))
    ensures KeyRight(m, Applied(m, bk, op), key)
  {
    assert forall i :: Holds(Applied(m, bk, op), i) <==> Holds(bk, i);
    assert forall i :: !Holds(bk, i);
  }

  /** Entering, leaving and snapshotting change no drain and leave snapshots right. */
  lemma CallerRight<B(!new), V(!new)>(m: Memory<B, V>, bk: Bucket<B, V>, bk': Bucket<B, V>, i: nat, key: string)
    requires KeyRight(m, bk, key) && bk' == bk.(callers := bk'.callers) && !Holds(bk, i) && !Holds(bk', i)
    requires forall j | j != i ::
               (j in bk.callers <==> j in bk'.callers) && (j in bk.callers ==> bk'.callers[j] == bk.callers[j])
    requires !bk.initialized && i in bk'.callers && bk'.callers[i].Snapping? &&
             (i in bk.callers && bk.callers[i].Snapping? ==> SnapRight(m, bk.callers[i], key)) ==>
             SnapRight(m, bk'.callers[i], key)
    ensures KeyRight(m, bk', key)
  {
    assert forall j :: Holds(bk', j) <==> Holds(bk, j);
    assert forall j | Holds(bk, j) :: bk'.callers[j] == bk.callers[j];
  }

  lemma BuildRight<B(!new), V(!new)>(m: Memory<B, V>, bk: Bucket<B, V>, i: nat, key: string)
    requires BucketShape(bk) && KeyRight(m, bk, key) && i in bk.callers && bk.callers[i].Snapping?
    requires bk.callers[i].snap.Keys == bk.callers[i].objs.Keys
    ensures KeyRight(m, Built(m, bk, i, bk.callers[i].snap), key)
  {
    var bk' := Built(m, bk, i, bk.callers[i].snap);
    assert forall j :: Holds(bk', j) <==> Holds(bk, j);
    assert forall j | Holds(bk, j) :: bk'.callers[j] == bk.callers[j];
    if !bk.initialized && LastOn(bk.pending, key).None? {
      assert forall j :: !Holds(bk, j);
      assert key in bk.callers[i].snap.Keys <==> key in bk.callers[i].objs.Keys;
    }
  }

  /** Taking the buffer, when nobody else holds a batch. */
  lemma TakeRight<B(!new), V(!new)>(m: Memory<B, V>, bk: Bucket<B, V>, i: nat, key: string)
    requires BucketShape(bk) && KeyRight(m, bk, key) && i in bk.callers && bk.callers[i] == Draining([])
    requires forall j :: !Holds(bk, j)
    ensures KeyRight(m, Taken(bk, i), key) && BucketShape(Taken(bk, i))
  {
    var bk' := Taken(bk, i);
    assert forall j | j != i :: Holds(bk', j) <==> Holds(bk, j);
    if bk.pending != [] { assert Holds(bk', i) && LastOn([], key) == None; }
  }

  lemma ReplayRight<B(!new), V(!new)>(m: Memory<B, V>, bk: Bucket<B, V>, i: nat, key: string)
    requires BucketShape(bk) && KeyRight(m, bk, key) && Holds(bk, i)
    ensures KeyRight(m, Replayed(m, bk, i, bk.callers[i].batch), key)
    ensures BucketShape(Replayed(m, bk, i, bk.callers[i].batch))
  {
    var batch := bk.callers[i].batch;
    var bk' := Replayed(m, bk, i, batch);
    assert forall j :: Holds(bk', j) ==> Holds(bk, j) && j != i;
    assert forall j :: !Holds(bk', j);
    ReplayAt(m, bk.path, bk.view, batch, key);
    LastOnKey(batch, key);
  }

  // ---- every step keeps the invariant ----

  /** Steps of writers that leave every bucket as it was and owe at least what they owed. */
  lemma WriterKeeps<B(!new), V(!new)>(s: State<B, V>, s': State<B, V>)
    requires Inv(s) && s' == s.(writers := s'.writers) && WritersShape(s')
    requires forall p, key | p in s.registered && Owed(s, s.registered[p], key) :: Owed(s', s.registered[p], key)
    ensures Inv(s')
  {}

  /** Steps that change one bucket only. */
  lemma BucketKeeps<B(!new), V(!new)>(s: State<B, V>, b: nat, bk: Bucket<B, V>)
    requires Inv(s) && b in s.buckets && BucketShape(bk) && (s.buckets[b].inFlight || !bk.inFlight)
    requires forall key | KeyRight(s.mem, s.buckets[b], key) :: KeyRight(s.mem, bk, key)
    ensures Inv(WithBucket(s, b, bk))
  {
    var s' := WithBucket(s, b, bk);
    assert forall c, key :: Owed(s', c, key) <==> Owed(s, c, key);
  }

  /** Replacing one writer by one with the same operation keeps what is owed to buckets it still owes. */
  lemma OwedAfter<B(!new), V(!new)>(s: State<B, V>, s': State<B, V>, w: nat, c: nat, key: string)
    requires w in s.writers && w in s'.writers && s'.writers == s.writers[w := s'.writers[w]]
    requires s'.writers[w].op == s.writers[w].op && Owed(s, c, key)
    requires Owes(s.writers[w], c) ==> Owes(s'.writers[w], c) || key != s.writers[w].op.key
    ensures Owed(s', c, key)
  {
    var v :| v in s.writers && s.writers[v].op.key == key && Owes(s.writers[v], c);
    assert s'.writers[v].op.key == key && Owes(s'.writers[v], c);
  }

  /** A mutation leaves every other key as it was. */
  ghost predicate MutatesOnly<B(!new), V(!new)>(m: Memory<B, V>, m': Memory<B, V>, op: Op) {
    Current(m', op) && Separate(m') && forall key | key != op.key :: SameAt(m, m', key)
  }

  lemma MutationKeeps<B(!new), V(!new)>(s: State<B, V>, m: Memory<B, V>, w: nat, op: Op)
    requires Inv(s) && w !in s.writers && NoWriterOn(s, op.key) && MutatesOnly(s.mem, m, op)
    ensures Inv(Mutated(s, m, w, op))
  {
    var s' := Mutated(s, m, w, op);
    forall v | v in s'.writers ensures Current(m, s'.writers[v].op) {
      if v != w { assert SameAt(s.mem, m, s.writers[v].op.key) && Current(s.mem, s.writers[v].op); }
    }
    forall p, key | p in s'.registered
      ensures Owed(s', s'.registered[p], key) || KeyRight(m, s'.buckets[s'.registered[p]], key)
    {
      var b := s.registered[p];
      if key == op.key {
        assert s'.writers[w].op.key == key && Owes(s'.writers[w], b);
      } else if Owed(s, b, key) {
        var v :| v in s.writers && s.writers[v].op.key == key && Owes(s.writers[v], b);
        assert s'.writers[v] == s.writers[v];
      } else {
        KeyRightFrame(s.mem, m, s.buckets[b], key);
      }
    }
  }

  lemma TryKeeps<B(!new), V(!new)>(s: State<B, V>, w: nat, b: nat)
    requires Inv(s) && Enabled(s, TryEnqueue(w, b))
    ensures Inv(Tried(s, w, b))
  {
    if s.buckets[b].inFlight { TryBufferKeeps(s, w, b); } else { TryDirectKeeps(s, w, b); }
  }

  lemma TryDirectKeeps<B(!new), V(!new)>(s: State<B, V>, w: nat, b: nat)
    requires Inv(s) && Enabled(s, TryEnqueue(w, b)) && !s.buckets[b].inFlight
    ensures Inv(Tried(s, w, b))
  {
    var s' := Tried(s, w, b);
    forall p, key | p in s.registered && Owed(s, s.registered[p], key) ensures Owed(s', s.registered[p], key) {
      OwedAfter(s, s', w, s.registered[p], key);
    }
    WriterKeeps(s, s');
  }

  lemma TryBufferKeeps<B(!new), V(!new)>(s: State<B, V>, w: nat, b: nat)
    requires Inv(s) && Enabled(s, TryEnqueue(w, b)) && s.buckets[b].inFlight
    ensures Inv(Tried(s, w, b))
  {
    var op, bk := s.writers[w].op, s.buckets[b];
    assert forall i :: Holds(Buffered(bk, op), i) <==> Holds(bk, i);
    forall key | key == op.key || KeyRight(s.mem, bk, key) ensures KeyRight(s.mem, Buffered(bk, op), key) {
      BufferRight(s.mem, bk, op, key);
    }
    DeliveryKeeps(s, w, b, Buffered(bk, op), s.writers[w].(todo := s.writers[w].todo - {b}));
  }

  lemma DirectKeeps<B(!new), V(!new)>(s: State<B, V>, w: nat)
    requires Inv(s) && Enabled(s, ApplyDirect(w))
    ensures Inv(Next(s, ApplyDirect(w)))
  {
    var b, op := s.writers[w].applying.value, s.writers[w].op;
    var bk := s.buckets[b];
    assert forall i :: Holds(Applied(s.mem, bk, op), i) <==> Holds(bk, i);
    forall key | key == op.key || KeyRight(s.mem, bk, key) ensures KeyRight(s.mem, Applied(s.mem, bk, op), key) {
      DirectRight(s.mem, bk, op, key);
    }
    DeliveryKeeps(s, w, b, Applied(s.mem, bk, op), s.writers[w].(applying := None));
  }

  /** A delivery: one bucket takes the operation, after which its writer owes it nothing. */
  lemma DeliveryKeeps<B(!new), V(!new)>(s: State<B, V>, w: nat, b: nat, bk: Bucket<B, V>, writer: Writer)
    requires Inv(s) && w in s.writers && b in s.buckets && BucketShape(bk) && bk.inFlight == s.buckets[b].inFlight
    requires writer.op == s.writers[w].op && writer.applying.None?
    requires forall d | d != b && Owes(s.writers[w], d) :: Owes(writer, d)
    requires forall key | key == writer.op.key || KeyRight(s.mem, s.buckets[b], key) :: KeyRight(s.mem, bk, key)
    ensures Inv(WithWriter(WithBucket(s, b, bk), w, writer))
  {
    var s' := WithWriter(WithBucket(s, b, bk), w, writer);
    forall p, key | p in s'.registered
      ensures Owed(s', s'.registered[p], key) || KeyRight(s.mem, s'.buckets[s'.registered[p]], key)
    {
      var c := s.registered[p];
      if !Owed(s', c, key) { DeliveredOrRight(s, s', w, b, c, key); }
    }
  }

  /** What one delivery to `b` no longer owes is its own key there. */
  lemma DeliveredOrRight<B(!new), V(!new)>(s: State<B, V>, s': State<B, V>, w: nat, b: nat, c: nat, key: string)
    requires w in s.writers && w in s'.writers && s'.writers == s.writers[w := s'.writers[w]]
    requires s'.writers[w].op == s.writers[w].op && !Owed(s', c, key)
    requires forall d | d != b && Owes(s.writers[w], d) :: Owes(s'.writers[w], d)
    ensures Owed(s, c, key) ==> c == b && key == s.writers[w].op.key
  {
    if Owed(s, c, key) && (c != b || key != s.writers[w].op.key) { OwedAfter(s, s', w, c, key); }
  }

  lemma WriterStepKeeps<B(!new), V(!new)>(s: State<B, V>, step: Step<B>)
    requires Inv(s) && Enabled(s, step) && (step.CopyList? || step.FinishWrite?)
    ensures Inv(Next(s, step))
  {
    var s', w := Next(s, step), step.w;
    forall p, key | p in s.registered && Owed(s, s.registered[p], key) ensures Owed(s', s.registered[p], key) {
      var v :| v in s.writers && s.writers[v].op.key == key && Owes(s.writers[v], s.registered[p]);
      assert v in s'.writers && s'.writers[v].op.key == key && Owes(s'.writers[v], s.registered[p]);
    }
    WriterKeeps(s, s');
  }

  lemma RegisterKeeps<B(!new), V(!new)>(s: State<B, V>, path: string, b: nat, i: nat)
    requires Inv(s) && Enabled(s, Register(path, b, i))
    ensures Inv(Next(s, Register(path, b, i)))
  {
    if path in s.registered {
      CallerKeeps(s, b, i, WithPhase(s.buckets[b], i, Entered));
    } else {
      NewBucketKeeps(s, path, b, Bucket(path, true, false, map[], [], map[i := Entered]));
    }
  }

  /** Nothing buffered, built or snapshotted yet. */
  ghost predicate Untouched<B, V>(bk: Bucket<B, V>) {
    !bk.initialized && bk.inFlight && bk.pending == [] && forall j | j in bk.callers :: bk.callers[j].Entered?
  }

  lemma UntouchedShape<B, V>(bk: Bucket<B, V>)
    requires Untouched(bk)
    ensures BucketShape(bk)
  {
    assert forall j :: !Holds(bk, j);
  }

  /** Such a bucket has nothing that could be wrong. */
  lemma UntouchedRight<B(!new), V(!new)>(m: Memory<B, V>, bk: Bucket<B, V>, key: string)
    requires Untouched(bk)
    ensures KeyRight(m, bk, key)
  {
    assert LastOn([], key) == None && forall j :: !Holds(bk, j);
  }

  lemma NewBucketKeeps<B(!new), V(!new)>(s: State<B, V>, path: string, b: nat, bk: Bucket<B, V>)
    requires Inv(s) && path !in s.registered && b !in s.buckets && Untouched(bk)
    ensures Inv(WithBucket(s, b, bk).(registered := s.registered[path := b]))
  {
    var s' := WithBucket(s, b, bk).(registered := s.registered[path := b]);
    UntouchedShape(bk);
    forall p, key | p in s'.registered
      ensures Owed(s', s'.registered[p], key) || KeyRight(s.mem, s'.buckets[s'.registered[p]], key)
    {
      if p == path {
        UntouchedRight(s.mem, bk, key);
      } else {
        OwedByWriters(s, s', s.registered[p], key);
      }
    }
  }

  /** What is owed depends on the writers alone. */
  lemma OwedByWriters<B(!new), V(!new)>(s: State<B, V>, s': State<B, V>, c: nat, key: string)
    requires s'.writers == s.writers
    ensures Owed(s', c, key) <==> Owed(s, c, key)
  {}

  /** Entering, leaving, starting and continuing a snapshot. */
  lemma CallerKeeps<B(!new), V(!new)>(s: State<B, V>, b: nat, i: nat, bk: Bucket<B, V>)
    requires Inv(s) && b in s.buckets && (i in s.buckets[b].callers ==> !s.buckets[b].callers[i].Draining?)
    requires bk == WithPhase(s.buckets[b], i, Entered) || bk == Left(s.buckets[b], i) ||
             (i in bk.callers && bk.callers[i].Snapping? && bk == WithPhase(s.buckets[b], i, bk.callers[i]) &&
              forall key | (i in s.buckets[b].callers && s.buckets[b].callers[i].Snapping? ==>
                             SnapRight(s.mem, s.buckets[b].callers[i], key)) ::
                SnapRight(s.mem, bk.callers[i], key))
    ensures Inv(WithBucket(s, b, bk))
  {
    assert forall j :: Holds(bk, j) <==> Holds(s.buckets[b], j);
    forall key | KeyRight(s.mem, s.buckets[b], key) ensures KeyRight(s.mem, bk, key) {
      CallerRight(s.mem, s.buckets[b], bk, i, key);
    }
    BucketKeeps(s, b, bk);
  }

  /** The discipline under which the index is right: a drainer takes the buffer (or clears the flag) only
      when no other drainer of the bucket holds an unapplied batch. */
  ghost predicate NoOverlap<B(!new), V(!new)>(s: State<B, V>, step: Step<B>) {
    step.Take? && step.b in s.buckets ==> forall j :: !Holds(s.buckets[step.b], j)
  }

  lemma BuildKeeps<B(!new), V(!new)>(s: State<B, V>, b: nat, i: nat)
    requires Inv(s) && Enabled(s, Build(b, i))
    ensures Inv(WithBucket(s, b, Built(s.mem, s.buckets[b], i, s.buckets[b].callers[i].snap)))
  {
    var bk := s.buckets[b];
    var bk' := Built(s.mem, bk, i, bk.callers[i].snap);
    assert forall j :: Holds(bk', j) <==> Holds(bk, j);
    forall key | KeyRight(s.mem, bk, key) ensures KeyRight(s.mem, bk', key) { BuildRight(s.mem, bk, i, key); }
    BucketKeeps(s, b, bk');
  }

  lemma TakeKeeps<B(!new), V(!new)>(s: State<B, V>, b: nat, i: nat)
    requires Inv(s) && Enabled(s, Take(b, i)) && NoOverlap(s, Take(b, i))
    ensures Inv(WithBucket(s, b, Taken(s.buckets[b], i)))
  {
    var bk := s.buckets[b];
    assert forall j | j != i :: Holds(Taken(bk, i), j) <==> Holds(bk, j);
    forall key | KeyRight(s.mem, bk, key) ensures KeyRight(s.mem, Taken(bk, i), key) { TakeRight(s.mem, bk, i, key); }
    BucketKeeps(s, b, Taken(bk, i));
  }

  lemma ReplayKeeps<B(!new), V(!new)>(s: State<B, V>, b: nat, i: nat)
    requires Inv(s) && Enabled(s, ApplyBatch(b, i))
    ensures Inv(WithBucket(s, b, Replayed(s.mem, s.buckets[b], i, s.buckets[b].callers[i].batch)))
  {
    var bk := s.buckets[b];
    var bk' := Replayed(s.mem, bk, i, bk.callers[i].batch);
    assert forall j :: Holds(bk', j) ==> Holds(bk, j) && j != i;
    forall key | KeyRight(s.mem, bk, key) ensures KeyRight(s.mem, bk', key) { ReplayRight(s.mem, bk, i, key); }
    BucketKeeps(s, b, bk');
  }

  lemma MutationStepKeeps<B(!new), V(!new)>(s: State<B, V>, step: Step<B>)
    requires Inv(s) && Enabled(s, step) && (step.InsertStep? || step.UpdateStep? || step.RemoveStep?)
    ensures Inv(Next(s, step))
  {
    match step
    case InsertStep(w, key, obj, body) => MutationKeeps(s, Insert(s.mem, key, obj, body), w, Upsert(key, obj));
    case UpdateStep(w, key, body) => MutationKeeps(s, Update(s.mem, key, body), w, Upsert(key, s.mem.store[key]));
    case RemoveStep(w, key, body) => MutationKeeps(s, Remove(s.mem, key, body), w, Delete(key));
  }

  lemma SnapshotStepKeeps<B(!new), V(!new)>(s: State<B, V>, step: Step<B>)
    requires Inv(s) && Enabled(s, step) && (step.FoundBuilt? || step.StartSnapshot? || step.SnapRead?)
    ensures Inv(Next(s, step))
  {
    match step
    case FoundBuilt(b, i) => CallerKeeps(s, b, i, Left(s.buckets[b], i));
    case StartSnapshot(b, i) => CallerKeeps(s, b, i, WithPhase(s.buckets[b], i, Snapping(s.mem.store, map[])));
    case SnapRead(b, i, key) =>
      var phase := s.buckets[b].callers[i];
      CallerKeeps(s, b, i, WithPhase(s.buckets[b], i, phase.(snap := phase.snap[key := s.mem.heap(phase.objs[key])])));
  }

  lemma StepKeeps<B(!new), V(!new)>(s: State<B, V>, step: Step<B>)
    requires Inv(s) && Enabled(s, step) && NoOverlap(s, step)
    ensures Inv(Next(s, step))
  {
    match step
    case InsertStep(_, _, _, _) => MutationStepKeeps(s, step);
    case UpdateStep(_, _, _) => MutationStepKeeps(s, step);
    case RemoveStep(_, _, _) => MutationStepKeeps(s, step);
    case CopyList(_) => WriterStepKeeps(s, step);
    case TryEnqueue(w, b) => TryKeeps(s, w, b);
    case ApplyDirect(w) => DirectKeeps(s, w);
    case FinishWrite(_) => WriterStepKeeps(s, step);
    case Register(path, b, i) => RegisterKeeps(s, path, b, i);
    case FoundBuilt(_, _) => SnapshotStepKeeps(s, step);
    case StartSnapshot(_, _) => SnapshotStepKeeps(s, step);
    case SnapRead(_, _, _) => SnapshotStepKeeps(s, step);
    case Build(b, i) => BuildKeeps(s, b, i);
    case Take(b, i) => TakeKeeps(s, b, i);
    case ApplyBatch(b, i) => ReplayKeeps(s, b, i);
    case DropAll =>
      var s' := s.(registered := map[]);
      assert forall c, key :: Owed(s', c, key) <==> Owed(s, c, key);
  }

  // ---- runs ----

  ghost predicate Initial<B(!new), V(!new)>(s: State<B, V>) {
    s.registered == map[] && s.buckets == map[] && s.writers == map[] && Separate(s.mem)
  }

  ghost predicate ValidRun<B(!new), V(!new)>(s: State<B, V>, steps: seq<Step<B>>)
    decreases |steps|
  {
    steps == [] || (Enabled(s, steps[0]) && ValidRun(Next(s, steps[0]), steps[1..]))
  }

  ghost function Exec<B(!new), V(!new)>(s: State<B, V>, steps: seq<Step<B>>): State<B, V>
    requires ValidRun(s, steps)
    decreases |steps|
  {
    if steps == [] then s else Exec(Next(s, steps[0]), steps[1..])
  }

  /** No drain of the run overlaps another. */
  ghost predicate DrainsApart<B(!new), V(!new)>(s: State<B, V>, steps: seq<Step<B>>)
    requires ValidRun(s, steps)
    decreases |steps|
  {
    steps == [] || (NoOverlap(s, steps[0]) && DrainsApart(Next(s, steps[0]), steps[1..]))
  }

  lemma {:induction false} RunKeeps<B(!new), V(!new)>(s: State<B, V>, steps: seq<Step<B>>)
    requires Inv(s) && ValidRun(s, steps) && DrainsApart(s, steps)
    ensures Inv(Exec(s, steps))
    decreases steps
  {
    if steps != [] {
      StepKeeps(s, steps[0]);
      RunKeeps(Next(s, steps[0]), steps[1..]);
    }
  }

  // ---- what a run has written ----

  /** What a step writes at a key: nothing said, a body, or (None) the key's removal. */
  function Writes<B>(step: Step<B>, key: string): Option<Option<B>> {
    match step
    case InsertStep(_, k, _, body) => if k == key then Some(Some(body)) else None
    case UpdateStep(_, k, body) => if k == key then Some(Some(body)) else None
    case RemoveStep(_, k, _) => if k == key then Some(None) else None
    case _ => None
  }

  /** The last write of a key in a list of steps. */
  function LastWritten<B>(steps: seq<Step<B>>, key: string): Option<Option<B>> {
    if steps == [] then None
    else
      var later := LastWritten(steps[1..], key);
      if later.Some? then later else Writes(steps[0], key)
  }

  /** The store holds at a key what was written there, or what it held before if nothing was. */
  ghost predicate Holding<B(!new), V(!new)>(
    before: Memory<B, V>, after: Memory<B, V>, written: Option<Option<B>>, key: string)
  {
    match written
    case None => SameAt(before, after, key)
    case Some(None) => key !in after.store
    case Some(Some(body)) => key in after.store && after.heap(after.store[key]) == body
  }

  lemma StepWrites<B(!new), V(!new)>(s: State<B, V>, step: Step<B>, key: string)
    requires Separate(s.mem) && Enabled(s, step)
    ensures Separate(Next(s, step).mem) && Next(s, step).mem.indexKey == s.mem.indexKey
    ensures Holding(s.mem, Next(s, step).mem, Writes(step, key), key)
  {}

  /** Over every run the body stored at a key is that of the last insert or update of the key, it is gone after a
      removal, and otherwise it is what it was. */
  lemma {:induction false} StoreIsLastWritten<B(!new), V(!new)>(s: State<B, V>, steps: seq<Step<B>>, key: string)
    requires Separate(s.mem) && ValidRun(s, steps)
    ensures Exec(s, steps).mem.indexKey == s.mem.indexKey
    ensures Holding(s.mem, Exec(s, steps).mem, LastWritten(steps, key), key)
    decreases |steps|
  {
    if steps != [] {
      StepWrites(s, steps[0], key);
      StoreIsLastWritten(Next(s, steps[0]), steps[1..], key);
    }
  }

  /** Registered buckets are for the path they are registered under. */
  ghost predicate WellFiled<B(!new), V(!new)>(s: State<B, V>) {
    forall p | p in s.registered :: s.registered[p] in s.buckets && s.buckets[s.registered[p]].path == p
  }

  lemma StepFiles<B(!new), V(!new)>(s: State<B, V>, step: Step<B>)
    requires WellFiled(s) && Enabled(s, step)
    ensures WellFiled(Next(s, step))
  {}

  lemma {:induction false} RunFiles<B(!new), V(!new)>(s: State<B, V>, steps: seq<Step<B>>)
    requires WellFiled(s) && ValidRun(s, steps)
    ensures WellFiled(Exec(s, steps))
    decreases |steps|
  {
    if steps != [] {
      StepFiles(s, steps[0]);
      RunFiles(Next(s, steps[0]), steps[1..]);
    }
  }

  /** The view files a key under the body last written there, or the one it started with. */
  ghost predicate ViewShows<B(!new), V(!new)>(
    start: Memory<B, V>, path: string, view: map<string, V>, written: Option<Option<B>>, key: string)
  {
    match written
    case None =>
      (key in view <==> key in start.store) &&
      (key in view && key in start.store ==> view[key] == start.indexKey(path, start.heap(start.store[key])))
    case Some(None) => key !in view
    case Some(Some(body)) => key in view && view[key] == start.indexKey(path, body)
  }

  /** A registered bucket at rest: its build flag is down and no writer is between mutating the key and
      delivering it here. */
  ghost predicate Settled<B(!new), V(!new)>(s: State<B, V>, path: string, key: string) {
    path in s.registered && s.registered[path] in s.buckets && !s.buckets[s.registered[path]].inFlight &&
    !Owed(s, s.registered[path], key)
  }

  /** Over every run with any number of writers and callers whose drains do not overlap, a settled bucket
      shows for every key what a fresh scan of the store would: the index key of the body last written to it. */
  lemma SettledBucketAgrees<B(!new), V(!new)>(s: State<B, V>, steps: seq<Step<B>>, path: string, key: string)
    requires Initial(s) && ValidRun(s, steps) && DrainsApart(s, steps)
    requires Settled(Exec(s, steps), path, key)
    ensures var end := Exec(s, steps); ViewRight(end.mem, end.buckets[end.registered[path]], key)
    ensures var end := Exec(s, steps);
            ViewShows(s.mem, path, end.buckets[end.registered[path]].view, LastWritten(steps, key), key)
  {
    RunKeeps(s, steps);
    SettledIsRight(Exec(s, steps), path, key);
    RightShows(s, steps, path, key);
  }

  /** A right view shows what was last written. */
  lemma RightShows<B(!new), V(!new)>(s: State<B, V>, steps: seq<Step<B>>, path: string, key: string)
    requires Initial(s) && ValidRun(s, steps) && path in Exec(s, steps).registered
    requires Exec(s, steps).registered[path] in Exec(s, steps).buckets
    requires ViewRight(Exec(s, steps).mem, Exec(s, steps).buckets[Exec(s, steps).registered[path]], key)
    ensures var end := Exec(s, steps);
            ViewShows(s.mem, path, end.buckets[end.registered[path]].view, LastWritten(steps, key), key)
  {
    StoreIsLastWritten(s, steps, key);
    RunFiles(s, steps);
  }

  /** A built bucket with nothing outstanding for a key: no undelivered writer, no buffered operation and no
      operation in a taken batch. The build flag may still be up. */
  ghost predicate Clear<B(!new), V(!new)>(s: State<B, V>, path: string, key: string) {
    path in s.registered && s.registered[path] in s.buckets && !Owed(s, s.registered[path], key) &&
    var bk := s.buckets[s.registered[path]];
    bk.initialized && LastOn(bk.pending, key).None? &&
    forall i | Holds(bk, i) :: LastOn(bk.callers[i].batch, key).None?
  }

  /** What a lookup may rely on during a build: after every such run, a built bucket is right on each key that
      is clear, and every settled bucket is clear on every delivered key. */
  lemma ClearKeyAgrees<B(!new), V(!new)>(s: State<B, V>, steps: seq<Step<B>>, path: string, key: string)
    requires Initial(s) && ValidRun(s, steps) && DrainsApart(s, steps)
    ensures var end := Exec(s, steps);
            Clear(end, path, key) ==>
              ViewRight(end.mem, end.buckets[end.registered[path]], key) &&
              ViewShows(s.mem, path, end.buckets[end.registered[path]].view, LastWritten(steps, key), key)
    ensures Settled(Exec(s, steps), path, key) ==> Clear(Exec(s, steps), path, key)
  {
    RunKeeps(s, steps);
    var end := Exec(s, steps);
    if Settled(end, path, key) { assert BucketShape(end.buckets[end.registered[path]]); }
    if Clear(end, path, key) {
      assert KeyRight(end.mem, end.buckets[end.registered[path]], key);
      RightShows(s, steps, path, key);
    }
  }

  lemma SettledIsRight<B(!new), V(!new)>(s: State<B, V>, path: string, key: string)
    requires Inv(s)
    ensures Settled(s, path, key) ==> ViewRight(s.mem, s.buckets[s.registered[path]], key)
  {
    if Settled(s, path, key) {
      var bk := s.buckets[s.registered[path]];
      assert KeyRight(s.mem, bk, key) && BucketShape(bk);
      assert LastOn(bk.pending, key) == None;
    }
  }

  // ---- overlapping drains break it ----

  /** A flag that is down while some caller still holds an unapplied batch. */
  ghost predicate StrayBucket<B, V>(bk: Bucket<B, V>, i: nat) {
    !bk.inFlight && bk.initialized && bk.pending == [] && Holds(bk, i) && forall j | Holds(bk, j) :: j == i
  }

  ghost predicate StrayBatch<B(!new), V(!new)>(s: State<B, V>, path: string, i: nat) {
    path in s.registered && s.registered[path] in s.buckets && StrayBucket(s.buckets[s.registered[path]], i)
  }

  /** Settled, nothing outstanding, and wrong. */
  ghost predicate Broken<B(!new), V(!new)>(s: State<B, V>, path: string, key: string) {
    Settled(s, path, key) &&
    var bk := s.buckets[s.registered[path]];
    bk.pending == [] && (forall j :: !Holds(bk, j)) && !ViewRight(s.mem, bk, key)
  }

  /** The write that outdates a stray operation: delete what it inserts, insert what it deletes. */
  ghost function Outdating<B>(op: Op, w: nat, obj: nat, body: B): Step<B> {
    match op
    case Upsert(key, _) => RemoveStep(w, key, body)
    case Delete(key) => InsertStep(w, key, obj, body)
  }

  lemma RunStep<B(!new), V(!new)>(s: State<B, V>, step: Step<B>, rest: seq<Step<B>>)
    requires Enabled(s, step) && ValidRun(Next(s, step), rest)
    ensures ValidRun(s, [step] + rest) && Exec(s, [step] + rest) == Exec(Next(s, step), rest)
  {
    assert ([step] + rest)[1..] == rest;
  }

  /** One step of a run with its outcome named. */
  ghost predicate Link<B(!new), V(!new)>(s: State<B, V>, step: Step<B>, next: State<B, V>) {
    Enabled(s, step) && Next(s, step) == next
  }

  lemma RunPair<B(!new), V(!new)>(
    s: State<B, V>, a: Step<B>, s1: State<B, V>, b: Step<B>, s2: State<B, V>)
    requires Link(s, a, s1) && Link(s1, b, s2)
    ensures ValidRun(s, [a, b]) && Exec(s, [a, b]) == s2
  {
    RunStep(s1, b, []);
    RunStep(s, a, [b] + []);
    assert [a, b] == [a] + ([b] + []);
  }

  lemma {:induction false} RunConcat<B(!new), V(!new)>(s: State<B, V>, a: seq<Step<B>>, b: seq<Step<B>>)
    requires ValidRun(s, a) && ValidRun(Exec(s, a), b)
    ensures ValidRun(s, a + b) && Exec(s, a + b) == Exec(Exec(s, a), b)
    decreases |a|
  {
    if a == [] {
      assert a + b == b;
    } else {
      assert (a + b)[1..] == a[1..] + b;
      RunConcat(Next(s, a[0]), a[1..], b);
    }
  }

  // ---- writers under way can be carried to their end ----

  /** Registered buckets and those a writer has still to serve exist. */
  ghost predicate Known<B(!new), V(!new)>(s: State<B, V>) {
    (forall p | p in s.registered :: s.registered[p] in s.buckets) &&
    forall w | w in s.writers :: WriterKnown(s.writers[w], s.buckets.Keys)
  }

  ghost predicate WriterKnown(writer: Writer, buckets: set<nat>) {
    writer.todo <= buckets && (writer.applying.Some? ==> writer.copied && writer.applying.value in buckets)
  }

  lemma StepKnown<B(!new), V(!new)>(s: State<B, V>, step: Step<B>)
    requires Known(s) && Enabled(s, step)
    ensures Known(Next(s, step))
  {
    var s' := Next(s, step);
    assert s.buckets.Keys <= s'.buckets.Keys;
    forall w | w in s'.writers ensures WriterKnown(s'.writers[w], s'.buckets.Keys) {
      if w in s.writers { assert WriterKnown(s.writers[w], s.buckets.Keys); }
      if step.CopyList? && w == step.w {
        assert forall c | c in s.registered.Values :: exists p | p in s.registered :: s.registered[p] == c;
      }
    }
  }

  lemma {:induction false} RunKnown<B(!new), V(!new)>(s: State<B, V>, steps: seq<Step<B>>)
    requires Known(s) && ValidRun(s, steps)
    ensures Known(Exec(s, steps))
    decreases |steps|
  {
    if steps != [] {
      StepKnown(s, steps[0]);
      RunKnown(Next(s, steps[0]), steps[1..]);
    }
  }

  /** From one stray state to another with the same store, bucket list and callers. */
  ghost predicate StillStray<B(!new), V(!new)>(s: State<B, V>, s': State<B, V>, path: string, i: nat) {
    s'.mem == s.mem && s'.registered == s.registered && StrayBatch(s', path, i) && Known(s') &&
    StrayBatch(s, path, i) && s'.buckets[s.registered[path]].callers == s.buckets[s.registered[path]].callers
  }

  /** Changing a bucket's buffer (while its flag is up) or view does not disturb a stray batch elsewhere or
      there. */
  lemma BucketStaysStray<B(!new), V(!new)>(
    s: State<B, V>, s': State<B, V>, path: string, i: nat, c: nat, bk: Bucket<B, V>)
    requires StrayBatch(s, path, i) && Known(s') && c in s.buckets
    requires s'.mem == s.mem && s'.registered == s.registered && s'.buckets == s.buckets[c := bk]
    requires bk == s.buckets[c].(view := bk.view, pending := bk.pending)
    requires bk.pending == s.buckets[c].pending || s.buckets[c].inFlight
    ensures StillStray(s, s', path, i)
  {
    assert forall j :: Holds(bk, j) <==> Holds(s.buckets[c], j);
  }

  /** A delivery to one bucket, directly or into its buffer. */
  lemma DeliverOne<B(!new), V(!new)>(s: State<B, V>, path: string, i: nat, w: nat, c: nat)
    returns (steps: seq<Step<B>>)
    requires StrayBatch(s, path, i) && Known(s) && Delivering(s, w)
    requires s.writers[w].applying.None? && c in s.writers[w].todo
    ensures ValidRun(s, steps) && StillStray(s, Exec(s, steps), path, i)
    ensures Exec(s, steps).writers == s.writers[w := s.writers[w].(todo := s.writers[w].todo - {c})]
  {
    assert WriterKnown(s.writers[w], s.buckets.Keys);
    var try := TryEnqueue(w, c);
    StepKnown(s, try);
    var s1 := Next(s, try);
    RunStep(s, try, []);
    var bk := s.buckets[c];
    if bk.inFlight {
      BucketStaysStray(s, s1, path, i, c, Buffered(bk, s.writers[w].op));
      return [try] + [];
    }
    BucketStaysStray(s, s1, path, i, c, bk);
    if bk.initialized {
      steps := ApplyOne(s1, path, i, w);
      RunStep(s, try, steps);
      return [try] + steps;
    }
    return [try] + [];
  }

  lemma ApplyOne<B(!new), V(!new)>(s: State<B, V>, path: string, i: nat, w: nat) returns (steps: seq<Step<B>>)
    requires StrayBatch(s, path, i) && Known(s) && Delivering(s, w) && s.writers[w].applying.Some?
    ensures ValidRun(s, steps) && StillStray(s, Exec(s, steps), path, i)
    ensures Exec(s, steps).writers == s.writers[w := s.writers[w].(applying := None)]
  {
    assert WriterKnown(s.writers[w], s.buckets.Keys);
    var apply := ApplyDirect(w);
    StepKnown(s, apply);
    var c := s.writers[w].applying.value;
    BucketStaysStray(s, Next(s, apply), path, i, c, Applied(s.mem, s.buckets[c], s.writers[w].op));
    RunStep(s, apply, []);
    return [apply] + [];
  }

  /** A writer that has copied the list delivers to everything on it and is done. */
  lemma {:induction false} DeliverAll<B(!new), V(!new)>(s: State<B, V>, path: string, i: nat, w: nat)
    returns (steps: seq<Step<B>>)
    requires StrayBatch(s, path, i) && Known(s) && Delivering(s, w) && s.writers[w].applying.None?
    ensures ValidRun(s, steps) && StillStray(s, Exec(s, steps), path, i)
    ensures Exec(s, steps).writers == s.writers - {w}
    decreases |s.writers[w].todo|
  {
    if s.writers[w].todo == {} {
      StepKnown(s, FinishWrite(w));
      RunStep(s, FinishWrite(w), []);
      return [FinishWrite(w)] + [];
    }
    var c :| c in s.writers[w].todo;
    var first := DeliverOne(s, path, i, w, c);
    var mid := Exec(s, first);
    assert |mid.writers[w].todo| < |s.writers[w].todo|;
    var rest := DeliverAll(mid, path, i, w);
    RunConcat(s, first, rest);
    assert mid.writers - {w} == s.writers - {w};
    return first + rest;
  }

  /** Whatever a writer is doing, it can be carried to its end. */
  lemma FinishWriter<B(!new), V(!new)>(s: State<B, V>, path: string, i: nat, w: nat) returns (steps: seq<Step<B>>)
    requires StrayBatch(s, path, i) && Known(s) && w in s.writers
    ensures ValidRun(s, steps) && StillStray(s, Exec(s, steps), path, i)
    ensures Exec(s, steps).writers == s.writers - {w}
  {
    var first: seq<Step<B>> := [];
    assert WriterKnown(s.writers[w], s.buckets.Keys);
    if !s.writers[w].copied {
      StepKnown(s, CopyList(w));
      RunStep(s, CopyList(w), []);
      first := [CopyList(w)] + [];
    } else if s.writers[w].applying.Some? {
      first := ApplyOne(s, path, i, w);
    }
    var mid := Exec(s, first);
    var rest := DeliverAll(mid, path, i, w);
    RunConcat(s, first, rest);
    assert mid.writers - {w} == s.writers - {w};
    return first + rest;
  }

  lemma {:induction false} FinishWriters<B(!new), V(!new)>(s: State<B, V>, path: string, i: nat)
    returns (steps: seq<Step<B>>)
    requires StrayBatch(s, path, i) && Known(s)
    ensures ValidRun(s, steps) && StillStray(s, Exec(s, steps), path, i) && Exec(s, steps).writers == map[]
    decreases |s.writers|
  {
    if s.writers == map[] {
      return [];
    }
    var w :| w in s.writers;
    var first := FinishWriter(s, path, i, w);
    var mid := Exec(s, first);
    assert mid.writers.Keys == s.writers.Keys - {w};
    var rest := FinishWriters(mid, path, i);
    RunConcat(s, first, rest);
    return first + rest;
  }

  // ---- a stray batch is fatal ----

  /** Applying a stray batch whose last word on the key is not the store's. */
  lemma StaleBatchBreaks<B(!new), V(!new)>(s: State<B, V>, path: string, i: nat, key: string)
    requires StrayBatch(s, path, i) && !Owed(s, s.registered[path], key)
    requires var last := LastOn(s.buckets[s.registered[path]].callers[i].batch, key);
             last.Some? && (last.value.Upsert? <==> key !in s.mem.store)
    ensures var step := ApplyBatch(s.registered[path], i); Enabled(s, step) && Broken(Next(s, step), path, key)
  {
    var b := s.registered[path];
    var bk := s.buckets[b];
    var s' := WithBucket(s, b, Replayed(s.mem, bk, i, bk.callers[i].batch));
    ReplayAt(s.mem, bk.path, bk.view, bk.callers[i].batch, key);
    assert forall j :: Holds(s'.buckets[b], j) ==> Holds(bk, j) && j != i;
    assert Owed(s', b, key) <==> Owed(s, b, key);
  }

  lemma {:induction false} AboveAll(used: set<nat>) returns (obj: nat)
    ensures forall o | o in used :: o < obj
  {
    if used == {} { return 0; }
    var o :| o in used;
    var rest := AboveAll(used - {o});
    obj := if o < rest then rest else o + 1;
    assert forall x | x in used :: x == o || x in used - {o};
  }

  /** The same from a state without writers: replay the batch at once if the store has moved on, else after
      one ordinary write that outdates it. */
  lemma QuietStrayBreaks<B(!new), V(!new)>(s: State<B, V>, path: string, i: nat, body: B)
    returns (steps: seq<Step<B>>, key: string)
    requires StrayBatch(s, path, i) && Known(s) && s.writers == map[]
    ensures ValidRun(s, steps) && Broken(Exec(s, steps), path, key)
  {
    var b := s.registered[path];
    var batch := s.buckets[b].callers[i].batch;
    var op := batch[|batch| - 1];
    key := op.key;
    assert LastOn(batch, key) == Some(op);
    var first: seq<Step<B>> := [];
    if op.Upsert? <==> key in s.mem.store { first := OutdatingWrite(s, path, i, op, body); }
    var mid, apply := Exec(s, first), ApplyBatch(b, i);
    StaleBatchBreaks(mid, path, i, key);
    RunStep(mid, apply, []);
    RunConcat(s, first, [apply] + []);
    return first + ([apply] + []), key;
  }

  /** A write after which the store disagrees with the operation, delivered to every bucket. */
  lemma OutdatingWrite<B(!new), V(!new)>(s: State<B, V>, path: string, i: nat, op: Op, body: B)
    returns (steps: seq<Step<B>>)
    requires StrayBatch(s, path, i) && Known(s) && s.writers == map[] && (op.Upsert? <==> op.key in s.mem.store)
    ensures ValidRun(s, steps) && StrayBatch(Exec(s, steps), path, i) && Exec(s, steps).writers == map[]
    ensures Exec(s, steps).registered == s.registered && (op.Upsert? <==> op.key !in Exec(s, steps).mem.store)
    ensures Exec(s, steps).buckets[s.registered[path]].callers == s.buckets[s.registered[path]].callers
  {
    var obj := AboveAll(s.mem.inUse);
    var write := Outdating(op, 0, obj, body);
    StepKnown(s, write);
    var mid := Next(s, write);
    var rest := FinishWriter(mid, path, i, 0);
    RunStep(s, write, rest);
    return [write] + rest;
  }

  /** Once the flag is down over a held batch, the view can always be made wrong for good, whatever writers
      are under way: the discipline of SettledBucketAgrees cannot be dropped. */
  lemma StrayBatchBreaks<B(!new), V(!new)>(s: State<B, V>, path: string, i: nat, body: B)
    returns (steps: seq<Step<B>>, key: string)
    requires StrayBatch(s, path, i) && Known(s)
    ensures ValidRun(s, steps) && Broken(Exec(s, steps), path, key)
  {
    var first := FinishWriters(s, path, i);
    var rest, k := QuietStrayBreaks(Exec(s, first), path, i, body);
    RunConcat(s, first, rest);
    return first + rest, k;
  }

  /** Two callers have met at a fresh bucket of an empty swamp and hold empty snapshots. */
  ghost predicate TwoSnapping<B(!new), V(!new)>(s: State<B, V>, path: string) {
    s.registered == map[path := 0] && s.writers == map[] && s.mem.store == map[] && 0 in s.buckets &&
    s.buckets[0] ==
    Bucket(path, true, false, map[], [], map[0 := Snapping(map[], map[]), 1 := Snapping(map[], map[])])
  }

  /** The first caller has built and the second still holds its snapshot; `pending` is buffered, `batch` taken
      and the writers are as given. */
  ghost predicate FirstBuilt<B(!new), V(!new)>(
    s: State<B, V>, path: string, pending: seq<Op>, batch: seq<Op>, writers: map<nat, Writer>)
  {
    s.registered == map[path := 0] && s.writers == writers && 0 in s.buckets &&
    s.buckets[0] ==
    Bucket(path, true, true, map[], pending, map[0 := Draining(batch), 1 := Snapping(map[], map[])])
  }

  lemma TwoEnter<B(!new), V(!new)>(s: State<B, V>, path: string) returns (end: State<B, V>, steps: seq<Step<B>>)
    requires Initial(s)
    ensures ValidRun(s, steps) && end == Exec(s, steps) && end.mem == s.mem && end.writers == map[]
    ensures end.registered == map[path := 0] && 0 in end.buckets
    ensures end.buckets[0] == Bucket(path, true, false, map[], [], map[0 := Entered, 1 := Entered])
  {
    var a1, a2 := Register(path, 0, 0), Register(path, 0, 1);
    var bk := Bucket(path, true, false, map[], [], map[0 := Entered]);
    var s1 := WithBucket(s, 0, bk).(registered := map[path := 0]);
    assert Link(s, a1, s1);
    end := WithBucket(s1, 0, WithPhase(bk, 1, Entered));
    assert Link(s1, a2, end);
    RunPair(s, a1, s1, a2, end);
    steps := [a1, a2];
  }

  lemma TwoCallersMeet<B(!new), V(!new)>(s: State<B, V>, path: string) returns (steps: seq<Step<B>>)
    requires Initial(s) && s.mem.store == map[]
    ensures ValidRun(s, steps) && TwoSnapping(Exec(s, steps), path) && Exec(s, steps).mem == s.mem
  {
    var s2, enter := TwoEnter(s, path);
    var a3, a4 := StartSnapshot(0, 0), StartSnapshot(0, 1);
    var s3 := WithBucket(s2, 0, WithPhase(s2.buckets[0], 0, Snapping(map[], map[])));
    assert Link(s2, a3, s3);
    var s4 := WithBucket(s3, 0, WithPhase(s3.buckets[0], 1, Snapping(map[], map[])));
    assert Link(s3, a4, s4);
    RunPair(s2, a3, s3, a4, s4);
    RunConcat(s, enter, [a3, a4]);
    return enter + [a3, a4];
  }

  lemma FirstBuilds<B(!new), V(!new)>(s: State<B, V>, path: string) returns (steps: seq<Step<B>>)
    requires TwoSnapping(s, path)
    ensures ValidRun(s, steps) && FirstBuilt(Exec(s, steps), path, [], [], map[]) && Exec(s, steps).mem == s.mem
  {
    var bk := Bucket(path, true, true, map[], [], map[0 := Draining([]), 1 := Snapping(map[], map[])]);
    assert Built(s.mem, s.buckets[0], 0, map[]).callers == bk.callers;
    assert Built(s.mem, s.buckets[0], 0, map[]) == bk;
    RunStep(s, Build(0, 0), []);
    return [Build(0, 0)] + [];
  }

  lemma InsertIsCopied<B(!new), V(!new)>(s: State<B, V>, path: string, key: string, obj: nat, body: B)
    returns (steps: seq<Step<B>>)
    requires FirstBuilt(s, path, [], [], map[]) && key !in s.mem.store && obj !in s.mem.inUse
    ensures ValidRun(s, steps) && Exec(s, steps).mem.inUse == s.mem.inUse + {obj}
    ensures FirstBuilt(Exec(s, steps), path, [], [], map[0 := Writer(Upsert(key, obj), true, {0}, None)])
  {
    var insert, op := InsertStep(0, key, obj, body), Upsert(key, obj);
    var s1 := Mutated(s, Insert(s.mem, key, obj, body), 0, op);
    assert Link(s, insert, s1);
    assert s1.registered[path] == 0 && s1.registered.Values == {0};
    var s2 := WithWriter(s1, 0, Writer(op, true, {0}, None));
    assert Link(s1, CopyList(0), s2);
    RunPair(s, insert, s1, CopyList(0), s2);
    return [insert, CopyList(0)];
  }

  /** The write finds the flag up and is buffered; its writer is done. */
  lemma WriteIsBuffered<B(!new), V(!new)>(s: State<B, V>, path: string, op: Op) returns (steps: seq<Step<B>>)
    requires FirstBuilt(s, path, [], [], map[0 := Writer(op, true, {0}, None)])
    ensures ValidRun(s, steps) && FirstBuilt(Exec(s, steps), path, [op], [], map[]) && Exec(s, steps).mem == s.mem
  {
    var try, finish := TryEnqueue(0, 0), FinishWrite(0);
    assert {0} - {0} == {};
    var s1 := WithWriter(WithBucket(s, 0, Buffered(s.buckets[0], op)), 0, Writer(op, true, {}, None));
    assert Link(s, try, s1);
    var s2 := s1.(writers := map[]);
    assert Link(s1, finish, s2);
    RunPair(s, try, s1, finish, s2);
    return [try, finish];
  }

  /** The first caller takes the buffer. */
  lemma FirstTakes<B(!new), V(!new)>(s: State<B, V>, path: string, op: Op) returns (steps: seq<Step<B>>)
    requires FirstBuilt(s, path, [op], [], map[])
    ensures ValidRun(s, steps) && FirstBuilt(Exec(s, steps), path, [], [op], map[]) && Exec(s, steps).mem == s.mem
  {
    var bk := Bucket(path, true, true, map[], [], map[0 := Draining([op]), 1 := Snapping(map[], map[])]);
    assert Taken(s.buckets[0], 0).callers == bk.callers;
    assert Taken(s.buckets[0], 0) == bk;
    RunStep(s, Take(0, 0), []);
    return [Take(0, 0)] + [];
  }

  /** The second finds it empty and clears the flag over that batch. */
  lemma SecondClears<B(!new), V(!new)>(s: State<B, V>, path: string, op: Op) returns (steps: seq<Step<B>>)
    requires FirstBuilt(s, path, [], [op], map[])
    ensures ValidRun(s, steps) && StrayBatch(Exec(s, steps), path, 0)
    ensures Exec(s, steps).writers == map[] && Exec(s, steps).mem == s.mem
  {
    var build, take := Build(0, 1), Take(0, 1);
    var built := Bucket(path, true, true, map[], [], map[0 := Draining([op]), 1 := Draining([])]);
    assert Built(s.mem, s.buckets[0], 1, map[]).callers == built.callers;
    var s1 := WithBucket(s, 0, Built(s.mem, s.buckets[0], 1, map[]));
    assert Link(s, build, s1);
    assert Taken(built, 1).callers == map[0 := Draining([op])];
    var s2 := WithBucket(s1, 0, Taken(built, 1));
    assert Link(s1, take, s2);
    RunPair(s, build, s1, take, s2);
    return [build, take];
  }

  /** So two concurrent first callers and one write leave the flag down over a held batch. */
  lemma TwoCallersStray<B(!new), V(!new)>(s: State<B, V>, path: string, key: string, obj: nat, body: B)
    returns (steps: seq<Step<B>>)
    requires Initial(s) && s.mem.store == map[] && obj !in s.mem.inUse
    ensures ValidRun(s, steps) && StrayBatch(Exec(s, steps), path, 0)
    ensures Exec(s, steps).writers == map[] && Exec(s, steps).mem.inUse == s.mem.inUse + {obj}
  {
    var meet := TwoCallersMeet(s, path);
    var built := FirstBuilds(Exec(s, meet), path);
    RunConcat(s, meet, built);
    steps := meet + built;
    var insert := InsertIsCopied(Exec(s, steps), path, key, obj, body);
    RunConcat(s, steps, insert);
    steps := steps + insert;
    var write := WriteIsBuffered(Exec(s, steps), path, Upsert(key, obj));
    RunConcat(s, steps, write);
    steps := steps + write;
    var takes := FirstTakes(Exec(s, steps), path, Upsert(key, obj));
    RunConcat(s, steps, takes);
    steps := steps + takes;
    var clear := SecondClears(Exec(s, steps), path, Upsert(key, obj));
    RunConcat(s, steps, clear);
    steps := steps + clear;
  }

  /** So from an empty swamp, two concurrent first callers and two writes can leave the index wrong. */
  lemma OverlappingDrainsBreak<B(!new), V(!new)>(s: State<B, V>, path: string, first: string, obj: nat, body: B)
    returns (steps: seq<Step<B>>, key: string)
    requires Initial(s) && s.mem.store == map[] && obj !in s.mem.inUse
    ensures ValidRun(s, steps) && Broken(Exec(s, steps), path, key)
  {
    var head := TwoCallersStray(s, path, first, obj, body);
    RunKnown(s, head);
    var tail, k := StrayBatchBreaks(Exec(s, head), path, 0, body);
    RunConcat(s, head, tail);
    return head + tail, k;
  }

  // ---- an overlapping drain is always fatal ----

  /** A take while another caller holds a batch brings the flag down over that batch: at once if the buffer
      is empty, else after the taker's own batch and its next take. */
  lemma OverlapStrays<B(!new), V(!new)>(s: State<B, V>, path: string, i: nat, j: nat) returns (steps: seq<Step<B>>)
    requires Inv(s) && Known(s) && path in s.registered
    requires Enabled(s, Take(s.registered[path], j)) && Holds(s.buckets[s.registered[path]], i)
    ensures var next := Next(s, Take(s.registered[path], j));
            ValidRun(next, steps) && StrayBatch(Exec(next, steps), path, i) && Known(Exec(next, steps))
  {
    var b := s.registered[path];
    var bk, take := s.buckets[b], Take(b, j);
    var next := Next(s, take);
    StepKnown(s, take);
    assert BucketShape(bk);
    if bk.pending == [] {
      TakeEmptyStrays(bk, i, j);
      return [];
    }
    TakeFullStrays(s.mem, bk, i, j);
    var apply := ApplyBatch(b, j);
    StepKnown(next, apply);
    var mid := Next(next, apply);
    StepKnown(mid, take);
    RunStep(mid, take, []);
    RunStep(next, apply, [take] + []);
    return [apply] + ([take] + []);
  }

  lemma TakeEmptyStrays<B, V>(bk: Bucket<B, V>, i: nat, j: nat)
    requires BucketShape(bk) && Holds(bk, i) && j in bk.callers && bk.callers[j] == Draining([]) && bk.pending == []
    ensures StrayBucket(Taken(bk, j), i)
  {
    var bk' := Taken(bk, j);
    assert Holds(bk', i) && forall k | Holds(bk', k) :: Holds(bk, k);
  }

  lemma TakeFullStrays<B(!new), V(!new)>(m: Memory<B, V>, bk: Bucket<B, V>, i: nat, j: nat)
    requires BucketShape(bk) && Holds(bk, i) && j in bk.callers && bk.callers[j] == Draining([]) && bk.pending != []
    ensures Taken(bk, j).callers[j] == Draining(bk.pending)
    ensures var replayed := Replayed(m, Taken(bk, j), j, bk.pending);
            replayed.callers[j] == Draining([]) && StrayBucket(Taken(replayed, j), i)
  {
    var replayed := Replayed(m, Taken(bk, j), j, bk.pending);
    var bk' := Taken(replayed, j);
    assert replayed.pending == [] && Holds(bk', i);
    assert forall k | Holds(bk', k) :: k != j && Holds(bk, k);
  }

  /** No DrainsApart continuation leaves a settled bucket wrong. */
  ghost predicate NeverBroken<B(!new), V(!new)>(s: State<B, V>) {
    forall rest, path, key | ValidRun(s, rest) && DrainsApart(s, rest) :: !Broken(Exec(s, rest), path, key)
  }

  lemma InvNeverBroken<B(!new), V(!new)>(s: State<B, V>)
    requires Inv(s)
    ensures NeverBroken(s)
  {
    forall rest, path, key | ValidRun(s, rest) && DrainsApart(s, rest) ensures !Broken(Exec(s, rest), path, key) {
      RunKeeps(s, rest);
      SettledIsRight(Exec(s, rest), path, key);
    }
  }

  /** After a take that overlaps another drain the invariant is gone. */
  lemma OverlapLosesInv<B(!new), V(!new)>(s: State<B, V>, b: nat, i: nat, j: nat)
    requires Inv(s) && Enabled(s, Take(b, j)) && Holds(s.buckets[b], i)
    ensures !Inv(Next(s, Take(b, j)))
  {
    var bk := s.buckets[b];
    var bk' := Taken(bk, j);
    assert i != j && Holds(bk', i);
    assert bk.pending != [] ==> Holds(bk', j);
    assert !BucketShape(bk');
    assert Next(s, Take(b, j)).buckets[b] == bk';
  }

  /** The exact condition, for the next take after any run whose drains were apart so far. If it overlaps no
      held batch the invariant goes on and no settled bucket will be wrong while drains stay apart; if it does,
      the invariant is lost and some continuation leaves a settled bucket wrong with nothing outstanding. */
  lemma OverlapExact<B(!new), V(!new)>(s: State<B, V>, steps: seq<Step<B>>, path: string, j: nat, body: B)
    returns (more: seq<Step<B>>, key: string)
    requires Initial(s) && ValidRun(s, steps) && DrainsApart(s, steps) && path in Exec(s, steps).registered
    requires Enabled(Exec(s, steps), Take(Exec(s, steps).registered[path], j))
    ensures var end := Exec(s, steps);
            var take := Take(end.registered[path], j);
            (Inv(Next(end, take)) <==> NoOverlap(end, take)) &&
            (NoOverlap(end, take) ==> NeverBroken(Next(end, take)))
    ensures var end := Exec(s, steps);
            var take := Take(end.registered[path], j);
            !NoOverlap(end, take) ==>
              ValidRun(Next(end, take), more) && Broken(Exec(Next(end, take), more), path, key)
  {
    var end := Exec(s, steps);
    var b := end.registered[path];
    var take := Take(b, j);
    RunKeeps(s, steps);
    RunKnown(s, steps);
    more, key := [], "";
    if NoOverlap(end, take) {
      StepKeeps(end, take);
      InvNeverBroken(Next(end, take));
    } else {
      var i :| Holds(end.buckets[b], i);
      OverlapLosesInv(end, b, i, j);
      var first := OverlapStrays(end, path, i, j);
      var rest, k := StrayBatchBreaks(Exec(Next(end, take), first), path, i, body);
      RunConcat(Next(end, take), first, rest);
      more, key := first + rest, k;
    }
  }
}
