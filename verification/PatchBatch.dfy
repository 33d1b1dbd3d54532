/** Field patches and cap-budgeted batches (app/core/hydra/swamp/swamp_patch.go,
    app/server/gateway/gateway_patch.go, app/server/gateway/gateway_cap_body.go). */
module PatchBatch {
  import opened Optional
  import opened Values
  import opened Filters
  import opened FilterLaws
  import opened FilterMeta

  datatype PatchOp = PatchOp(kind: int, path: string, value: seq<Byte>)
  datatype Condition = Condition(path: string, op: int, threshold: seq<Byte>)

  /** The sentinel errors of the msgpackpatch library. */
  datatype PatchError =
    | ConditionNotMet | TypeMismatch | PathInvalid | InvalidOp | InvalidMsgpack | NonStringKey | OtherError

  datatype Applied = Patched(body: seq<Byte>) | Failed(error: PatchError)

  /** msgpackpatch: whether a body parses as a map, and ApplyWithCondition. */
  datatype Library = Library(
    parses: seq<Byte> -> bool,
    apply: (seq<Byte>, seq<PatchOp>, Option<Condition>) -> Applied)

  datatype Status =
    | PATCHED | CREATED | KEY_NOT_FOUND | CONDITION_NOT_MET | FIELD_NOT_FOUND | TYPE_MISMATCH
    | PATH_INVALID | ENCODING_NOT_SUPPORTED | INTERNAL_ERROR | CAP_EXCEEDED
  {
    predicate Succeeded() { PATCHED? || CREATED? }
  }

  datatype PatchMeta = PatchMeta(
    setUpdatedAt: bool, setUpdatedBy: string, setCreatedAt: bool, setCreatedBy: string,
    setExpiredAt: Option<int>, clearExpiredAt: bool)

  /** A cap predicate on raw bodies. */
  type CapPredicate = seq<Byte> -> bool

  datatype Options = Options(
    createIfNotExist: bool, initialBody: seq<Byte>, meta: Option<PatchMeta>, cap: Option<CapPredicate>)

  const EMPTY_MAP: seq<Byte> := [0x80]

  function Seed(opts: Options): seq<Byte> {
    if opts.initialBody == [] then EMPTY_MAP else opts.initialBody
  }

  /** wrapMsgpackBody. */
  function Wrap(body: seq<Byte>): (raw: seq<Byte>)
    ensures IsMsgpackEncoded(raw) && raw[2..] == body
  {
    [0xC7, 0x00] + body
  }

  function Classify(e: PatchError): Status {
    match e
    case ConditionNotMet => CONDITION_NOT_MET
    case TypeMismatch => TYPE_MISMATCH
    case PathInvalid => PATH_INVALID
    case InvalidOp => PATH_INVALID
    case InvalidMsgpack => ENCODING_NOT_SUPPORTED
    case NonStringKey => ENCODING_NOT_SUPPORTED
    case OtherError => INTERNAL_ERROR
  }

  // ---- one patch, as a function ----

  /** Stored treasures, treasures created but not yet saved, and the batch's remaining budget. */
  datatype World = World(store: map<string, Treasure>, creating: map<string, Treasure>, budget: int)

  /** In-flight treasures have no content yet. */
  predicate Valid(w: World) {
    forall k | k in w.creating :: w.creating[k].content.Void?
  }

  function Fresh(key: string): Treasure {
    Treasure(key, Void, 0, "", 0, "", 0)
  }

  function Subject(w: World, key: string): Treasure {
    if key in w.store then w.store[key] else if key in w.creating then w.creating[key] else Fresh(key)
  }

  /** What a treasure's content offers to patch. */
  datatype Input = Refused(status: Status) | Body(bytes: seq<Byte>, isCreate: bool)

  function InputOf(content: Content, opts: Options): Input {
    match content
    case Void => if opts.createIfNotExist then Body(Seed(opts), true) else Refused(KEY_NOT_FOUND)
    case BytesContent(raw) => if IsMsgpackEncoded(raw) then Body(raw[2..], false) else Refused(ENCODING_NOT_SUPPORTED)
    case _ => Refused(TYPE_MISMATCH)
  }

  /** The (no, yes) cell: the body did not match the cap filter before and does afterwards. */
  predicate Crosses(cap: Option<CapPredicate>, input: Input, out: seq<Byte>)
    requires input.Body?
  {
    cap.Some? && (input.isCreate || !cap.value(input.bytes)) && cap.value(out)
  }

  /** applyPatchMeta, field by field. */
  function Stamped(t: Treasure, meta: Option<PatchMeta>, now: int, onCreate: bool): Treasure {
    if meta.None? then t
    else
      var m := meta.value;
      Treasure(t.key, t.content,
        if onCreate && m.setCreatedAt then now else t.createdAt,
        if onCreate && m.setCreatedBy != "" then m.setCreatedBy else t.createdBy,
        if m.setUpdatedAt then now else t.modifiedAt,
        if m.setUpdatedBy != "" then m.setUpdatedBy else t.modifiedBy,
        if m.clearExpiredAt then 0 else if m.setExpiredAt.Some? then m.setExpiredAt.value else t.expiresAt)
  }

  /** A failed call drops the in-flight treasure it obtained. */
  function Dropped(w: World, key: string): World {
    if key in w.store then w else w.(creating := w.creating - {key})
  }

  function PatchOne(lib: Library, now: int, w: World, key: string, ops: seq<PatchOp>, cond: Option<Condition>,
                    opts: Options): (World, Status)
  {
    if !opts.createIfNotExist && key !in w.store then (w, KEY_NOT_FOUND)
    else if opts.createIfNotExist && !lib.parses(Seed(opts)) then (w, TYPE_MISMATCH)
    else PatchSubject(lib, now, w, key, ops, cond, opts)
  }

  function PatchSubject(lib: Library, now: int, w: World, key: string, ops: seq<PatchOp>, cond: Option<Condition>,
                        opts: Options): (World, Status)
  {
    var input := InputOf(Subject(w, key).content, opts);
    if input.Refused? then (Dropped(w, key), input.status)
    else
      match lib.apply(input.bytes, ops, cond)
      case Failed(e) => (Dropped(w, key), Classify(e))
      case Patched(out) =>
        var crosses := Crosses(opts.cap, input, out);
        if crosses && w.budget <= 0 then (Dropped(w, key), CAP_EXCEEDED)
        else
          var t := Stamped(Subject(w, key).(content := BytesContent(Wrap(out))), opts.meta, now, input.isCreate);
          (World(w.store[key := t], Dropped(w, key).creating, if crosses then w.budget - 1 else w.budget),
           if input.isCreate then CREATED else PATCHED)
  }

  // ---- a batch, as a fold ----

  /** One entry of a request; a nil op in the list is None. */
  datatype Patch = Patch(key: string, ops: seq<Option<PatchOp>>, cond: Option<Condition>, meta: Option<PatchMeta>)

  datatype PatchResult = PatchResult(key: string, status: Status)

  function Given(ops: seq<Option<PatchOp>>): seq<PatchOp>
    requires None !in ops
  {
    seq(|ops|, i requires 0 <= i < |ops| => assert ops[i] in ops; ops[i].value)
  }

  /** Per-key metadata replaces the request's. */
  function OptionsFor(patch: Patch, base: Options): Options {
    if patch.meta.Some? then base.(meta := patch.meta) else base
  }

  function ApplyPatch(lib: Library, now: int, w: World, patch: Patch, base: Options): (World, Status) {
    if None in patch.ops then (w, PATH_INVALID)
    else PatchOne(lib, now, w, patch.key, Given(patch.ops), patch.cond, OptionsFor(patch, base))
  }

  /** The left fold of ApplyPatch; `clock` gives the time of each patch. */
  function Fold(lib: Library, clock: nat -> int, w: World, patches: seq<Patch>, base: Options)
    : (r: (World, seq<PatchResult>))
    ensures |r.1| == |patches|
  {
    if patches == [] then (w, [])
    else
      var n := |patches| - 1;
      var (before, results) := Fold(lib, clock, w, patches[..n], base);
      var (after, status) := ApplyPatch(lib, clock(n), before, patches[n], base);
      (after, results + [PatchResult(patches[n].key, status)])
  }

  // ---- the imperative code ----

  class Budget {
    var left: int

    constructor (left: int)
      ensures this.left == left
    {
      this.left := left;
    }
  }

  /** applyPatchMeta. */
  method ApplyPatchMeta(t: Treasure, meta: Option<PatchMeta>, now: int, onCreate: bool) returns (out: Treasure)
    ensures out == Stamped(t, meta, now, onCreate)
  {
    out := t;
    if meta.None? { return; }
    var m := meta.value;
    if m.setUpdatedAt { out := out.(modifiedAt := now); }
    if m.setUpdatedBy != "" { out := out.(modifiedBy := m.setUpdatedBy); }
    if onCreate {
      if m.setCreatedAt { out := out.(createdAt := now); }
      if m.setCreatedBy != "" { out := out.(createdBy := m.setCreatedBy); }
    }
    if m.clearExpiredAt {
      out := out.(expiresAt := 0);
    } else if m.setExpiredAt.Some? {
      out := out.(expiresAt := m.setExpiredAt.value);
    }
  }

  /** protoOpsToMsgpackpatchOps. */
  method ConvertOps(ops: seq<Option<PatchOp>>) returns (out: Option<seq<PatchOp>>)
    ensures out == if None in ops then None else Some(Given(ops))
  {
    var converted: seq<PatchOp> := [];
    for i := 0 to |ops|
      invariant |converted| == i && None !in ops[..i]
      invariant forall j | 0 <= j < i :: Some(converted[j]) == ops[j]
    {
      if ops[i].None? { return None; }
      assert ops[..i + 1] == ops[..i] + [ops[i]];
      converted := converted + [ops[i].value];
    }
    assert ops[..|ops|] == ops && converted == Given(ops);
    return Some(converted);
  }

  class Swamp {
    var store: map<string, Treasure>
    var creating: map<string, Treasure>

    function View(budget: Budget): World
      reads this, budget
    {
      World(store, creating, budget.left)
    }

    constructor (store: map<string, Treasure>)
      ensures this.store == store && this.creating == map[]
    {
      this.store, this.creating := store, map[];
    }

    /** CreateTreasure: the stored treasure, an in-flight one, or a new in-flight one. */
    method CreateTreasure(key: string) returns (t: Treasure)
      modifies this`creating
      ensures t == if key in store then store[key] else if key in old(creating) then old(creating)[key] else Fresh(key)
      ensures creating == if key in store || key in old(creating) then old(creating)
                          else old(creating)[key := Fresh(key)]
    {
      if key in store { return store[key]; }
      if key in creating { return creating[key]; }
      t := Fresh(key);
      creating := creating[key := t];
    }

    /** SaveFunction: a treasure not yet stored leaves the in-flight tracker. */
    method Save(key: string, t: Treasure)
      modifies this
      ensures store == old(store)[key := t]
      ensures creating == if key in old(store) then old(creating) else old(creating) - {key}
    {
      if key !in store { creating := creating - {key}; }
      store := store[key := t];
    }

    /** The (pre, post) rule; false means the cap is exceeded. */
    method SpendBudget(cap: Option<CapPredicate>, budget: Budget, input: Input, out: seq<Byte>) returns (ok: bool)
      requires input.Body?
      modifies budget
      ensures ok == !(Crosses(cap, input, out) && old(budget.left) <= 0)
      ensures budget.left == if ok && Crosses(cap, input, out) then old(budget.left) - 1 else old(budget.left)
    {
      if cap.Some? {
        var preMatched := false;
        if !input.isCreate { preMatched := cap.value(input.bytes); }
        var postMatched := cap.value(out);
        if !preMatched && postMatched {
          if budget.left <= 0 { return false; }
          budget.left := budget.left - 1;
        }
      }
      return true;
    }

    /** PatchFields, with its deferred clean-up of the in-flight tracker. */
    method PatchFields(lib: Library, now: int, key: string, ops: seq<PatchOp>, cond: Option<Condition>,
                       opts: Options, budget: Budget)
      returns (status: Status)
      modifies this, budget
      ensures (View(budget), status) == PatchOne(lib, now, old(View(budget)), key, ops, cond, opts)
    {
      if !opts.createIfNotExist && key !in store { return KEY_NOT_FOUND; }
      if opts.createIfNotExist && !lib.parses(Seed(opts)) { return TYPE_MISMATCH; }
      var createdNew := key !in store;
      var t := CreateTreasure(key);
      status := PatchTreasure(lib, now, t, key, ops, cond, opts, budget);
      if createdNew && !status.Succeeded() { creating := creating - {key}; }
      assert createdNew ==> creating == old(creating) - {key};
    }

    /** The guarded part, from the content switch to the save. */
    method PatchTreasure(lib: Library, now: int, t: Treasure, key: string, ops: seq<PatchOp>,
                         cond: Option<Condition>, opts: Options, budget: Budget)
      returns (status: Status)
      requires t == Subject(View(budget), key)
      modifies this, budget
      ensures var (w, expected) := PatchSubject(lib, now, old(View(budget)), key, ops, cond, opts);
              status == expected && store == w.store && budget.left == w.budget
      ensures creating == if status.Succeeded() && key !in old(store) then old(creating) - {key} else old(creating)
    {
      var input := InputOf(t.content, opts);
      if input.Refused? { return input.status; }
      var applied := lib.apply(input.bytes, ops, cond);
      if applied.Failed? { return Classify(applied.error); }
      var ok := SpendBudget(opts.cap, budget, input, applied.body);
      if !ok { return CAP_EXCEEDED; }
      var patched := t.(content := BytesContent(Wrap(applied.body)));
      patched := ApplyPatchMeta(patched, opts.meta, now, input.isCreate);
      Save(key, patched);
      return if input.isCreate then CREATED else PATCHED;
    }

    /** The batch loop of patchTreasuresOneSwamp refines the fold: same final state, same results in order. */
    method PatchAll(lib: Library, clock: nat -> int, patches: seq<Patch>, base: Options, budget: Budget)
      returns (results: seq<PatchResult>, capReached: bool)
      modifies this, budget
      ensures (View(budget), results) == Fold(lib, clock, old(View(budget)), patches, base)
      ensures capReached <==> exists r | r in results :: r.status == CAP_EXCEEDED
    {
      results, capReached := [], false;
      for i := 0 to |patches|
        invariant (View(budget), results) == Fold(lib, clock, old(View(budget)), patches[..i], base)
        invariant capReached <==> exists r | r in results :: r.status == CAP_EXCEEDED
      {
        assert patches[..i + 1][..i] == patches[..i];
        var patch := patches[i];
        var status := PATH_INVALID;
        var ops := ConvertOps(patch.ops);
        if ops.Some? {
          status := PatchFields(lib, clock(i), patch.key, ops.value, patch.cond, OptionsFor(patch, base), budget);
        }
        if status == CAP_EXCEEDED { capReached := true; }
        var result := PatchResult(patch.key, status);
        results := results + [result];
        assert result in results;
      }
      assert patches[..|patches|] == patches;
    }
  }

  // ---- what one patch does ----

  /** Any status other than PATCHED or CREATED leaves bodies, metadata and budget as they were, and no
      in-flight treasure that was not there before. */
  lemma FailureChangesNothing(lib: Library, now: int, w: World, patch: Patch, base: Options)
    requires !ApplyPatch(lib, now, w, patch, base).1.Succeeded()
    ensures var w' := ApplyPatch(lib, now, w, patch, base).0;
            w'.store == w.store && w'.budget == w.budget &&
            (forall k | k in w'.creating :: k in w.creating && w'.creating[k] == w.creating[k]) &&
            (patch.key !in w.creating ==> w'.creating == w.creating)
  {}

  /** What a patch would write, if it got past every check but the cap. */
  function Attempt(lib: Library, w: World, patch: Patch, base: Options): Option<(Input, seq<Byte>)> {
    var opts := OptionsFor(patch, base);
    if None in patch.ops || (!opts.createIfNotExist && patch.key !in w.store) then None
    else if opts.createIfNotExist && !lib.parses(Seed(opts)) then None
    else
      var input := InputOf(Subject(w, patch.key).content, opts);
      if input.Refused? then None
      else
        match lib.apply(input.bytes, Given(patch.ops), patch.cond)
        case Failed(_) => None
        case Patched(out) => Some((input, out))
  }

  /** A (no, yes) transition that meets an exhausted budget. */
  predicate CrossesAtZero(lib: Library, w: World, patch: Patch, base: Options) {
    var a := Attempt(lib, w, patch, base);
    a.Some? && Crosses(base.cap, a.value.0, a.value.1) && w.budget <= 0
  }

  /** Success stores exactly the attempted body under the key, touches no other treasure, stamps creation
      metadata only on a create, and leaves nothing in flight under a key that was new. */
  lemma SuccessWritesAttempt(lib: Library, now: int, w: World, patch: Patch, base: Options)
    requires ApplyPatch(lib, now, w, patch, base).1.Succeeded()
    ensures var a := Attempt(lib, w, patch, base);
            var (w', status) := ApplyPatch(lib, now, w, patch, base);
            a.Some? && (status == CREATED <==> a.value.0.isCreate) &&
            patch.key in w'.store && w'.store[patch.key].content == BytesContent(Wrap(a.value.1)) &&
            w'.store - {patch.key} == w.store - {patch.key} &&
            (patch.key !in w.store ==> patch.key !in w'.creating) &&
            (status == PATCHED ==> w'.store[patch.key].createdAt == Subject(w, patch.key).createdAt)
    ensures var a := Attempt(lib, w, patch, base);
            a.Some? && ApplyPatch(lib, now, w, patch, base).0.budget ==
            if Crosses(base.cap, a.value.0, a.value.1) then w.budget - 1 else w.budget
  {}

  /** CAP_EXCEEDED is reported exactly for a (no, yes) transition at zero budget. */
  lemma ExceededExactly(lib: Library, now: int, w: World, patch: Patch, base: Options)
    ensures ApplyPatch(lib, now, w, patch, base).1 == CAP_EXCEEDED <==> CrossesAtZero(lib, w, patch, base)
  {}

  // ---- outcomes, case by case ----

  /** The treasure a patch starts from: the stored one, else one in flight, else an empty one. */
  lemma StartsFrom(w: World, key: string)
    ensures key in w.store ==> Subject(w, key) == w.store[key]
    ensures key !in w.store && key in w.creating ==> Subject(w, key) == w.creating[key]
    ensures key !in w.store && key !in w.creating ==> Subject(w, key) == Treasure(key, Void, 0, "", 0, "", 0)
  {}

  /** Refusals before the library is asked, in their order: a nil op, a missing key, a seed that does not parse
      (even if the key exists), and contents that cannot be patched. */
  lemma RefusalCases(lib: Library, now: int, w: World, patch: Patch, base: Options)
    ensures var status := ApplyPatch(lib, now, w, patch, base).1;
            var seed := if base.initialBody == [] then [0x80] else base.initialBody;
            if None in patch.ops then status == PATH_INVALID
            else if !base.createIfNotExist && patch.key !in w.store then status == KEY_NOT_FOUND
            else if base.createIfNotExist && !lib.parses(seed) then status == TYPE_MISMATCH
            else
              var content := Subject(w, patch.key).content;
              (content.Void? && !base.createIfNotExist ==> status == KEY_NOT_FOUND) &&
              (!content.Void? && !content.BytesContent? ==> status == TYPE_MISMATCH) &&
              (content.BytesContent? && !([0xC7, 0x00] <= content.raw) ==> status == ENCODING_NOT_SUPPORTED)
  {}

  /** What is patched otherwise: the seed of a create, or the stored body behind its prefix. */
  ghost function PatchedBytes(w: World, patch: Patch, base: Options): seq<Byte>
    requires Subject(w, patch.key).content.Void? || Subject(w, patch.key).content.BytesContent?
    requires Subject(w, patch.key).content.BytesContent? ==> |Subject(w, patch.key).content.raw| >= 2
  {
    var content := Subject(w, patch.key).content;
    if content.BytesContent? then content.raw[2..]
    else if base.initialBody == [] then [0x80]
    else base.initialBody
  }

  /** The patch gets past every refusal. */
  predicate Patchable(lib: Library, w: World, patch: Patch, base: Options) {
    None !in patch.ops && (base.createIfNotExist || patch.key in w.store) &&
    (base.createIfNotExist ==> lib.parses(if base.initialBody == [] then [0x80] else base.initialBody)) &&
    var content := Subject(w, patch.key).content;
    (content.Void? && base.createIfNotExist) ||
    (content.BytesContent? && |content.raw| >= 2 && content.raw[0] == 0xC7 && content.raw[1] == 0x00)
  }

  /** Then the library's verdict on those bytes decides: each of its errors has its status, and a new body is
      stored behind the prefix unless the cap stops it. */
  lemma LibraryDecides(lib: Library, now: int, w: World, patch: Patch, base: Options)
    requires Patchable(lib, w, patch, base)
    ensures var (w', status) := ApplyPatch(lib, now, w, patch, base);
            match lib.apply(PatchedBytes(w, patch, base), Given(patch.ops), patch.cond)
            case Failed(ConditionNotMet) => status == CONDITION_NOT_MET
            case Failed(TypeMismatch) => status == TYPE_MISMATCH
            case Failed(PathInvalid) => status == PATH_INVALID
            case Failed(InvalidOp) => status == PATH_INVALID
            case Failed(InvalidMsgpack) => status == ENCODING_NOT_SUPPORTED
            case Failed(NonStringKey) => status == ENCODING_NOT_SUPPORTED
            case Failed(OtherError) => status == INTERNAL_ERROR
            case Patched(out) =>
              status == CAP_EXCEEDED ||
              (status == (if Subject(w, patch.key).content.Void? then CREATED else PATCHED) &&
               patch.key in w'.store && w'.store[patch.key].content == BytesContent([0xC7, 0x00] + out) &&
               w'.store[patch.key].key == Subject(w, patch.key).key)
  {}

  /** The metadata in force: the patch's own if it has any, whole, else the request's. */
  function InForce(patch: Patch, base: Options): Option<PatchMeta> {
    match patch.meta
    case Some(own) => Some(own)
    case None => base.meta
  }

  /** One treasure before and after stamping, field by field. */
  predicate StampedAs(before: Treasure, after: Treasure, m: PatchMeta, now: int, created: bool) {
    after.modifiedAt == (if m.setUpdatedAt then now else before.modifiedAt) &&
    after.modifiedBy == (if m.setUpdatedBy == "" then before.modifiedBy else m.setUpdatedBy) &&
    after.createdAt == (if created && m.setCreatedAt then now else before.createdAt) &&
    after.createdBy == (if !created || m.setCreatedBy == "" then before.createdBy else m.setCreatedBy) &&
    (m.clearExpiredAt ==> after.expiresAt == 0) &&
    (!m.clearExpiredAt && m.setExpiredAt.Some? ==> after.expiresAt == m.setExpiredAt.value) &&
    (!m.clearExpiredAt && m.setExpiredAt.None? ==> after.expiresAt == before.expiresAt)
  }

  predicate SameMetadata(before: Treasure, after: Treasure) {
    after.modifiedAt == before.modifiedAt && after.modifiedBy == before.modifiedBy &&
    after.createdAt == before.createdAt && after.createdBy == before.createdBy && after.expiresAt == before.expiresAt
  }

  lemma StampedFields(t: Treasure, meta: Option<PatchMeta>, now: int, created: bool)
    ensures meta.None? ==> Stamped(t, meta, now, created) == t
    ensures meta.Some? ==> StampedAs(t, Stamped(t, meta, now, created), meta.value, now, created)
    ensures Stamped(t, meta, now, created).key == t.key && Stamped(t, meta, now, created).content == t.content
  {}

  lemma SuccessStamps(lib: Library, now: int, w: World, patch: Patch, base: Options)
    requires ApplyPatch(lib, now, w, patch, base).1.Succeeded()
    ensures var (w', status) := ApplyPatch(lib, now, w, patch, base);
            patch.key in w'.store && exists content ::
              w'.store[patch.key] ==
              Stamped(Subject(w, patch.key).(content := content), InForce(patch, base), now, status == CREATED)
  {}

  /** On success every metadata field, from the metadata in force: creation fields only on a create, and
      clearing the expiry wins over setting it. */
  lemma MetadataWritten(lib: Library, now: int, w: World, patch: Patch, base: Options)
    requires ApplyPatch(lib, now, w, patch, base).1.Succeeded()
    ensures var (w', status) := ApplyPatch(lib, now, w, patch, base);
            patch.key in w'.store &&
            var before, after := Subject(w, patch.key), w'.store[patch.key];
            (InForce(patch, base).None? ==> SameMetadata(before, after)) &&
            (InForce(patch, base).Some? ==>
              StampedAs(before, after, InForce(patch, base).value, now, status == CREATED))
  {
    SuccessStamps(lib, now, w, patch, base);
    var (w', status) := ApplyPatch(lib, now, w, patch, base);
    var content :| w'.store[patch.key] ==
      Stamped(Subject(w, patch.key).(content := content), InForce(patch, base), now, status == CREATED);
    StampedFields(Subject(w, patch.key).(content := content), InForce(patch, base), now, status == CREATED);
  }

  /** A patch with metadata of its own does not depend on the request's. */
  lemma OwnMetadataReplaces(lib: Library, now: int, w: World, patch: Patch, base: Options, other: Option<PatchMeta>)
    requires patch.meta.Some?
    ensures ApplyPatch(lib, now, w, patch, base) == ApplyPatch(lib, now, w, patch, base.(meta := other))
  {
    assert OptionsFor(patch, base) == OptionsFor(patch, base.(meta := other));
  }

  /** A request's cap is well formed iff its limit is positive and its filter is given and speaks of bodies. */
  lemma CapWellFormedMeans(cap: Cap)
    ensures CapWellFormed(cap) <==>
            0 < cap.maxMatching && cap.filter.Some? &&
            forall o | o in Occurrences(cap.filter.value, Legs(cap.filter.value)) :: BodyLeaf(o.leaf)
  {
    if cap.filter.Some? { BodyOnlyMeans(cap.filter.value); }
  }

  // ---- the cap bound ----

  /** The count before a batch looks past the first two bytes of any byte content, prefixed or not. */
  predicate CapMatches(p: CapPredicate, t: Treasure) {
    t.content.BytesContent? && |t.content.raw| >= 2 && p(t.content.raw[2..])
  }

  function Matching(store: map<string, Treasure>, p: CapPredicate): set<string> {
    set k | k in store && CapMatches(p, store[k])
  }

  lemma MatchingAfterWrite(store: map<string, Treasure>, p: CapPredicate, key: string, t: Treasure)
    ensures |Matching(store[key := t], p)| ==
            |Matching(store, p)| - (if key in Matching(store, p) then 1 else 0) + (if CapMatches(p, t) then 1 else 0)
  {
    var before, after := Matching(store, p), Matching(store[key := t], p);
    var rest := before - {key};
    assert forall k | k != key :: k in after <==> k in before;
    if CapMatches(p, t) {
      assert after == rest + {key};
    } else {
      assert after == rest;
    }
  }

  /** Count plus budget never grows, and the budget stays between zero and what it was. */
  lemma PatchKeepsBound(lib: Library, now: int, w: World, patch: Patch, base: Options, p: CapPredicate)
    requires Valid(w) && base.cap == Some(p) && w.budget >= 0
    ensures var w' := ApplyPatch(lib, now, w, patch, base).0;
            Valid(w') && 0 <= w'.budget <= w.budget &&
            |Matching(w'.store, p)| + w'.budget <= |Matching(w.store, p)| + w.budget
  {
    var (w', status) := ApplyPatch(lib, now, w, patch, base);
    if status.Succeeded() {
      SuccessWritesAttempt(lib, now, w, patch, base);
      var (input, out) := Attempt(lib, w, patch, base).value;
      assert !input.isCreate ==> patch.key in w.store && (patch.key in Matching(w.store, p) <==> p(input.bytes));
      var t := w'.store[patch.key];
      assert w'.store == w.store[patch.key := t];
      assert CapMatches(p, t) <==> p(out);
      MatchingAfterWrite(w.store, p, patch.key, t);
    } else {
      FailureChangesNothing(lib, now, w, patch, base);
    }
  }

  lemma {:induction false} BatchKeepsBound(
    lib: Library, clock: nat -> int, w: World, patches: seq<Patch>, base: Options, p: CapPredicate)
    requires Valid(w) && base.cap == Some(p) && w.budget >= 0
    ensures var end := Fold(lib, clock, w, patches, base).0;
            Valid(end) && 0 <= end.budget <= w.budget &&
            |Matching(end.store, p)| <= |Matching(w.store, p)| + (w.budget - end.budget)
  {
    if patches != [] {
      var n := |patches| - 1;
      BatchKeepsBound(lib, clock, w, patches[..n], base, p);
      PatchKeepsBound(lib, clock(n), Fold(lib, clock, w, patches[..n], base).0, patches[n], base, p);
    }
  }

  /** The budget a batch starts with, in int32 arithmetic. */
  function StartBudget(maxMatching: int, count: nat): int {
    var left := WrapInt32(maxMatching - WrapInt32(count));
    if left < 0 then 0 else left
  }

  function Max(a: int, b: int): int {
    if a < b then b else a
  }

  /** After every prefix of a batch without interleaved writers, repeated keys and creates included, the
      number of matching treasures is at most the larger of the cap and the number at the start. */
  lemma CapHolds(lib: Library, clock: nat -> int, w: World, patches: seq<Patch>, i: nat, base: Options,
                 p: CapPredicate, maxMatching: int)
    requires Valid(w) && base.cap == Some(p) && i <= |patches|
    requires 0 < maxMatching < 0x8000_0000 && |Matching(w.store, p)| < 0x8000_0000
    requires w.budget == StartBudget(maxMatching, |Matching(w.store, p)|)
    ensures |Matching(Fold(lib, clock, w, patches[..i], base).0.store, p)| <= Max(|Matching(w.store, p)|, maxMatching)
  {
    BatchKeepsBound(lib, clock, w, patches[..i], base, p);
  }

  // ---- the bound needs a current count ----

  /** How a request may create a treasure: the seed it gives (or leaves to the default), the ops and the
      condition. */
  datatype Recipe = Recipe(initialBody: seq<Byte>, ops: seq<PatchOp>, cond: Option<Condition>)

  /** What the library makes of a recipe. */
  function Brewed(lib: Library, recipe: Recipe): Option<seq<Byte>> {
    var seed := Seed(CreateOptions(recipe, None));
    if !lib.parses(seed) then None
    else
      match lib.apply(seed, recipe.ops, recipe.cond)
      case Failed(_) => None
      case Patched(body) => Some(body)
  }

  /** The recipe makes a body the cap counts. */
  predicate CanCreate(lib: Library, p: CapPredicate, recipe: Recipe) {
    Brewed(lib, recipe).Some? && p(Brewed(lib, recipe).value)
  }

  function Somes(ops: seq<PatchOp>): (given: seq<Option<PatchOp>>)
    ensures None !in given && Given(given) == ops
  {
    var given := seq(|ops|, i requires 0 <= i < |ops| => Some(ops[i]));
    assert Given(given) == ops;
    given
  }

  function Creation(recipe: Recipe, key: string): Patch {
    Patch(key, Somes(recipe.ops), recipe.cond, None)
  }

  function CreateOptions(recipe: Recipe, cap: Option<CapPredicate>): Options {
    Options(true, recipe.initialBody, None, cap)
  }

  /** Creating a matching body under a new key, with budget left, spends one and counts one. */
  lemma CreationSpends(lib: Library, now: int, w: World, recipe: Recipe, key: string, p: CapPredicate)
    requires CanCreate(lib, p, recipe) && Valid(w) && key !in w.store && w.budget > 0
    ensures var w' := ApplyPatch(lib, now, w, Creation(recipe, key), CreateOptions(recipe, Some(p))).0;
            w'.store.Keys == w.store.Keys + {key} && Valid(w') && w'.budget == w.budget - 1 &&
            |Matching(w'.store, p)| == |Matching(w.store, p)| + 1
  {
    var w' := ApplyPatch(lib, now, w, Creation(recipe, key), CreateOptions(recipe, Some(p))).0;
    assert w'.store == w.store[key := w'.store[key]];
    MatchingAfterWrite(w.store, p, key, w'.store[key]);
  }

  function Creations(recipe: Recipe, keys: seq<string>): (patches: seq<Patch>)
    ensures |patches| == |keys| && forall i | 0 <= i < |keys| :: patches[i] == Creation(recipe, keys[i])
  {
    seq(|keys|, i requires 0 <= i < |keys| => Creation(recipe, keys[i]))
  }

  /** The state after a batch of creations. */
  function Created(lib: Library, clock: nat -> int, w: World, recipe: Recipe, keys: seq<string>, p: CapPredicate)
    : World
  {
    Fold(lib, clock, w, Creations(recipe, keys), CreateOptions(recipe, Some(p))).0
  }

  lemma CreationLast(lib: Library, clock: nat -> int, w: World, recipe: Recipe, keys: seq<string>, p: CapPredicate)
    requires keys != []
    ensures var n := |keys| - 1;
            Created(lib, clock, w, recipe, keys, p) ==
            ApplyPatch(lib, clock(n), Created(lib, clock, w, recipe, keys[..n], p), Creation(recipe, keys[n]),
                       CreateOptions(recipe, Some(p))).0
  {
    var n := |keys| - 1;
    var patches := Creations(recipe, keys);
    assert patches[..n] == Creations(recipe, keys[..n]) && patches[n] == Creation(recipe, keys[n]);
  }

  predicate FreshKeys(store: map<string, Treasure>, keys: seq<string>) {
    (forall i | 0 <= i < |keys| :: keys[i] !in store) && forall i, j | 0 <= i < j < |keys| :: keys[i] != keys[j]
  }

  /** A batch of creations under new keys spends its budget to the last. */
  lemma {:induction false} CreationsSpend(
    lib: Library, clock: nat -> int, w: World, recipe: Recipe, keys: seq<string>, p: CapPredicate)
    requires CanCreate(lib, p, recipe) && Valid(w) && FreshKeys(w.store, keys) && |keys| <= w.budget
    ensures var end := Created(lib, clock, w, recipe, keys, p);
            Valid(end) && end.budget == w.budget - |keys| &&
            (forall k :: k in end.store <==> k in w.store || k in keys) &&
            |Matching(end.store, p)| == |Matching(w.store, p)| + |keys|
  {
    if keys != [] {
      var n := |keys| - 1;
      var init := keys[..n];
      CreationsSpend(lib, clock, w, recipe, init, p);
      CreationLast(lib, clock, w, recipe, keys, p);
      assert forall k :: k in keys <==> k in init || k == keys[n];
      CreationSpends(lib, clock(n), Created(lib, clock, w, recipe, init, p), recipe, keys[n], p);
    }
  }

  function Letters(n: nat): (s: string)
    ensures |s| == n
  {
    seq(n, _ => 'a')
  }

  function KeysFrom(length: nat, n: nat): (keys: seq<string>)
    ensures |keys| == n && forall i | 0 <= i < n :: |keys[i]| == length + i
  {
    if n == 0 then [] else KeysFrom(length, n - 1) + [Letters(length + n - 1)]
  }

  /** There are always as many unused keys as one likes. */
  lemma SomeFreshKeys(store: map<string, Treasure>, n: nat) returns (keys: seq<string>)
    ensures |keys| == n && FreshKeys(store, keys)
  {
    var length := LongerThanAll(store.Keys);
    keys := KeysFrom(length, n);
    forall i, j | 0 <= i < j < n ensures keys[i] != keys[j] { assert |keys[i]| != |keys[j]|; }
    assert forall k | k in store :: k in store.Keys && |k| < length;
  }

  lemma {:induction false} LongerThanAll(used: set<string>) returns (n: nat)
    ensures forall k | k in used :: |k| < n
  {
    if used == {} { return 0; }
    var k :| k in used;
    var rest := LongerThanAll(used - {k});
    n := if |k| < rest then rest else |k| + 1;
    assert forall x | x in used :: x == k || x in used - {k};
  }

  ghost predicate Within(lib: Library, clock: nat -> int, w: World, patches: seq<Patch>, base: Options,
                         p: CapPredicate, bound: int)
  {
    |Matching(Fold(lib, clock, w, patches, base).0.store, p)| <= bound
  }

  /** No batch under the cap, from this state and budget, ends above the bound. */
  ghost predicate AllWithin(lib: Library, w: World, p: CapPredicate, bound: int) {
    forall clock: nat -> int, patches, base: Options | base.cap == Some(p) ::
      Within(lib, clock, w, patches, base, p, bound)
  }

  /** Some request can create a treasure the cap counts. */
  ghost predicate Creatable(lib: Library, p: CapPredicate) {
    exists recipe :: CanCreate(lib, p, recipe)
  }

  /** Whatever budget a batch starts with, fresh or stale: every batch ends within the larger of count and cap
      iff count plus budget is within it, provided matching treasures can be created at all. */
  lemma BudgetExact(lib: Library, w: World, p: CapPredicate, maxMatching: int)
    requires Creatable(lib, p) && Valid(w) && w.budget >= 0
    ensures var count := |Matching(w.store, p)|;
            AllWithin(lib, w, p, Max(count, maxMatching)) <==> count + w.budget <= Max(count, maxMatching)
  {
    var count := |Matching(w.store, p)|;
    var bound := Max(count, maxMatching);
    if count + w.budget <= bound {
      BudgetSuffices(lib, w, p, bound);
    } else {
      var recipe :| CanCreate(lib, p, recipe);
      var keys := SomeFreshKeys(w.store, w.budget);
      var clock := (n: nat) => 0;
      CreationsSpend(lib, clock, w, recipe, keys, p);
      assert !Within(lib, clock, w, Creations(recipe, keys), CreateOptions(recipe, Some(p)), p, bound);
    }
  }

  /** The half that needs no creation: within the budget, every batch stays within the bound. */
  lemma BudgetSuffices(lib: Library, w: World, p: CapPredicate, bound: int)
    requires Valid(w) && w.budget >= 0 && |Matching(w.store, p)| + w.budget <= bound
    ensures AllWithin(lib, w, p, bound)
  {
    forall clock: nat -> int, patches, base: Options | base.cap == Some(p)
      ensures Within(lib, clock, w, patches, base, p, bound)
    {
      BatchKeepsBound(lib, clock, w, patches, base, p);
    }
  }

  /** The count is taken before the cap mutex, so it may be out of date when the batch runs. The cap then holds
      for every batch iff the count has not grown since, or the cap was already used up when it was taken. */
  lemma StaleCountExact(lib: Library, w: World, p: CapPredicate, maxMatching: int, counted: nat)
    requires Creatable(lib, p) && Valid(w) && w.budget == StartBudget(maxMatching, counted)
    requires 0 < maxMatching < 0x8000_0000 && counted < 0x8000_0000
    ensures AllWithin(lib, w, p, Max(|Matching(w.store, p)|, maxMatching)) <==>
            |Matching(w.store, p)| <= counted || maxMatching <= counted
  {
    BudgetExact(lib, w, p, maxMatching);
  }

  /** One creation as a batch of its own. */
  lemma OneCreationSpends(lib: Library, clock: nat -> int, w: World, recipe: Recipe, key: string, p: CapPredicate)
    requires CanCreate(lib, p, recipe) && Valid(w) && key !in w.store && w.budget > 0
    ensures var end := Created(lib, clock, w, recipe, [key], p);
            Valid(end) && end.store.Keys == w.store.Keys + {key} &&
            |Matching(end.store, p)| == |Matching(w.store, p)| + 1
  {
    CreationsSpend(lib, clock, w, recipe, [key], p);
    var end := Created(lib, clock, w, recipe, [key], p);
    assert forall k :: k in end.store.Keys <==> k in w.store.Keys + {key};
  }

  /** A swamp in which this happens, for any recipe that creates a match: two batches of one creation each that
      both counted nothing, under a cap of one. */
  lemma StaleCountOverruns(
    lib: Library, clock: nat -> int, p: CapPredicate, recipe: Recipe, first: string, second: string)
    requires CanCreate(lib, p, recipe) && first != second
    ensures StartBudget(1, |Matching(map[], p)|) == 1
    ensures var mid := Created(lib, clock, World(map[], map[], 1), recipe, [first], p);
            var end := Created(lib, clock, mid.(budget := 1), recipe, [second], p);
            |Matching(mid.store, p)| == 1 && |Matching(end.store, p)| == 2
  {
    assert Matching(map[], p) == {};
    var start := World(map[], map[], 1);
    OneCreationSpends(lib, clock, start, recipe, first, p);
    var mid := Created(lib, clock, start, recipe, [first], p);
    assert second !in mid.store.Keys;
    OneCreationSpends(lib, clock, mid.(budget := 1), recipe, second, p);
  }

  /** An ordinary cap: if some ops turn the empty map into a body whose `field` equals `value`, the cap
      "field == value" is one the results above speak of. */
  lemma EqualityCapCreatable(env: Env, lib: Library, field: string, value: string, ops: seq<PatchOp>, body: seq<Byte>)
    requires PlainName(field) && lib.parses(EMPTY_MAP) && lib.apply(EMPTY_MAP, ops, None) == Patched(body)
    requires body != [] && env.decode(body) == Some(map[field := Str(value)])
    ensures Creatable(lib, CapOn(env, FieldEquals(field, value)))
  {
    var doc := map[field := Str(value)];
    var filter := FieldEquals(field, value);
    PlainField(doc, field);
    assert GroupOnMap(env, doc, filter) by {
      assert filter.filters == [filter.filters[0]] && LeafOnMap(env, doc, filter.filters[0]);
    }
    assert CanCreate(lib, CapOn(env, filter), Recipe([], ops, None));
  }

  function FieldEquals(field: string, value: string): FilterGroup {
    FilterGroup(AND, [TreasureFilter(EQUAL, StringVal(value), Some(field), "", [], [], [])], [], [], [], [], [])
  }

  /** Each result of a batch is the outcome of its patch in the state the earlier ones left. */
  lemma {:induction false} ResultAt(
    lib: Library, clock: nat -> int, w: World, patches: seq<Patch>, base: Options, i: nat)
    requires i < |patches|
    ensures Fold(lib, clock, w, patches, base).1[i] ==
            PatchResult(patches[i].key,
              ApplyPatch(lib, clock(i), Fold(lib, clock, w, patches[..i], base).0, patches[i], base).1)
  {
    var n := |patches| - 1;
    if i < n {
      ResultAt(lib, clock, w, patches[..n], base, i);
      assert patches[..n][..i] == patches[..i];
    }
  }

  /** The batch reports the cap for a patch iff its (no, yes) transition met an exhausted budget; so
      CapReached says that some patch did. */
  lemma CapReachedExactly(lib: Library, clock: nat -> int, w: World, patches: seq<Patch>, base: Options, i: nat)
    requires i < |patches|
    ensures Fold(lib, clock, w, patches, base).1[i].status == CAP_EXCEEDED <==>
            CrossesAtZero(lib, Fold(lib, clock, w, patches[..i], base).0, patches[i], base)
  {
    ResultAt(lib, clock, w, patches, base, i);
    ExceededExactly(lib, clock(i), Fold(lib, clock, w, patches[..i], base).0, patches[i], base);
  }

  /** A cap that is not reached changes nothing: same treasures and same statuses as without one. */
  lemma {:induction false} UnreachedCapIsInvisible(
    lib: Library, clock: nat -> int, w: World, patches: seq<Patch>, base: Options)
    requires forall r | r in Fold(lib, clock, w, patches, base).1 :: r.status != CAP_EXCEEDED
    ensures var (capped, results) := Fold(lib, clock, w, patches, base);
            var (free, same) := Fold(lib, clock, w, patches, base.(cap := None));
            free.store == capped.store && free.creating == capped.creating && same == results
  {
    if patches != [] {
      var n := |patches| - 1;
      var results := Fold(lib, clock, w, patches, base).1;
      var before := Fold(lib, clock, w, patches[..n], base);
      assert results[..n] == before.1 && results[n] in results;
      assert forall r | r in before.1 :: r in results;
      UnreachedCapIsInvisible(lib, clock, w, patches[..n], base);
      var free := Fold(lib, clock, w, patches[..n], base.(cap := None)).0;
      PatchWithoutCap(lib, clock(n), before.0, free, patches[n], base);
    }
  }

  lemma PatchWithoutCap(lib: Library, now: int, w: World, v: World, patch: Patch, base: Options)
    requires v.store == w.store && v.creating == w.creating
    requires ApplyPatch(lib, now, w, patch, base).1 != CAP_EXCEEDED
    ensures var (w', status) := ApplyPatch(lib, now, w, patch, base);
            var (v', same) := ApplyPatch(lib, now, v, patch, base.(cap := None));
            v'.store == w'.store && v'.creating == w'.creating && same == status
  {
    var opts := OptionsFor(patch, base);
    assert OptionsFor(patch, base.(cap := None)) == opts.(cap := None);
    if None !in patch.ops { SubjectWithoutCap(lib, now, w, v, patch.key, Given(patch.ops), patch.cond, opts); }
  }

  lemma SubjectWithoutCap(lib: Library, now: int, w: World, v: World, key: string, ops: seq<PatchOp>,
                          cond: Option<Condition>, opts: Options)
    requires v.store == w.store && v.creating == w.creating
    ensures var (w', status) := PatchSubject(lib, now, w, key, ops, cond, opts);
            var (v', same) := PatchSubject(lib, now, v, key, ops, cond, opts.(cap := None));
            status != CAP_EXCEEDED ==> v'.store == w'.store && v'.creating == w'.creating && same == status
  {
    assert Subject(v, key) == Subject(w, key) && Dropped(v, key).creating == Dropped(w, key).creating;
    var content := Subject(w, key).content;
    assert InputOf(content, opts.(cap := None)) == InputOf(content, opts);
  }

  // ---- requests ----

  datatype Cap = Cap(filter: Option<FilterGroup>, maxMatching: int)

  datatype Request = Request(
    swampName: string, patches: seq<Patch>, cap: Option<Cap>, createIfNotExist: bool, initialBody: seq<Byte>,
    meta: Option<PatchMeta>)

  datatype Outcome = InvalidArgument | Internal | Answered(results: seq<PatchResult>, capReached: bool)

  /** The engine predicate of a cap filter: an empty body decodes to an empty map, an undecodable one never
      matches. */
  function CapOn(env: Env, filter: FilterGroup): (p: CapPredicate)
    ensures forall body: seq<Byte> :: p(body) <==>
              (body == [] && GroupOnMap(env, map[], filter)) ||
              (body != [] && env.decode(body).Some? && GroupOnMap(env, env.decode(body).value, filter))
  {
    body =>
      if body == [] then GroupOnMap(env, map[], filter)
      else var doc := env.decode(body); doc.Some? && GroupOnMap(env, doc.value, filter)
  }

  /** Over prefixed bodies that decode, what the cap counts is what the filter itself accepts. */
  lemma CapCountsFilter(env: Env, filter: FilterGroup, t: Treasure)
    requires BodyOnly(filter) && DecodedBody(env, t).Some? && |t.content.raw| > 2
    ensures CapMatches(CapOn(env, filter), t) <==> GroupHolds(env, t, filter)
  {
    BodyOnlyAgrees(env, t, DecodedBody(env, t).value, filter);
  }

  /** buildBodyCapPredicate accepts. */
  predicate CapWellFormed(cap: Cap) {
    cap.maxMatching > 0 && cap.filter.Some? && BodyOnly(cap.filter.value)
  }

  function BaseOptions(env: Env, req: Request): Options
    requires req.cap.Some? ==> req.cap.value.filter.Some?
  {
    Options(req.createIfNotExist, req.initialBody, req.meta,
      if req.cap.None? then None else Some(CapOn(env, req.cap.value.filter.value)))
  }

  /** The state a batch starts from: its budget is the cap less the treasures that match already. */
  function StartOf(env: Env, req: Request, store: map<string, Treasure>, creating: map<string, Treasure>): World
    requires req.cap.Some? ==> req.cap.value.filter.Some?
  {
    World(store, creating,
      if req.cap.None? then 0
      else StartBudget(req.cap.value.maxMatching, |Matching(store, CapOn(env, req.cap.value.filter.value))|))
  }

  /** Checks before the swamp is touched; an empty batch is answered before its cap is looked at, and a bad cap
      is refused before the swamp is summoned. Any name but the empty one passes checkSwampName. */
  function Precheck(req: Request, summoned: bool): Option<Outcome> {
    if req.swampName == "" then Some(InvalidArgument)
    else if req.patches == [] then Some(Answered([], false))
    else if req.cap.Some? && !CapWellFormed(req.cap.value) then Some(InvalidArgument)
    else if !summoned then Some(Internal)
    else None
  }

  lemma RequestKeepsCap(env: Env, lib: Library, clock: nat -> int, req: Request, w: World)
    requires Precheck(req, true).None? && Valid(w) && w == StartOf(env, req, w.store, w.creating)
    requires req.cap.Some? ==> req.cap.value.maxMatching < 0x8000_0000
    ensures req.cap.Some? ==>
              var p := CapOn(env, req.cap.value.filter.value);
              |Matching(w.store, p)| < 0x8000_0000 ==>
              |Matching(Fold(lib, clock, w, req.patches, BaseOptions(env, req)).0.store, p)| <=
              Max(|Matching(w.store, p)|, req.cap.value.maxMatching)
  {
    if req.cap.Some? {
      var p := CapOn(env, req.cap.value.filter.value);
      if |Matching(w.store, p)| < 0x8000_0000 {
        CapHolds(lib, clock, w, req.patches, |req.patches|, BaseOptions(env, req), p, req.cap.value.maxMatching);
        assert req.patches[..|req.patches|] == req.patches;
      }
    }
  }

  /** patchTreasuresOneSwamp, without interleaved writers. Refused and empty requests change nothing; others
      are the fold over their patches, and a cap holds whenever the swamp started with fewer than 2^31
      matching treasures. */
  method PatchTreasuresOneSwamp(env: Env, lib: Library, clock: nat -> int, sw: Swamp, summoned: bool, req: Request)
    returns (outcome: Outcome)
    requires forall k | k in sw.creating :: sw.creating[k].content.Void?
    requires req.cap.Some? ==> req.cap.value.maxMatching < 0x8000_0000
    modifies sw
    ensures Precheck(req, summoned).Some? ==>
              outcome == Precheck(req, summoned).value && sw.store == old(sw.store) && sw.creating == old(sw.creating)
    ensures Precheck(req, summoned).None? ==>
              var start := StartOf(env, req, old(sw.store), old(sw.creating));
              var (end, results) := Fold(lib, clock, start, req.patches, BaseOptions(env, req));
              sw.store == end.store && sw.creating == end.creating && outcome.Answered? && outcome.results == results
    ensures outcome.Answered? ==> (outcome.capReached <==> exists r | r in outcome.results :: r.status == CAP_EXCEEDED)
    ensures Precheck(req, summoned).None? && req.cap.Some? ==>
              var p := CapOn(env, req.cap.value.filter.value);
              |Matching(old(sw.store), p)| < 0x8000_0000 ==>
              |Matching(sw.store, p)| <= Max(|Matching(old(sw.store), p)|, req.cap.value.maxMatching)
  {
    if req.swampName == "" { return InvalidArgument; }
    if req.patches == [] { return Answered([], false); }
    if req.cap.Some? && !CapWellFormed(req.cap.value) { return InvalidArgument; }
    if !summoned { return Internal; }
    var base := BaseOptions(env, req);
    var start := 0;
    if req.cap.Some? {
      var currentMatching := WrapInt32(|Matching(sw.store, base.cap.value)|);
      start := WrapInt32(req.cap.value.maxMatching - currentMatching);
      if start < 0 { start := 0; }
    }
    var budget := new Budget(start);
    assert sw.View(budget) == StartOf(env, req, sw.store, sw.creating);
    RequestKeepsCap(env, lib, clock, req, sw.View(budget));
    var results, capReached := sw.PatchAll(lib, clock, req.patches, base, budget);
    return Answered(results, capReached);
  }
}
