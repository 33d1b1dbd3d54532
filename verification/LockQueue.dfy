/** The FIFO lock with TTL (app/core/hydra/lock/lock.go): per-key queues of callers with ready and done
    channels, and every interleaving of Lock calls, cancellations, expiring watchdogs and Unlock calls. */
module LockQueue {
  // ---- queues and channels ----

  /** The two channels of a caller; a second close of either panics. */
  datatype Channel = Ready(id: string) | Done(id: string)

  /** Queues by key, holding caller ids, and every channel close so far in order. */
  datatype Table = Table(queues: map<string, seq<string>>, closes: seq<Channel>)

  function QueueOf(t: Table, key: string): seq<string> {
    if key in t.queues then t.queues[key] else []
  }

  function WithoutId(q: seq<string>, id: string): seq<string> {
    if q == [] then [] else if q[0] == id then q[1..] else [q[0]] + WithoutId(q[1..], id)
  }

  /** queue.enqueue. */
  function Enqueued(t: Table, key: string, id: string): Table {
    Table(t.queues[key := QueueOf(t, key) + [id]], if QueueOf(t, key) == [] then t.closes + [Ready(id)] else t.closes)
  }

  /** The channels queue.remove closes. */
  function RemovalCloses(q: seq<string>, id: string): seq<Channel> {
    if id !in q then []
    else if q[0] == id && |q| > 1 then [Done(id), Ready(q[1])]
    else [Done(id)]
  }

  /** queue.remove; unknown ids leave everything as it is. */
  function Removed(t: Table, key: string, id: string): Table {
    if id !in QueueOf(t, key) then t
    else Table(t.queues[key := WithoutId(QueueOf(t, key), id)], t.closes + RemovalCloses(QueueOf(t, key), id))
  }

  lemma {:induction false} WithoutIdAt(q: seq<string>, i: nat)
    requires i < |q| && q[i] !in q[..i]
    ensures WithoutId(q, q[i]) == q[..i] + q[i + 1..]
  {
    if i > 0 {
      assert q[1..][..i - 1] == q[..i][1..];
      assert q[0] == q[..i][0];
      WithoutIdAt(q[1..], i - 1);
    }
  }

  /** What a table must look like for its operations not to panic: distinct ids, open done channels, and
      ready closed for the head and only the head. */
  ghost predicate Sound(t: Table) {
    forall key | key in t.queues :: SoundQueue(t.queues[key], t.closes)
  }

  ghost predicate SoundQueue(q: seq<string>, closes: seq<Channel>) {
    (forall i, j | 0 <= i < j < |q| :: q[i] != q[j]) &&
    forall i | 0 <= i < |q| :: Done(q[i]) !in closes && (Ready(q[i]) in closes <==> i == 0)
  }

  /** The lock table as the source keeps it. */
  class LockTable {
    var queues: map<string, seq<string>>
    var closes: seq<Channel>

    function Contents(): Table
      reads this
    {
      Table(queues, closes)
    }

    constructor ()
      ensures Contents() == Table(map[], [])
    {
      queues, closes := map[], [];
    }

    /** Go's close: a channel may be closed once. */
    method Close(ch: Channel)
      requires ch !in closes
      modifies this`closes
      ensures closes == old(closes) + [ch]
    {
      closes := closes + [ch];
    }

    /** getQueue and enqueue for a caller whose id is new. */
    method Enqueue(key: string, id: string)
      requires Ready(id) !in closes
      modifies this
      ensures Contents() == Enqueued(old(Contents()), key, id)
    {
      if key !in queues { queues := queues[key := []]; }
      var wasEmpty := queues[key] == [];
      queues := queues[key := queues[key] + [id]];
      if wasEmpty { Close(Ready(id)); }
      assert queues == Enqueued(old(Contents()), key, id).queues;
    }

    /** queue.remove with its search loop and splice; neither close can panic. */
    method Remove(key: string, id: string) returns (found: bool)
      requires Sound(Contents())
      modifies this
      ensures Contents() == Removed(old(Contents()), key, id)
      ensures found == (id in QueueOf(old(Contents()), key))
    {
      if key !in queues { return false; }
      var callers := queues[key];
      assert SoundQueue(callers, closes);
      for i := 0 to |callers|
        invariant id !in callers[..i]
        invariant queues == old(queues) && closes == old(closes)
      {
        if callers[i] == id {
          WithoutIdAt(callers, i);
          queues := queues[key := callers[..i] + callers[i + 1..]];
          Close(Done(id));
          if i == 0 && |queues[key]| > 0 {
            Close(Ready(queues[key][0]));
          }
          assert i > 0 ==> callers[0] in callers[..i];
          return true;
        }
        assert callers[..i + 1] == callers[..i] + [callers[i]];
      }
      assert callers[..|callers|] == callers;
      return false;
    }

    /** Unlock fails exactly when the id is not queued under the key. */
    method Unlock(key: string, id: string) returns (ok: bool)
      requires Sound(Contents())
      modifies this
      ensures Contents() == Removed(old(Contents()), key, id)
      ensures ok == (id in QueueOf(old(Contents()), key))
    {
      if key !in queues { return false; }
      ok := Remove(key, id);
    }
  }

  // ---- whole runs ----

  /** Where a Lock call stands: waiting in its select; decided for ctx.Done but not yet removed; returned an
      error; returned its id with the watchdog alive; watchdog ended. */
  datatype Phase = Waiting | Cancelling | Cancelled | Armed | Released {
    /** Lock has not returned. */
    predicate Pending() { Waiting? || Cancelling? }

    /** The call's own removal has run, or its watchdog found it done. */
    predicate Ended() { Cancelled? || Released? }

    /** Lock returned the id. */
    predicate Granted() { Armed? || Released? }
  }

  /** A Lock call; the ticket numbers enqueues. */
  datatype Call = Call(key: string, ticket: nat, phase: Phase)

  datatype State = State(table: Table, calls: map<string, Call>, clock: nat)

  datatype Step =
    | Enqueue(key: string, id: string)
    | Acquire(id: string)
    | CtxDone(id: string)
    | CancelRemove(id: string)
    | TtlFire(id: string)
    | WatchdogDone(id: string)
    | Unlock(key: string, id: string)

  predicate InPhase(s: State, id: string, phase: Phase) {
    id in s.calls && s.calls[id].phase == phase
  }

  /** Ids are fresh; Unlock is given an id some Lock call returned, or one that was never issued. */
  predicate Enabled(s: State, step: Step) {
    match step
    case Enqueue(_, id) => id !in s.calls
    case Acquire(id) => InPhase(s, id, Waiting) && Ready(id) in s.table.closes
    case CtxDone(id) => InPhase(s, id, Waiting)
    case CancelRemove(id) => InPhase(s, id, Cancelling)
    case TtlFire(id) => InPhase(s, id, Armed)
    case WatchdogDone(id) => InPhase(s, id, Armed) && Done(id) in s.table.closes
    case Unlock(_, id) => id in s.calls ==> s.calls[id].phase.Granted()
  }

  function WithPhase(s: State, id: string, phase: Phase): State
    requires id in s.calls
  {
    s.(calls := s.calls[id := s.calls[id].(phase := phase)])
  }

  function Next(s: State, step: Step): State
    requires Enabled(s, step)
  {
    match step
    case Enqueue(key, id) =>
      State(Enqueued(s.table, key, id), s.calls[id := Call(key, s.clock, Waiting)], s.clock + 1)
    case Acquire(id) => WithPhase(s, id, Armed)
    case CtxDone(id) => WithPhase(s, id, Cancelling)
    case CancelRemove(id) => WithPhase(s.(table := Removed(s.table, s.calls[id].key, id)), id, Cancelled)
    case TtlFire(id) => WithPhase(s.(table := Removed(s.table, s.calls[id].key, id)), id, Released)
    case WatchdogDone(id) => WithPhase(s, id, Released)
    case Unlock(key, id) => s.(table := Removed(s.table, key, id))
  }

  /** Nothing the source lets happen is missing from the runs: new calls at any time, waiters that may be
      cancelled at any time and may return once woken, watchdogs that may fire or end, and Unlock calls with
      returned or unknown ids at any time. */
  lemma StepsAvailable(s: State, key: string, id: string)
    ensures id !in s.calls ==> Enabled(s, Enqueue(key, id)) && Enabled(s, Unlock(key, id))
    ensures InPhase(s, id, Waiting) ==> Enabled(s, CtxDone(id))
    ensures InPhase(s, id, Waiting) && Ready(id) in s.table.closes ==> Enabled(s, Acquire(id))
    ensures InPhase(s, id, Cancelling) ==> Enabled(s, CancelRemove(id))
    ensures InPhase(s, id, Armed) ==> Enabled(s, TtlFire(id)) && Enabled(s, Unlock(key, id))
    ensures InPhase(s, id, Armed) && Done(id) in s.table.closes ==> Enabled(s, WatchdogDone(id))
    ensures InPhase(s, id, Released) ==> Enabled(s, Unlock(key, id))
  {}

  const INITIAL := State(Table(map[], []), map[], 0)

  ghost predicate ValidRun(s: State, steps: seq<Step>)
    decreases |steps|
  {
    steps == [] || (Enabled(s, steps[0]) && ValidRun(Next(s, steps[0]), steps[1..]))
  }

  function Exec(s: State, steps: seq<Step>): State
    requires ValidRun(s, steps)
    decreases |steps|
  {
    if steps == [] then s else Exec(Next(s, steps[0]), steps[1..])
  }

  // ---- the invariant ----

  predicate Queued(s: State, id: string) {
    id in s.calls && id in QueueOf(s.table, s.calls[id].key)
  }

  /** A queue's members are live calls of its key, in ticket order; ready is closed for the head alone. */
  ghost predicate QueueInv(s: State, key: string) {
    var q := QueueOf(s.table, key);
    (forall i | 0 <= i < |q| ::
      q[i] in s.calls && s.calls[q[i]].key == key && !s.calls[q[i]].phase.Ended() &&
      (Ready(q[i]) in s.table.closes <==> i == 0)) &&
    forall i, j | 0 <= i < j < |q| :: s.calls[q[i]].ticket < s.calls[q[j]].ticket
  }

  /** A call: queued until its done channel is closed; returned only after its ready channel was. */
  ghost predicate CallInv(s: State, id: string)
    requires id in s.calls
  {
    var c := s.calls[id];
    c.ticket < s.clock &&
    (Done(id) in s.table.closes <==> !Queued(s, id)) &&
    (c.phase.Pending() ==> Queued(s, id)) &&
    (c.phase.Ended() ==> !Queued(s, id)) &&
    (c.phase.Granted() ==> Ready(id) in s.table.closes)
  }

  ghost predicate TicketsDiffer(s: State) {
    forall a, b | a in s.calls && b in s.calls && a != b :: s.calls[a].ticket != s.calls[b].ticket
  }

  /** A grant never overtakes: whoever is still queued came no earlier than anyone granted under its key. */
  ghost predicate GrantInv(s: State) {
    forall a, b | a in s.calls && Ready(a) in s.table.closes && Queued(s, b) && s.calls[b].key == s.calls[a].key ::
      s.calls[a].ticket <= s.calls[b].ticket
  }

  /** No channel is closed twice. */
  ghost predicate ClosedOnce(closes: seq<Channel>) {
    forall i, j | 0 <= i < j < |closes| :: closes[i] != closes[j]
  }

  /** Under every key, ready channels are closed in ticket order. */
  ghost predicate GrantsInOrder(calls: map<string, Call>, closes: seq<Channel>) {
    (forall ch | ch in closes :: ch.id in calls) &&
    forall i, j | 0 <= i < j < |closes| :: InOrder(calls, closes[i], closes[j])
  }

  ghost predicate InOrder(calls: map<string, Call>, a: Channel, b: Channel) {
    a.Ready? && b.Ready? && a.id in calls && b.id in calls && calls[a.id].key == calls[b.id].key ==>
      calls[a.id].ticket < calls[b.id].ticket
  }

  ghost predicate Inv(s: State) {
    (forall key :: QueueInv(s, key)) && (forall id | id in s.calls :: CallInv(s, id)) &&
    TicketsDiffer(s) && GrantInv(s) && ClosedOnce(s.table.closes) && GrantsInOrder(s.calls, s.table.closes)
  }

  lemma AppendClosedOnce(closes: seq<Channel>, ch: Channel)
    requires ClosedOnce(closes) && ch !in closes
    ensures ClosedOnce(closes + [ch])
  {}

  lemma AppendInOrder(calls: map<string, Call>, closes: seq<Channel>, ch: Channel)
    requires GrantsInOrder(calls, closes) && ch.id in calls && forall c | c in closes :: InOrder(calls, c, ch)
    ensures GrantsInOrder(calls, closes + [ch])
  {}

  /** Moves of a call to another phase that its invariant allows. */
  ghost predicate MayEnter(s: State, id: string, phase: Phase) {
    id in s.calls && !phase.Waiting? &&
    (phase.Cancelling? ==> s.calls[id].phase.Waiting?) &&
    (phase.Granted() ==> Ready(id) in s.table.closes) &&
    (phase.Ended() ==> !Queued(s, id))
  }

  lemma PhaseKeepsQueue(s: State, id: string, phase: Phase, key: string)
    requires QueueInv(s, key) && MayEnter(s, id, phase)
    ensures QueueInv(WithPhase(s, id, phase), key)
  {}

  lemma PhaseKeepsCall(s: State, id: string, phase: Phase, x: string)
    requires MayEnter(s, id, phase) && x in s.calls && CallInv(s, x)
    ensures CallInv(WithPhase(s, id, phase), x)
  {
    assert Queued(WithPhase(s, id, phase), x) <==> Queued(s, x);
  }

  lemma PhaseKeepsOrder(s: State, id: string, phase: Phase)
    requires MayEnter(s, id, phase) && TicketsDiffer(s) && GrantInv(s) && GrantsInOrder(s.calls, s.table.closes)
    ensures var s' := WithPhase(s, id, phase);
            TicketsDiffer(s') && GrantInv(s') && GrantsInOrder(s'.calls, s'.table.closes)
  {
    var s' := WithPhase(s, id, phase);
    assert forall x :: Queued(s', x) <==> Queued(s, x);
    forall a, b | InOrder(s.calls, a, b) ensures InOrder(s'.calls, a, b) {}
  }

  lemma PhaseKeeps(s: State, id: string, phase: Phase)
    requires Inv(s) && MayEnter(s, id, phase)
    ensures Inv(WithPhase(s, id, phase))
  {
    var s' := WithPhase(s, id, phase);
    forall key ensures QueueInv(s', key) { PhaseKeepsQueue(s, id, phase, key); }
    forall x | x in s'.calls ensures CallInv(s', x) { PhaseKeepsCall(s, id, phase, x); }
    PhaseKeepsOrder(s, id, phase);
  }

  // ---- enqueue ----

  lemma EnqueueKeepsQueue(s: State, key: string, id: string, k: string)
    requires QueueInv(s, k) && id !in s.calls && Ready(id) !in s.table.closes
    requires forall x | x in s.calls :: s.calls[x].ticket < s.clock
    ensures QueueInv(Next(s, Enqueue(key, id)), k)
  {}

  lemma EnqueueKeepsCall(s: State, key: string, id: string, x: string)
    requires id !in s.calls && Ready(id) !in s.table.closes && Done(id) !in s.table.closes
    requires x == id || (x in s.calls && CallInv(s, x))
    ensures CallInv(Next(s, Enqueue(key, id)), x)
  {
    var s' := Next(s, Enqueue(key, id));
    if x != id { assert Queued(s', x) <==> Queued(s, x); }
  }

  lemma EnqueueKeepsGrants(s: State, key: string, id: string)
    requires id !in s.calls && GrantInv(s) && Ready(id) !in s.table.closes
    requires forall x | x in s.calls :: s.calls[x].ticket < s.clock
    ensures GrantInv(Next(s, Enqueue(key, id)))
  {
    var s' := Next(s, Enqueue(key, id));
    assert forall x | x in s.calls :: Queued(s', x) <==> Queued(s, x);
  }

  lemma EnqueueKeepsCloses(s: State, key: string, id: string)
    requires id !in s.calls && GrantsInOrder(s.calls, s.table.closes) && ClosedOnce(s.table.closes)
    requires forall x | x in s.calls :: s.calls[x].ticket < s.clock
    ensures var s' := Next(s, Enqueue(key, id));
            ClosedOnce(s'.table.closes) && GrantsInOrder(s'.calls, s'.table.closes)
  {
    var calls, closes := s.calls[id := Call(key, s.clock, Waiting)], s.table.closes;
    assert GrantsInOrder(calls, closes) by {
      forall i, j | 0 <= i < j < |closes| ensures InOrder(calls, closes[i], closes[j]) {
        assert InOrder(s.calls, closes[i], closes[j]) && closes[i].id in s.calls && closes[j].id in s.calls;
      }
    }
    AppendInOrder(calls, closes, Ready(id));
    assert Ready(id) !in closes;
    AppendClosedOnce(closes, Ready(id));
  }

  lemma EnqueueKeeps(s: State, key: string, id: string)
    requires Inv(s) && id !in s.calls
    ensures Inv(Next(s, Enqueue(key, id)))
  {
    var s' := Next(s, Enqueue(key, id));
    forall x | x in s.calls ensures s.calls[x].ticket < s.clock { assert CallInv(s, x); }
    forall k ensures QueueInv(s', k) { EnqueueKeepsQueue(s, key, id, k); }
    forall x | x in s'.calls ensures CallInv(s', x) { EnqueueKeepsCall(s, key, id, x); }
    EnqueueKeepsGrants(s, key, id);
    EnqueueKeepsCloses(s, key, id);
  }

  // ---- removal ----

  /** The part of the invariant a removal rewrites, for its own key. */
  lemma RemovedQueue(s: State, key: string, i: nat)
    requires Inv(s) && i < |QueueOf(s.table, key)|
    ensures var q, t := QueueOf(s.table, key), Removed(s.table, key, QueueOf(s.table, key)[i]);
            QueueOf(t, key) == q[..i] + q[i + 1..] &&
            t.closes == s.table.closes + if i == 0 && |q| > 1 then [Done(q[0]), Ready(q[1])] else [Done(q[i])]
  {
    assert QueueInv(s, key);
    var q := QueueOf(s.table, key);
    forall j | 0 <= j < i ensures q[j] != q[i] {}
    WithoutIdAt(q, i);
    assert i > 0 ==> q[0] != q[i];
  }

  lemma RemoveKeepsQueue(s: State, key: string, i: nat, k: string)
    requires Inv(s) && i < |QueueOf(s.table, key)|
    ensures QueueInv(s.(table := Removed(s.table, key, QueueOf(s.table, key)[i])), k)
  {
    var q := QueueOf(s.table, key);
    assert QueueInv(s, key) && QueueInv(s, k);
    RemovedQueue(s, key, i);
    if k == key { SplicedQueue(s, q, i, key); }
  }

  /** The spliced queue, with the channels the removal closes. */
  lemma SplicedQueue(s: State, q: seq<string>, i: nat, key: string)
    requires i < |q| && q == QueueOf(s.table, key) && QueueInv(s, key)
    ensures var closes := s.table.closes + if i == 0 && |q| > 1 then [Done(q[0]), Ready(q[1])] else [Done(q[i])];
            QueueInv(s.(table := Table(s.table.queues[key := q[..i] + q[i + 1..]], closes)), key)
  {
    var rest := q[..i] + q[i + 1..];
    assert forall j | 0 <= j < |rest| :: rest[j] == if j < i then q[j] else q[j + 1];
  }

  /** Splicing out a position of a duplicate-free sequence removes exactly that member. */
  lemma SplicedMembers(q: seq<string>, i: nat)
    requires i < |q| && forall j, k | 0 <= j < k < |q| :: q[j] != q[k]
    ensures forall x :: x in q[..i] + q[i + 1..] <==> x in q && x != q[i]
  {
    var rest := q[..i] + q[i + 1..];
    forall x ensures x in rest <==> x in q && x != q[i] {
      if x in q && x != q[i] {
        var j :| 0 <= j < |q| && q[j] == x;
        assert rest[if j < i then j else j - 1] == x;
      }
    }
  }

  lemma RemoveKeepsQueued(s: State, key: string, i: nat)
    requires Inv(s) && i < |QueueOf(s.table, key)|
    ensures var id := QueueOf(s.table, key)[i];
            var s' := s.(table := Removed(s.table, key, id));
            forall x :: Queued(s', x) <==> Queued(s, x) && x != id
  {
    var q := QueueOf(s.table, key);
    assert QueueInv(s, key);
    QueueDistinct(s, key);
    RemovedQueue(s, key, i);
    SplicedMembers(q, i);
    RemovedElsewhere(s, key, q[i]);
  }

  /** A caller queued under one key is not queued under another. */
  lemma RemovedElsewhere(s: State, key: string, id: string)
    requires QueueInv(s, key) && id in QueueOf(s.table, key)
    ensures forall x | x in s.calls && s.calls[x].key != key ::
              QueueOf(Removed(s.table, key, id), s.calls[x].key) == QueueOf(s.table, s.calls[x].key) && x != id
  {}

  lemma RemoveKeepsCloses(s: State, key: string, i: nat)
    requires Inv(s) && i < |QueueOf(s.table, key)|
    ensures var s' := s.(table := Removed(s.table, key, QueueOf(s.table, key)[i]));
            ClosedOnce(s'.table.closes) && GrantsInOrder(s'.calls, s'.table.closes)
  {
    var q := QueueOf(s.table, key);
    RemovedQueue(s, key, i);
    assert QueueInv(s, key);
    assert CallInv(s, q[i]) && Queued(s, q[i]);
    AppendClosedOnce(s.table.closes, Done(q[i]));
    AppendInOrder(s.calls, s.table.closes, Done(q[i]));
    if i == 0 && |q| > 1 {
      var closes := s.table.closes + [Done(q[0])];
      AppendClosedOnce(closes, Ready(q[1]));
      forall c | c in closes ensures InOrder(s.calls, c, Ready(q[1])) {
        assert Queued(s, q[1]);
      }
      AppendInOrder(s.calls, closes, Ready(q[1]));
      assert closes + [Ready(q[1])] == s.table.closes + [Done(q[0]), Ready(q[1])];
    }
  }

  lemma RemoveKeepsGrants(s: State, key: string, i: nat)
    requires Inv(s) && i < |QueueOf(s.table, key)|
    ensures GrantInv(s.(table := Removed(s.table, key, QueueOf(s.table, key)[i])))
  {
    var q := QueueOf(s.table, key);
    var s' := s.(table := Removed(s.table, key, q[i]));
    RemovedQueue(s, key, i);
    RemoveKeepsQueued(s, key, i);
    forall a, b | a in s.calls && Ready(a) in s'.table.closes && Queued(s', b) && s.calls[b].key == s.calls[a].key
      ensures s.calls[a].ticket <= s.calls[b].ticket
    {
      if Ready(a) !in s.table.closes {
        assert a == q[1] && i == 0 && QueueInv(s, key);
        NextIsEarliest(s, key, b);
      }
    }
  }

  /** Behind the head, the second caller of a queue came first. */
  lemma NextIsEarliest(s: State, key: string, b: string)
    requires QueueInv(s, key) && |QueueOf(s.table, key)| > 1
    requires b in QueueOf(s.table, key) && b != QueueOf(s.table, key)[0]
    ensures var second := QueueOf(s.table, key)[1];
            second in s.calls && b in s.calls && s.calls[second].ticket <= s.calls[b].ticket
    ensures s.calls[QueueOf(s.table, key)[1]].key == key
  {}

  lemma RemoveKeepsCall(s: State, key: string, i: nat, x: string)
    requires Inv(s) && i < |QueueOf(s.table, key)| && x in s.calls && x != QueueOf(s.table, key)[i]
    ensures CallInv(s.(table := Removed(s.table, key, QueueOf(s.table, key)[i])), x)
  {
    assert CallInv(s, x);
    RemovedQueue(s, key, i);
    RemoveKeepsQueued(s, key, i);
  }

  /** Removing a queued caller keeps everything, provided its phase is now one that a call out of the queue
      may have. */
  lemma RemoveKeeps(s: State, key: string, id: string, phase: Phase)
    requires Inv(s) && id in QueueOf(s.table, key) && id in s.calls
    requires phase.Cancelled? || (s.calls[id].phase.Armed? && phase.Granted())
    ensures Inv(WithPhase(s.(table := Removed(s.table, key, id)), id, phase))
  {
    var q := QueueOf(s.table, key);
    var i :| 0 <= i < |q| && q[i] == id;
    var s1 := s.(table := Removed(s.table, key, id));
    RemoveKeepsQueued(s, key, i);
    RemoveKeepsCloses(s, key, i);
    RemoveKeepsGrants(s, key, i);
    RemovedQueue(s, key, i);
    assert CallInv(s, id);
    var s' := WithPhase(s1, id, phase);
    assert MayEnter(s1, id, phase);
    forall k ensures QueueInv(s', k) {
      RemoveKeepsQueue(s, key, i, k);
      PhaseKeepsQueue(s1, id, phase, k);
    }
    forall x | x in s'.calls ensures CallInv(s', x) {
      if x != id {
        RemoveKeepsCall(s, key, i, x);
        PhaseKeepsCall(s1, id, phase, x);
      } else {
        assert Queued(s', id) <==> Queued(s1, id);
      }
    }
    PhaseKeepsOrder(s1, id, phase);
  }

  lemma StepKeeps(s: State, step: Step)
    requires Inv(s) && Enabled(s, step)
    ensures Inv(Next(s, step))
  {
    match step
    case Enqueue(key, id) => EnqueueKeeps(s, key, id);
    case Acquire(id) => PhaseKeeps(s, id, Armed);
    case CtxDone(id) => PhaseKeeps(s, id, Cancelling);
    case CancelRemove(id) => CancelKeeps(s, id);
    case TtlFire(id) => TtlKeeps(s, id);
    case WatchdogDone(id) => WatchdogKeeps(s, id);
    case Unlock(key, id) => UnlockKeeps(s, key, id);
  }

  lemma CancelKeeps(s: State, id: string)
    requires Inv(s) && Enabled(s, CancelRemove(id))
    ensures Inv(Next(s, CancelRemove(id)))
  {
    assert CallInv(s, id);
    RemoveKeeps(s, s.calls[id].key, id, Cancelled);
  }

  lemma TtlKeeps(s: State, id: string)
    requires Inv(s) && Enabled(s, TtlFire(id))
    ensures Inv(Next(s, TtlFire(id)))
  {
    assert CallInv(s, id);
    if Queued(s, id) { RemoveKeeps(s, s.calls[id].key, id, Released); } else { PhaseKeeps(s, id, Released); }
  }

  lemma WatchdogKeeps(s: State, id: string)
    requires Inv(s) && Enabled(s, WatchdogDone(id))
    ensures Inv(Next(s, WatchdogDone(id)))
  {
    assert CallInv(s, id);
    PhaseKeeps(s, id, Released);
  }

  lemma UnlockKeeps(s: State, key: string, id: string)
    requires Inv(s) && Enabled(s, Unlock(key, id))
    ensures Inv(Next(s, Unlock(key, id)))
  {
    assert QueueInv(s, key);
    if id in QueueOf(s.table, key) {
      assert CallInv(s, id) && Queued(s, id);
      RemoveKeeps(s, key, id, Armed);
      assert s.calls[id := s.calls[id].(phase := Armed)] == s.calls;
    }
  }

  lemma {:induction false} RunKeeps(s: State, steps: seq<Step>)
    requires Inv(s) && ValidRun(s, steps)
    ensures Inv(Exec(s, steps))
    decreases |steps|
  {
    if steps != [] {
      StepKeeps(s, steps[0]);
      RunKeeps(Next(s, steps[0]), steps[1..]);
    }
  }

  // ---- what every run guarantees ----

  /** A caller that Lock returned to and that nobody has removed. */
  predicate Holder(s: State, key: string, id: string) {
    InPhase(s, id, Armed) && s.calls[id].key == key && Queued(s, id)
  }

  /** After any run: no operation of the table can panic, no channel was closed twice, every key has at most
      one holder, and under each key grants were made in enqueue order. */
  lemma LockSafety(steps: seq<Step>)
    requires ValidRun(INITIAL, steps)
    ensures var s := Exec(INITIAL, steps);
            Sound(s.table) && ClosedOnce(s.table.closes) && GrantsInOrder(s.calls, s.table.closes)
    ensures var s := Exec(INITIAL, steps);
            forall key, a, b | Holder(s, key, a) && Holder(s, key, b) :: a == b
  {
    RunKeeps(INITIAL, steps);
    var s := Exec(INITIAL, steps);
    InvIsSound(s);
    forall key, a, b | Holder(s, key, a) && Holder(s, key, b) ensures a == b {
      HolderIsHead(s, key, a);
      HolderIsHead(s, key, b);
    }
  }

  lemma InvIsSound(s: State)
    requires Inv(s)
    ensures Sound(s.table)
  {
    forall key | key in s.table.queues ensures SoundQueue(s.table.queues[key], s.table.closes) {
      assert QueueInv(s, key);
      var q := s.table.queues[key];
      forall i | 0 <= i < |q| ensures Done(q[i]) !in s.table.closes {
        assert CallInv(s, q[i]);
      }
    }
  }

  lemma HolderIsHead(s: State, key: string, id: string)
    requires Inv(s) && Holder(s, key, id)
    ensures QueueOf(s.table, key) != [] && QueueOf(s.table, key)[0] == id
  {
    assert QueueInv(s, key) && CallInv(s, id);
  }

  /** No overtaking: a caller still in the queue has seen nobody granted who enqueued after it, whether the
      later caller is still around or not. */
  lemma NoOvertaking(steps: seq<Step>, earlier: string, later: string)
    requires ValidRun(INITIAL, steps)
    requires var s := Exec(INITIAL, steps);
             Queued(s, earlier) && later in s.calls && s.calls[later].key == s.calls[earlier].key &&
             s.calls[earlier].ticket < s.calls[later].ticket
    ensures Ready(later) !in Exec(INITIAL, steps).table.closes
  {
    RunKeeps(INITIAL, steps);
  }

  // ---- positions ----

  function IndexOf(q: seq<string>, id: string): (i: nat)
    requires id in q
    ensures i < |q| && q[i] == id && id !in q[..i]
  {
    if q[0] == id then 0
    else
      var i := 1 + IndexOf(q[1..], id);
      assert q[..i] == [q[0]] + q[1..][..i - 1];
      i
  }

  function Position(s: State, id: string): nat
    requires Queued(s, id)
  {
    IndexOf(QueueOf(s.table, s.calls[id].key), id)
  }

  /** The key and caller a step asks to remove. */
  function Target(s: State, step: Step): seq<(string, string)>
    requires Enabled(s, step)
  {
    match step
    case CancelRemove(id) => [(s.calls[id].key, id)]
    case TtlFire(id) => [(s.calls[id].key, id)]
    case Unlock(key, id) => [(key, id)]
    case _ => []
  }

  /** The step removes a caller that stands ahead of `id` in its queue. */
  predicate RemovesAhead(s: State, step: Step, id: string)
    requires Enabled(s, step) && Queued(s, id)
  {
    var key := s.calls[id].key;
    var q := QueueOf(s.table, key);
    exists gone | gone in q[..Position(s, id)] :: Target(s, step) == [(key, gone)]
  }

  lemma {:induction false} IndexAfterRemoval(q: seq<string>, gone: string, id: string)
    requires forall i, j | 0 <= i < j < |q| :: q[i] != q[j]
    requires id in q && gone in q && gone != id
    ensures id in WithoutId(q, gone)
    ensures IndexOf(WithoutId(q, gone), id) == IndexOf(q, id) - if gone in q[..IndexOf(q, id)] then 1 else 0
  {
    var g, i := IndexOf(q, gone), IndexOf(q, id);
    WithoutIdAt(q, g);
    var rest := q[..g] + q[g + 1..];
    var at := if g < i then i - 1 else i;
    assert rest[at] == id;
    assert gone in q[..i] <==> g < i;
    IndexUnique(rest, id, at);
  }

  lemma IndexUnique(q: seq<string>, id: string, at: nat)
    requires forall i, j | 0 <= i < j < |q| :: q[i] != q[j]
    requires at < |q| && q[at] == id
    ensures IndexOf(q, id) == at
  {}

  lemma {:induction false} IndexAppend(q: seq<string>, last: string, id: string)
    requires id in q
    ensures id in q + [last] && IndexOf(q + [last], id) == IndexOf(q, id)
  {
    if q[0] != id {
      assert (q + [last])[1..] == q[1..] + [last];
      IndexAppend(q[1..], last, id);
    }
  }

  lemma QueueDistinct(s: State, key: string)
    requires QueueInv(s, key)
    ensures var q := QueueOf(s.table, key); forall i, j | 0 <= i < j < |q| :: q[i] != q[j]
  {}

  /** One step moves a caller that stays queued forward by one if it removes somebody ahead, and otherwise
      not at all. */
  lemma StepPosition(s: State, step: Step, id: string)
    requires Inv(s) && Enabled(s, step) && Queued(s, id) && Queued(Next(s, step), id)
    ensures Position(Next(s, step), id) == Position(s, id) - if RemovesAhead(s, step, id) then 1 else 0
  {
    var key := s.calls[id].key;
    var q := QueueOf(s.table, key);
    assert QueueInv(s, key);
    QueueDistinct(s, key);
    if step.Enqueue? {
      if step.key == key { IndexAppend(q, step.id, id); }
    } else if Target(s, step) != [] && Target(s, step)[0].0 == key && Target(s, step)[0].1 in q {
      RemovalPosition(s, step, id);
    }
  }

  lemma RemovalPosition(s: State, step: Step, id: string)
    requires Inv(s) && Enabled(s, step) && Queued(s, id) && Queued(Next(s, step), id)
    requires Target(s, step) != [] && Target(s, step)[0].0 == s.calls[id].key
    requires Target(s, step)[0].1 in QueueOf(s.table, s.calls[id].key)
    ensures Position(Next(s, step), id) == Position(s, id) - if RemovesAhead(s, step, id) then 1 else 0
  {
    var key, gone := s.calls[id].key, Target(s, step)[0].1;
    var q := QueueOf(s.table, key);
    assert QueueInv(s, key);
    QueueDistinct(s, key);
    if gone == id { LeavesQueue(s, step, id); }
    IndexAfterRemoval(q, gone, id);
    assert QueueOf(Next(s, step).table, key) == WithoutId(q, gone);
    assert RemovesAhead(s, step, id) <==> gone in q[..Position(s, id)];
  }

  /** A removal takes its target out of the queue. */
  lemma LeavesQueue(s: State, step: Step, id: string)
    requires Inv(s) && Enabled(s, step) && Queued(s, id) && Target(s, step) == [(s.calls[id].key, id)]
    ensures !Queued(Next(s, step), id)
  {
    var key := s.calls[id].key;
    RemoveKeepsQueued(s, key, IndexOf(QueueOf(s.table, key), id));
  }

  /** A call that left its queue never comes back. */
  lemma StaysOut(s: State, step: Step, id: string)
    requires Inv(s) && Enabled(s, step) && id in s.calls && !Queued(s, id)
    ensures id in Next(s, step).calls && !Queued(Next(s, step), id)
  {
    StepKeeps(s, step);
    assert CallInv(s, id);
    assert CallInv(Next(s, step), id);
  }

  lemma {:induction false} StaysOutRun(s: State, steps: seq<Step>, id: string)
    requires Inv(s) && ValidRun(s, steps) && id in s.calls && !Queued(s, id)
    ensures !Queued(Exec(s, steps), id)
    decreases |steps|
  {
    if steps != [] {
      StaysOut(s, steps[0], id);
      StepKeeps(s, steps[0]);
      StaysOutRun(Next(s, steps[0]), steps[1..], id);
    }
  }

  /** How many callers ahead of `id` the run removes. */
  function RemovalsAhead(s: State, steps: seq<Step>, id: string): nat
    requires ValidRun(s, steps)
    decreases |steps|
  {
    if steps == [] || !Queued(s, id) then 0
    else (if RemovesAhead(s, steps[0], id) then 1 else 0) + RemovalsAhead(Next(s, steps[0]), steps[1..], id)
  }

  /** A waiter at position p that stays queued is granted after exactly p removals ahead of it; its position
      falls by one with each of them and never rises. */
  lemma {:induction false} GrantedAfterRemovals(s: State, steps: seq<Step>, id: string)
    requires Inv(s) && ValidRun(s, steps) && Queued(s, id) && Queued(Exec(s, steps), id)
    ensures Position(Exec(s, steps), id) + RemovalsAhead(s, steps, id) == Position(s, id)
    ensures Ready(id) in Exec(s, steps).table.closes <==> RemovalsAhead(s, steps, id) == Position(s, id)
    decreases |steps|
  {
    if steps == [] {
      assert QueueInv(s, s.calls[id].key);
    } else {
      var s' := Next(s, steps[0]);
      StepKeeps(s, steps[0]);
      assert id in s'.calls;
      if !Queued(s', id) { StaysOutRun(s', steps[1..], id); }
      StepPosition(s, steps[0], id);
      GrantedAfterRemovals(s', steps[1..], id);
    }
  }

  // ---- no lost wakeup ----

  /** Steps the lock takes on its own: a woken caller returning, a cancelled one leaving, a TTL expiring. */
  predicate Internal(step: Step) {
    step.Acquire? || step.CancelRemove? || step.TtlFire?
  }

  lemma RunPair(s: State, a: Step, b: Step)
    requires Enabled(s, a) && Enabled(Next(s, a), b)
    ensures ValidRun(s, [a, b]) && Exec(s, [a, b]) == Next(Next(s, a), b)
  {
    RunSingle(s, a);
    RunSingle(Next(s, a), b);
    RunConcat(s, [a], [b]);
    assert [a] + [b] == [a, b];
  }

  lemma RunSingle(s: State, a: Step)
    requires Enabled(s, a)
    ensures ValidRun(s, [a]) && Exec(s, [a]) == Next(s, a)
  {
    assert [a][1..] == [];
  }

  lemma {:induction false} RunConcat(s: State, a: seq<Step>, b: seq<Step>)
    requires ValidRun(s, a) && ValidRun(Exec(s, a), b)
    ensures ValidRun(s, a + b) && Exec(s, a + b) == Exec(Exec(s, a), b)
    decreases |a|
  {
    if a == [] {
      assert a + b == b;
    } else {
      assert (a + b)[1..] == a[1..] + b;
      RunConcat(Next(s, a[0]), a[1..], b);
    }
  }

  /** The head can always be made to leave without any client's help. */
  lemma HeadLeaves(s: State, key: string) returns (steps: seq<Step>)
    requires Inv(s) && QueueOf(s.table, key) != []
    ensures ValidRun(s, steps) && forall step | step in steps :: Internal(step)
    ensures QueueOf(Exec(s, steps).table, key) == QueueOf(s.table, key)[1..]
    ensures forall x | x in s.calls :: x in Exec(s, steps).calls && Exec(s, steps).calls[x].key == s.calls[x].key
  {
    assert QueueInv(s, key);
    var head := QueueOf(s.table, key)[0];
    match s.calls[head].phase
    case Waiting =>
      RunPair(s, Acquire(head), TtlFire(head));
      return [Acquire(head), TtlFire(head)];
    case Cancelling =>
      RunSingle(s, CancelRemove(head));
      return [CancelRemove(head)];
    case Armed =>
      RunSingle(s, TtlFire(head));
      return [TtlFire(head)];
  }

  lemma MovesUp(s: State, s': State, id: string)
    requires Queued(s, id) && Position(s, id) > 0 && Inv(s')
    requires id in s'.calls && s'.calls[id].key == s.calls[id].key
    requires QueueOf(s'.table, s.calls[id].key) == QueueOf(s.table, s.calls[id].key)[1..]
    ensures Queued(s', id) && Position(s', id) == Position(s, id) - 1
  {
    var q := QueueOf(s.table, s.calls[id].key);
    assert q[1..][Position(s, id) - 1] == id;
    assert QueueInv(s', s.calls[id].key);
    QueueDistinct(s', s.calls[id].key);
    IndexUnique(q[1..], id, Position(s, id) - 1);
  }

  /** No wakeup is lost: from every reachable state, cancellations and expiring TTLs alone carry every
      queued caller to its grant, even if nobody ever unlocks. */
  lemma {:induction false} EveryWaiterServed(s: State, id: string) returns (steps: seq<Step>)
    requires Inv(s) && Queued(s, id)
    ensures ValidRun(s, steps) && forall step | step in steps :: Internal(step)
    ensures Ready(id) in Exec(s, steps).table.closes
    decreases Position(s, id)
  {
    var key := s.calls[id].key;
    var q := QueueOf(s.table, key);
    assert QueueInv(s, key);
    if Position(s, id) == 0 {
      return [];
    }
    var first := HeadLeaves(s, key);
    var s' := Exec(s, first);
    RunKeeps(s, first);
    MovesUp(s, s', id);
    var rest := EveryWaiterServed(s', id);
    RunConcat(s, first, rest);
    return first + rest;
  }
}
