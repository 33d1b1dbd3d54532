/** The telemetry collector's ring buffer (app/server/telemetry/telemetry.go). */
module Telemetry {
  import opened Optional
  import opened Sequences

  /** A recorded call; `at` is absent when the caller gave no timestamp. */
  datatype Event = Event(id: string, at: Option<int>, method_: string, swampName: string, success: bool)

  const NO_EVENT := Event("", None, "", "", false)

  datatype HistoryFilter = HistoryFilter(errorsOnly: bool, methods: seq<string>, swampPattern: string, limit: int)

  /** matchPattern: a trailing star matches any continuation. */
  predicate MatchPattern(pattern: string, value: string) {
    if pattern == "" then true
    else if pattern[|pattern| - 1] == '*' then pattern[..|pattern| - 1] <= value
    else pattern == value
  }

  /** The event as Record completes it. */
  function Completed(e: Event, freshId: string, now: int): Event {
    e.(id := if e.id == "" then freshId else e.id, at := if e.at.None? then Some(now) else e.at)
  }

  /** What a history query asks of one event. */
  predicate Wanted(e: Event, from: int, to: int, now: int, retention: int, filter: HistoryFilter) {
    e.at.Some? && from <= e.at.value <= to && now - e.at.value <= retention &&
    (filter.errorsOnly ==> !e.success) &&
    (filter.methods != [] ==> e.method_ in filter.methods) &&
    (filter.swampPattern != "" ==> MatchPattern(filter.swampPattern, e.swampName))
  }

  /** A pattern is the name itself, or with a trailing star any continuation of what precedes it; the empty
      pattern matches every name. */
  lemma PatternMeans(pattern: string, value: string)
    ensures pattern == "" ==> MatchPattern(pattern, value)
    ensures forall stem :: pattern == stem + "*" ==>
              (MatchPattern(pattern, value) <==> exists rest :: value == stem + rest)
    ensures pattern != "" && (forall stem :: pattern != stem + "*") ==>
              (MatchPattern(pattern, value) <==> pattern == value)
  {
    if pattern != "" {
      var stem := pattern[..|pattern| - 1];
      if pattern[|pattern| - 1] == '*' {
        assert pattern == stem + "*";
        forall other | pattern == other + "*" ensures other == stem {
          assert (other + "*")[..|other|] == other;
        }
        if stem <= value { assert value == stem + value[|stem|..]; }
      }
    }
  }

  /** What a query wants of an event, check by check: in the time range, bounds included; not older than the
      retention; a failure if only failures are asked for; one of the methods if any are listed; a swamp that
      matches the pattern if there is one. */
  lemma WantedMeans(e: Event, from: int, to: int, now: int, retention: int, filter: HistoryFilter, at: int)
    requires e.at == Some(at)
    ensures at < from || at > to || now - at > retention ==> !Wanted(e, from, to, now, retention, filter)
    ensures filter.errorsOnly && e.success ==> !Wanted(e, from, to, now, retention, filter)
    ensures filter.methods != [] && e.method_ !in filter.methods ==> !Wanted(e, from, to, now, retention, filter)
    ensures filter.swampPattern != "" && !MatchPattern(filter.swampPattern, e.swampName) ==>
              !Wanted(e, from, to, now, retention, filter)
    ensures from <= at <= to && now - at <= retention && (!filter.errorsOnly || !e.success) &&
            (filter.methods == [] || e.method_ in filter.methods) &&
            (filter.swampPattern == "" || MatchPattern(filter.swampPattern, e.swampName)) ==>
              Wanted(e, from, to, now, retention, filter)
  {}

  /** Recording fills in a missing id and a missing time and changes nothing else. */
  lemma CompletedMeans(e: Event, freshId: string, now: int)
    ensures var c := Completed(e, freshId, now);
            (e.id != "" ==> c.id == e.id) && (e.id == "" ==> c.id == freshId) &&
            (e.at.Some? ==> c.at == e.at) && (e.at.None? ==> c.at == Some(now)) &&
            c.method_ == e.method_ && c.swampName == e.swampName && c.success == e.success
  {}

  function Wanting(from: int, to: int, now: int, retention: int, filter: HistoryFilter): (p: Event -> bool)
    ensures forall e :: p(e) == Wanted(e, from, to, now, retention, filter)
  {
    e => Wanted(e, from, to, now, retention, filter)
  }

  /** The last `n` items, or all of them. */
  function Latest<T>(n: nat, s: seq<T>): seq<T> {
    if |s| <= n then s else s[|s| - n..]
  }

  /** Remainder of a number below twice the divisor. */
  lemma WrapsOnce(x: nat, n: nat)
    requires n > 0 && x < 2 * n
    ensures x % n == if x < n then x else x - n
  {
    var q := x / n;
    assert x == n * q + x % n;
    assert q < 2;
  }

  /** Ring position of the i-th oldest of `count` events, below the next write position `head`. */
  function RingSlot(head: nat, count: nat, capacity: nat, i: nat): int {
    var at := head - count + i;
    if at < 0 then at + capacity else at
  }

  function NextHead(head: nat, capacity: nat): nat {
    if head + 1 == capacity then 0 else head + 1
  }

  /** The head's increment in the source. */
  method Advance(head: nat, capacity: nat) returns (next: nat)
    requires head < capacity
    ensures next == NextHead(head, capacity)
  {
    WrapsOnce(head + 1, capacity);
    next := (head + 1) % capacity;
  }

  /** Writing at the head makes that slot the newest and leaves the slots of the events that stay as they
      were. */
  lemma RingAdvance(head: nat, count: nat, capacity: nat, count': nat, i: nat)
    requires head < capacity && count <= capacity && i < count'
    requires count' == if count < capacity then count + 1 else count
    ensures var slot := RingSlot(NextHead(head, capacity), count', capacity, i);
            if i == count' - 1 then slot == head
            else slot == RingSlot(head, count, capacity, i + count + 1 - count') && slot != head
  {}

  /** A ring of events holds the latest of those recorded, oldest first from its tail, all in bounds. */
  ghost predicate Mirrors(ring: seq<Event>, head: nat, count: nat, recorded: seq<Event>) {
    head < |ring| && count == (if |recorded| < |ring| then |recorded| else |ring|) &&
    forall i | 0 <= i < count ::
      0 <= RingSlot(head, count, |ring|, i) < |ring| &&
      ring[RingSlot(head, count, |ring|, i)] == recorded[|recorded| - count + i]
  }

  /** Writing at the head keeps it so. */
  lemma RingWrite(ring: seq<Event>, head: nat, count: nat, recorded: seq<Event>, e: Event)
    requires Mirrors(ring, head, count, recorded)
    ensures var count' := if count < |ring| then count + 1 else count;
            Mirrors(ring[head := e], NextHead(head, |ring|), count', recorded + [e])
  {
    var ring', head', count' := ring[head := e], NextHead(head, |ring|), if count < |ring| then count + 1 else count;
    forall i | 0 <= i < count'
      ensures 0 <= RingSlot(head', count', |ring|, i) < |ring|
      ensures ring'[RingSlot(head', count', |ring|, i)] == (recorded + [e])[|recorded| + 1 - count' + i]
    {
      RingAdvance(head, count, |ring|, count', i);
      if i < count' - 1 {
        var was := i + count + 1 - count';
        assert ring[RingSlot(head, count, |ring|, was)] == recorded[|recorded| - count + was];
      }
    }
  }

  class Collector {
    var events: array<Event>
    var head: nat
    var count: nat
    const capacity: nat
    const retention: int
    var closed: bool
    /** Every event recorded so far. */
    ghost var recorded: seq<Event>

    /** Ring position of the i-th oldest event. */
    function Slot(i: nat): int
      reads this
    {
      RingSlot(head, count, capacity, i)
    }

    /** The ring enumerates the latest events in the order they were recorded, in bounds. */
    ghost predicate Valid()
      reads this, events
    {
      0 < capacity == events.Length && Mirrors(events[..], head, count, recorded) &&
      forall i | 0 <= i < |recorded| :: recorded[i].at.Some?
    }

    constructor (capacity: int, retention: int)
      ensures Valid() && fresh(events) && recorded == [] && !closed
      ensures this.capacity == if capacity <= 0 then 100000 else capacity
      ensures this.retention == if retention <= 0 then 1_800_000_000_000 else retention
    {
      this.capacity := if capacity <= 0 then 100000 else capacity;
      this.retention := if retention <= 0 then 1_800_000_000_000 else retention;
      events := new Event[if capacity <= 0 then 100000 else capacity](_ => NO_EVENT);
      head, count, closed, recorded := 0, 0, false, [];
    }

    /** The index arithmetic of the source. */
    lemma SlotIs(i: nat)
      requires capacity > 0 && head < capacity && count <= capacity && i <= count
      ensures (head - count + i + capacity) % capacity == Slot(i)
    {
      WrapsOnce(head - count + i + capacity, capacity);
    }

    /** Record, on the ring. */
    method Record(event: Event, freshId: string, now: int)
      requires Valid()
      modifies this`head, this`count, this`recorded, events
      ensures Valid() && events == old(events) && closed == old(closed)
      ensures recorded == if closed then old(recorded) else old(recorded) + [Completed(event, freshId, now)]
    {
      if closed { return; }
      var e := Completed(event, freshId, now);
      RingWrite(events[..], head, count, recorded, e);
      events[head] := e;
      head := Advance(head, capacity);
      if count < capacity { count := count + 1; }
      recorded := recorded + [e];
    }

    method EventAt(i: nat) returns (event: Event)
      requires Valid() && i < count
      ensures count == |Latest(capacity, recorded)| && event == Latest(capacity, recorded)[i] && event.at.Some?
    {
      SlotIs(i);
      var idx := (head - count + i + capacity) % capacity;
      event := events[idx];
    }

    /** The checks on one event, in order. */
    method Keeps(event: Event, from: int, to: int, now: int, filter: HistoryFilter) returns (keep: bool)
      requires event.at.Some?
      ensures keep == Wanted(event, from, to, now, retention, filter)
    {
      if event.at.value < from || event.at.value > to { return false; }
      if now - event.at.value > retention { return false; }
      if filter.errorsOnly && event.success { return false; }
      if filter.methods != [] && event.method_ !in filter.methods { return false; }
      if filter.swampPattern != "" && !MatchPattern(filter.swampPattern, event.swampName) { return false; }
      return true;
    }

    /** GetHistory: the oldest `limit` of the retained events that the query wants, in recording order. */
    method GetHistory(from: int, to: int, now: int, filter: HistoryFilter) returns (result: seq<Event>)
      requires Valid()
      ensures result == Take(if filter.limit <= 0 then capacity else filter.limit,
                             Passing(Wanting(from, to, now, retention, filter), Latest(capacity, recorded)))
    {
      var limit := if filter.limit <= 0 then capacity else filter.limit;
      ghost var wanting := Wanting(from, to, now, retention, filter);
      ghost var window := Latest(capacity, recorded);
      result := [];
      var i := 0;
      while i < count && |result| < limit
        invariant 0 <= i <= count == |window| && |result| <= limit
        invariant result == Passing(wanting, window[..i])
      {
        var event := EventAt(i);
        PassingStep(wanting, window, i);
        var keep := Keeps(event, from, to, now, filter);
        if keep { result := result + [event]; }
        i := i + 1;
      }
      HistoryComplete(wanting, window, i, limit);
    }
  }

  /** A scan that stopped at the end or at its limit has found what the limit lets through. */
  lemma HistoryComplete<T>(p: T -> bool, s: seq<T>, i: nat, limit: nat)
    requires i <= |s| && 0 < limit && |Passing(p, s[..i])| <= limit
    requires i == |s| || |Passing(p, s[..i])| == limit
    ensures Passing(p, s[..i]) == Take(limit, Passing(p, s))
  {
    PassingPrefix(p, s, i);
    assert i == |s| ==> s[..i] == s;
  }
}
