/** Streaming reads (app/server/gateway/gateway.go, GetByIndexStream and GetByIndexStreamFromMany): row loops
    with key lists, metadata and result limits, and the equality of the bucket route with the full walk. */
module Streams {
  import opened Optional
  import opened Sequences
  import opened Values
  import opened Filters
  import opened FilterMeaning
  import opened FilterMeta
  import opened Planner
  import opened Selection

  /** The parts of a request its row loop reads; `filters` is whatever the route left to evaluate. */
  datatype Request = Request(
    swampName: string, filters: Option<FilterGroup>, includedKeys: seq<string>, excludeKeys: seq<string>,
    keysOnly: bool, maxResults: int)

  datatype Payload = KeyOnly(key: string) | Full(t: Treasure)

  datatype Row = Row(swampName: string, payload: Payload, meta: Meta)

  // ---- what a request asks for ----

  predicate Permits(req: Request, key: string) {
    (req.includedKeys != [] ==> key in req.includedKeys) && key !in req.excludeKeys
  }

  predicate Accepts(env: Env, req: Request, t: Treasure) {
    Permits(req, t.key) && FilterHolds(env, t, req.filters)
  }

  function Accepting(env: Env, req: Request): (p: Treasure -> bool)
    ensures forall t :: p(t) == Accepts(env, req, t)
  {
    t => Accepts(env, req, t)
  }

  function PayloadOf(req: Request, t: Treasure): Payload {
    if req.keysOnly then KeyOnly(t.key) else Full(t)
  }

  function Answer(env: Env, req: Request, t: Treasure): Row {
    Row(req.swampName, PayloadOf(req, t), if req.filters.Some? then MatchMeta(env, t, req.filters.value) else NO_META)
  }

  function Answers(env: Env, req: Request, ts: seq<Treasure>): (rows: seq<Row>)
    ensures |rows| == |ts| && forall i | 0 <= i < |ts| :: rows[i] == Answer(env, req, ts[i])
  {
    seq(|ts|, i requires 0 <= i < |ts| => Answer(env, req, ts[i]))
  }

  /** The matching rows of one request over the treasures its route supplies. */
  function Matching(env: Env, req: Request, ts: seq<Treasure>): seq<Row> {
    Answers(env, req, Passing(Accepting(env, req), ts))
  }

  /** Which treasures a request's rows are: on the include list if there is one, not on the exclude list, and
      accepted by the filter. */
  lemma AnsweredTreasures(env: Env, req: Request, ts: seq<Treasure>, t: Treasure)
    ensures t in Passing(Accepting(env, req), ts) <==>
            t in ts && (req.includedKeys == [] || t.key in req.includedKeys) && !(t.key in req.excludeKeys) &&
            FilterHolds(env, t, req.filters)
  {
    PassingMembers(Accepting(env, req), ts);
  }

  /** What a row carries: the swamp's name, the key alone or the whole treasure, and the match's metadata. */
  lemma RowCarries(env: Env, req: Request, ts: seq<Treasure>, i: nat)
    requires i < |Matching(env, req, ts)|
    ensures var t, row := Passing(Accepting(env, req), ts)[i], Matching(env, req, ts)[i];
            row.swampName == req.swampName && (req.keysOnly ==> row.payload == KeyOnly(t.key)) &&
            (!req.keysOnly ==> row.payload == Full(t)) && (req.filters.None? ==> row.meta == NO_META) &&
            (req.filters.Some? ==> row.meta == MatchMeta(env, t, req.filters.value))
  {}

  // ---- the row loops ----

  /** One row: skip by key lists, then evaluate with or without metadata. */
  method VisitRow(env: Env, req: Request, needsMeta: bool, t: Treasure) returns (row: Option<Row>)
    requires needsMeta == (req.filters.Some? && HasAnyLabels(req.filters.value))
    ensures row == if Accepts(env, req, t) then Some(Answer(env, req, t)) else None
  {
    if req.includedKeys != [] && t.key !in req.includedKeys { return None; }
    if req.excludeKeys != [] && t.key in req.excludeKeys { return None; }
    var matched, meta := true, NO_META;
    if needsMeta {
      matched, meta := EvaluateWithMeta(env, t, req.filters.value);
    } else {
      matched := FilterHolds(env, t, req.filters);
      if req.filters.Some? { NoLabelsNoMeta(env, t, req.filters.value); }
    }
    if !matched { return None; }
    return Some(Row(req.swampName, PayloadOf(req, t), meta));
  }

  /** GetByIndexStream's loop. */
  method StreamRows(env: Env, req: Request, ts: seq<Treasure>) returns (sent: seq<Row>)
    ensures sent == Take(req.maxResults, Matching(env, req, ts))
  {
    var needsMeta := req.filters.Some? && HasAnyLabels(req.filters.value);
    sent := [];
    for i := 0 to |ts|
      invariant sent == Matching(env, req, ts[..i])
      invariant req.maxResults > 0 ==> |sent| < req.maxResults
    {
      MatchingStep(env, req, ts, i);
      var row := VisitRow(env, req, needsMeta, ts[i]);
      if row.Some? {
        sent := sent + [row.value];
        if req.maxResults > 0 && |sent| >= req.maxResults {
          MatchingPrefix(env, req, ts, i + 1);
          return;
        }
      }
    }
    assert ts[..|ts|] == ts;
  }

  lemma MatchingStep(env: Env, req: Request, ts: seq<Treasure>, i: nat)
    requires i < |ts|
    ensures Matching(env, req, ts[..i + 1]) ==
            Matching(env, req, ts[..i]) + if Accepts(env, req, ts[i]) then [Answer(env, req, ts[i])] else []
  {
    assert ts[..i + 1][..i] == ts[..i] && ts[..i + 1][i] == ts[i];
  }

  lemma {:induction false} MatchingPrefix(env: Env, req: Request, ts: seq<Treasure>, k: nat)
    requires k <= |ts|
    ensures Matching(env, req, ts[..k]) <= Matching(env, req, ts)
    decreases |ts| - k
  {
    if k == |ts| {
      assert ts[..k] == ts;
    } else {
      MatchingStep(env, req, ts, k);
      MatchingPrefix(env, req, ts, k + 1);
    }
  }

  datatype Query = Query(req: Request, ts: seq<Treasure>)

  /** Everything the queries may send, before the overall limit. */
  function Everything(env: Env, qs: seq<Query>): seq<Row> {
    if qs == [] then []
    else
      var q := qs[|qs| - 1];
      Everything(env, qs[..|qs| - 1]) + Take(q.req.maxResults, Matching(env, q.req, q.ts))
  }

  /** What is left of an overall limit. */
  function Remaining(globalMax: int, globalCount: nat): int {
    if globalMax > 0 then globalMax - globalCount else 0
  }

  /** A prefix that fits two limits and exhausts one of them is all that both let through. */
  lemma TakeTwice<T>(outer: int, inner: int, a: seq<T>, full: seq<T>)
    requires a <= full && (outer > 0 ==> |a| <= outer) && (inner > 0 ==> |a| <= inner)
    requires (outer > 0 && |a| == outer) || (inner > 0 && |a| == inner)
    ensures a == Take(outer, Take(inner, full))
  {}

  /** One query of GetByIndexStreamFromMany: leaves its loop at the query's own limit, or stops the stream at
      the overall one. */
  method StreamQuery(env: Env, q: Query, globalMax: int, globalCount: nat) returns (sent: seq<Row>, stop: bool)
    requires globalMax > 0 ==> globalCount < globalMax
    ensures sent == Take(Remaining(globalMax, globalCount), Take(q.req.maxResults, Matching(env, q.req, q.ts)))
    ensures stop ==> globalMax > 0 && globalCount + |sent| >= globalMax
  {
    var req, ts := q.req, q.ts;
    var needsMeta := req.filters.Some? && HasAnyLabels(req.filters.value);
    sent := [];
    for i := 0 to |ts|
      invariant sent == Matching(env, req, ts[..i])
      invariant req.maxResults > 0 ==> |sent| < req.maxResults
      invariant globalMax > 0 ==> globalCount + |sent| < globalMax
    {
      MatchingStep(env, req, ts, i);
      var row := VisitRow(env, req, needsMeta, ts[i]);
      if row.Some? {
        sent := sent + [row.value];
        if req.maxResults > 0 && |sent| >= req.maxResults {
          MatchingPrefix(env, req, ts, i + 1);
          TakeTwice(Remaining(globalMax, globalCount), req.maxResults, sent, Matching(env, req, ts));
          return sent, false;
        }
        if globalMax > 0 && globalCount + |sent| >= globalMax {
          MatchingPrefix(env, req, ts, i + 1);
          TakeTwice(Remaining(globalMax, globalCount), req.maxResults, sent, Matching(env, req, ts));
          return sent, true;
        }
      }
    }
    assert ts[..|ts|] == ts;
    stop := false;
  }

  /** GetByIndexStreamFromMany: the overall limit applied to the concatenation of the per-query limits. */
  method StreamMany(env: Env, qs: seq<Query>, globalMax: int) returns (sent: seq<Row>)
    ensures sent == Take(globalMax, Everything(env, qs))
  {
    sent := [];
    for i := 0 to |qs|
      invariant sent == Everything(env, qs[..i])
      invariant globalMax > 0 ==> |sent| < globalMax
    {
      var rows, stop := StreamQuery(env, qs[i], globalMax, |sent|);
      LimitStep(env, qs, i, globalMax, sent, rows);
      sent := sent + rows;
      if stop || (globalMax > 0 && |sent| >= globalMax) { return; }
    }
    assert qs[..|qs|] == qs;
  }

  /** After one more query everything so far has been sent, or the overall limit is reached and nothing later
      matters. */
  lemma LimitStep(env: Env, qs: seq<Query>, i: nat, globalMax: int, sent: seq<Row>, rows: seq<Row>)
    requires i < |qs| && sent == Everything(env, qs[..i]) && (globalMax > 0 ==> |sent| < globalMax)
    requires var q := qs[i];
             rows == Take(Remaining(globalMax, |sent|), Take(q.req.maxResults, Matching(env, q.req, q.ts)))
    ensures if globalMax > 0 && |sent + rows| >= globalMax then sent + rows == Take(globalMax, Everything(env, qs))
            else sent + rows == Everything(env, qs[..i + 1])
  {
    EverythingStep(env, qs, i);
    TakeConcat(globalMax, sent, Take(qs[i].req.maxResults, Matching(env, qs[i].req, qs[i].ts)));
    if globalMax > 0 && |sent + rows| >= globalMax {
      EverythingPrefix(env, qs, i + 1);
      TakePrefix(globalMax, Everything(env, qs[..i + 1]), Everything(env, qs));
    }
  }

  lemma TakeConcat<T>(max: int, a: seq<T>, b: seq<T>)
    requires max > 0 ==> |a| < max
    ensures Take(max, a + b) == a + Take(Remaining(max, |a|), b)
  {}

  lemma EverythingStep(env: Env, qs: seq<Query>, i: nat)
    requires i < |qs|
    ensures Everything(env, qs[..i + 1]) ==
            Everything(env, qs[..i]) + Take(qs[i].req.maxResults, Matching(env, qs[i].req, qs[i].ts))
  {
    assert qs[..i + 1][..i] == qs[..i];
  }

  lemma {:induction false} EverythingPrefix(env: Env, qs: seq<Query>, k: nat)
    requires k <= |qs|
    ensures Everything(env, qs[..k]) <= Everything(env, qs)
    decreases |qs| - k
  {
    if k == |qs| {
      assert qs[..k] == qs;
    } else {
      EverythingStep(env, qs, k);
      EverythingPrefix(env, qs, k + 1);
    }
  }

  // ---- the two routes of a KEY-index request ----

  predicate KeyBefore(desc: bool, a: Treasure, b: Treasure) {
    if desc then StringLess(b.key, a.key) else StringLess(a.key, b.key)
  }

  /** What sortCandidates and the beacon's own sort promise: the same items with no inversion. */
  ghost predicate SortedByKey(desc: bool, input: seq<Treasure>, output: seq<Treasure>) {
    multiset(input) == multiset(output) && forall i, j | 0 <= i < j < |output| :: !KeyBefore(desc, output[j], output[i])
  }

  /** applyFromLimit. */
  function Page(candidates: seq<Treasure>, from: int, limit: int): seq<Treasure> {
    var start := if from < 0 then 0 else from;
    if start >= |candidates| then []
    else Take(limit, candidates[start..])
  }

  /** A page: from the offset (or the start for a negative one), at most `limit` (or all for none). */
  lemma PageMeans(candidates: seq<Treasure>, from: int, limit: int)
    ensures var page, start := Page(candidates, from, limit), if from < 0 then 0 else from;
            (forall i | 0 <= i < |page| :: start + i < |candidates| && page[i] == candidates[start + i]) &&
            |page| == if start >= |candidates| then 0
                      else if 0 < limit < |candidates| - start then limit else |candidates| - start
  {}

  /** Ascending order puts the key that is smaller at the first difference first, descending the other. */
  lemma KeyOrderMeans(a: Treasure, b: Treasure)
    ensures KeyBefore(false, a, b) <==> DiffersBelow(a.key, b.key)
    ensures KeyBefore(true, a, b) <==> DiffersBelow(b.key, a.key)
  {
    StringLessMeans(a.key, b.key);
    StringLessMeans(b.key, a.key);
  }

  ghost predicate Ascending(desc: bool, ts: seq<Treasure>) {
    forall i, j | 0 <= i < j < |ts| :: KeyBefore(desc, ts[i], ts[j])
  }

  lemma CountTwice<T>(s: seq<T>, i: nat, j: nat)
    requires i < j < |s| && s[i] == s[j]
    ensures multiset(s)[s[i]] >= 2
  {
    assert s == s[..j] + [s[j]] + s[j + 1..];
    assert s[i] in s[..j];
  }

  lemma CountOnce(ts: seq<Treasure>, t: Treasure)
    requires DistinctKeys(ts)
    ensures multiset(ts)[t] <= 1
  {
    if t in ts {
      var i :| 0 <= i < |ts| && ts[i] == t;
      assert ts == ts[..i] + [t] + ts[i + 1..];
      assert t !in ts[..i] && t !in ts[i + 1..];
    }
  }

  /** Sorting distinctly keyed treasures gives a strictly ordered enumeration of them. */
  lemma SortIsStrict(desc: bool, input: seq<Treasure>, output: seq<Treasure>)
    requires DistinctKeys(input) && SortedByKey(desc, input, output)
    ensures Ascending(desc, output)
    ensures forall t :: t in output <==> t in input
  {
    assert forall t :: t in output <==> t in multiset(output);
    assert forall t :: t in input <==> t in multiset(input);
    forall i, j | 0 <= i < j < |output| ensures KeyBefore(desc, output[i], output[j]) {
      StringOrder(output[i].key, output[j].key);
      assert output[i] in input && output[j] in input;
      if output[i] == output[j] {
        CountTwice(output, i, j);
        CountOnce(input, output[i]);
      }
    }
  }

  lemma {:induction false} PassingAscends(desc: bool, p: Treasure -> bool, ts: seq<Treasure>)
    requires Ascending(desc, ts)
    ensures Ascending(desc, Passing(p, ts))
  {
    if ts != [] {
      var init := ts[..|ts| - 1];
      PassingAscends(desc, p, init);
      PassingMembers(p, init);
      assert forall i | 0 <= i < |Passing(p, init)| :: Passing(p, init)[i] in init;
    }
  }

  /** A set of treasures has one strictly ordered enumeration. */
  lemma {:induction false} OneEnumeration(desc: bool, a: seq<Treasure>, b: seq<Treasure>)
    requires Ascending(desc, a) && Ascending(desc, b)
    requires forall t :: t in a <==> t in b
    ensures a == b
    decreases |a|
  {
    assert (a != [] ==> a[0] in a) && (b != [] ==> b[0] in b);
    if a != [] && b != [] {
      FirstAgrees(desc, a, b);
      TailMembers(desc, a);
      TailMembers(desc, b);
      OneEnumeration(desc, a[1..], b[1..]);
      assert a == [a[0]] + a[1..] && b == [b[0]] + b[1..];
    }
  }

  lemma TailMembers(desc: bool, a: seq<Treasure>)
    requires Ascending(desc, a) && a != []
    ensures forall t :: t in a[1..] <==> t in a && t != a[0]
  {
    StringOrder(a[0].key, a[0].key);
    assert a == [a[0]] + a[1..];
    assert forall i | 1 <= i < |a| :: KeyBefore(desc, a[0], a[i]);
  }

  lemma FirstAgrees(desc: bool, a: seq<Treasure>, b: seq<Treasure>)
    requires Ascending(desc, a) && Ascending(desc, b) && a != [] && b != []
    requires forall t :: t in a <==> t in b
    ensures a[0] == b[0]
  {
    assert a[0] in b && b[0] in a;
    if a[0] != b[0] {
      assert KeyBefore(desc, a[0], b[0]) && KeyBefore(desc, b[0], a[0]);
      StringOrder(a[0].key, b[0].key);
    }
  }

  /** For a KEY-index request without time bounds or paging, the bucket route (candidates, sorted, residual)
      and the full walk of the stored treasures with the whole filter accept the same treasures in the same
      order, so they stream the same payloads up to the same limit. */
  lemma RoutesAgree(env: Env, store: Store, req: Request, desc: bool,
                    candidates: seq<Treasure>, sorted: seq<Treasure>, stored: seq<Treasure>, walk: seq<Treasure>)
    requires Routed(req.filters) && forall t | Stored(store, t) :: FaithfulPlan(env, t, req.filters)
    requires forall t :: t in candidates <==> Stored(store, t) && PlanHits(env, t, req.filters)
    requires forall t :: t in stored <==> Stored(store, t)
    requires DistinctKeys(candidates) && DistinctKeys(stored)
    requires SortedByKey(desc, candidates, sorted) && SortedByKey(desc, stored, walk)
    ensures var routed := req.(filters := PlanFilter(req.filters).residual);
            Passing(Accepting(env, routed), Page(sorted, 0, 0)) == Passing(Accepting(env, req), walk)
  {
    var routed := req.(filters := PlanFilter(req.filters).residual);
    SortIsStrict(desc, candidates, sorted);
    SortIsStrict(desc, stored, walk);
    PassingAscends(desc, Accepting(env, routed), sorted);
    PassingAscends(desc, Accepting(env, req), walk);
    PassingMembers(Accepting(env, routed), sorted);
    PassingMembers(Accepting(env, req), walk);
    forall t | Stored(store, t)
      ensures (PlanHits(env, t, req.filters) && FilterHolds(env, t, routed.filters)) <==>
              FilterHolds(env, t, req.filters)
    {
      RoutedIsFilter(env, t, req.filters);
    }
    OneEnumeration(desc, Passing(Accepting(env, routed), sorted), Passing(Accepting(env, req), walk));
    assert Page(sorted, 0, 0) == sorted;
  }

  function Payloads(rows: seq<Row>): (ps: seq<Payload>)
    ensures |ps| == |rows| && forall i | 0 <= i < |rows| :: ps[i] == rows[i].payload
  {
    seq(|rows|, i requires 0 <= i < |rows| => rows[i].payload)
  }

  /** The same in terms of what the two row loops send, limit included. */
  lemma StreamsAgree(env: Env, store: Store, req: Request, desc: bool,
                     candidates: seq<Treasure>, sorted: seq<Treasure>, stored: seq<Treasure>, walk: seq<Treasure>)
    requires Routed(req.filters) && forall t | Stored(store, t) :: FaithfulPlan(env, t, req.filters)
    requires forall t :: t in candidates <==> Stored(store, t) && PlanHits(env, t, req.filters)
    requires forall t :: t in stored <==> Stored(store, t)
    requires DistinctKeys(candidates) && DistinctKeys(stored)
    requires SortedByKey(desc, candidates, sorted) && SortedByKey(desc, stored, walk)
    ensures var routed := req.(filters := PlanFilter(req.filters).residual);
            Payloads(Take(req.maxResults, Matching(env, routed, Page(sorted, 0, 0)))) ==
            Payloads(Take(req.maxResults, Matching(env, req, walk)))
  {
    RoutesAgree(env, store, req, desc, candidates, sorted, stored, walk);
  }
}
