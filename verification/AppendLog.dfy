/** The append-only swamp file: live and dead entries (app/hydraidectl/cmd/inspect.go), the index a reader
    builds (app/core/hydra/swamp/chronicler/v2/reader.go), and the format migration that rewrites it
    (app/hydraidectl/cmd/migrate_v2_migrate_format.go). */
module AppendLog {
  import opened Values
  import opened Sequences

  datatype Operation = OpInsert | OpUpdate | OpDelete | OpMetadata | OpUnknown

  datatype Entry = Entry(op: Operation, key: string, data: seq<Byte>) {
    predicate Upserts() { op == OpInsert || op == OpUpdate }

    /** The entry decides what a reader knows about the key. */
    predicate Touches(k: string) { key == k && (Upserts() || op == OpDelete) }

    predicate NamesSwamp() { op == OpMetadata && key == METADATA_KEY }
  }

  const METADATA_KEY := "__swamp_meta__"

  type FileIndex = map<string, seq<Byte>>

  function Apply(index: FileIndex, e: Entry): FileIndex {
    if e.op == OpDelete then index - {e.key}
    else if e.Upserts() then index[e.key := e.data]
    else index
  }

  function ReplayOnto(index: FileIndex, log: seq<Entry>): FileIndex
    decreases |log|
  {
    if log == [] then index else ReplayOnto(Apply(index, log[0]), log[1..])
  }

  /** The index a reader ends up with. */
  function Replay(log: seq<Entry>): FileIndex {
    ReplayOnto(map[], log)
  }

  /** The last insert or update of its key, with no later delete. */
  predicate Live(log: seq<Entry>, i: nat)
    requires i < |log|
  {
    log[i].Upserts() && forall e | e in log[i + 1..] :: !e.Touches(log[i].key)
  }

  function LiveEntries(log: seq<Entry>): seq<Entry> {
    if log == [] then []
    else (if Live(log, 0) then [log[0]] else []) + LiveEntries(log[1..])
  }

  // ---- replay is decided by the live entries ----

  lemma {:induction false} Untouched(index: FileIndex, log: seq<Entry>, k: string)
    requires forall e | e in log :: !e.Touches(k)
    ensures var after := ReplayOnto(index, log);
            (k in after <==> k in index) && (k in index ==> after[k] == index[k])
    decreases |log|
  {
    if log != [] {
      assert log[0] in log && forall e | e in log[1..] :: e in log;
      Untouched(Apply(index, log[0]), log[1..], k);
    }
  }

  /** A live entry's data is what the reader has for its key. */
  lemma {:induction false} LiveDecides(index: FileIndex, log: seq<Entry>, i: nat)
    requires i < |log| && Live(log, i)
    ensures var after := ReplayOnto(index, log); log[i].key in after && after[log[i].key] == log[i].data
    decreases |log|
  {
    if i == 0 {
      Untouched(Apply(index, log[0]), log[1..], log[0].key);
    } else {
      assert log[1..][i..] == log[i + 1..];
      LiveDecides(Apply(index, log[0]), log[1..], i - 1);
    }
  }

  /** Whatever the reader has comes from a live entry, or was there before and stayed untouched. */
  lemma {:induction false} LiveExplains(index: FileIndex, log: seq<Entry>, k: string)
    requires k in ReplayOnto(index, log)
    ensures (exists i | 0 <= i < |log| :: log[i].key == k && Live(log, i)) ||
            (k in index && forall e | e in log :: !e.Touches(k))
    decreases |log|
  {
    if log != [] {
      var rest := log[1..];
      LiveExplains(Apply(index, log[0]), rest, k);
      if i :| 0 <= i < |rest| && rest[i].key == k && Live(rest, i) {
        assert rest[i + 1..] == log[i + 2..];
        assert log[i + 1].key == k && Live(log, i + 1);
      } else {
        assert log == [log[0]] + rest;
        if log[0].Touches(k) { assert log[0].key == k && Live(log, 0); }
      }
    }
  }

  /** A log of one insert or update per key of an index, in any order, replays to that index. */
  ghost predicate Rewrites(log: seq<Entry>, index: FileIndex) {
    (forall i | 0 <= i < |log| :: log[i].Upserts() && log[i].key in index && log[i].data == index[log[i].key]) &&
    DistinctKeys(log) &&
    forall k | k in index :: exists i | 0 <= i < |log| :: log[i].key == k
  }

  lemma RewriteReplays(log: seq<Entry>, index: FileIndex)
    requires Rewrites(log, index)
    ensures Replay(log) == index
  {
    forall i | 0 <= i < |log| ensures Live(log, i) {}
    forall k ensures k in Replay(log) <==> k in index {
      if k in Replay(log) { LiveExplains(map[], log, k); }
      if k in index {
        var i :| 0 <= i < |log| && log[i].key == k;
        LiveDecides(map[], log, i);
      }
    }
    forall k | k in index ensures k in Replay(log) && Replay(log)[k] == index[k] {
      var i :| 0 <= i < |log| && log[i].key == k;
      LiveDecides(map[], log, i);
    }
  }

  lemma {:induction false} LiveEntriesAre(log: seq<Entry>)
    ensures forall e :: e in LiveEntries(log) <==> exists i | 0 <= i < |log| :: log[i] == e && Live(log, i)
    decreases |log|
  {
    if log != [] {
      var rest := log[1..];
      LiveEntriesAre(rest);
      forall i | 0 <= i < |rest| ensures Live(rest, i) <==> Live(log, i + 1) {
        assert rest[i + 1..] == log[i + 2..];
      }
      forall e ensures e in LiveEntries(log) <==> exists i | 0 <= i < |log| :: log[i] == e && Live(log, i) {
        if e in LiveEntries(rest) {
          var i :| 0 <= i < |rest| && rest[i] == e && Live(rest, i);
          assert log[i + 1] == e && Live(log, i + 1);
        }
        if i :| 0 < i < |log| && log[i] == e && Live(log, i) {
          assert rest[i - 1] == e && Live(rest, i - 1);
        }
      }
    }
  }

  predicate DistinctKeys(log: seq<Entry>) {
    forall i, j | 0 <= i < j < |log| :: log[i].key != log[j].key
  }

  lemma DistinctPrepend(e: Entry, log: seq<Entry>)
    requires DistinctKeys(log) && forall x | x in log :: x.key != e.key
    ensures DistinctKeys([e] + log)
  {}

  lemma {:induction false} LiveEntriesDistinct(log: seq<Entry>)
    ensures DistinctKeys(LiveEntries(log))
    decreases |log|
  {
    if log != [] {
      var rest := LiveEntries(log[1..]);
      LiveEntriesDistinct(log[1..]);
      LiveEntriesAre(log[1..]);
      if Live(log, 0) {
        forall e | e in rest ensures e.key != log[0].key { LaterLiveDiffers(log, e); }
        DistinctPrepend(log[0], rest);
      } else {
        assert LiveEntries(log) == rest;
      }
    }
  }

  lemma LaterLiveDiffers(log: seq<Entry>, e: Entry)
    requires log != [] && Live(log, 0)
    requires exists i | 0 <= i < |log[1..]| :: log[1..][i] == e && Live(log[1..], i)
    ensures e.key != log[0].key
  {
    assert e in log[0 + 1..] && e.Upserts();
    assert !e.Touches(log[0].key);
  }

  lemma LiveRewrites(log: seq<Entry>)
    ensures Rewrites(LiveEntries(log), Replay(log))
  {
    var live, index := LiveEntries(log), Replay(log);
    LiveEntriesAre(log);
    LiveEntriesDistinct(log);
    forall i | 0 <= i < |live| ensures live[i].Upserts() && live[i].key in index && live[i].data == index[live[i].key] {
      assert live[i] in live;
      var j :| 0 <= j < |log| && log[j] == live[i] && Live(log, j);
      LiveDecides(map[], log, j);
    }
    forall k | k in index ensures exists i | 0 <= i < |live| :: live[i].key == k {
      LiveExplains(map[], log, k);
      var j :| 0 <= j < |log| && log[j].key == k && Live(log, j);
      assert log[j] in live;
    }
  }

  /** Dropping every dead entry leaves what a reader sees unchanged. */
  lemma LiveReplaysAll(log: seq<Entry>)
    ensures Replay(LiveEntries(log)) == Replay(log)
  {
    LiveRewrites(log);
    RewriteReplays(LiveEntries(log), Replay(log));
  }

  lemma RewriteSize(log: seq<Entry>, index: FileIndex)
    requires Rewrites(log, index)
    ensures |log| == |index|
  {
    var keys := seq(|log|, i requires 0 <= i < |log| => log[i].key);
    DistinctSize(keys);
    forall k ensures k in keys <==> k in index.Keys {
      if k in index {
        var i :| 0 <= i < |log| && log[i].key == k;
        assert keys[i] == k;
      }
    }
    assert (set k | k in keys) == index.Keys;
  }

  lemma {:induction false} DistinctSize(keys: seq<string>)
    requires forall i, j | 0 <= i < j < |keys| :: keys[i] != keys[j]
    ensures |set k | k in keys| == |keys|
  {
    if keys != [] {
      var init, last := keys[..|keys| - 1], keys[|keys| - 1];
      DistinctSize(init);
      assert (set k | k in keys) == (set k | k in init) + {last};
    }
  }

  /** A log has exactly one live entry for each key a reader sees. */
  lemma LiveCount(log: seq<Entry>)
    ensures |LiveEntries(log)| == |Replay(log)|
  {
    LiveRewrites(log);
    RewriteSize(LiveEntries(log), Replay(log));
  }

  lemma {:induction false} LiveAtMostAll(log: seq<Entry>)
    ensures |LiveEntries(log)| <= |log|
    decreases |log|
  {
    if log != [] { LiveAtMostAll(log[1..]); }
  }

  // ---- inspect ----

  datatype InspectEntry = InspectEntry(index: nat, entry: Entry, isLive: bool)

  datatype Report = Report(swampName: string, total: int, live: int, dead: int, entries: seq<InspectEntry>)

  /** The entries an inspection lists: all but the swamp's name. */
  function Listed(log: seq<Entry>): seq<Entry> {
    Passing((e: Entry) => !e.NamesSwamp(), log)
  }

  /** The name an inspection reports: that of the last name entry. */
  function InspectedName(log: seq<Entry>): string {
    if log == [] then ""
    else if log[|log| - 1].NamesSwamp() then DataAsString(log[|log| - 1].data)
    else InspectedName(log[..|log| - 1])
  }

  lemma InspectedNameStep(log: seq<Entry>, n: nat)
    requires n < |log|
    ensures InspectedName(log[..n + 1]) ==
            if log[n].NamesSwamp() then DataAsString(log[n].data) else InspectedName(log[..n])
  {
    assert log[..n + 1][..n] == log[..n] && log[..n + 1][n] == log[n];
  }

  lemma ListedStep(log: seq<Entry>, n: nat)
    requires n < |log|
    ensures Listed(log[..n + 1]) == Listed(log[..n]) + if log[n].NamesSwamp() then [] else [log[n]]
  {
    assert log[..n + 1][..n] == log[..n] && log[..n + 1][n] == log[n];
  }

  lemma {:induction false} ReplayAppend(index: FileIndex, log: seq<Entry>, e: Entry)
    ensures ReplayOnto(index, log + [e]) == Apply(ReplayOnto(index, log), e)
    decreases |log|
  {
    if log == [] {
      assert ([] + [e])[1..] == [];
      assert ReplayOnto(Apply(index, e), []) == Apply(index, e);
    } else {
      assert (log + [e])[1..] == log[1..] + [e];
      ReplayAppend(Apply(index, log[0]), log[1..], e);
    }
  }

  /** Name entries do not matter to a reader. */
  lemma {:induction false} ListedReplays(log: seq<Entry>)
    ensures Replay(Listed(log)) == Replay(log)
    decreases |log|
  {
    if log != [] {
      var n := |log| - 1;
      ListedReplays(log[..n]);
      ListedStep(log, n);
      assert log[..n + 1] == log && log[..n] + [log[n]] == log;
      ReplayAppend(map[], log[..n], log[n]);
      ReplayAppend(map[], Listed(log[..n]), log[n]);
      if log[n].NamesSwamp() {
        assert Listed(log) == Listed(log[..n]) + [] == Listed(log[..n]);
      } else {
        assert Listed(log) == Listed(log[..n]) + [log[n]];
      }
    }
  }

  /** The entries listed so far, unmarked, with their positions in the file. */
  ghost predicate Records(log: seq<Entry>, n: nat, listed: seq<Entry>, entries: seq<InspectEntry>) {
    n <= |log| && |entries| == |listed| &&
    forall i | 0 <= i < |entries| ::
      entries[i].entry == listed[i] && !entries[i].isLive &&
      0 < entries[i].index <= n && log[entries[i].index - 1] == listed[i]
  }

  lemma RecordsNext(log: seq<Entry>, n: nat, listed: seq<Entry>, entries: seq<InspectEntry>)
    requires n < |log| && Records(log, n, listed, entries)
    ensures Records(log, n + 1, listed, entries)
    ensures Records(log, n + 1, listed + [log[n]], entries + [InspectEntry(n + 1, log[n], false)])
  {}

  lemma LiveAppend(log: seq<Entry>, e: Entry)
    ensures Live(log + [e], |log|) <==> e.Upserts()
    ensures forall i | 0 <= i < |log| :: Live(log + [e], i) <==> Live(log, i) && !e.Touches(log[i].key)
  {
    assert (log + [e])[|log| + 1..] == [];
    forall i | 0 <= i < |log| ensures Live(log + [e], i) <==> Live(log, i) && !e.Touches(log[i].key) {
      assert (log + [e])[i + 1..] == log[i + 1..] + [e];
    }
  }

  /** The map from keys to the position of their live entry. */
  ghost predicate Tracks(liveKeys: map<string, nat>, log: seq<Entry>) {
    (forall k | k in liveKeys :: liveKeys[k] < |log| && log[liveKeys[k]].key == k && Live(log, liveKeys[k])) &&
    forall i | 0 <= i < |log| && Live(log, i) :: log[i].key in liveKeys && liveKeys[log[i].key] == i
  }

  lemma TracksNext(liveKeys: map<string, nat>, log: seq<Entry>, e: Entry)
    requires Tracks(liveKeys, log)
    ensures e.op == OpDelete ==> Tracks(liveKeys - {e.key}, log + [e])
    ensures e.Upserts() ==> Tracks(liveKeys[e.key := |log|], log + [e])
    ensures !e.Upserts() && e.op != OpDelete ==> Tracks(liveKeys, log + [e])
  {
    LiveAppend(log, e);
  }

  lemma TrackedKeys(liveKeys: map<string, nat>, log: seq<Entry>)
    requires Tracks(liveKeys, log)
    ensures |liveKeys| == |Replay(log)|
  {
    forall k ensures k in liveKeys <==> k in Replay(log) {
      if k in liveKeys { LiveDecides(map[], log, liveKeys[k]); }
      if k in Replay(log) { LiveExplains(map[], log, k); }
    }
    assert liveKeys.Keys == Replay(log).Keys;
  }

  /** analyzeSwampForInspect: an entry is marked live iff it is the last insert or update of its key with no
      later delete; live plus dead is the total, and the live ones are as many as the keys a reader sees. */
  method AnalyzeSwampForInspect(log: seq<Entry>) returns (report: Report)
    ensures |report.entries| == |Listed(log)| == report.total
    ensures forall i | 0 <= i < report.total ::
              report.entries[i].entry == Listed(log)[i] && (report.entries[i].isLive <==> Live(Listed(log), i)) &&
              0 < report.entries[i].index <= |log| && log[report.entries[i].index - 1] == Listed(log)[i]
    ensures report.swampName == InspectedName(log)
    ensures report.live == |Replay(log)| == |LiveEntries(log)|
    ensures report.live + report.dead == report.total && report.dead >= 0
  {
    var swampName, entries, liveKeys := ReadEntries(log);
    entries := MarkLive(entries, Listed(log), liveKeys);
    TrackedKeys(liveKeys, Listed(log));
    ListedReplays(log);
    LiveCount(Listed(log));
    LiveCount(log);
    LiveAtMostAll(Listed(log));
    report := Report(swampName, |entries|, |liveKeys|, |entries| - |liveKeys|, entries);
  }

  /** The reading loop. */
  method ReadEntries(log: seq<Entry>)
    returns (swampName: string, entries: seq<InspectEntry>, liveKeys: map<string, nat>)
    ensures swampName == InspectedName(log)
    ensures |entries| == |Listed(log)| && Tracks(liveKeys, Listed(log))
    ensures forall i | 0 <= i < |entries| :: entries[i].entry == Listed(log)[i] && !entries[i].isLive
    ensures forall i | 0 <= i < |entries| ::
              0 < entries[i].index <= |log| && log[entries[i].index - 1] == Listed(log)[i]
  {
    swampName, entries, liveKeys := "", [], map[];
    ghost var listed: seq<Entry> := [];
    for n := 0 to |log|
      invariant swampName == InspectedName(log[..n])
      invariant listed == Listed(log[..n]) && Records(log, n, listed, entries)
      invariant Tracks(liveKeys, listed)
    {
      var entry := log[n];
      ListedStep(log, n);
      InspectedNameStep(log, n);
      RecordsNext(log, n, listed, entries);
      if entry.NamesSwamp() {
        swampName := DataAsString(entry.data);
      } else {
        TracksNext(liveKeys, listed, entry);
        entries := entries + [InspectEntry(n + 1, entry, false)];
        listed := listed + [entry];
        if entry.op == OpDelete {
          liveKeys := liveKeys - {entry.key};
        } else if entry.Upserts() {
          liveKeys := liveKeys[entry.key := |entries| - 1];
        }
      }
    }
    assert log[..|log|] == log;
  }

  /** The marking loop over the live positions. */
  method MarkLive(entries: seq<InspectEntry>, ghost listed: seq<Entry>, liveKeys: map<string, nat>)
    returns (out: seq<InspectEntry>)
    requires Tracks(liveKeys, listed) && |entries| == |listed|
    requires forall i | 0 <= i < |entries| :: !entries[i].isLive
    ensures |out| == |entries|
    ensures forall i | 0 <= i < |out| :: out[i] == entries[i].(isLive := Live(listed, i))
  {
    out := entries;
    var todo := liveKeys.Keys;
    while todo != {}
      invariant todo <= liveKeys.Keys && |out| == |entries|
      invariant forall i | 0 <= i < |out| :: out[i] == entries[i].(isLive := Live(listed, i) && listed[i].key !in todo)
      decreases |todo|
    {
      var k :| k in todo;
      var idx := liveKeys[k];
      if idx < |out| { out := out[idx := out[idx].(isLive := true)]; }
      todo := todo - {k};
    }
  }

  function DataAsString(data: seq<Byte>): string {
    seq(|data|, i requires 0 <= i < |data| => data[i] as char)
  }

  // ---- reading and migrating ----

  /** The swamp name a reader settles on: the header's, else the first non-empty name entry. */
  function NameFrom(name: string, log: seq<Entry>): string
    decreases |log|
  {
    if log == [] then name
    else
      var named := name == "" && log[0].NamesSwamp() && log[0].data != [];
      NameFrom(if named then DataAsString(log[0].data) else name, log[1..])
  }

  /** The name read: the header's if there is one, else that of the first name entry with data, else none. */
  lemma {:induction false} NameMeans(name: string, log: seq<Entry>)
    ensures name != "" ==> NameFrom(name, log) == name
    ensures name == "" && (forall e | e in log :: !(e.NamesSwamp() && e.data != [])) ==> NameFrom(name, log) == ""
    ensures name == "" ==> forall i | 0 <= i < |log| && log[i].NamesSwamp() && log[i].data != [] &&
              (forall e | e in log[..i] :: !(e.NamesSwamp() && e.data != [])) ::
              NameFrom(name, log) == DataAsString(log[i].data)
    decreases |log|
  {
    if log != [] {
      var named := log[0].NamesSwamp() && log[0].data != [];
      var next := if name == "" && named then DataAsString(log[0].data) else name;
      NameMeans(next, log[1..]);
      assert log[0] in log && forall e | e in log[1..] :: e in log;
      if name == "" {
        forall i | 0 <= i < |log| && log[i].NamesSwamp() && log[i].data != [] &&
                   (forall e | e in log[..i] :: !(e.NamesSwamp() && e.data != []))
          ensures NameFrom(name, log) == DataAsString(log[i].data)
        {
          if i > 0 {
            assert log[..i][0] == log[0] && log[1..][i - 1] == log[i];
            assert forall e | e in log[1..][..i - 1] :: e in log[..i];
          }
        }
      }
    }
  }

  /** The name inspected: that of the last name entry, with data or without. */
  lemma {:induction false} InspectedNameMeans(log: seq<Entry>, i: nat)
    requires i < |log| && log[i].NamesSwamp() && forall e | e in log[i + 1..] :: !e.NamesSwamp()
    ensures InspectedName(log) == DataAsString(log[i].data)
  {
    var n := |log| - 1;
    if i < n {
      assert log[n] in log[i + 1..] && log[..n][i + 1..] <= log[i + 1..];
      InspectedNameMeans(log[..n], i);
    }
  }

  /** Bytes become characters one by one. */
  lemma DataAsStringMeans(data: seq<Byte>)
    ensures |DataAsString(data)| == |data| && forall i | 0 <= i < |data| :: DataAsString(data)[i] as int == data[i]
  {}

  /** LoadIndex. */
  method LoadIndex(headerName: string, log: seq<Entry>) returns (index: FileIndex, swampName: string)
    ensures index == Replay(log) && swampName == NameFrom(headerName, log)
  {
    index, swampName := map[], headerName;
    for n := 0 to |log|
      invariant ReplayOnto(index, log[n..]) == Replay(log)
      invariant NameFrom(swampName, log[n..]) == NameFrom(headerName, log)
    {
      var entry := log[n];
      assert log[n..][0] == entry && log[n..][1..] == log[n + 1..];
      match entry.op
      case OpDelete => index := index - {entry.key};
      case OpInsert => index := index[entry.key := entry.data];
      case OpUpdate => index := index[entry.key := entry.data];
      case OpMetadata =>
        if swampName == "" && entry.key == METADATA_KEY && |entry.data| > 0 { swampName := DataAsString(entry.data); }
      case OpUnknown =>
    }
  }

  lemma OrderRewrites(index: FileIndex, order: seq<string>, out: seq<Entry>)
    requires forall k :: k in order <==> k in index
    requires forall i, j | 0 <= i < j < |order| :: order[i] != order[j]
    requires |out| == |order|
    requires forall i | 0 <= i < |out| :: order[i] in index && out[i] == Entry(OpInsert, order[i], index[order[i]])
    ensures Rewrites(out, index)
  {
    forall k | k in index ensures exists i | 0 <= i < |out| :: out[i].key == k {
      var i :| 0 <= i < |order| && order[i] == k;
      assert out[i].key == k;
    }
  }

  datatype Migration = NoName | Migrated(name: string, log: seq<Entry>)

  /** The rewrite of migrateFileV2Format, for any iteration order of the index: the new file has one INSERT
      per live key and a reader sees in it what it saw in the old one. */
  method MigrateFormat(log: seq<Entry>, order: seq<string>) returns (m: Migration)
    requires forall k :: k in order <==> k in Replay(log)
    requires forall i, j | 0 <= i < j < |order| :: order[i] != order[j]
    ensures m.NoName? <==> NameFrom("", log) == ""
    ensures m.Migrated? ==> m.name == NameFrom("", log) && Replay(m.log) == Replay(log)
    ensures m.Migrated? ==> |m.log| == |LiveEntries(log)| && forall e | e in m.log :: e.op == OpInsert
  {
    var index, swampName := LoadIndex("", log);
    if swampName == "" { return NoName; }
    var out: seq<Entry> := [];
    for n := 0 to |order|
      invariant |out| == n
      invariant forall i | 0 <= i < n :: order[i] in index && out[i] == Entry(OpInsert, order[i], index[order[i]])
    {
      assert order[n] in order;
      out := out + [Entry(OpInsert, order[n], index[order[n]])];
    }
    OrderRewrites(index, order, out);
    RewriteReplays(out, index);
    RewriteSize(out, index);
    LiveCount(log);
    return Migrated(swampName, out);
  }
}
