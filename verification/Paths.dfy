/** Dot-separated field paths and their extraction from decoded bodies
    (app/server/gateway/filter.go, extractFieldByPath). */
module Paths {
  import opened Values

  /** strings.Split(s, "."). */
  function SplitDots(s: string): (parts: seq<string>)
    ensures |parts| >= 1
  {
    if s == "" then [""]
    else
      var rest := SplitDots(s[1..]);
      if s[0] == '.' then [""] + rest else [[s[0]] + rest[0]] + rest[1..]
  }

  /** strings.Join(parts, "."). */
  function JoinDots(parts: seq<string>): string {
    if parts == [] then ""
    else if |parts| == 1 then parts[0]
    else parts[0] + "." + JoinDots(parts[1..])
  }

  predicate IsWildcard(part: string) {
    HasSuffix(part, "[*]")
  }

  /** Value of a wildcard segment's own field: the current value for a bare `[*]`. */
  function WildcardTarget(current: Value, part: string): Value
    requires IsWildcard(part)
  {
    var name := part[..|part| - 3];
    if name == "" then current else FieldOf(current, name)
  }

  function FieldOf(current: Value, name: string): Value {
    if current.Map? && name in current.fields then current.fields[name] else Nil
  }

  function LengthOf(current: Value): Value {
    match current
    case Slice(elems) => Int(WrapInt64(|elems|))
    case Map(fields) => Int(WrapInt64(|fields|))
    case _ => Nil
  }

  /** Extraction along the remaining segments, starting at `current`. */
  function Walk(current: Value, parts: seq<string>): Value
    decreases |parts|, 0
  {
    if parts == [] then current
    else if parts[0] == "#len" then LengthOf(current)
    else if IsWildcard(parts[0]) then
      var target := WildcardTarget(current, parts[0]);
      if target.Slice? then AnyMatch(WalkElements(target.elems, parts[1..])) else Nil
    else Walk(FieldOf(current, parts[0]), parts[1..])
  }

  /** What `[*]` collects: the elements themselves when nothing remains of the path, otherwise the
      non-nil extractions from the map elements. */
  function WalkElements(elems: seq<Value>, rest: seq<string>): seq<Value>
    decreases |rest|, 1 + |elems|
  {
    if elems == [] then [] else ElementValue(elems[0], rest) + WalkElements(elems[1..], rest)
  }

  function ElementValue(elem: Value, rest: seq<string>): seq<Value>
    decreases |rest|, 1
  {
    if JoinDots(rest) == "" then [elem]
    else if !elem.Map? then []
    else
      var v := Walk(elem, rest);
      if v.Nil? then [] else [v]
  }

  function Extract(doc: Document, path: string): Value {
    if path == "" then Map(doc) else Walk(Map(doc), SplitDots(path))
  }

  // ---- the string-level loop computes Extract ----

  lemma {:induction false} JoinSplit(s: string)
    ensures JoinDots(SplitDots(s)) == s
  {
    if s != "" {
      JoinSplit(s[1..]);
      var rest := SplitDots(s[1..]);
      if s[0] == '.' {
        assert ([""] + rest)[1..] == rest;
      } else {
        var parts := [[s[0]] + rest[0]] + rest[1..];
        assert parts[1..] == rest[1..];
      }
    }
  }

  lemma {:induction false} SplitNoDots(s: string)
    ensures forall p | p in SplitDots(s) :: '.' !in p
  {
    if s != "" { SplitNoDots(s[1..]); }
  }

  lemma {:induction false} SplitOne(p: string)
    requires '.' !in p
    ensures SplitDots(p) == [p]
  {
    if p != "" {
      SplitOne(p[1..]);
      assert [p[0]] + p[1..] == p;
    }
  }

  lemma {:induction false} SplitPrepend(p: string, s: string)
    requires '.' !in p
    ensures SplitDots(p + "." + s) == [p] + SplitDots(s)
  {
    var whole := p + "." + s;
    if p == "" {
      assert whole[1..] == s;
    } else {
      assert whole[1..] == p[1..] + "." + s;
      SplitPrepend(p[1..], s);
      assert ([p[1..]] + SplitDots(s))[1..] == SplitDots(s);
      assert [p[0]] + p[1..] == p;
    }
  }

  lemma {:induction false} SplitJoin(parts: seq<string>)
    requires |parts| >= 1
    requires forall p | p in parts :: '.' !in p
    ensures SplitDots(JoinDots(parts)) == parts
  {
    if |parts| == 1 {
      SplitOne(parts[0]);
    } else {
      SplitJoin(parts[1..]);
      SplitPrepend(parts[0], JoinDots(parts[1..]));
    }
  }

  /** The path that remains behind a non-empty segment is shorter than the path. */
  lemma {:induction false} JoinTailShorter(parts: seq<string>, i: nat)
    requires i < |parts| && parts[i] != ""
    ensures |JoinDots(parts[i + 1..])| < |JoinDots(parts)|
  {
    if i > 0 {
      JoinTailShorter(parts[1..], i - 1);
      assert parts[1..][i..] == parts[i + 1..];
    }
  }

  lemma {:induction false} WalkNil(parts: seq<string>)
    ensures Walk(Nil, parts) == Nil
  {
    if parts != [] && parts[0] != "#len" && !IsWildcard(parts[0]) { WalkNil(parts[1..]); }
  }

  lemma {:induction false} WalkElementsAppend(elems: seq<Value>, last: Value, rest: seq<string>)
    ensures WalkElements(elems + [last], rest) == WalkElements(elems, rest) + ElementValue(last, rest)
  {
    if elems == [] {
      assert elems + [last] == [last];
    } else {
      assert (elems + [last])[1..] == elems[1..] + [last];
      WalkElementsAppend(elems[1..], last, rest);
    }
  }

  /** extractFieldByPath: splits the path, walks it segment by segment and re-joins what is left of
      it for the elements behind a wildcard. */
  method ExtractFieldByPath(doc: Document, path: string) returns (v: Value)
    ensures v == Extract(doc, path)
    decreases |path|, 0
  {
    if path == "" { return Map(doc); }
    var parts := SplitDots(path);
    JoinSplit(path);
    SplitNoDots(path);
    var current := Map(doc);
    var i := 0;
    while i < |parts|
      invariant 0 <= i <= |parts|
      invariant Walk(Map(doc), parts) == Walk(current, parts[i..])
    {
      var part := parts[i];
      assert parts[i..][0] == part && parts[i..][1..] == parts[i + 1..];
      if part == "#len" { return LengthOf(current); }
      if IsWildcard(part) {
        current := WildcardTarget(current, part);
        if !current.Slice? { return Nil; }
        var remaining := JoinDots(parts[i + 1..]);
        JoinTailShorter(parts, i);
        v := CollectFromElements(current.elems, parts[i + 1..], remaining);
        return;
      }
      if !current.Map? || part !in current.fields {
        WalkNil(parts[i + 1..]);
        return Nil;
      }
      current := current.fields[part];
      i := i + 1;
    }
    return current;
  }

  /** The wildcard branch of extractFieldByPath. */
  method CollectFromElements(elems: seq<Value>, ghost rest: seq<string>, remaining: string) returns (v: Value)
    requires remaining == JoinDots(rest)
    requires forall p | p in rest :: '.' !in p
    ensures v == AnyMatch(WalkElements(elems, rest))
    decreases |remaining|, 1
  {
    var values: seq<Value> := [];
    for j := 0 to |elems|
      invariant values == WalkElements(elems[..j], rest)
    {
      WalkElementsAppend(elems[..j], elems[j], rest);
      assert elems[..j] + [elems[j]] == elems[..j + 1];
      if remaining == "" {
        values := values + [elems[j]];
      } else if elems[j].Map? {
        SplitJoin(rest);
        var found := ExtractFieldByPath(elems[j].fields, remaining);
        if !found.Nil? { values := values + [found]; }
      }
    }
    assert elems[..|elems|] == elems;
    return AnyMatch(values);
  }
}
