/** Filtering and limiting sequences. */
module Sequences {
  /** At most `max` of the items; a non-positive limit is none. */
  function Take<T>(max: int, s: seq<T>): seq<T> {
    if 0 < max < |s| then s[..max] else s
  }

  /** The items that pass, in order. */
  function Passing<T>(p: T -> bool, s: seq<T>): seq<T> {
    if s == [] then []
    else Passing(p, s[..|s| - 1]) + if p(s[|s| - 1]) then [s[|s| - 1]] else []
  }

  lemma {:induction false} PassingMembers<T>(p: T -> bool, s: seq<T>)
    ensures forall x :: x in Passing(p, s) <==> x in s && p(x)
  {
    if s != [] {
      PassingMembers(p, s[..|s| - 1]);
      assert s == s[..|s| - 1] + [s[|s| - 1]];
    }
  }

  lemma TakePrefix<T>(max: int, a: seq<T>, b: seq<T>)
    requires a <= b && 0 < max <= |a|
    ensures Take(max, a) == Take(max, b)
  {
    assert b[..|a|][..max] == b[..max];
  }

  lemma PassingStep<T>(p: T -> bool, s: seq<T>, i: nat)
    requires i < |s|
    ensures Passing(p, s[..i + 1]) == Passing(p, s[..i]) + if p(s[i]) then [s[i]] else []
  {
    assert s[..i + 1][..i] == s[..i];
  }

  lemma {:induction false} AllPassing<T>(p: T -> bool, s: seq<T>)
    requires forall x | x in s :: p(x)
    ensures Passing(p, s) == s
  {
    if s != [] {
      AllPassing(p, s[..|s| - 1]);
      assert s == s[..|s| - 1] + [s[|s| - 1]] && s[|s| - 1] in s;
    }
  }

  lemma {:induction false} PassingPrefix<T>(p: T -> bool, s: seq<T>, k: nat)
    requires k <= |s|
    ensures Passing(p, s[..k]) <= Passing(p, s)
    decreases |s| - k
  {
    if k == |s| {
      assert s[..k] == s;
    } else {
      PassingStep(p, s, k);
      PassingPrefix(p, s, k + 1);
    }
  }
}
