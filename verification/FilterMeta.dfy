/** The evaluator that also reports which labelled filters matched and what vector scores were computed
    (evaluateNativeFilterGroupWithMeta, hasAnyLabels). */
module FilterMeta {
  import opened Optional
  import opened Filters
  import opened FilterLaws

  datatype Meta = Meta(scores: seq<real>, labels: seq<string>) {
    function Then(other: Meta): Meta {
      Meta(scores + other.scores, labels + other.labels)
    }
  }

  const NO_META := Meta([], [])

  /** One member of a group, whatever its kind. */
  datatype Leg =
    | FilterLeg(f: TreasureFilter)
    | GroupLeg(sg: FilterGroup)
    | PhraseLeg(pf: PhraseFilter)
    | VectorLeg(vf: VectorFilter)
    | GeoLeg(gf: GeoFilter)
    | NestedLeg(nf: NestedFilter)

  /** The members of a group in evaluation order. */
  function Legs(g: FilterGroup): (legs: seq<Leg>)
    ensures forall l | l in legs :: l.GroupLeg? ==> l.sg in g.subGroups
  {
    seq(|g.filters|, i requires 0 <= i < |g.filters| => FilterLeg(g.filters[i])) +
    seq(|g.subGroups|, i requires 0 <= i < |g.subGroups| => GroupLeg(g.subGroups[i])) +
    seq(|g.phrases|, i requires 0 <= i < |g.phrases| => PhraseLeg(g.phrases[i])) +
    seq(|g.vectors|, i requires 0 <= i < |g.vectors| => VectorLeg(g.vectors[i])) +
    seq(|g.geos|, i requires 0 <= i < |g.geos| => GeoLeg(g.geos[i])) +
    seq(|g.nested|, i requires 0 <= i < |g.nested| => NestedLeg(g.nested[i]))
  }

  predicate LegHolds(env: Env, t: Treasure, l: Leg) {
    match l
    case FilterLeg(f) => LeafHolds(env, t, f)
    case GroupLeg(sg) => GroupHolds(env, t, sg)
    case PhraseLeg(pf) => env.phrase(t, pf)
    case VectorLeg(vf) => env.vector(t, vf).0
    case GeoLeg(gf) => env.geo(t, gf)
    case NestedLeg(nf) => NestedHolds(env, t, nf)
  }

  predicate IsLegOf(l: Leg, g: FilterGroup) {
    match l
    case FilterLeg(f) => f in g.filters
    case GroupLeg(sg) => sg in g.subGroups
    case PhraseLeg(pf) => pf in g.phrases
    case VectorLeg(vf) => vf in g.vectors
    case GeoLeg(gf) => gf in g.geos
    case NestedLeg(nf) => nf in g.nested
  }

  lemma LegMembers(g: FilterGroup, l: Leg)
    ensures l in Legs(g) <==> IsLegOf(l, g)
  {
    var a := |g.filters|;
    var b := a + |g.subGroups|;
    var c := b + |g.phrases|;
    var d := c + |g.vectors|;
    var e := d + |g.geos|;
    var legs := Legs(g);
    match l
    case FilterLeg(f) => if i :| 0 <= i < |g.filters| && g.filters[i] == f { assert legs[i] == l; }
    case GroupLeg(sg) => if i :| 0 <= i < |g.subGroups| && g.subGroups[i] == sg { assert legs[a + i] == l; }
    case PhraseLeg(pf) => if i :| 0 <= i < |g.phrases| && g.phrases[i] == pf { assert legs[b + i] == l; }
    case VectorLeg(vf) => if i :| 0 <= i < |g.vectors| && g.vectors[i] == vf { assert legs[c + i] == l; }
    case GeoLeg(gf) => if i :| 0 <= i < |g.geos| && g.geos[i] == gf { assert legs[d + i] == l; }
    case NestedLeg(nf) => if i :| 0 <= i < |g.nested| && g.nested[i] == nf { assert legs[e + i] == l; }
  }

  /** The short-circuiting evaluator, member by member. */
  predicate Decides(holds: Leg -> bool, logic: Logic, legs: seq<Leg>) {
    if logic == OR then exists l | l in legs :: holds(l) else forall l | l in legs :: holds(l)
  }

  lemma SomeLeg(g: FilterGroup, p: Leg -> bool)
    ensures (exists l | l in Legs(g) :: p(l)) <==>
            (exists f | f in g.filters :: p(FilterLeg(f))) ||
            (exists sg | sg in g.subGroups :: p(GroupLeg(sg))) ||
            (exists pf | pf in g.phrases :: p(PhraseLeg(pf))) ||
            (exists vf | vf in g.vectors :: p(VectorLeg(vf))) ||
            (exists gf | gf in g.geos :: p(GeoLeg(gf))) ||
            (exists nf | nf in g.nested :: p(NestedLeg(nf)))
  {
    forall l ensures l in Legs(g) <==> IsLegOf(l, g) { LegMembers(g, l); }
    if l :| l in Legs(g) && p(l) { assert IsLegOf(l, g); }
  }

  lemma EveryLeg(g: FilterGroup, p: Leg -> bool)
    ensures (forall l | l in Legs(g) :: p(l)) <==>
            (forall f | f in g.filters :: p(FilterLeg(f))) &&
            (forall sg | sg in g.subGroups :: p(GroupLeg(sg))) &&
            (forall pf | pf in g.phrases :: p(PhraseLeg(pf))) &&
            (forall vf | vf in g.vectors :: p(VectorLeg(vf))) &&
            (forall gf | gf in g.geos :: p(GeoLeg(gf))) &&
            (forall nf | nf in g.nested :: p(NestedLeg(nf)))
  {
    forall l ensures l in Legs(g) <==> IsLegOf(l, g) { LegMembers(g, l); }
    if l :| l in Legs(g) && !p(l) { assert IsLegOf(l, g); }
  }

  lemma GroupIsItsLegs(env: Env, t: Treasure, g: FilterGroup)
    ensures GroupHolds(env, t, g) <==> Legs(g) == [] || Decides(Judge(env, t), g.logic, Legs(g))
  {
    assert IsEmptyGroup(g) <==> Legs(g) == [];
    if !IsEmptyGroup(g) {
      if g.logic == OR { OrIsItsLegs(env, t, g); } else { AndIsItsLegs(env, t, g); }
    }
  }

  lemma OrIsItsLegs(env: Env, t: Treasure, g: FilterGroup)
    requires g.logic == OR && !IsEmptyGroup(g)
    ensures GroupHolds(env, t, g) <==> Decides(Judge(env, t), OR, Legs(g))
  {
    SomeLeg(g, Judge(env, t));
  }

  lemma AndIsItsLegs(env: Env, t: Treasure, g: FilterGroup)
    requires g.logic != OR && !IsEmptyGroup(g)
    ensures GroupHolds(env, t, g) <==> Decides(Judge(env, t), g.logic, Legs(g))
  {
    EveryLeg(g, Judge(env, t));
  }

  // ---- what a match reports ----

  function LabelMeta(labelText: string): Meta {
    if labelText == "" then NO_META else Meta([], [labelText])
  }

  /** What a satisfied non-group member contributes. */
  function OwnMeta(env: Env, t: Treasure, l: Leg): Meta {
    match l
    case FilterLeg(f) => LabelMeta(f.labelText)
    case GroupLeg(_) => NO_META
    case PhraseLeg(pf) => LabelMeta(pf.labelText)
    case VectorLeg(vf) => Meta([env.vector(t, vf).1], []).Then(LabelMeta(vf.labelText))
    case GeoLeg(gf) => LabelMeta(gf.labelText)
    case NestedLeg(nf) => LabelMeta(nf.labelText)
  }

  /** A leaf occurrence and the sub-groups on the way down to it. */
  datatype Occurrence = Occurrence(guards: seq<FilterGroup>, leaf: Leg)

  /** All leaf occurrences below the given members of `g`, in evaluation order. */
  function Occurrences(g: FilterGroup, legs: seq<Leg>): seq<Occurrence>
    requires forall l | l in legs :: l.GroupLeg? ==> l.sg in g.subGroups
    decreases g, 1 + |legs|
  {
    if legs == [] then []
    else
      Occurrences(g, legs[..|legs| - 1]) + LegOccurrences(g, legs[|legs| - 1])
  }

  function LegOccurrences(g: FilterGroup, l: Leg): seq<Occurrence>
    requires l.GroupLeg? ==> l.sg in g.subGroups
    decreases g, 0
  {
    if l.GroupLeg? then Guarded(l.sg, Occurrences(l.sg, Legs(l.sg))) else [Occurrence([], l)]
  }

  function Guarded(sg: FilterGroup, os: seq<Occurrence>): seq<Occurrence> {
    seq(|os|, i requires 0 <= i < |os| => Occurrence([sg] + os[i].guards, os[i].leaf))
  }

  /** The verdict on every leg, and what it contributes, for one treasure. */
  function Judge(env: Env, t: Treasure): (holds: Leg -> bool)
    ensures forall l :: holds(l) == LegHolds(env, t, l)
  {
    l => LegHolds(env, t, l)
  }

  function Own(env: Env, t: Treasure): (own: Leg -> Meta)
    ensures forall l :: own(l) == OwnMeta(env, t, l)
  {
    l => OwnMeta(env, t, l)
  }

  /** Reported occurrences: the leaf is satisfied and lies under satisfied sub-groups only. */
  predicate Reported(holds: Leg -> bool, o: Occurrence) {
    holds(o.leaf) && forall sg | sg in o.guards :: holds(GroupLeg(sg))
  }

  function Report(holds: Leg -> bool, own: Leg -> Meta, os: seq<Occurrence>): Meta {
    if os == [] then NO_META
    else
      var init, o := os[..|os| - 1], os[|os| - 1];
      Report(holds, own, init).Then(if Reported(holds, o) then own(o.leaf) else NO_META)
  }

  /** The metadata a match of `g` carries. */
  function MatchMeta(env: Env, t: Treasure, g: FilterGroup): Meta {
    Report(Judge(env, t), Own(env, t), Occurrences(g, Legs(g)))
  }

  lemma {:induction false} ReportConcat(holds: Leg -> bool, own: Leg -> Meta, a: seq<Occurrence>, b: seq<Occurrence>)
    ensures Report(holds, own, a + b) == Report(holds, own, a).Then(Report(holds, own, b))
  {
    if b == [] {
      assert a + b == a;
    } else {
      var init := b[..|b| - 1];
      ReportConcat(holds, own, a, init);
      assert (a + b)[..|a + b| - 1] == a + init;
      var o := b[|b| - 1];
      var last := if Reported(holds, o) then own(o.leaf) else NO_META;
      ThenAssociates(Report(holds, own, a), Report(holds, own, init), last);
    }
  }

  lemma ThenAssociates(a: Meta, b: Meta, c: Meta)
    ensures a.Then(b).Then(c) == a.Then(b.Then(c))
  {}

  lemma {:induction false} ReportGuarded(holds: Leg -> bool, own: Leg -> Meta, sg: FilterGroup, os: seq<Occurrence>)
    ensures Report(holds, own, Guarded(sg, os)) == if holds(GroupLeg(sg)) then Report(holds, own, os) else NO_META
  {
    if os != [] {
      var init, o := os[..|os| - 1], os[|os| - 1];
      ReportGuarded(holds, own, sg, init);
      var gs := Guarded(sg, os);
      assert gs[..|gs| - 1] == Guarded(sg, init) && gs[|gs| - 1] == Occurrence([sg] + o.guards, o.leaf);
      GuardedReported(holds, sg, o);
      assert NO_META.Then(NO_META) == NO_META;
    }
  }

  lemma GuardedReported(holds: Leg -> bool, sg: FilterGroup, o: Occurrence)
    ensures Reported(holds, Occurrence([sg] + o.guards, o.leaf)) <==> holds(GroupLeg(sg)) && Reported(holds, o)
  {
    assert forall x :: x in [sg] + o.guards <==> x == sg || x in o.guards;
  }

  lemma {:induction false} ReportNothing(holds: Leg -> bool, own: Leg -> Meta, os: seq<Occurrence>)
    requires forall o | o in os :: own(o.leaf) == NO_META
    ensures Report(holds, own, os) == NO_META
  {
    if os != [] {
      ReportNothing(holds, own, os[..|os| - 1]);
      assert os[|os| - 1] in os && NO_META.Then(NO_META) == NO_META;
    }
  }

  /** What one member contributes to the report, given the report of a sub-group. */
  function LegReport(holds: Leg -> bool, own: Leg -> Meta, l: Leg): Meta {
    if !holds(l) then NO_META
    else if l.GroupLeg? then Report(holds, own, Occurrences(l.sg, Legs(l.sg))) else own(l)
  }

  /** Evaluating one more member extends the report by what that member contributes. */
  lemma ReportNextLeg(holds: Leg -> bool, own: Leg -> Meta, g: FilterGroup, legs: seq<Leg>, i: nat)
    requires i < |legs| && forall x | x in legs :: x.GroupLeg? ==> x.sg in g.subGroups
    ensures Report(holds, own, Occurrences(g, legs[..i + 1])) ==
            Report(holds, own, Occurrences(g, legs[..i])).Then(LegReport(holds, own, legs[i]))
    ensures LegVerdicts(holds, legs)[..i + 1] == LegVerdicts(holds, legs)[..i] + [holds(legs[i])]
  {
    OccurrencesStep(g, legs, i);
    ReportConcat(holds, own, Occurrences(g, legs[..i]), LegOccurrences(g, legs[i]));
    ReportLeg(holds, own, g, legs[i]);
    VerdictsStep(holds, legs, i);
  }

  lemma OccurrencesStep(g: FilterGroup, legs: seq<Leg>, i: nat)
    requires i < |legs| && forall x | x in legs :: x.GroupLeg? ==> x.sg in g.subGroups
    ensures Occurrences(g, legs[..i + 1]) == Occurrences(g, legs[..i]) + LegOccurrences(g, legs[i])
  {
    assert legs[..i + 1][..i] == legs[..i] && legs[..i + 1][i] == legs[i];
  }

  lemma VerdictsStep(holds: Leg -> bool, legs: seq<Leg>, i: nat)
    requires i < |legs|
    ensures LegVerdicts(holds, legs)[..i + 1] == LegVerdicts(holds, legs)[..i] + [holds(legs[i])]
  {}

  lemma ReportLeg(holds: Leg -> bool, own: Leg -> Meta, g: FilterGroup, l: Leg)
    requires l.GroupLeg? ==> l.sg in g.subGroups
    ensures Report(holds, own, LegOccurrences(g, l)) == LegReport(holds, own, l)
  {
    if l.GroupLeg? {
      ReportGuarded(holds, own, l.sg, Occurrences(l.sg, Legs(l.sg)));
    } else {
      var o := Occurrence([], l);
      assert [o][..0] == [] && Report(holds, own, []) == NO_META;
      assert NO_META.Then(own(l)) == own(l) && NO_META.Then(NO_META) == NO_META;
    }
  }

  /** evaluateNativeFilterGroupWithMeta: OR groups visit every member, AND groups stop at the first
      failure, and a sub-group's metadata is kept only when the sub-group matched. The verdict is the
      short-circuiting evaluator's; on a match the metadata is exactly that of the reported
      occurrences, in evaluation order. */
  method EvaluateWithMeta(env: Env, t: Treasure, g: FilterGroup) returns (matched: bool, meta: Meta)
    ensures matched == GroupHolds(env, t, g)
    ensures matched ==> meta == MatchMeta(env, t, g)
    ensures matched ==> var leaves := ReportedLeaves(env, t, Occurrences(g, Legs(g)));
                        meta.labels == LabelsOf(leaves) && meta.scores == ScoresOf(env, t, leaves)
    decreases g, 2
  {
    MetaIsLabelsAndScores(env, t, g);
    GroupIsItsLegs(env, t, g);
    DecidesByVerdicts(Judge(env, t), g.logic, Legs(g));
    if Legs(g) == [] { return true, NO_META; }
    if g.logic == OR {
      matched, meta := EvaluateOr(env, t, g, Legs(g));
    } else {
      matched, meta := EvaluateAnd(env, t, g, Legs(g));
    }
  }

  /** The OR branch of evaluateFilterGroupWithMeta: no short-circuit. */
  method EvaluateOr(env: Env, t: Treasure, g: FilterGroup, legs: seq<Leg>) returns (anyMatched: bool, meta: Meta)
    requires forall l | l in legs :: l.GroupLeg? ==> l.sg in g.subGroups
    ensures anyMatched == (true in LegVerdicts(Judge(env, t), legs))
    ensures meta == Report(Judge(env, t), Own(env, t), Occurrences(g, legs))
    decreases g, 1
  {
    ghost var holds, own := Judge(env, t), Own(env, t);
    anyMatched, meta := false, NO_META;
    for i := 0 to |legs|
      invariant meta == Report(holds, own, Occurrences(g, legs[..i]))
      invariant anyMatched == (true in LegVerdicts(holds, legs)[..i])
    {
      ReportNextLeg(holds, own, g, legs, i);
      var legMatched, legMeta := EvaluateLeg(env, t, g, legs[i]);
      if legMatched {
        meta := meta.Then(legMeta);
        anyMatched := true;
      }
    }
    assert legs[..|legs|] == legs;
  }

  /** Its AND branch: stop at the first failure. */
  method EvaluateAnd(env: Env, t: Treasure, g: FilterGroup, legs: seq<Leg>) returns (matched: bool, meta: Meta)
    requires forall l | l in legs :: l.GroupLeg? ==> l.sg in g.subGroups
    ensures matched == (false !in LegVerdicts(Judge(env, t), legs))
    ensures matched ==> meta == Report(Judge(env, t), Own(env, t), Occurrences(g, legs))
    decreases g, 1
  {
    ghost var holds, own := Judge(env, t), Own(env, t);
    matched, meta := true, NO_META;
    for i := 0 to |legs|
      invariant meta == Report(holds, own, Occurrences(g, legs[..i]))
      invariant false !in LegVerdicts(holds, legs)[..i]
    {
      ReportNextLeg(holds, own, g, legs, i);
      var legMatched, legMeta := EvaluateLeg(env, t, g, legs[i]);
      if !legMatched { return false, meta; }
      meta := meta.Then(legMeta);
    }
    assert legs[..|legs|] == legs;
  }

  ghost function LegVerdicts(holds: Leg -> bool, legs: seq<Leg>): (vs: seq<bool>)
    ensures |vs| == |legs| && forall i | 0 <= i < |legs| :: vs[i] == holds(legs[i])
  {
    seq(|legs|, i requires 0 <= i < |legs| => holds(legs[i]))
  }

  lemma DecidesByVerdicts(holds: Leg -> bool, logic: Logic, legs: seq<Leg>)
    ensures Decides(holds, logic, legs) <==>
            if logic == OR then true in LegVerdicts(holds, legs) else false !in LegVerdicts(holds, legs)
  {
    var vs := LegVerdicts(holds, legs);
    if l :| l in legs && holds(l) {
      var i :| 0 <= i < |legs| && legs[i] == l;
      assert vs[i];
    }
    if l :| l in legs && !holds(l) {
      var i :| 0 <= i < |legs| && legs[i] == l;
      assert !vs[i];
    }
  }

  /** The callbacks evaluateNativeFilterGroupWithMeta hands to the generic evaluator. */
  method EvaluateLeg(env: Env, t: Treasure, ghost g: FilterGroup, l: Leg) returns (matched: bool, meta: Meta)
    requires l.GroupLeg? ==> l.sg in g.subGroups
    ensures matched == Judge(env, t)(l)
    ensures matched ==> meta == LegReport(Judge(env, t), Own(env, t), l)
    ensures !matched ==> forall m: Meta :: m.Then(LegReport(Judge(env, t), Own(env, t), l)) == m
    decreases g, 0
  {
    if l.GroupLeg? {
      matched, meta := EvaluateWithMeta(env, t, l.sg);
    } else {
      matched, meta := LegHolds(env, t, l), OwnMeta(env, t, l);
    }
    assert forall m: Meta :: m.Then(NO_META) == m;
  }

  // ---- the fast path ----

  predicate Labelled(l: Leg) {
    match l
    case FilterLeg(f) => f.labelText != ""
    case GroupLeg(_) => false
    case PhraseLeg(pf) => pf.labelText != ""
    case VectorLeg(_) => true
    case GeoLeg(gf) => gf.labelText != ""
    case NestedLeg(nf) => nf.labelText != ""
  }

  /** hasAnyLabels: a label anywhere outside nested conditions, or any vector filter. */
  predicate HasAnyLabels(g: FilterGroup)
    decreases g
  {
    g.vectors != [] ||
    (exists f | f in g.filters :: f.labelText != "") ||
    (exists pf | pf in g.phrases :: pf.labelText != "") ||
    (exists gf | gf in g.geos :: gf.labelText != "") ||
    (exists nf | nf in g.nested :: nf.labelText != "") ||
    exists sg | sg in g.subGroups :: HasAnyLabels(sg)
  }

  /** HasAnyLabels is exactly "some occurrence would report something": the fast path loses nothing, and
      no coarser test would do. */
  lemma {:induction false} LabelsAreOccurrences(g: FilterGroup, legs: seq<Leg>)
    requires forall l | l in legs :: l.GroupLeg? ==> l.sg in g.subGroups
    ensures (exists o | o in Occurrences(g, legs) :: Labelled(o.leaf)) <==>
            exists l | l in legs :: Labelled(l) || (l.GroupLeg? && HasAnyLabels(l.sg))
    decreases g, |legs|
  {
    if legs != [] {
      var init, l := legs[..|legs| - 1], legs[|legs| - 1];
      assert legs == init + [l];
      LabelsAreOccurrences(g, init);
      var own := LegOccurrences(g, l);
      assert (exists o | o in own :: Labelled(o.leaf)) <==> Labelled(l) || (l.GroupLeg? && HasAnyLabels(l.sg)) by {
        if l.GroupLeg? {
          var os := Occurrences(l.sg, Legs(l.sg));
          LabelsAreOccurrences(l.sg, Legs(l.sg));
          HasAnyLabelsIsItsLegs(l.sg);
          if i :| 0 <= i < |os| && Labelled(os[i].leaf) { assert Labelled(own[i].leaf); }
        } else {
          assert own[0].leaf == l;
        }
      }
    }
  }

  function Labels(): (p: Leg -> bool)
    ensures forall l :: p(l) == (Labelled(l) || (l.GroupLeg? && HasAnyLabels(l.sg)))
  {
    l => Labelled(l) || (l.GroupLeg? && HasAnyLabels(l.sg))
  }

  lemma HasAnyLabelsIsItsLegs(g: FilterGroup)
    ensures HasAnyLabels(g) <==> exists l | l in Legs(g) :: Labelled(l) || (l.GroupLeg? && HasAnyLabels(l.sg))
  {
    SomeLeg(g, Labels());
    if g.vectors != [] { assert g.vectors[0] in g.vectors; }
  }

  // ---- what the metadata is ----

  /** The label a member carries. */
  function LabelOf(l: Leg): string {
    match l
    case FilterLeg(f) => f.labelText
    case GroupLeg(_) => ""
    case PhraseLeg(pf) => pf.labelText
    case VectorLeg(vf) => vf.labelText
    case GeoLeg(gf) => gf.labelText
    case NestedLeg(nf) => nf.labelText
  }

  /** The non-empty labels of some leaves, in order. */
  function LabelsOf(leaves: seq<Leg>): seq<string> {
    if leaves == [] then []
    else
      var text := LabelOf(leaves[|leaves| - 1]);
      LabelsOf(leaves[..|leaves| - 1]) + if text == "" then [] else [text]
  }

  /** The scores of the vector leaves among them, in order. */
  function ScoresOf(env: Env, t: Treasure, leaves: seq<Leg>): seq<real> {
    if leaves == [] then []
    else
      var last := leaves[|leaves| - 1];
      ScoresOf(env, t, leaves[..|leaves| - 1]) + if last.VectorLeg? then [env.vector(t, last.vf).1] else []
  }

  /** The leaves a match of `g` reports: satisfied, under satisfied groups only, in evaluation order. */
  function ReportedLeaves(env: Env, t: Treasure, os: seq<Occurrence>): seq<Leg> {
    if os == [] then []
    else
      var o := os[|os| - 1];
      var rest := ReportedLeaves(env, t, os[..|os| - 1]);
      if LegHolds(env, t, o.leaf) && forall sg | sg in o.guards :: GroupHolds(env, t, sg) then rest + [o.leaf] else rest
  }

  lemma {:induction false} ReportIsLabelsAndScores(env: Env, t: Treasure, os: seq<Occurrence>)
    ensures var meta, leaves := Report(Judge(env, t), Own(env, t), os), ReportedLeaves(env, t, os);
            meta.labels == LabelsOf(leaves) && meta.scores == ScoresOf(env, t, leaves)
  {
    if os != [] {
      var init, o := os[..|os| - 1], os[|os| - 1];
      ReportIsLabelsAndScores(env, t, init);
      var rest := ReportedLeaves(env, t, init);
      assert (rest + [o.leaf])[..|rest|] == rest;
      assert forall sg :: Judge(env, t)(GroupLeg(sg)) == GroupHolds(env, t, sg);
    }
  }

  /** On a match the labels are, in evaluation order, the non-empty labels of the reported leaves, and the scores
      are those of the reported vector leaves. */
  lemma MetaIsLabelsAndScores(env: Env, t: Treasure, g: FilterGroup)
    ensures var leaves := ReportedLeaves(env, t, Occurrences(g, Legs(g)));
            MatchMeta(env, t, g) == Meta(ScoresOf(env, t, leaves), LabelsOf(leaves))
  {
    ReportIsLabelsAndScores(env, t, Occurrences(g, Legs(g)));
  }

  /** The evaluation order: filters, sub-groups, phrases, vectors, geo filters, nested slices. */
  lemma LegsInOrder(g: FilterGroup, i: nat)
    ensures |Legs(g)| == |g.filters| + |g.subGroups| + |g.phrases| + |g.vectors| + |g.geos| + |g.nested|
    ensures i < |g.filters| ==> Legs(g)[i] == FilterLeg(g.filters[i])
    ensures var a := |g.filters|; i < |g.subGroups| ==> Legs(g)[a + i] == GroupLeg(g.subGroups[i])
    ensures var b := |g.filters| + |g.subGroups|; i < |g.phrases| ==> Legs(g)[b + i] == PhraseLeg(g.phrases[i])
    ensures var c := |g.filters| + |g.subGroups| + |g.phrases|;
            i < |g.vectors| ==> Legs(g)[c + i] == VectorLeg(g.vectors[i])
    ensures var d := |g.filters| + |g.subGroups| + |g.phrases| + |g.vectors|;
            i < |g.geos| ==> Legs(g)[d + i] == GeoLeg(g.geos[i])
    ensures var e := |g.filters| + |g.subGroups| + |g.phrases| + |g.vectors| + |g.geos|;
            i < |g.nested| ==> Legs(g)[e + i] == NestedLeg(g.nested[i])
  {}

  /** One labelled filter that holds: its label is reported. */
  lemma OneLabelReported(env: Env, t: Treasure, f: TreasureFilter)
    requires LeafHolds(env, t, f) && f.labelText != ""
    ensures MatchMeta(env, t, FilterGroup(AND, [f], [], [], [], [], [])) == Meta([], [f.labelText])
  {
    MetaIsLabelsAndScores(env, t, FilterGroup(AND, [f], [], [], [], [], []));
    OneOccurrence(f);
    OneReportedLeaf(env, t, FilterLeg(f));
  }

  lemma OneOccurrence(f: TreasureFilter)
    ensures var g := FilterGroup(AND, [f], [], [], [], [], []);
            Occurrences(g, Legs(g)) == [Occurrence([], FilterLeg(f))]
  {
    var g := FilterGroup(AND, [f], [], [], [], [], []);
    var legs := Legs(g);
    assert legs == [FilterLeg(f)] && legs[..0] == [];
    assert Occurrences(g, legs[..0]) == [];
    assert LegOccurrences(g, legs[0]) == [Occurrence([], FilterLeg(f))];
  }

  lemma OneReportedLeaf(env: Env, t: Treasure, l: Leg)
    requires LegHolds(env, t, l) && l.FilterLeg? && LabelOf(l) != ""
    ensures ReportedLeaves(env, t, [Occurrence([], l)]) == [l]
    ensures LabelsOf([l]) == [LabelOf(l)] && ScoresOf(env, t, [l]) == []
  {
    var os, leaves := [Occurrence([], l)], [l];
    assert os[..0] == [] && leaves[..0] == [];
    assert ReportedLeaves(env, t, os[..0]) == [] && LabelsOf(leaves[..0]) == [] && ScoresOf(env, t, leaves[..0]) == [];
  }

  /** The decision between fast and metadata path: without labels a match carries no metadata. */
  lemma NoLabelsNoMeta(env: Env, t: Treasure, g: FilterGroup)
    requires !HasAnyLabels(g)
    ensures MatchMeta(env, t, g) == NO_META
  {
    LabelsAreOccurrences(g, Legs(g));
    HasAnyLabelsIsItsLegs(g);
    var os := Occurrences(g, Legs(g));
    forall o | o in os ensures OwnMeta(env, t, o.leaf) == NO_META {
      assert !Labelled(o.leaf);
    }
    ReportNothing(Judge(env, t), Own(env, t), os);
  }

  // ---- body-only groups ----

  /** A leaf a body alone can decide: a filter with a body path, or a nested-slice filter. */
  predicate BodyLeaf(l: Leg) {
    (l.FilterLeg? && l.f.path.Some? && l.f.path.value != "") || l.NestedLeg?
  }

  function BodyLegs(): (p: Leg -> bool)
    ensures forall l :: p(l) == if l.GroupLeg? then BodyOnly(l.sg) else BodyLeaf(l)
  {
    (l: Leg) => if l.GroupLeg? then BodyOnly(l.sg) else BodyLeaf(l)
  }

  lemma BodyOnlyIsItsLegs(g: FilterGroup)
    ensures BodyOnly(g) <==> forall l | l in Legs(g) :: BodyLegs()(l)
  {
    EveryLeg(g, BodyLegs());
    if g.phrases != [] { assert g.phrases[0] in g.phrases; }
    if g.vectors != [] { assert g.vectors[0] in g.vectors; }
    if g.geos != [] { assert g.geos[0] in g.geos; }
  }

  /** validateBodyOnlyFilterGroup accepts exactly the groups all of whose leaves, at any depth, a body alone can
      decide. */
  lemma BodyOnlyMeans(g: FilterGroup)
    ensures BodyOnly(g) <==> forall o | o in Occurrences(g, Legs(g)) :: BodyLeaf(o.leaf)
    decreases g, |Legs(g)| + 1
  {
    BodyOnlyIsItsLegs(g);
    BodyOccurrences(g, Legs(g));
  }

  lemma {:induction false} BodyOccurrences(g: FilterGroup, legs: seq<Leg>)
    requires forall l | l in legs :: l.GroupLeg? ==> l.sg in g.subGroups
    ensures (forall o | o in Occurrences(g, legs) :: BodyLeaf(o.leaf)) <==> forall l | l in legs :: BodyLegs()(l)
    decreases g, |legs|
  {
    if legs != [] {
      var init, l := legs[..|legs| - 1], legs[|legs| - 1];
      assert legs == init + [l];
      BodyOccurrences(g, init);
      BodyLegOccurrences(g, l);
    }
  }

  lemma BodyLegOccurrences(g: FilterGroup, l: Leg)
    requires l.GroupLeg? ==> l.sg in g.subGroups
    ensures (forall o | o in LegOccurrences(g, l) :: BodyLeaf(o.leaf)) <==> BodyLegs()(l)
    decreases g, 0
  {
    var own := LegOccurrences(g, l);
    if l.GroupLeg? {
      var os := Occurrences(l.sg, Legs(l.sg));
      BodyOnlyMeans(l.sg);
      assert forall i | 0 <= i < |os| :: own[i].leaf == os[i].leaf;
      assert forall i | 0 <= i < |os| :: os[i] in os && own[i] in own;
    } else {
      assert own == [Occurrence([], l)] && own[0] in own;
    }
  }
}
