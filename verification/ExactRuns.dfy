/** Whole runs of groupings and ungroupings on any well-formed graph: what they always keep, and exactly
    when they keep every connection. */
module ExactRuns {
  import opened Options
  import opened GraphModel
  import opened GraphRegrouping
  import opened GraphMeaning
  import opened GroupingProof
  import opened UngroupingProof
  import opened RegroupingRuns

  // --- what can only become less ------------------------------------------------------------------

  predicate Unsized(l: Link) {
    l.minBufferSize == UNDEFINED_SIZE
  }

  /** No more connections, and of those without a buffer size no more of any kind. */
  ghost predicate Shrinks(m: multiset<Link>, m': multiset<Link>) {
    |m'| <= |m| && forall l :: Unsized(l) ==> m'[l] <= m[l]
  }

  ghost predicate ShrinksNot(m: multiset<Link>, m': multiset<Link>) {
    |m'| == |m| && forall l :: Unsized(l) ==> m'[l] == m[l]
  }

  lemma ShrinksOn(a: multiset<Link>, b: multiset<Link>, c: multiset<Link>)
    requires Shrinks(a, b) && Shrinks(b, c)
    ensures Shrinks(a, c)
    ensures ShrinksNot(a, c) ==> ShrinksNot(a, b) && ShrinksNot(b, c)
  {
    if ShrinksNot(a, c) {
      forall l | Unsized(l) ensures b[l] == a[l] && c[l] == b[l] { assert c[l] == a[l]; }
    }
  }

  /** Part of the connections go, others get a buffer size, the rest stays. */
  lemma PartsShrink(a: multiset<Link>, a': multiset<Link>, c: multiset<Link>, c': multiset<Link>, rest: multiset<Link>)
    requires a' <= a && |c'| == |c| && forall l :: Unsized(l) ==> c'[l] == 0
    ensures Shrinks((a + c) + rest, (a' + c') + rest)
    ensures ShrinksNot((a + c) + rest, (a' + c') + rest) ==> |a'| == |a| && forall l :: Unsized(l) ==> c[l] == 0
  {
    SizeOfPart(a, a');
    assert |(a + c) + rest| == |a| + |c| + |rest| && |(a' + c') + rest| == |a'| + |c'| + |rest|;
    forall l | Unsized(l) ensures ((a' + c') + rest)[l] <= ((a + c) + rest)[l] { assert a'[l] <= a[l]; }
    if ShrinksNot((a + c) + rest, (a' + c') + rest) {
      forall l | Unsized(l) ensures c[l] == 0 {
        assert ((a' + c') + rest)[l] == ((a + c) + rest)[l] && a'[l] <= a[l];
      }
    }
  }

  lemma SizeOfPart<T>(a: multiset<T>, a': multiset<T>)
    requires a' <= a
    ensures |a'| <= |a|
  {
    assert a == a' + (a - a');
  }

  lemma {:induction false} AddedLinks(blocks: seq<Block>, edges: seq<Edge>, more: seq<Edge>)
    ensures Links(blocks, AddEdges(edges, more)) <= Links(blocks, edges) + Links(blocks, more)
  {
    hide LinkOf, ContainsEdge;
    if more != [] {
      var front, e := more[..|more| - 1], more[|more| - 1];
      AddedLinks(blocks, edges, front);
      var before := AddEdges(edges, front);
      assert (before + [e])[..|before|] == before;
      OneLinkMore(Links(blocks, before), Links(blocks, edges), Links(blocks, front), LinkOf(blocks, e));
    }
  }

  lemma OneLinkMore<T>(a: multiset<T>, b: multiset<T>, c: multiset<T>, x: T)
    requires a <= b + c
    ensures a <= b + (c + multiset{x}) && a + multiset{x} <= b + (c + multiset{x})
  {
  }

  // --- one step -----------------------------------------------------------------------------------

  /** The condition under which a step keeps the meaning. */
  ghost predicate ExactStep(g: Topology, step: Step) {
    match step
    case GroupStep(targets, _) => NoRepeatedInternalEdge(targets, g.edges) && CrossingBuffersDefined(targets, g.edges)
    case UngroupStep(sub) => sub.SubGraph? && NoRepeats([], sub.edges)
  }

  lemma JoinedSized(g: Topology, targets: seq<Block>, spawned: Option<(Id, string)>, p: Plan, sub: Block)
    requires Groupable(g, targets, spawned) && spawned.Some? && PlanEdges(targets, g.edges) == Some(p)
    requires sub.SubGraph? && sub.id == spawned.value.0 && sub.blocks == targets
    requires ExportAll(targets, p.exports) == Some(sub.exports)
    ensures var blocks := Ungrouped(targets, g.blocks) + [sub];
            var joined := Links(blocks, Reconnected(blocks, sub.id, p.crossing));
            && |joined| == |Links(g.blocks, CrossingEdges(p.crossing))|
            && forall l :: Unsized(l) ==> joined[l] == 0
  {
    hide PlanEdges, ExportAll, Links, LinkOf, Ungrouped, Groupable;
    var blocks := Ungrouped(targets, g.blocks) + [sub];
    var joined := Reconnected(blocks, sub.id, p.crossing);
    LinksCount(blocks, joined);
    LinksCount(g.blocks, CrossingEdges(p.crossing));
    forall l | Unsized(l) ensures l !in Links(blocks, joined) {
      if l in Links(blocks, joined) {
        var i := LinkFrom(blocks, joined, l);
        CrossingLinks(g, targets, spawned, p, sub, i);
        SizeOfLink(blocks, joined[i]);
      }
    }
  }

  lemma SizeOfLink(blocks: seq<Block>, e: Edge)
    ensures LinkOf(blocks, e).minBufferSize == e.minBufferSize
  {
  }

  lemma UnsizedCrossing(g: Topology, targets: seq<Block>, p: Plan)
    requires PlanEdges(targets, g.edges) == Some(p)
    requires forall l :: Unsized(l) ==> Links(g.blocks, CrossingEdges(p.crossing))[l] == 0
    ensures CrossingBuffersDefined(targets, g.edges)
  {
    hide PlanEdges, Links, LinkOf, CrossingEdges, IsCrossing;
    PlanListsAll(targets, g.edges);
    var crossing := CrossingEdges(p.crossing);
    forall e | e in g.edges && IsCrossing(targets, e) ensures e.minBufferSize != UNDEFINED_SIZE {
      var i :| 0 <= i < |crossing| && crossing[i] == e;
      LinkIn(g.blocks, crossing, i);
      SizeOfLink(g.blocks, e);
      assert !Unsized(LinkOf(g.blocks, e));
    }
  }

  lemma GroupShrinks(g: Topology, targets: seq<Block>, spawned: Option<(Id, string)>)
    requires Groupable(g, targets, spawned) && Group(g, targets, spawned).0 == Done
    ensures var m, m' := Meaning(g), Meaning(Group(g, targets, spawned).1);
            && Shrinks(m, m')
            && (ShrinksNot(m, m') ==> NoRepeatedInternalEdge(targets, g.edges)
                                      && CrossingBuffersDefined(targets, g.edges))
  {
    hide Links, LinkOf, Meaning, Group, PlanEdges, ExportAll, Groupable, Ungrouped, Untouched, Reconnected,
         CrossingEdges, NoRepeatedInternalEdge, CrossingBuffersDefined, Shrinks, ShrinksNot;
    var p, sub := GroupedShape(g, targets, spawned);
    var blocks := Ungrouped(targets, g.blocks) + [sub];
    var joined, crossing := Reconnected(blocks, sub.id, p.crossing), CrossingEdges(p.crossing);
    MeaningSplit(g, targets, spawned, p, sub);
    JoinedSized(g, targets, spawned, p, sub);
    AddedLinks(targets, [], p.internal);
    NoLinks(targets);
    PartsShrink(Links(targets, p.internal), Links(targets, sub.edges), Links(g.blocks, crossing), Links(blocks, joined),
                Links(blocks, Untouched(targets, g.edges)) + InnerLinks(g.blocks));
    if ShrinksNot(Meaning(g), Meaning(Group(g, targets, spawned).1)) {
      LinksCount(targets, p.internal);
      LinksCount(targets, sub.edges);
      AddEdgesExact([], p.internal);
      PlanRepeats(targets, g.edges);
      UnsizedCrossing(g, targets, p);
    }
  }

  lemma NoLinks(blocks: seq<Block>)
    ensures forall more: multiset<Link> :: Links(blocks, []) + more == more
  {
  }

  lemma UngroupShrinks(g: Topology, sub: Block)
    requires WellFormed(g) && sub in g.blocks && Ungroup(g, sub).0 == Done
    ensures var m, m' := Meaning(g), Meaning(Ungroup(g, sub).1);
            Shrinks(m, m') && (ShrinksNot(m, m') ==> NoRepeats([], sub.edges))
  {
    hide Links, LinkOf, Meaning, WellFormed, Around, Shrinks, ShrinksNot, NoRepeats;
    var i :| 0 <= i < |g.blocks| && g.blocks[i] == sub;
    var blocks, adopted := Around(g.blocks, i) + sub.blocks, Adopted(g, sub);
    UngroupedMeaning(g, sub, i);
    AdoptedLinks(g, sub, i);
    AdoptedKeepLinks(g, sub, i);
    AddedLinks(blocks, g.edges, sub.edges);
    LinksAppend(blocks, g.edges, adopted);
    PartOfRest(Links(blocks, g.edges), Links(blocks, adopted), Links(blocks, sub.edges));
    OnePartShrinks(Links(sub.blocks, sub.edges), Links(blocks, adopted), Links(g.blocks, g.edges) + InnerLinks(blocks));
    LinksCount(blocks, adopted);
    LinksCount(sub.blocks, sub.edges);
  }

  lemma PartOfRest<T>(a: multiset<T>, b: multiset<T>, c: multiset<T>)
    requires a + b <= a + c
    ensures b <= c
  {
    forall x ensures b[x] <= c[x] { assert (a + b)[x] <= (a + c)[x]; }
  }

  lemma OnePartShrinks(a: multiset<Link>, a': multiset<Link>, rest: multiset<Link>)
    requires a' <= a
    ensures Shrinks(a + rest, a' + rest)
    ensures ShrinksNot(a + rest, a' + rest) ==> |a'| == |a|
  {
    SizeOfPart(a, a');
  }

  /** Every successful step keeps the leaf blocks and well-formedness, never adds a connection, and keeps
      them all exactly under its own condition. */
  lemma StepShrinks(g: Topology, step: Step)
    requires WellFormed(g) && Admissible(g, step) && Perform(g, step).0 == Done
    ensures var next := Perform(g, step).1;
            && WellFormed(next) && Leaves(next.blocks) == Leaves(g.blocks)
            && Shrinks(Meaning(g), Meaning(next))
            && (Meaning(next) == Meaning(g) <==> ExactStep(g, step))
            && (ShrinksNot(Meaning(g), Meaning(next)) ==> ExactStep(g, step))
  {
    hide WellFormed, Meaning, Leaves, Shrinks, ShrinksNot, NoRepeatedInternalEdge, CrossingBuffersDefined, NoRepeats;
    match step
    case GroupStep(targets, spawned) =>
      GroupShrinks(g, targets, spawned);
      GroupKeepsMeaning(g, targets, spawned);
      GroupKeepsLeaves(g, targets, spawned);
      GroupKeepsWellFormed(g, targets, spawned);
    case UngroupStep(sub) =>
      UngroupShrinks(g, sub);
      UngroupKeepsMeaning(g, sub);
      UngroupKeepsLeaves(g, sub);
      UngroupKeepsWellFormed(g, sub);
  }

  // --- runs ---------------------------------------------------------------------------------------

  /** Any run of successful groupings and ungroupings keeps the leaf blocks and the well-formedness of the
      graph, and never adds a connection. */
  lemma {:induction false} RunKeepsLeaves(g: Topology, steps: seq<Step>, end: Topology)
    requires WellFormed(g) && Run(g, steps, end)
    ensures WellFormed(end) && Leaves(end.blocks) == Leaves(g.blocks) && Shrinks(Meaning(g), Meaning(end))
    decreases |steps|
  {
    hide WellFormed, Meaning, Leaves, Perform, Admissible;
    if steps != [] {
      var next := Perform(g, steps[0]).1;
      StepShrinks(g, steps[0]);
      RunKeepsLeaves(next, steps[1..], end);
      ShrinksOn(Meaning(g), Meaning(next), Meaning(end));
    }
  }

  /** Each step meets its own condition in the graph it is applied to. */
  ghost predicate EveryStepExact(g: Topology, steps: seq<Step>)
    decreases |steps|
  {
    steps == [] || (ExactStep(g, steps[0]) && EveryStepExact(Perform(g, steps[0]).1, steps[1..]))
  }

  /** A run keeps every connection, with buffer size, weight and name, exactly when each of its steps does:
      no later step can make up for what an earlier one has lost. */
  lemma {:induction false} RunKeepsMeaningExactly(g: Topology, steps: seq<Step>, end: Topology)
    requires WellFormed(g) && Run(g, steps, end)
    ensures Meaning(end) == Meaning(g) <==> EveryStepExact(g, steps)
    decreases |steps|
  {
    hide WellFormed, Meaning, Leaves, Perform, Admissible, ExactStep;
    if steps != [] {
      var next := Perform(g, steps[0]).1;
      StepShrinks(g, steps[0]);
      RunKeepsLeaves(next, steps[1..], end);
      RunKeepsMeaningExactly(next, steps[1..], end);
      ShrinksOn(Meaning(g), Meaning(next), Meaning(end));
    }
  }
}
