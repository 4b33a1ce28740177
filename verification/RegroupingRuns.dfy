/** Grouping followed by ungrouping, and whole runs of groupings and ungroupings. */
module RegroupingRuns {
  import opened Options
  import opened PortNames
  import opened GraphModel
  import opened GraphRegrouping
  import opened GraphMeaning
  import opened GroupingProof
  import opened UngroupingProof

  // --- ungrouping undoes grouping ---------------------------------------------------------------

  function NamedDef(blocks: seq<Block>, dir: Direction, id: Id, def: PortDef): PortDef {
    match FindBlock(blocks, id)
    case None => def
    case Some(b) => match DefinedPortName(Ports(b, dir), def)
                    case None => def
                    case Some(name) => ByName(name)
  }

  /** An edge with its ports given by name instead of by index. */
  function Named(blocks: seq<Block>, e: Edge): Edge {
    e.(srcPort := NamedDef(blocks, Output, e.src, e.srcPort), dstPort := NamedDef(blocks, Input, e.dst, e.dstPort))
  }

  lemma {:induction false} PlannedNamesNotEmpty(targets: seq<Block>, edges: seq<Edge>)
    requires PlanEdges(targets, edges).Some?
    ensures forall x :: x in PlanEdges(targets, edges).value.exports ==> x.exported != ""
  {
    if edges != [] {
      var front, e := edges[..|edges| - 1], edges[|edges| - 1];
      PlannedNamesNotEmpty(targets, front);
      if IsCrossing(targets, e) {
        var (id, def, dir) := InsideEnd(targets, e);
        var block := FindBlock(targets, id).value;
        var internal := DefinedPortName(Ports(block, dir), def).value;
        var before := PlanEdges(targets, front).value.exports;
        if PlannedName(before, block.id, dir, internal).None? {
          var name := FreeCandidate(block.name + "." + internal, Taken(before, dir), 0);
          assert |name| > 0;
        }
      }
    }
  }

  /** The joined edge, rewired by an ungrouping, is the crossing edge again with a name for its inner port. */
  lemma RejoinedEdge(g: Topology, targets: seq<Block>, spawned: Option<(Id, string)>, p: Plan, sub: Block, i: nat)
    requires Groupable(g, targets, spawned) && spawned.Some? && PlanEdges(targets, g.edges) == Some(p)
    requires i < |p.crossing|
    requires sub.SubGraph? && sub.id == spawned.value.0 && sub.blocks == targets
    requires ExportAll(targets, p.exports) == Some(sub.exports)
    ensures var joined := Reconnected(Ungrouped(targets, g.blocks) + [sub], sub.id, p.crossing)[i];
            && EndError(sub, joined) == Done
            && Named(g.blocks, RewiredEdge(sub, joined))
               == Named(g.blocks, p.crossing[i].edge).(minBufferSize := joined.minBufferSize)
  {
    hide ResolveEnd, Reconnected, PlanEdges, ExportAll, DefinedPortName, Ids, Once, Leaves, InnerLinks, Ungrouped;
    var blocks, c := Ungrouped(targets, g.blocks) + [sub], p.crossing[i];
    PlanSound(targets, g.edges);
    assert c in p.crossing && CrossingPlanned(targets, p.exports, c);
    ReconnectedAt(blocks, sub.id, p.crossing);
    GroupedLookups(g, targets, spawned, sub);
    var (id, def, dir) := InsideEnd(targets, c.edge);
    var b := FindBlock(targets, id).value;
    var x := Planned(id, dir, DefinedPortName(Ports(b, dir), def).value, c.port);
    assert x in p.exports;
    PlannedNamesNotEmpty(targets, g.edges);
    PlannedEndResolves(sub, p.exports, x);
    assert b in g.blocks;
    NamedEitherWay(g.blocks, b, dir, def, x.internal);
    assert c.edge in g.edges && EdgeInside(g.blocks, c.edge);
    OtherEndStays(g, spawned, c.edge);
    RejoinedNames(g.blocks, sub, c, id, def, dir, x.internal, SourcePorts(blocks, Redirected(c, sub.id).src));
  }

  lemma PlannedEndResolves(sub: Block, planned: seq<Planned>, x: Planned)
    requires sub.SubGraph? && PlanIsBijection(planned) && ExportAll(sub.blocks, planned) == Some(sub.exports)
    requires x in planned && x.exported != ""
    ensures ResolveEnd(sub, x.dir, ByName(x.exported)) == Inner(x.block, x.internal)
  {
    hide ExportAll, PlanIsBijection;
    ExportedNameResolves(sub.blocks, planned, x);
  }

  lemma NamedEitherWay(blocks: seq<Block>, b: Block, dir: Direction, def: PortDef, name: string)
    requires FindBlock(blocks, b.id) == Some(b) && DefinedPortName(Ports(b, dir), def) == Some(name)
    ensures NamedDef(blocks, dir, b.id, def) == ByName(name) == NamedDef(blocks, dir, b.id, ByName(name))
  {
    hide FindBlock;
  }

  lemma RejoinedNames(outer: seq<Block>, sub: Block, c: Crossing, id: Id, def: PortDef, dir: Direction,
                      internal: string, ports: seq<Slot>)
    requires sub.SubGraph? && ResolveEnd(sub, dir, ByName(c.port)) == Inner(id, internal)
    requires if c.sourceInside then (id, def, dir) == (c.edge.src, c.edge.srcPort, Output) && c.edge.dst != sub.id
             else (id, def, dir) == (c.edge.dst, c.edge.dstPort, Input) && c.edge.src != sub.id
    requires NamedDef(outer, dir, id, def) == ByName(internal) == NamedDef(outer, dir, id, ByName(internal))
    ensures var joined := Connected(Redirected(c, sub.id), ports);
            && EndError(sub, joined) == Done
            && Named(outer, RewiredEdge(sub, joined)) == Named(outer, c.edge).(minBufferSize := joined.minBufferSize)
  {
    hide ResolveEnd, NamedDef;
  }

  lemma OtherEndStays(g: Topology, spawned: Option<(Id, string)>, e: Edge)
    requires WellFormed(g) && spawned.Some? && spawned.value.0 !in Ids(g.blocks) && EdgeInside(g.blocks, e)
    ensures e.src != spawned.value.0 && e.dst != spawned.value.0
  {
    var src, dst := FindBlock(g.blocks, e.src).value, FindBlock(g.blocks, e.dst).value;
    MemberId(g.blocks, src);
    MemberId(g.blocks, dst);
    assert src.id in IdsOf(src) && dst.id in IdsOf(dst);
  }

  lemma UngroupAfterGroupSucceeds(g: Topology, targets: seq<Block>, spawned: Option<(Id, string)>, p: Plan, sub: Block)
    requires Groupable(g, targets, spawned) && spawned.Some? && PlanEdges(targets, g.edges) == Some(p)
    requires sub.SubGraph? && sub.id == spawned.value.0 && sub.blocks == targets
    requires ExportAll(targets, p.exports) == Some(sub.exports)
    ensures var blocks := Ungrouped(targets, g.blocks) + [sub];
            ExportsPresent(sub.blocks, sub.exports)
              && AttachmentError(sub, Untouched(targets, g.edges) + Reconnected(blocks, sub.id, p.crossing)) == Done
  {
    var blocks := Ungrouped(targets, g.blocks) + [sub];
    var untouched, joined := Untouched(targets, g.edges), Reconnected(blocks, sub.id, p.crossing);
    PlanSound(targets, g.edges);
    ExportAllSound(targets, p.exports);
    forall k | 0 <= k < |sub.exports| ensures FindBlock(sub.blocks, sub.exports[k].block).Some? {
      assert p.exports[k] in p.exports && PortExists(targets, p.exports[k]);
    }
    UntouchedSound(targets, g.edges);
    forall e | e in untouched + joined ensures EndError(sub, e) == Done {
      if e in untouched {
        OtherEndStays(g, spawned, e);
      } else {
        var k :| 0 <= k < |joined| && joined[k] == e;
        RejoinedEdge(g, targets, spawned, p, sub, k);
      }
    }
    NoAttachmentError(sub, untouched + joined);
  }

  lemma {:induction false} TallyPointwise<T>(f: Edge -> T, a: seq<Edge>, b: seq<Edge>)
    requires |a| == |b| && forall i :: 0 <= i < |a| ==> f(a[i]) == f(b[i])
    ensures Tally(f, a) == Tally(f, b)
  {
    if a != [] { TallyPointwise(f, a[..|a| - 1], b[..|b| - 1]); }
  }

  lemma {:induction false} TallyAppend<T>(f: Edge -> T, a: seq<Edge>, b: seq<Edge>)
    ensures Tally(f, a + b) == Tally(f, a) + Tally(f, b)
  {
    if b == [] {
      assert a + b == a;
    } else {
      assert a + b == (a + b[..|b| - 1]) + [b[|b| - 1]];
      TallyAppend(f, a, b[..|b| - 1]);
      TallyOneMore(f, a + b[..|b| - 1], b[|b| - 1]);
    }
  }

  /** The edges of a graph with their ports named, as a multiset. */
  function NamedEdges(blocks: seq<Block>, edges: seq<Edge>): multiset<Edge> {
    if edges == [] then multiset{}
    else NamedEdges(blocks, edges[..|edges| - 1]) + multiset{Named(blocks, edges[|edges| - 1])}
  }

  lemma {:induction false} NamedEdgesAreTally(blocks: seq<Block>, edges: seq<Edge>, f: Edge -> Edge)
    requires forall e :: f(e) == Named(blocks, e)
    ensures NamedEdges(blocks, edges) == Tally(f, edges)
  {
    if edges != [] { NamedEdgesAreTally(blocks, edges[..|edges| - 1], f); }
  }

  lemma RewiredUntouched(g: Topology, targets: seq<Block>, spawned: Option<(Id, string)>, sub: Block)
    requires Groupable(g, targets, spawned) && spawned.Some? && sub.SubGraph? && sub.id == spawned.value.0
    ensures Rewired(sub, Untouched(targets, g.edges)) == Untouched(targets, g.edges)
  {
    var untouched := Untouched(targets, g.edges);
    UntouchedSound(targets, g.edges);
    forall i | 0 <= i < |untouched| ensures Rewired(sub, untouched)[i] == untouched[i] {
      assert untouched[i] in untouched;
      OtherEndStays(g, spawned, untouched[i]);
    }
  }

  lemma RewiredCrossing(g: Topology, targets: seq<Block>, spawned: Option<(Id, string)>, p: Plan, sub: Block,
                        f: Edge -> Edge)
    requires Groupable(g, targets, spawned) && spawned.Some? && PlanEdges(targets, g.edges) == Some(p)
    requires sub.SubGraph? && sub.id == spawned.value.0 && sub.blocks == targets
    requires ExportAll(targets, p.exports) == Some(sub.exports)
    requires CrossingBuffersDefined(targets, g.edges)
    requires forall e :: f(e) == Named(g.blocks, e)
    ensures Tally(f, Rewired(sub, Reconnected(Ungrouped(targets, g.blocks) + [sub], sub.id, p.crossing)))
            == Tally(f, CrossingEdges(p.crossing))
  {
    var joined, crossing := Reconnected(Ungrouped(targets, g.blocks) + [sub], sub.id, p.crossing),
                            CrossingEdges(p.crossing);
    PlanListsAll(targets, g.edges);
    forall i | 0 <= i < |joined| ensures f(Rewired(sub, joined)[i]) == f(crossing[i]) {
      assert crossing[i] in crossing;
      RejoinedEdge(g, targets, spawned, p, sub, i);
      CrossingLinks(g, targets, spawned, p, sub, i);
    }
    TallyPointwise(f, Rewired(sub, joined), crossing);
  }

  lemma RegroupedEdges(g: Topology, targets: seq<Block>, spawned: Option<(Id, string)>, p: Plan, sub: Block)
    requires Groupable(g, targets, spawned) && spawned.Some? && PlanEdges(targets, g.edges) == Some(p)
    requires sub.SubGraph? && sub.id == spawned.value.0 && sub.blocks == targets
    requires ExportAll(targets, p.exports) == Some(sub.exports)
    requires CrossingBuffersDefined(targets, g.edges)
    ensures var joined := Reconnected(Ungrouped(targets, g.blocks) + [sub], sub.id, p.crossing);
            NamedEdges(g.blocks, Rewired(sub, Untouched(targets, g.edges) + joined) + p.internal)
              == NamedEdges(g.blocks, g.edges)
  {
    var f := (e: Edge) => Named(g.blocks, e);
    var untouched, joined := Untouched(targets, g.edges),
                             Reconnected(Ungrouped(targets, g.blocks) + [sub], sub.id, p.crossing);
    hide Tally, Untouched, Reconnected, Ungrouped, PlanEdges, ExportAll, Named, NamedEdges, CrossingEdges, RewiredEdge;
    PlanSplits(targets, g.edges, f);
    RewiredUntouched(g, targets, spawned, sub);
    RewiredCrossing(g, targets, spawned, p, sub, f);
    assert Rewired(sub, untouched + joined) == Rewired(sub, untouched) + Rewired(sub, joined);
    TallyThree(f, untouched, Rewired(sub, joined), p.internal);
    NamedEdgesAreTally(g.blocks, untouched + Rewired(sub, joined) + p.internal, f);
    NamedEdgesAreTally(g.blocks, g.edges, f);
  }

  lemma TallyThree<T>(f: Edge -> T, a: seq<Edge>, b: seq<Edge>, c: seq<Edge>)
    ensures Tally(f, a + b + c) == Tally(f, a) + Tally(f, c) + Tally(f, b)
  {
    TallyAppend(f, a + b, c);
    TallyAppend(f, a, b);
  }

  lemma {:induction false} TallySize<T>(f: Edge -> T, edges: seq<Edge>)
    ensures |Tally(f, edges)| == |edges|
    ensures forall t :: t in Tally(f, edges) <==> exists i :: 0 <= i < |edges| && f(edges[i]) == t
  {
    if edges != [] {
      var front := edges[..|edges| - 1];
      TallySize(f, front);
      assert edges[|edges| - 1] == edges[|edges| - 1];
      assert forall i :: 0 <= i < |front| ==> front[i] == edges[i];
    }
  }

  /** Every joined edge has a buffer size, so an edge without one does not come back. */
  lemma RestoredBuffersDefined(g: Topology, targets: seq<Block>, spawned: Option<(Id, string)>, p: Plan, sub: Block,
                               f: Edge -> Edge)
    requires Groupable(g, targets, spawned) && spawned.Some? && PlanEdges(targets, g.edges) == Some(p)
    requires sub.SubGraph? && sub.id == spawned.value.0 && sub.blocks == targets
    requires ExportAll(targets, p.exports) == Some(sub.exports)
    requires forall e :: f(e) == Named(g.blocks, e)
    requires Tally(f, Rewired(sub, Reconnected(Ungrouped(targets, g.blocks) + [sub], sub.id, p.crossing)))
             == Tally(f, CrossingEdges(p.crossing))
    ensures CrossingBuffersDefined(targets, g.edges)
  {
    hide Tally, PlanEdges, ExportAll, Ungrouped, Reconnected, LinkOf, IsCrossing, NamedDef, RewiredEnd, Groupable;
    var joined, crossing := Reconnected(Ungrouped(targets, g.blocks) + [sub], sub.id, p.crossing),
                            CrossingEdges(p.crossing);
    PlanListsAll(targets, g.edges);
    TallySize(f, Rewired(sub, joined));
    TallySize(f, crossing);
    forall e | e in g.edges && IsCrossing(targets, e) ensures e.minBufferSize != UNDEFINED_SIZE {
      var k :| 0 <= k < |crossing| && crossing[k] == e;
      assert f(crossing[k]) in Tally(f, crossing);
      var i :| 0 <= i < |joined| && f(Rewired(sub, joined)[i]) == f(e);
      CrossingLinks(g, targets, spawned, p, sub, i);
    }
  }

  /** If all edges come back, no internal edge was dropped and every crossing edge had a buffer size. */
  lemma RestoredIsExact(g: Topology, targets: seq<Block>, spawned: Option<(Id, string)>, p: Plan, sub: Block,
                        adopted: seq<Edge>)
    requires Groupable(g, targets, spawned) && spawned.Some? && PlanEdges(targets, g.edges) == Some(p)
    requires sub.SubGraph? && sub.id == spawned.value.0 && sub.blocks == targets
    requires ExportAll(targets, p.exports) == Some(sub.exports)
    requires |adopted| <= |p.internal| && (|adopted| == |p.internal| ==> adopted == p.internal)
    requires var joined := Reconnected(Ungrouped(targets, g.blocks) + [sub], sub.id, p.crossing);
             NamedEdges(g.blocks, Rewired(sub, Untouched(targets, g.edges) + joined) + adopted)
               == NamedEdges(g.blocks, g.edges)
    ensures adopted == p.internal && CrossingBuffersDefined(targets, g.edges)
  {
    var f := (e: Edge) => Named(g.blocks, e);
    var untouched, joined := Untouched(targets, g.edges),
                             Reconnected(Ungrouped(targets, g.blocks) + [sub], sub.id, p.crossing);
    hide Tally, Untouched, Reconnected, Ungrouped, PlanEdges, ExportAll, Named, NamedEdges, CrossingEdges, RewiredEdge,
         CrossingBuffersDefined, Groupable;
    PlanSplits(targets, g.edges, f);
    RewiredUntouched(g, targets, spawned, sub);
    assert Rewired(sub, untouched + joined) == Rewired(sub, untouched) + Rewired(sub, joined);
    TallyThree(f, untouched, Rewired(sub, joined), adopted);
    NamedEdgesAreTally(g.blocks, untouched + Rewired(sub, joined) + adopted, f);
    NamedEdgesAreTally(g.blocks, g.edges, f);
    TallySize(f, Rewired(sub, joined));
    TallySize(f, CrossingEdges(p.crossing));
    TallySize(f, adopted);
    TallySize(f, p.internal);
    CancelThree(Tally(f, untouched), Tally(f, adopted), Tally(f, Rewired(sub, joined)), Tally(f, p.internal),
                Tally(f, CrossingEdges(p.crossing)));
    RestoredBuffersDefined(g, targets, spawned, p, sub, f);
  }

  lemma CancelThree<T>(u: multiset<T>, a: multiset<T>, j: multiset<T>, i: multiset<T>, c: multiset<T>)
    requires u + a + j == u + i + c && |j| == |c| && (|a| == |i| ==> a == i)
    ensures |a| == |i| && j == c
  {
    assert |u + a + j| == |u| + |a| + |j| && |u + i + c| == |u| + |i| + |c|;
    assert j == (u + a + j) - (u + a) && c == (u + i + c) - (u + i);
  }

  /** Ungrouping the new sub-graph always succeeds and brings every block back; it brings back every edge,
      up to order and to ports being named, exactly under the conditions that make the grouping exact. */
  lemma UngroupUndoesGroup(g: Topology, targets: seq<Block>, spawned: Option<(Id, string)>)
    requires Groupable(g, targets, spawned) && Group(g, targets, spawned).0 == Done
    ensures var g1 := Group(g, targets, spawned).1;
            && |g1.blocks| > 0
            && var (outcome, g2) := Ungroup(g1, g1.blocks[|g1.blocks| - 1]);
            && outcome == Done && multiset(g2.blocks) == multiset(g.blocks)
            && (NamedEdges(g.blocks, g2.edges) == NamedEdges(g.blocks, g.edges) <==>
                NoRepeatedInternalEdge(targets, g.edges) && CrossingBuffersDefined(targets, g.edges))
  {
    var p, sub := GroupedShape(g, targets, spawned);
    var g1 := Group(g, targets, spawned).1;
    var last := |g1.blocks| - 1;
    UngroupAfterGroupSucceeds(g, targets, spawned, p, sub);
    GroupKeepsWellFormed(g, targets, spawned);
    UngroupedShape(g1, sub, last);
    assert Around(g1.blocks, last) == Ungrouped(targets, g.blocks);
    GroupedBlocksSplit(g, targets, spawned);
    PlanRepeats(targets, g.edges);
    AdoptedIsInternal(g1, sub, last, p.internal);
    if NoRepeatedInternalEdge(targets, g.edges) && CrossingBuffersDefined(targets, g.edges) {
      RegroupedEdges(g, targets, spawned, p, sub);
    }
    if NamedEdges(g.blocks, Ungroup(g1, sub).1.edges) == NamedEdges(g.blocks, g.edges) {
      RestoredIsExact(g, targets, spawned, p, sub, Adopted(g1, sub));
    }
  }

  /** All internal edges are adopted again exactly if none repeats another. */
  lemma AdoptedIsInternal(g: Topology, sub: Block, i: nat, internal: seq<Edge>)
    requires WellFormed(g) && i < |g.blocks| && g.blocks[i] == sub && sub.SubGraph?
    requires sub.edges == AddEdges([], internal)
    ensures |Adopted(g, sub)| <= |internal|
    ensures |Adopted(g, sub)| == |internal| ==> NoRepeats([], internal)
    ensures NoRepeats([], internal) ==> Adopted(g, sub) == internal
  {
    hide WellFormed, NoRepeats;
    AddEdgesExact([], internal);
    assert [] + internal == internal;
    AdoptedLinks(g, sub, i);
    AddEdgesExact(g.edges, sub.edges);
  }

  // --- runs -------------------------------------------------------------------------------------

  datatype Step = GroupStep(targets: seq<Block>, spawned: Option<(Id, string)>) | UngroupStep(sub: Block)

  function Perform(g: Topology, step: Step): (Outcome, Topology) {
    match step
    case GroupStep(targets, spawned) => Group(g, targets, spawned)
    case UngroupStep(sub) => Ungroup(g, sub)
  }

  /** Grouped blocks are distinct members, a spawned name is new, and only a member is ungrouped. */
  ghost predicate Admissible(g: Topology, step: Step) {
    match step
    case GroupStep(targets, spawned) => Groupable(g, targets, spawned)
    case UngroupStep(sub) => sub in g.blocks
  }

  ghost predicate Run(g: Topology, steps: seq<Step>, end: Topology)
    decreases |steps|
  {
    if steps == [] then g == end
    else Admissible(g, steps[0]) && Perform(g, steps[0]).0 == Done && Run(Perform(g, steps[0]).1, steps[1..], end)
  }

  /** No two edges join the same pair of ports, and every edge has a buffer size. */
  ghost predicate Clean(m: multiset<Link>) {
    && (forall l, k :: l in m && k in m && (l == k ==> m[l] >= 2) ==> l.src != k.src || l.dst != k.dst)
    && (forall l :: l in m ==> l.minBufferSize != UNDEFINED_SIZE)
  }

  lemma SameConnectionSameEnds(blocks: seq<Block>, edges: seq<Edge>, i: nat, j: nat, m: multiset<Link>)
    requires i < j < |edges| && Links(blocks, edges) <= m && Clean(m)
    ensures !SameConnection(edges[i], edges[j])
  {
    TwoLinks(blocks, edges, i, j);
    assert multiset{LinkOf(blocks, edges[i]), LinkOf(blocks, edges[j])} <= m;
  }

  lemma CleanGroupIsExact(g: Topology, targets: seq<Block>)
    requires Clean(Meaning(g))
    ensures NoRepeatedInternalEdge(targets, g.edges) && CrossingBuffersDefined(targets, g.edges)
  {
    forall i, j | 0 <= i < j < |g.edges| && IsInternal(targets, g.edges[i]) && IsInternal(targets, g.edges[j])
      ensures !SameConnection(g.edges[i], g.edges[j])
    {
      SameConnectionSameEnds(g.blocks, g.edges, i, j, Meaning(g));
    }
    LinksSize(g.blocks, g.edges);
    forall e | e in g.edges ensures e.minBufferSize != UNDEFINED_SIZE {
      assert LinkOf(g.blocks, e) in Meaning(g);
    }
  }

  lemma CleanUngroupIsExact(g: Topology, sub: Block)
    requires Clean(Meaning(g)) && sub in g.blocks && sub.SubGraph?
    ensures NoRepeats([], sub.edges)
  {
    hide Clean, Ids, Leaves, InnerLinks, Links, Around, SameConnection;
    var i :| 0 <= i < |g.blocks| && g.blocks[i] == sub;
    ContentsSums(g.blocks, sub, i);
    forall j, k | 0 <= j < k < |sub.edges| ensures !SameConnection(sub.edges[j], sub.edges[k]) {
      SameConnectionSameEnds(sub.blocks, sub.edges, j, k, Meaning(g));
    }
    PairwiseNoRepeats(sub.edges);
  }

  lemma PairwiseNoRepeats(edges: seq<Edge>)
    requires forall j, k :: 0 <= j < k < |edges| ==> !SameConnection(edges[j], edges[k])
    ensures NoRepeats([], edges)
  {
    hide SameConnection;
    forall k | 0 <= k < |edges| ensures !ContainsEdge([] + edges[..k], edges[k]) {
      assert [] + edges[..k] == edges[..k];
    }
  }

  lemma StepKeepsMeaning(g: Topology, step: Step)
    requires WellFormed(g) && Clean(Meaning(g)) && Admissible(g, step) && Perform(g, step).0 == Done
    ensures var next := Perform(g, step).1;
            WellFormed(next) && Meaning(next) == Meaning(g) && Leaves(next.blocks) == Leaves(g.blocks)
  {
    match step
    case GroupStep(targets, spawned) =>
      CleanGroupIsExact(g, targets);
      GroupKeepsMeaning(g, targets, spawned);
      GroupKeepsLeaves(g, targets, spawned);
      GroupKeepsWellFormed(g, targets, spawned);
    case UngroupStep(sub) =>
      CleanUngroupIsExact(g, sub);
      UngroupKeepsMeaning(g, sub);
      UngroupKeepsLeaves(g, sub);
      UngroupKeepsWellFormed(g, sub);
  }

  /** Any run of successful groupings and ungroupings keeps the leaf blocks and every connection
      between leaf ports, with its buffer size, weight and name. */
  lemma {:induction false} RunKeepsMeaning(g: Topology, steps: seq<Step>, end: Topology)
    requires WellFormed(g) && Clean(Meaning(g)) && Run(g, steps, end)
    ensures WellFormed(end) && Meaning(end) == Meaning(g) && Leaves(end.blocks) == Leaves(g.blocks)
    decreases |steps|
  {
    if steps != [] {
      StepKeepsMeaning(g, steps[0]);
      RunKeepsMeaning(Perform(g, steps[0]).1, steps[1..], end);
    }
  }
}
