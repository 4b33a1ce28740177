/** Looking an edge's ports up when the edge is applied. `Meaning` follows exported ports through the export
    table, as ungrouping does; applying an edge looks its port up on the block, where a '#' in a name stands
    for an index into a collection of ports, and a sub-graph has no collections. */
module PortLookups {
  import opened Options
  import opened PortNames
  import opened GraphModel
  import opened GraphRegrouping
  import opened GraphMeaning
  import opened GroupingProof
  import opened UngroupingProof
  import opened RegroupingRuns
  import opened ExactRuns

  /** `dynamicOutputPort` and `dynamicInputPort` find the port of this end. */
  predicate EndFound(blocks: seq<Block>, dir: Direction, id: Id, def: PortDef) {
    var b := FindBlock(blocks, id);
    b.Some? && FindPortByDef(Ports(b.value, dir), def).Some?
  }

  /** Applying the edge finds both its ports. */
  predicate Connects(blocks: seq<Block>, e: Edge) {
    EndFound(blocks, Output, e.src, e.srcPort) && EndFound(blocks, Input, e.dst, e.dstPort)
  }

  predicate InnerEndFound(blocks: seq<Block>, targets: seq<Block>, e: Edge) {
    var (id, def, dir) := InsideEnd(targets, e);
    EndFound(blocks, dir, id, def)
  }

  /** Neither the name of the inner block nor that of its port contains a '#'. */
  predicate PlainInside(targets: seq<Block>, e: Edge) {
    var (id, def, dir) := InsideEnd(targets, e);
    match FindBlock(targets, id)
    case None => true
    case Some(b) =>
      '#' !in b.name
      && match DefinedPortName(Ports(b, dir), def)
         case None => true
         case Some(name) => '#' !in name
  }

  // --- exported names and '#' -----------------------------------------------------------------------

  lemma HashInCandidate(base: string, m: nat)
    ensures '#' in Candidate(base, m) <==> '#' in base
  {
    DecimalIsDigits(m);
    assert '#' !in Decimal(m) && '#' !in "_";
  }

  lemma HashInExportedName(name: string, internal: string)
    ensures '#' in name + "." + internal <==> '#' in name || '#' in internal
  {
    assert '#' !in ".";
  }

  /** The exported name has a '#' exactly if the block's name or the port's has one. */
  ghost predicate HashCarried(targets: seq<Block>, x: Planned) {
    && FindBlock(targets, x.block).Some?
    && ('#' in x.exported <==> '#' in FindBlock(targets, x.block).value.name || '#' in x.internal)
  }

  lemma {:induction false} PlannedHashes(targets: seq<Block>, edges: seq<Edge>)
    requires PlanEdges(targets, edges).Some?
    ensures forall x :: x in PlanEdges(targets, edges).value.exports ==> HashCarried(targets, x)
  {
    if edges != [] {
      var front, e := edges[..|edges| - 1], edges[|edges| - 1];
      PlannedHashes(targets, front);
      if IsCrossing(targets, e) {
        var (id, def, dir) := InsideEnd(targets, e);
        var block := FindBlock(targets, id).value;
        hide HashCarried;
        ExportHash(targets, PlanEdges(targets, front).value.exports, block, dir,
                   DefinedPortName(Ports(block, dir), def).value);
      }
    }
  }

  lemma ExportHash(targets: seq<Block>, exports: seq<Planned>, block: Block, dir: Direction, internal: string)
    requires FindBlock(targets, block.id) == Some(block)
    requires forall x :: x in exports ==> HashCarried(targets, x)
    ensures forall x :: x in FindOrCreateExport(exports, block, dir, internal).0 ==> HashCarried(targets, x)
  {
    if PlannedName(exports, block.id, dir, internal).None? {
      var base := block.name + "." + internal;
      var name := FreeCandidate(base, Taken(exports, dir), 0);
      var m: nat :| name == Candidate(base, m);
      HashInCandidate(base, m);
      HashInExportedName(block.name, internal);
    }
  }

  lemma {:induction false} ExportIsSingle(exports: seq<Export>, dir: Direction, name: string)
    ensures FindExport(exports, dir, name).Some? ==> FindSingle(ExportSlots(exports, dir), name).Some?
  {
    if exports != [] {
      var front, last := exports[..|exports| - 1], exports[|exports| - 1];
      ExportIsSingle(front, dir, name);
      assert exports == front + [last];
      FindExportAppend(front, last, dir, name);
      if last.dir == dir { SingleAppended(ExportSlots(front, dir), last.exported, last.arithmetic, name); }
    }
  }

  lemma {:induction false} SingleAppended(slots: seq<Slot>, last: string, arithmetic: bool, name: string)
    ensures FindSingle(slots + [Single(last, arithmetic)], name).Some?
            <==> FindSingle(slots, name).Some? || last == name
  {
    if slots == [] {
      assert slots + [Single(last, arithmetic)] == [Single(last, arithmetic)];
    } else {
      assert (slots + [Single(last, arithmetic)])[1..] == slots[1..] + [Single(last, arithmetic)];
      SingleAppended(slots[1..], last, arithmetic, name);
    }
  }

  /** An exported name is found on the sub-graph exactly if it has no '#'. */
  lemma ExportedPortFound(sub: Block, dir: Direction, name: string)
    requires sub.SubGraph? && FindExport(sub.exports, dir, name).Some?
    ensures FindPort(Ports(sub, dir), name).Some? <==> '#' !in name
  {
    ExportIsSingle(sub.exports, dir, name);
    SingleIsExport(sub.exports, dir, name[..HashPosition(name)]);
  }

  // --- grouping ---------------------------------------------------------------------------------------

  /** A crossing edge's inner end is found again exactly if its names are plain; the other end as before. */
  lemma CrossingEnds(g: Topology, targets: seq<Block>, spawned: Option<(Id, string)>, p: Plan, sub: Block, i: nat)
    requires Groupable(g, targets, spawned) && spawned.Some? && PlanEdges(targets, g.edges) == Some(p)
    requires sub.SubGraph? && sub.id == spawned.value.0 && sub.blocks == targets
    requires ExportAll(targets, p.exports) == Some(sub.exports) && i < |p.crossing|
    ensures var blocks, e := Ungrouped(targets, g.blocks) + [sub], p.crossing[i].edge;
            var f := Reconnected(blocks, sub.id, p.crossing)[i];
            && e in g.edges && IsCrossing(targets, e)
            && if p.crossing[i].sourceInside
               then && InsideEnd(targets, e) == (e.src, e.srcPort, Output)
                    && (EndFound(blocks, Output, f.src, f.srcPort) <==> PlainInside(targets, e))
                    && (EndFound(blocks, Input, f.dst, f.dstPort) <==> EndFound(g.blocks, Input, e.dst, e.dstPort))
               else && InsideEnd(targets, e) == (e.dst, e.dstPort, Input)
                    && (EndFound(blocks, Input, f.dst, f.dstPort) <==> PlainInside(targets, e))
                    && (EndFound(blocks, Output, f.src, f.srcPort) <==> EndFound(g.blocks, Output, e.src, e.srcPort))
  {
    hide PlanEdges, ExportAll, Ids, Once, Leaves, InnerLinks, Ungrouped, PlanIsBijection, FindPort, DefinedPortName;
    var blocks, c := Ungrouped(targets, g.blocks) + [sub], p.crossing[i];
    PlanSound(targets, g.edges);
    assert c in p.crossing && CrossingPlanned(targets, p.exports, c);
    ReconnectedAt(blocks, sub.id, p.crossing);
    GroupedLookups(g, targets, spawned, sub);
    assert EdgeInside(g.blocks, c.edge);
    PlannedEndFound(targets, g.edges, p, sub, c);
    FoundInside(g.blocks, c.edge.src);
    FoundInside(g.blocks, c.edge.dst);
  }

  lemma PlannedEndFound(targets: seq<Block>, edges: seq<Edge>, p: Plan, sub: Block, c: Crossing)
    requires PlanEdges(targets, edges) == Some(p) && CrossingPlanned(targets, p.exports, c)
    requires PlanIsBijection(p.exports)
    requires sub.SubGraph? && sub.blocks == targets && ExportAll(targets, p.exports) == Some(sub.exports)
    ensures var dir := InsideEnd(targets, c.edge).2;
            FindPort(Ports(sub, dir), c.port).Some? <==> PlainInside(targets, c.edge)
  {
    hide PlanEdges, ExportAll, PlanIsBijection, FindPort, Ports, DefinedPortName, FindBlock;
    var (id, def, dir) := InsideEnd(targets, c.edge);
    var x := Planned(id, dir, DefinedPortName(Ports(FindBlock(targets, id).value, dir), def).value, c.port);
    PlannedHashes(targets, edges);
    assert HashCarried(targets, x);
    ExportedNameResolves(targets, p.exports, x);
    ExportedPortFound(sub, dir, c.port);
  }

  /** Each end of the edge that was found before is found after, on the edge it has become. */
  predicate Survives(before: seq<Block>, e: Edge, after: seq<Block>, f: Edge) {
    && (EndFound(before, Output, e.src, e.srcPort) ==> EndFound(after, Output, f.src, f.srcPort))
    && (EndFound(before, Input, e.dst, e.dstPort) ==> EndFound(after, Input, f.dst, f.dstPort))
  }

  /** No edge loses an end: neither one that stays, nor one that moves inside, nor one that is joined to the
      sub-graph. */
  ghost predicate KeepsLookups(g: Topology, targets: seq<Block>, after: Topology)
    requires PlanEdges(targets, g.edges).Some?
  {
    var p, untouched := PlanEdges(targets, g.edges).value, Untouched(targets, g.edges);
    && |after.edges| == |untouched| + |p.crossing|
    && (forall e :: e in untouched ==> Survives(g.blocks, e, after.blocks, e))
    && (forall e :: e in p.internal ==> Survives(g.blocks, e, targets, e))
    && (forall i :: 0 <= i < |p.crossing| ==>
          Survives(g.blocks, p.crossing[i].edge, after.blocks, after.edges[|untouched| + i]))
  }

  /** Of every successful grouping: each end that could be looked up before can be looked up after exactly
      if no crossing edge whose inner end could be looked up has a '#' in the name of the inner block or
      port. */
  lemma GroupKeepsLookups(g: Topology, targets: seq<Block>, spawned: Option<(Id, string)>)
    requires Groupable(g, targets, spawned) && Group(g, targets, spawned).0 == Done
    ensures KeepsLookups(g, targets, Group(g, targets, spawned).1) <==>
            forall e :: e in g.edges && IsCrossing(targets, e) && InnerEndFound(g.blocks, targets, e)
              ==> PlainInside(targets, e)
  {
    hide PlanEdges, ExportAll, Ungrouped, Untouched, Reconnected, EndFound, PlainInside, IsCrossing, IsGrouped;
    var p, sub := GroupedShape(g, targets, spawned);
    var after, n := Group(g, targets, spawned).1, |Untouched(targets, g.edges)|;
    StayingFound(g, targets, spawned, p, sub);
    PlanListsAll(targets, g.edges);
    forall i | 0 <= i < |p.crossing|
      ensures var e := p.crossing[i].edge;
              && e in g.edges && IsCrossing(targets, e)
              && (Survives(g.blocks, e, after.blocks, after.edges[n + i])
                  <==> (InnerEndFound(g.blocks, targets, e) ==> PlainInside(targets, e)))
    {
      CrossingEnds(g, targets, spawned, p, sub, i);
    }
    forall e | e in g.edges && IsCrossing(targets, e)
      ensures exists i :: 0 <= i < |p.crossing| && p.crossing[i].edge == e
    {
      var i :| 0 <= i < |p.crossing| && CrossingEdges(p.crossing)[i] == e;
    }
  }

  lemma StayingFound(g: Topology, targets: seq<Block>, spawned: Option<(Id, string)>, p: Plan, sub: Block)
    requires Groupable(g, targets, spawned) && spawned.Some? && PlanEdges(targets, g.edges) == Some(p)
    requires sub.SubGraph? && sub.id == spawned.value.0 && sub.blocks == targets
    ensures var blocks := Ungrouped(targets, g.blocks) + [sub];
            && (forall e :: e in Untouched(targets, g.edges) ==> e in g.edges && SameEnds(g.blocks, blocks, e))
            && (forall e :: e in p.internal ==> e in g.edges && SameEnds(g.blocks, targets, e))
  {
    hide Ids, Once, Links, Leaves, FindBlock, PlanEdges, Ungrouped, Untouched, IsGrouped;
    UntouchedSound(targets, g.edges);
    PlanListsAll(targets, g.edges);
    forall e | e in Untouched(targets, g.edges) || e in p.internal
      ensures SameEnds(g.blocks, if IsGrouped(targets, e.src) then targets else Ungrouped(targets, g.blocks) + [sub], e)
    {
      EdgeFoundAgain(g, targets, spawned, sub, e);
    }
  }

  predicate SameEnds(a: seq<Block>, b: seq<Block>, e: Edge) {
    && (EndFound(a, Output, e.src, e.srcPort) <==> EndFound(b, Output, e.src, e.srcPort))
    && (EndFound(a, Input, e.dst, e.dstPort) <==> EndFound(b, Input, e.dst, e.dstPort))
  }

  // --- graphs whose every edge can be applied ---------------------------------------------------------

  /** Inside, every edge connects and every export stands for a port that is there, at every level. */
  ghost predicate ConnectableBlock(b: Block) {
    b.SubGraph? ==>
      && AllConnect(b.blocks, b.edges)
      && (forall x :: x in b.exports ==> EndFound(b.blocks, x.dir, x.block, ByName(x.internal)))
      && (forall c :: c in b.blocks ==> ConnectableBlock(c))
  }

  /** Every edge of the hierarchy can be applied, but perhaps for ends at one block of the top level. */
  ghost predicate ConnectableBut(g: Topology, id: Id) {
    && (forall b :: b in g.blocks ==> ConnectableBlock(b))
    && (forall e :: e in g.edges ==>
          && (e.src != id ==> EndFound(g.blocks, Output, e.src, e.srcPort))
          && (e.dst != id ==> EndFound(g.blocks, Input, e.dst, e.dstPort)))
  }

  ghost predicate Connectable(g: Topology) {
    (forall b :: b in g.blocks ==> ConnectableBlock(b)) && AllConnect(g.blocks, g.edges)
  }

  ghost predicate AllConnect(blocks: seq<Block>, edges: seq<Edge>) {
    forall e :: e in edges ==> Connects(blocks, e)
  }

  ghost predicate PlainCrossings(targets: seq<Block>, edges: seq<Edge>) {
    forall e :: e in edges && IsCrossing(targets, e) ==> PlainInside(targets, e)
  }

  /** Grouping keeps every edge applicable exactly if no name at the border has a '#'; otherwise only ends at
      the new sub-graph are lost. */
  lemma GroupKeepsConnectable(g: Topology, targets: seq<Block>, spawned: Option<(Id, string)>)
    requires Groupable(g, targets, spawned) && Group(g, targets, spawned).0 == Done && Connectable(g)
    ensures Connectable(Group(g, targets, spawned).1) <==> PlainCrossings(targets, g.edges)
    ensures ConnectableBut(Group(g, targets, spawned).1, spawned.value.0)
  {
    hide PlanEdges, ExportAll, Ungrouped, Untouched, EndFound, PlainInside, IsCrossing, IsGrouped, FindBlock, Ids, Once,
         WellFormed;
    var p, sub := GroupedShape(g, targets, spawned);
    hide Group;
    var blocks := Ungrouped(targets, g.blocks) + [sub];
    var untouched, joined := Untouched(targets, g.edges), Reconnected(blocks, sub.id, p.crossing);
    StayingFound(g, targets, spawned, p, sub);
    SubGraphConnectable(g, targets, spawned, p, sub);
    JoinedConnect(g, targets, spawned, p, sub);
    assert forall e :: e in untouched ==> Connects(g.blocks, e);
    assert forall e :: e in untouched ==> Connects(blocks, e);
    assert Group(g, targets, spawned).1.edges == untouched + joined;
  }

  /** A joined edge connects exactly if the names inside are plain, and can only miss its end at the
      sub-graph. */
  predicate JoinsIfPlain(targets: seq<Block>, e: Edge, blocks: seq<Block>, sub: Id, f: Edge) {
    && (Connects(blocks, f) <==> PlainInside(targets, e))
    && (f.src != sub ==> EndFound(blocks, Output, f.src, f.srcPort))
    && (f.dst != sub ==> EndFound(blocks, Input, f.dst, f.dstPort))
  }

  lemma CrossingJoins(g: Topology, targets: seq<Block>, spawned: Option<(Id, string)>, p: Plan, sub: Block, i: nat)
    requires Groupable(g, targets, spawned) && spawned.Some? && PlanEdges(targets, g.edges) == Some(p)
    requires sub.SubGraph? && sub.id == spawned.value.0 && sub.blocks == targets
    requires ExportAll(targets, p.exports) == Some(sub.exports) && Connectable(g) && i < |p.crossing|
    ensures var blocks, e := Ungrouped(targets, g.blocks) + [sub], p.crossing[i].edge;
            && e in g.edges && IsCrossing(targets, e)
            && JoinsIfPlain(targets, e, blocks, sub.id, Reconnected(blocks, sub.id, p.crossing)[i])
  {
    hide PlanEdges, ExportAll, Ungrouped, Reconnected, EndFound, PlainInside, IsCrossing, IsGrouped, FindBlock, Ids,
         Once, WellFormed;
    CrossingEnds(g, targets, spawned, p, sub, i);
    assert Connects(g.blocks, p.crossing[i].edge);
    ReconnectedAt(Ungrouped(targets, g.blocks) + [sub], sub.id, p.crossing);
  }

  lemma JoinedConnect(g: Topology, targets: seq<Block>, spawned: Option<(Id, string)>, p: Plan, sub: Block)
    requires Groupable(g, targets, spawned) && spawned.Some? && PlanEdges(targets, g.edges) == Some(p)
    requires sub.SubGraph? && sub.id == spawned.value.0 && sub.blocks == targets
    requires ExportAll(targets, p.exports) == Some(sub.exports) && Connectable(g)
    ensures var blocks := Ungrouped(targets, g.blocks) + [sub];
            var joined := Reconnected(blocks, sub.id, p.crossing);
            && (AllConnect(blocks, joined) <==> PlainCrossings(targets, g.edges))
            && (forall f :: f in joined ==>
                  && (f.src != sub.id ==> EndFound(blocks, Output, f.src, f.srcPort))
                  && (f.dst != sub.id ==> EndFound(blocks, Input, f.dst, f.dstPort)))
  {
    hide PlanEdges, ExportAll, Ungrouped, Reconnected, EndFound, PlainInside, IsCrossing, Connectable, Connects,
         Groupable;
    var blocks := Ungrouped(targets, g.blocks) + [sub];
    var joined := Reconnected(blocks, sub.id, p.crossing);
    PlanListsAll(targets, g.edges);
    forall f | f in joined
      ensures f.src != sub.id ==> EndFound(blocks, Output, f.src, f.srcPort)
      ensures f.dst != sub.id ==> EndFound(blocks, Input, f.dst, f.dstPort)
    {
      var i :| 0 <= i < |joined| && joined[i] == f;
      CrossingJoins(g, targets, spawned, p, sub, i);
    }
    if PlainCrossings(targets, g.edges) {
      forall f | f in joined ensures Connects(blocks, f) {
        var i :| 0 <= i < |joined| && joined[i] == f;
        CrossingJoins(g, targets, spawned, p, sub, i);
      }
    }
    if AllConnect(blocks, joined) {
      forall e | e in g.edges && IsCrossing(targets, e) ensures PlainInside(targets, e) {
        var i :| 0 <= i < |p.crossing| && CrossingEdges(p.crossing)[i] == e;
        CrossingJoins(g, targets, spawned, p, sub, i);
        assert joined[i] in joined;
      }
    }
  }

  lemma SubGraphConnectable(g: Topology, targets: seq<Block>, spawned: Option<(Id, string)>, p: Plan, sub: Block)
    requires Groupable(g, targets, spawned) && spawned.Some? && PlanEdges(targets, g.edges) == Some(p)
    requires sub.SubGraph? && sub.id == spawned.value.0 && sub.blocks == targets
    requires sub.edges == AddEdges([], p.internal)
    requires ExportAll(targets, p.exports) == Some(sub.exports) && Connectable(g)
    ensures forall b :: b in Ungrouped(targets, g.blocks) + [sub] ==> ConnectableBlock(b)
  {
    hide PlanEdges, ExportAll, Ungrouped, IsGrouped, Ids, Once, PlanIsBijection, FindPort, FindBlock, NoRepeats,
         AddEdges;
    StayingFound(g, targets, spawned, p, sub);
    AddEdgesExact([], p.internal);
    assert sub.edges[0..] == sub.edges;
    forall e | e in sub.edges ensures Connects(targets, e) { assert e in p.internal && Connects(g.blocks, e); }
    PlanSound(targets, g.edges);
    ExportAllSound(targets, p.exports);
    forall i | 0 <= i < |sub.exports|
      ensures EndFound(targets, sub.exports[i].dir, sub.exports[i].block, ByName(sub.exports[i].internal))
    {
      assert p.exports[i] in p.exports && PortExists(targets, p.exports[i]);
    }
    UngroupedBlocks(targets, g.blocks);
    assert forall b :: b in targets ==> b in g.blocks;
  }

  /** A crossing edge at a port of a collection is lost by every grouping that succeeds. */
  lemma CollectionPortIsLost(g: Topology, targets: seq<Block>, spawned: Option<(Id, string)>, e: Edge)
    requires Groupable(g, targets, spawned) && Group(g, targets, spawned).0 == Done && Connectable(g)
    requires e in g.edges && IsCrossing(targets, e)
    requires var def := InsideEnd(targets, e).1; def.ByIndex? && def.sub.Some?
    ensures !Connectable(Group(g, targets, spawned).1)
  {
    hide Group, Connectable, Groupable, PlanEdges, IsCrossing, IsGrouped, ExportAll, PlanIsBijection;
    GroupKeepsConnectable(g, targets, spawned);
    var p, sub := GroupedShape(g, targets, spawned);
    PlanSound(targets, g.edges);
    PlanListsAll(targets, g.edges);
    var i :| 0 <= i < |p.crossing| && CrossingEdges(p.crossing)[i] == e;
    assert CrossingPlanned(targets, p.exports, p.crossing[i]);
    PlannedHashes(targets, g.edges);
    var (id, def, dir) := InsideEnd(targets, e);
    var b := FindBlock(targets, id);
    assert b.Some?;
    IndexedNameHash(Ports(b.value, dir), def);
    assert !PlainInside(targets, e);
  }

  lemma IndexedNameHash(slots: seq<Slot>, def: PortDef)
    requires def.ByIndex? && def.sub.Some? && DefinedPortName(slots, def).Some?
    ensures '#' in DefinedPortName(slots, def).value
  {
    assert "#"[0] == '#';
  }

  /** What a leaf's port list shows as the k-th port of a collection is found by its name. */
  lemma IndexedPortFound(name: string, size: nat, k: nat, arithmetic: bool)
    requires '#' !in name && k < size && k < SIZE_LIMIT
    ensures FindPort([Collection(name, size, arithmetic)], name + "#" + Decimal(k)).Some?
  {
    var full := name + "#" + Decimal(k);
    assert full[|name|] == '#' && forall i :: 0 <= i < |name| ==> full[i] == name[i];
    assert HashPosition(full) == |name|;
    assert full[|name| + 1..] == Decimal(k) && full[..|name|] == name;
    ParseDecimal(k);
  }

  /** A source feeds a sink from the first port of a collection. Grouping the source succeeds and keeps the
      meaning, and yet the joined edge finds no port. */
  lemma GroupLosesCollectionPort()
    ensures var source := Leaf("a", "a", [], [Collection("out", 2, true)]);
            var sink := Leaf("b", "b", [Single("in", true)], []);
            var e := Edge("a", ByIndex(0, Some(0)), "b", ByName("in"), 4096, 0, "e");
            var g := Topology([source, sink], [e]);
            var (outcome, after) := Group(g, [source], Some(("g", "g")));
            && WellFormed(g) && Connectable(g)
            && outcome == Done && Meaning(after) == Meaning(g) && !Connectable(after)
  {
    hide Group, Meaning, WellFormed, Connectable, Groupable, IsCrossing, NoRepeatedInternalEdge, CrossingBuffersDefined;
    var source := Leaf("a", "a", [], [Collection("out", 2, true)]);
    var sink := Leaf("b", "b", [Single("in", true)], []);
    var e := Edge("a", ByIndex(0, Some(0)), "b", ByName("in"), 4096, 0, "e");
    var targets, g, spawned := [source], Topology([source, sink], [e]), Some(("g", "g"));
    CollectionFeeds(g, source, sink, e);
    CollectionGrouped(g, source, sink, e);
    GroupKeepsMeaning(g, targets, spawned);
    CollectionPortIsLost(g, targets, spawned, e);
  }

  lemma CollectionFeeds(g: Topology, source: Block, sink: Block, e: Edge)
    requires source == Leaf("a", "a", [], [Collection("out", 2, true)])
    requires sink == Leaf("b", "b", [Single("in", true)], [])
    requires e == Edge("a", ByIndex(0, Some(0)), "b", ByName("in"), 4096, 0, "e") && g == Topology([source, sink], [e])
    ensures WellFormed(g) && Connectable(g) && Groupable(g, [source], Some(("g", "g")))
    ensures e in g.edges && IsCrossing([source], e) && InsideEnd([source], e) == (e.src, e.srcPort, Output)
    ensures NoRepeatedInternalEdge([source], g.edges) && CrossingBuffersDefined([source], g.edges)
  {
    hide PlanEdges, PlanEdge, Ids, Once, Untouched, Ungrouped, FindBlock, EndFound;
    TwoLeaves(source, sink);
    assert "a" != "b" by { assert "a"[0] != "b"[0]; }
    FirstOfTwo(source, sink, e);
    CollectionFeedsPort(source, sink, e);
    NewName(g);
  }

  lemma CollectionGrouped(g: Topology, source: Block, sink: Block, e: Edge)
    requires source == Leaf("a", "a", [], [Collection("out", 2, true)])
    requires sink == Leaf("b", "b", [Single("in", true)], [])
    requires e == Edge("a", ByIndex(0, Some(0)), "b", ByName("in"), 4096, 0, "e") && g == Topology([source, sink], [e])
    requires IsCrossing([source], e)
    ensures Group(g, [source], Some(("g", "g"))).0 == Done
  {
    hide Group, PlanEdges, Ids, Once, Untouched, Ungrouped, FindBlock, EndFound, IsCrossing, InsidePortExists;
    TwoLeaves(source, sink);
    assert "a" != "b" by { assert "a"[0] != "b"[0]; }
    FirstOfTwo(source, sink, e);
    CollectionFeedsPort(source, sink, e);
    GroupRefusedTooLate(g, [source], Some(("g", "g")));
    GroupDone(g, [source], Some(("g", "g")));
  }

  lemma NewName(g: Topology)
    requires Ids(g.blocks) == multiset{"a", "b"}
    ensures "g" !in Ids(g.blocks)
  {
    assert "g"[0] != "a"[0] && "g"[0] != "b"[0];
  }

  lemma CollectionFeedsPort(source: Block, sink: Block, e: Edge)
    requires source == Leaf("a", "a", [], [Collection("out", 2, true)])
    requires sink == Leaf("b", "b", [Single("in", true)], [])
    requires e == Edge("a", ByIndex(0, Some(0)), "b", ByName("in"), 4096, 0, "e")
    requires FindBlock([source, sink], "a") == Some(source) && FindBlock([source, sink], "b") == Some(sink)
    requires FindBlock([source], "a") == Some(source) && IsCrossing([source], e) && IsGrouped([source], "a")
    ensures Connects([source, sink], e)
    ensures InsidePortExists([source], e) && PlanEdge([source], Plan([], [], []), e).Some?
  {
    hide FindBlock, IsGrouped, FindOrCreateExport;
    assert HashPosition("in") == 2 by { assert "in"[1..] == "n" && "n"[1..] == ""; }
    assert '#' !in "out";
    IndexedPortFound("out", 2, 0, true);
  }

  // --- ungrouping -------------------------------------------------------------------------------------

  /** Ungrouping a sub-graph makes every edge applicable if at most ends at that sub-graph were lost. */
  lemma UngroupMakesConnectable(g: Topology, sub: Block)
    requires WellFormed(g) && sub in g.blocks && Ungroup(g, sub).0 == Done && ConnectableBut(g, sub.id)
    ensures Connectable(Ungroup(g, sub).1)
  {
    hide Ungroup, EndFound, Ids, Once, Leaves, InnerLinks, Rewired;
    UngroupDone(g, sub);
    var i :| 0 <= i < |g.blocks| && g.blocks[i] == sub;
    var blocks := Around(g.blocks, i) + sub.blocks;
    UngroupedShape(g, sub, i);
    AdoptedLinks(g, sub, i);
    NoAttachmentError(sub, g.edges);
    assert ConnectableBlock(sub);
    forall e | e in Adopted(g, sub) ensures Connects(blocks, e) { AdoptedConnects(g, sub, i, e); }
    forall k | 0 <= k < |g.edges| ensures Connects(blocks, RewiredEdge(sub, g.edges[k])) {
      assert g.edges[k] in g.edges;
      RewiredConnects(g, sub, i, g.edges[k]);
    }
    forall e | e in Rewired(sub, g.edges) ensures Connects(blocks, e) {
      var k :| 0 <= k < |g.edges| && Rewired(sub, g.edges)[k] == e;
    }
    assert forall b :: b in blocks ==> b in g.blocks || b in sub.blocks;
  }

  lemma UngroupDone(g: Topology, sub: Block)
    requires Ungroup(g, sub).0 == Done
    ensures sub.SubGraph? && ExportsPresent(sub.blocks, sub.exports) && AttachmentError(sub, g.edges) == Done
  {
  }

  lemma AdoptedConnects(g: Topology, sub: Block, i: nat, e: Edge)
    requires WellFormed(g) && i < |g.blocks| && g.blocks[i] == sub && sub.SubGraph?
    requires e in sub.edges && Connects(sub.blocks, e)
    ensures Connects(Around(g.blocks, i) + sub.blocks, e)
  {
    UngroupedLookups(g, sub, i);
    hide WellFormed, Ids, Once, Around, FindPortByDef, Ports;
    assert FindBlock(sub.blocks, e.src).value in sub.blocks && FindBlock(sub.blocks, e.dst).value in sub.blocks;
  }

  lemma RewiredConnects(g: Topology, sub: Block, i: nat, e: Edge)
    requires WellFormed(g) && i < |g.blocks| && g.blocks[i] == sub && ConnectableBlock(sub) && sub.SubGraph?
    requires e in g.edges && EndError(sub, e) == Done && ConnectableBut(g, sub.id)
    ensures Connects(Around(g.blocks, i) + sub.blocks, RewiredEdge(sub, e))
  {
    EndsResolve(sub, e);
    RewiredEndFound(g, sub, i, Output, e.src, e.srcPort);
    RewiredEndFound(g, sub, i, Input, e.dst, e.dstPort);
  }

  lemma RewiredEndFound(g: Topology, sub: Block, i: nat, dir: Direction, id: Id, def: PortDef)
    requires WellFormed(g) && i < |g.blocks| && g.blocks[i] == sub && ConnectableBlock(sub) && sub.SubGraph?
    requires if id == sub.id then ResolveEnd(sub, dir, def).Inner? else EndFound(g.blocks, dir, id, def)
    ensures var (id', def') := RewiredEnd(sub, dir, id, def);
            EndFound(Around(g.blocks, i) + sub.blocks, dir, id', def')
  {
    UngroupedLookups(g, sub, i);
    hide WellFormed, Ids, Once, Around, FindPort, Ports;
    if id == sub.id {
      var x := FindExport(sub.exports, dir, DefinedPortName(Ports(sub, dir), def).value).value;
      assert x in sub.exports && EndFound(sub.blocks, x.dir, x.block, ByName(x.internal));
      assert FindBlock(sub.blocks, x.block).value in sub.blocks;
    } else {
      assert FindBlock(g.blocks, id).value in g.blocks;
    }
  }

  /** What a grouping made inapplicable, ungrouping the new sub-graph makes applicable again. */
  lemma UngroupHealsGroup(g: Topology, targets: seq<Block>, spawned: Option<(Id, string)>)
    requires Groupable(g, targets, spawned) && Group(g, targets, spawned).0 == Done && Connectable(g)
    ensures var g1 := Group(g, targets, spawned).1;
            && |g1.blocks| > 0
            && var (outcome, g2) := Ungroup(g1, g1.blocks[|g1.blocks| - 1]); outcome == Done && Connectable(g2)
  {
    hide Ungroup, Connectable, ConnectableBut;
    var p, sub := GroupedShape(g, targets, spawned);
    var g1 := Group(g, targets, spawned).1;
    hide Group;
    assert g1.blocks[|g1.blocks| - 1] == sub;
    UngroupUndoesGroup(g, targets, spawned);
    GroupKeepsConnectable(g, targets, spawned);
    GroupKeepsWellFormed(g, targets, spawned);
    UngroupMakesConnectable(g1, sub);
  }

  // --- the connections that are made ------------------------------------------------------------------

  /** The connections of those edges whose ports are found when they are applied. */
  function AppliedLinks(blocks: seq<Block>, edges: seq<Edge>): multiset<Link> {
    if edges == [] then multiset{}
    else
      var e := edges[|edges| - 1];
      AppliedLinks(blocks, edges[..|edges| - 1])
      + if Connects(blocks, e) then multiset{LinkOf(blocks, e)} else multiset{}
  }

  function AppliedInside(b: Block): multiset<Link> {
    if b.Leaf? then multiset{} else AppliedLinks(b.blocks, b.edges) + AppliedWithin(b.blocks)
  }

  function AppliedWithin(blocks: seq<Block>): multiset<Link> {
    if blocks == [] then multiset{} else AppliedInside(blocks[0]) + AppliedWithin(blocks[1..])
  }

  /** Every connection that applying the edges of the whole hierarchy makes. */
  function Connections(g: Topology): multiset<Link> {
    AppliedLinks(g.blocks, g.edges) + AppliedWithin(g.blocks)
  }

  lemma {:induction false} AppliedAtMost(blocks: seq<Block>, edges: seq<Edge>)
    ensures AppliedLinks(blocks, edges) <= Links(blocks, edges)
    ensures AllConnect(blocks, edges) ==> AppliedLinks(blocks, edges) == Links(blocks, edges)
    ensures |AppliedLinks(blocks, edges)| == |Links(blocks, edges)| ==> AllConnect(blocks, edges)
  {
    hide LinkOf, Connects;
    if edges != [] {
      var front, e := edges[..|edges| - 1], edges[|edges| - 1];
      assert edges == front + [e];
      AppliedAtMost(blocks, front);
      SizeOfPart(Links(blocks, front), AppliedLinks(blocks, front));
    }
  }

  lemma {:induction false} AppliedInsideIsInner(b: Block)
    requires ConnectableBlock(b)
    ensures AppliedInside(b) == InnerLinksOf(b)
    decreases b, 1
  {
    if b.SubGraph? {
      AppliedAtMost(b.blocks, b.edges);
      AppliedWithinIsInner(b.blocks);
    }
  }

  lemma {:induction false} AppliedWithinIsInner(blocks: seq<Block>)
    requires forall b :: b in blocks ==> ConnectableBlock(b)
    ensures AppliedWithin(blocks) == InnerLinks(blocks)
    decreases blocks, 0
  {
    hide ConnectableBlock, AppliedInside, InnerLinksOf;
    if blocks != [] {
      AppliedInsideIsInner(blocks[0]);
      AppliedWithinIsInner(blocks[1..]);
    }
  }

  /** With all in order inside, the connections made are among those meant, and are as many exactly if every
      edge of the top level connects. */
  lemma ConnectionsAtMost(g: Topology)
    requires forall b :: b in g.blocks ==> ConnectableBlock(b)
    ensures |Connections(g)| <= |Meaning(g)|
    ensures |Connections(g)| == |Meaning(g)| <==> Connectable(g)
    ensures Connectable(g) ==> Connections(g) == Meaning(g)
  {
    hide ConnectableBlock, AllConnect;
    AppliedAtMost(g.blocks, g.edges);
    AppliedWithinIsInner(g.blocks);
    SizeOfPart(Links(g.blocks, g.edges), AppliedLinks(g.blocks, g.edges));
    SizeOfSum(AppliedLinks(g.blocks, g.edges), AppliedWithin(g.blocks));
    SizeOfSum(Links(g.blocks, g.edges), InnerLinks(g.blocks));
  }

  lemma SizeOfSum<T>(a: multiset<T>, b: multiset<T>)
    ensures |a + b| == |a| + |b|
  {
  }

  /** The condition under which a step keeps every connection that is made. */
  ghost predicate PlainStep(g: Topology, step: Step) {
    step.GroupStep? ==> PlainCrossings(step.targets, g.edges)
  }

  lemma StepKeepsConnectable(g: Topology, step: Step)
    requires WellFormed(g) && Connectable(g) && Admissible(g, step) && Perform(g, step).0 == Done
    ensures Connectable(Perform(g, step).1) <==> PlainStep(g, step)
    ensures forall b :: b in Perform(g, step).1.blocks ==> ConnectableBlock(b)
  {
    hide Group, Ungroup, PlainCrossings, ConnectableBlock;
    match step
    case GroupStep(targets, spawned) => GroupKeepsConnectable(g, targets, spawned);
    case UngroupStep(sub) => UngroupMakesConnectable(g, sub);
  }

  /** A successful step makes the very same connections exactly if it keeps their meaning and, for a grouping,
      no name at the border has a '#'. */
  lemma StepKeepsConnections(g: Topology, step: Step)
    requires WellFormed(g) && Connectable(g) && Admissible(g, step) && Perform(g, step).0 == Done
    ensures Connections(Perform(g, step).1) == Connections(g) <==> PlainStep(g, step) && ExactStep(g, step)
  {
    hide Perform, Connectable, PlainStep, Meaning, WellFormed, Connections, ExactStep;
    var next := Perform(g, step).1;
    StepShrinks(g, step);
    StepKeepsConnectable(g, step);
    EveryBlockConnectable(g);
    ConnectionsAtMost(g);
    ConnectionsAtMost(next);
  }

  lemma EveryBlockConnectable(g: Topology)
    requires Connectable(g)
    ensures forall b :: b in g.blocks ==> ConnectableBlock(b)
  {
  }

  // --- runs -------------------------------------------------------------------------------------------

  /** No step of the run has a '#' at its border. */
  ghost predicate EveryStepPlain(g: Topology, steps: seq<Step>)
    decreases |steps|
  {
    steps == [] || (PlainStep(g, steps[0]) && EveryStepPlain(Perform(g, steps[0]).1, steps[1..]))
  }

  /** At the start and after each step of the run the graph makes these connections. */
  ghost predicate AlwaysConnects(g: Topology, steps: seq<Step>, m: multiset<Link>)
    decreases |steps|
  {
    Connections(g) == m && (steps == [] || AlwaysConnects(Perform(g, steps[0]).1, steps[1..], m))
  }

  /** A graph makes the same connections all through a run exactly if every step is exact and none has a '#' at
      its border. */
  lemma {:induction false} RunKeepsConnections(g: Topology, steps: seq<Step>, end: Topology)
    requires WellFormed(g) && Connectable(g) && Run(g, steps, end)
    ensures AlwaysConnects(g, steps, Connections(g)) <==> EveryStepPlain(g, steps) && EveryStepExact(g, steps)
    ensures EveryStepPlain(g, steps) ==> Connectable(end)
    decreases |steps|
  {
    hide Perform, Connectable, PlainStep, ExactStep, Meaning, WellFormed, Connections;
    if steps != [] {
      var next := Perform(g, steps[0]).1;
      StepShrinks(g, steps[0]);
      StepKeepsConnectable(g, steps[0]);
      StepKeepsConnections(g, steps[0]);
      if Connectable(next) {
        RunKeepsConnections(next, steps[1..], end);
      }
    }
  }
}
