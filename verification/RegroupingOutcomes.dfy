/** When a grouping and an ungrouping succeed, and with which error they fail otherwise; and how ports that
    are given by index, by name and by exported name belong together. */
module RegroupingOutcomes {
  import opened Options
  import opened PortNames
  import opened GraphModel
  import opened GraphRegrouping
  import opened GroupingProof
  import opened UngroupingProof

  // --- when an ungrouping succeeds --------------------------------------------------------------------

  /** The index is past the end of the port list. */
  predicate NoSuchIndex(slots: seq<Slot>, def: PortDef) {
    def.ByIndex? && def.top >= |slots|
  }

  /** Some entry of the export table carries this name, which is not empty. */
  ghost predicate Exported(exports: seq<Export>, dir: Direction, name: string) {
    name != "" && exists x :: x in exports && x.dir == dir && x.exported == name
  }

  /** The end at the sub-graph, by index or by name, is that of an exported port. */
  ghost predicate LeadsInside(sub: Block, dir: Direction, def: PortDef)
    requires sub.SubGraph?
  {
    !NoSuchIndex(Ports(sub, dir), def)
    && Exported(sub.exports, dir, DefinedPortName(Ports(sub, dir), def).value)
  }

  /** Each answer of the lookup, and when it is given. */
  lemma EndAnswers(sub: Block, dir: Direction, def: PortDef)
    requires sub.SubGraph?
    ensures var r := ResolveEnd(sub, dir, def);
            && (r == Missing(NoSuchPort) <==> NoSuchIndex(Ports(sub, dir), def))
            && (r.Inner? <==> LeadsInside(sub, dir, def))
            && (r.Missing? ==> r.why == NoSuchPort || r.why == NotExported)
            && (r.Inner? ==> exists x ::
                  && x in sub.exports && x.dir == dir && r == Inner(x.block, x.internal)
                  && Some(x.exported) == DefinedPortName(Ports(sub, dir), def))
  {
  }

  ghost predicate EndsLeadInside(sub: Block, e: Edge)
    requires sub.SubGraph?
  {
    && (e.src == sub.id ==> LeadsInside(sub, Output, e.srcPort))
    && (e.dst == sub.id ==> LeadsInside(sub, Input, e.dstPort))
  }

  ghost predicate ExportedBlocksInside(sub: Block)
    requires sub.SubGraph?
  {
    forall x :: x in sub.exports ==> exists b :: b in sub.blocks && b.id == x.block
  }

  lemma FoundIfInside(blocks: seq<Block>, id: Id)
    ensures FindBlock(blocks, id).Some? <==> exists b :: b in blocks && b.id == id
  {
  }

  lemma PresentIfInside(sub: Block)
    requires sub.SubGraph?
    ensures ExportsPresent(sub.blocks, sub.exports) <==> ExportedBlocksInside(sub)
  {
    if ExportsPresent(sub.blocks, sub.exports) {
      forall x | x in sub.exports ensures exists b :: b in sub.blocks && b.id == x.block {
        var i :| 0 <= i < |sub.exports| && sub.exports[i] == x;
        FoundIfInside(sub.blocks, sub.exports[i].block);
      }
    }
    if ExportedBlocksInside(sub) {
      forall i | 0 <= i < |sub.exports| ensures FindBlock(sub.blocks, sub.exports[i].block).Some? {
        assert sub.exports[i] in sub.exports;
        FoundIfInside(sub.blocks, sub.exports[i].block);
      }
    }
  }

  lemma EdgeAnswers(sub: Block, e: Edge)
    requires sub.SubGraph?
    ensures EndError(sub, e) == Done <==> EndsLeadInside(sub, e)
  {
    hide ResolveEnd, LeadsInside;
    EndAnswers(sub, Output, e.srcPort);
    EndAnswers(sub, Input, e.dstPort);
  }

  /** Ungrouping a sub-graph succeeds exactly if every exported block is inside and every edge end at the
      sub-graph, by index or by name, is that of an exported port. */
  lemma UngroupSucceeds(g: Topology, sub: Block)
    requires sub.SubGraph?
    ensures Ungroup(g, sub).0 == Done <==>
            ExportedBlocksInside(sub) && forall e :: e in g.edges ==> EndsLeadInside(sub, e)
  {
    hide ExportsPresent, ExportedBlocksInside, EndsLeadInside, EndError;
    PresentIfInside(sub);
    NoAttachmentError(sub, g.edges);
    forall e | e in g.edges ensures EndError(sub, e) == Done <==> EndsLeadInside(sub, e) { EdgeAnswers(sub, e); }
  }

  /** The error a bad end of an edge leads to. */
  function EndFault(sub: Block, dir: Direction, def: PortDef): Outcome
    requires sub.SubGraph?
  {
    if NoSuchIndex(Ports(sub, dir), def) then NoSuchPort else NotExported
  }

  /** The error comes from the source end if that is bad, from the destination end else. */
  ghost predicate Blames(sub: Block, e: Edge, error: Outcome)
    requires sub.SubGraph?
  {
    if e.src == sub.id && !LeadsInside(sub, Output, e.srcPort) then error == EndFault(sub, Output, e.srcPort)
    else e.dst == sub.id && !LeadsInside(sub, Input, e.dstPort) && error == EndFault(sub, Input, e.dstPort)
  }

  lemma {:induction false} FirstBadEdge(sub: Block, edges: seq<Edge>) returns (i: nat)
    requires sub.SubGraph? && AttachmentError(sub, edges) != Done
    ensures i < |edges| && Blames(sub, edges[i], AttachmentError(sub, edges))
    ensures forall j :: 0 <= j < i ==> EndsLeadInside(sub, edges[j])
  {
    hide ResolveEnd, LeadsInside;
    var front, e := edges[..|edges| - 1], edges[|edges| - 1];
    EndAnswers(sub, Output, e.srcPort);
    EndAnswers(sub, Input, e.dstPort);
    if AttachmentError(sub, front) != Done {
      i := FirstBadEdge(sub, front);
    } else {
      i := |edges| - 1;
      NoAttachmentError(sub, front);
      forall j | 0 <= j < i ensures EndsLeadInside(sub, edges[j]) {
        assert edges[j] == front[j] && front[j] in front;
        EdgeAnswers(sub, edges[j]);
      }
    }
  }

  /** Each error of an ungrouping, in the order in which they are looked for. */
  lemma UngroupErrors(g: Topology, sub: Block)
    ensures Ungroup(g, sub).0 == NoGraph <==> sub.Leaf?
    ensures sub.SubGraph? ==> (Ungroup(g, sub).0 == NoSuchBlock <==> !ExportedBlocksInside(sub))
    ensures sub.SubGraph? && ExportedBlocksInside(sub) && Ungroup(g, sub).0 != Done ==>
              exists i :: 0 <= i < |g.edges| && Blames(sub, g.edges[i], Ungroup(g, sub).0)
                          && forall j :: 0 <= j < i ==> EndsLeadInside(sub, g.edges[j])
  {
    hide ExportsPresent, ExportedBlocksInside, EndsLeadInside, Blames, AttachmentError;
    if sub.SubGraph? {
      PresentIfInside(sub);
      if AttachmentError(sub, g.edges) != Done {
        var i := FirstBadEdge(sub, g.edges);
        BlamedIsPort(sub, g.edges[i], AttachmentError(sub, g.edges));
      }
    }
  }

  lemma BlamedIsPort(sub: Block, e: Edge, error: Outcome)
    requires sub.SubGraph? && Blames(sub, e, error)
    ensures error == NoSuchPort || error == NotExported
  {
  }

  // --- when a grouping succeeds -----------------------------------------------------------------------

  /** The inner end is given by an index past the end of the block's port list. */
  predicate InnerIndexMissing(targets: seq<Block>, e: Edge)
    requires IsCrossing(targets, e)
  {
    var (id, def, dir) := InsideEnd(targets, e);
    NoSuchIndex(Ports(FindBlock(targets, id).value, dir), def)
  }

  lemma PlanEdgeExists(targets: seq<Block>, p: Plan, e: Edge)
    ensures PlanEdge(targets, p, e).None? <==> IsCrossing(targets, e) && InnerIndexMissing(targets, e)
  {
    hide FindOrCreateExport;
  }

  lemma {:induction false} PlanExists(targets: seq<Block>, edges: seq<Edge>)
    ensures PlanEdges(targets, edges).None? <==>
            exists e :: e in edges && IsCrossing(targets, e) && InnerIndexMissing(targets, e)
  {
    hide PlanEdge, IsCrossing, InnerIndexMissing;
    if edges != [] {
      var front, e := edges[..|edges| - 1], edges[|edges| - 1];
      assert edges == front + [e];
      PlanExists(targets, front);
      if PlanEdges(targets, front).Some? { PlanEdgeExists(targets, PlanEdges(targets, front).value, e); }
    }
  }

  ghost predicate SomeIndexMissing(targets: seq<Block>, edges: seq<Edge>) {
    exists e :: e in edges && IsCrossing(targets, e) && InnerIndexMissing(targets, e)
  }

  ghost predicate SomePortMissing(targets: seq<Block>, edges: seq<Edge>) {
    exists e :: e in edges && IsCrossing(targets, e) && !InsidePortExists(targets, e)
  }

  /** Each outcome of a grouping, in the order in which the errors are looked for. */
  lemma GroupOutcomes(g: Topology, targets: seq<Block>, spawned: Option<(Id, string)>)
    ensures Group(g, targets, spawned).0
            == if targets == [] then EmptySelection
               else if SomeIndexMissing(targets, g.edges) then NoSuchPort
               else if spawned.None? then UnknownType
               else if SomePortMissing(targets, g.edges) then ExportRefused
               else Done
  {
    hide PlanEdges, ExportAll, Ungrouped, Untouched, Reconnected, AddEdges, IsCrossing, InnerIndexMissing,
         InsidePortExists;
    PlanExists(targets, g.edges);
    if targets != [] && PlanEdges(targets, g.edges).Some? && spawned.Some? {
      GroupRefusedTooLate(g, targets, spawned);
    }
  }

  /** A successful grouping puts the new sub-graph, with the names it was given, the grouped blocks and their
      edges, after the blocks that stay. */
  lemma NewSubGraphComesLast(g: Topology, targets: seq<Block>, spawned: Option<(Id, string)>)
    requires Group(g, targets, spawned).0 == Done
    ensures var blocks := Group(g, targets, spawned).1.blocks;
            && blocks != [] && spawned.Some?
            && var sub := blocks[|blocks| - 1];
            && sub.SubGraph? && (sub.id, sub.name) == spawned.value && sub.blocks == targets
            && blocks[..|blocks| - 1] == Ungrouped(targets, g.blocks)
            && (forall e :: e in sub.edges ==> e in g.edges && IsInternal(targets, e))
            && (forall e :: e in g.edges && IsInternal(targets, e) ==> ContainsEdge(sub.edges, e))
  {
    hide PlanEdges, ExportAll, Ungrouped, Untouched, Reconnected;
    var internal := PlanEdges(targets, g.edges).value.internal;
    PlanListsAll(targets, g.edges);
    AddEdgesCover([], internal);
  }

  lemma {:induction false} AddEdgesCover(edges: seq<Edge>, more: seq<Edge>)
    ensures forall e :: e in AddEdges(edges, more) ==> e in edges || e in more
    ensures forall e :: e in edges || e in more ==> ContainsEdge(AddEdges(edges, more), e)
  {
    if more == [] {
      forall e | e in edges ensures ContainsEdge(edges, e) {
        var i :| 0 <= i < |edges| && edges[i] == e;
        assert SameConnection(edges[i], e);
      }
    } else {
      var front, last := more[..|more| - 1], more[|more| - 1];
      assert more == front + [last];
      AddEdgesCover(edges, front);
      hide AddEdges, SameConnection;
      OneEdgeCovered(AddEdges(edges, front), last);
    }
  }

  lemma OneEdgeCovered(edges: seq<Edge>, last: Edge)
    ensures forall e :: e in AddEdge(edges, last) ==> e in edges || e == last
    ensures forall e :: ContainsEdge(edges, e) || e == last ==> ContainsEdge(AddEdge(edges, last), e)
  {
    var after := AddEdge(edges, last);
    forall e | ContainsEdge(edges, e) ensures ContainsEdge(after, e) {
      var i :| 0 <= i < |edges| && SameConnection(edges[i], e);
      assert after[i] == edges[i];
    }
    if !ContainsEdge(edges, last) { assert after[|edges|] == last && SameConnection(after[|edges|], last); }
  }

  /** Two edges are the same connection if they differ in buffer size, weight and name at most. */
  lemma SameConnectionMeans(e: Edge, f: Edge)
    ensures SameConnection(e, f) <==> f == e.(minBufferSize := f.minBufferSize, weight := f.weight, name := f.name)
  {
  }

  // --- the names given to exported ports --------------------------------------------------------------

  /** The exported name is the first of "block.port", "block.port_1", ... that no other port has got. */
  ghost predicate NamedInOrder(targets: seq<Block>, exports: seq<Planned>, x: Planned) {
    FindBlock(targets, x.block).Some?
    && var base := FindBlock(targets, x.block).value.name + "." + x.internal;
       exists m: nat :: x.exported == Candidate(base, m)
                        && forall j: nat :: j < m ==> Candidate(base, j) in Taken(exports, x.dir)
  }

  lemma NamedInOrderKept(targets: seq<Block>, exports: seq<Planned>, more: seq<Planned>, x: Planned)
    requires NamedInOrder(targets, exports, x) && exports <= more
    ensures NamedInOrder(targets, more, x)
  {
    TakenKept(exports, more, x.dir);
    hide Taken;
    var base := FindBlock(targets, x.block).value.name + "." + x.internal;
    var m: nat :| x.exported == Candidate(base, m)
                  && forall j: nat :: j < m ==> Candidate(base, j) in Taken(exports, x.dir);
    assert forall j: nat :: j < m ==> Candidate(base, j) in Taken(more, x.dir);
  }

  lemma TakenKept(exports: seq<Planned>, more: seq<Planned>, dir: Direction)
    requires exports <= more
    ensures Taken(exports, dir) <= Taken(more, dir)
  {
    forall n | n in Taken(exports, dir) ensures n in Taken(more, dir) {
      var i :| 0 <= i < |exports| && exports[i].dir == dir && exports[i].exported == n;
      assert more[i] == exports[i];
    }
  }

  lemma ExportNamed(targets: seq<Block>, exports: seq<Planned>, block: Block, dir: Direction, internal: string)
    requires FindBlock(targets, block.id) == Some(block)
    requires forall x :: x in exports ==> NamedInOrder(targets, exports, x)
    ensures var next := FindOrCreateExport(exports, block, dir, internal).0;
            forall x :: x in next ==> NamedInOrder(targets, next, x)
  {
    var next := FindOrCreateExport(exports, block, dir, internal).0;
    if PlannedName(exports, block.id, dir, internal).None? {
      hide Taken, NamedInOrder;
      var base := block.name + "." + internal;
      var name := FreeCandidate(base, Taken(exports, dir), 0);
      var x := Planned(block.id, dir, internal, name);
      FreshNamed(targets, exports, block, x);
      assert next == exports + [x];
      forall y | y in next ensures NamedInOrder(targets, next, y) {
        assert y in exports || y == x;
        NamedInOrderKept(targets, exports, next, y);
      }
    }
  }

  lemma FreshNamed(targets: seq<Block>, exports: seq<Planned>, block: Block, x: Planned)
    requires FindBlock(targets, block.id) == Some(block) && x.block == block.id
    requires x.exported == FreeCandidate(block.name + "." + x.internal, Taken(exports, x.dir), 0)
    ensures NamedInOrder(targets, exports, x)
  {
    hide Taken;
  }

  /** Every planned export has the first free name made of the names of its block and its port. */
  lemma {:induction false} PlannedNames(targets: seq<Block>, edges: seq<Edge>)
    requires PlanEdges(targets, edges).Some?
    ensures var exports := PlanEdges(targets, edges).value.exports;
            forall x :: x in exports ==> NamedInOrder(targets, exports, x)
  {
    hide NamedInOrder, FindOrCreateExport;
    if edges != [] {
      var front, e := edges[..|edges| - 1], edges[|edges| - 1];
      PlannedNames(targets, front);
      if IsCrossing(targets, e) {
        var (id, def, dir) := InsideEnd(targets, e);
        var block := FindBlock(targets, id).value;
        ExportNamed(targets, PlanEdges(targets, front).value.exports, block, dir,
                    DefinedPortName(Ports(block, dir), def).value);
      }
    }
  }

  // --- ports by index, by name and by exported name ---------------------------------------------------

  function OfDirection(exports: seq<Export>, dir: Direction): seq<Export> {
    if exports == [] then []
    else if exports[0].dir == dir then [exports[0]] + OfDirection(exports[1..], dir)
    else OfDirection(exports[1..], dir)
  }

  lemma {:induction false} OfDirectionAppend(a: seq<Export>, b: seq<Export>, dir: Direction)
    ensures OfDirection(a + b, dir) == OfDirection(a, dir) + OfDirection(b, dir)
  {
    if a == [] {
      assert a + b == b;
    } else {
      assert (a + b)[1..] == a[1..] + b;
      OfDirectionAppend(a[1..], b, dir);
    }
  }

  /** The ports a sub-graph shows are the exported ones, in the order of the export table. */
  lemma {:induction false} SlotsAreExports(exports: seq<Export>, dir: Direction)
    ensures var slots, shown := ExportSlots(exports, dir), OfDirection(exports, dir);
            |slots| == |shown|
            && forall k :: 0 <= k < |slots| ==> slots[k] == Single(shown[k].exported, shown[k].arithmetic)
  {
    if exports != [] {
      var front, last := exports[..|exports| - 1], exports[|exports| - 1];
      assert exports == front + [last];
      SlotsAreExports(front, dir);
      OfDirectionAppend(front, [last], dir);
      assert [last][1..] == [];
    }
  }

  ghost predicate DistinctNames(exports: seq<Export>, dir: Direction) {
    forall x, y :: x in exports && y in exports && x.dir == dir == y.dir && x.exported == y.exported ==> x == y
  }

  lemma {:induction false} ShownAreExports(exports: seq<Export>, dir: Direction)
    ensures forall x :: x in OfDirection(exports, dir) <==> x in exports && x.dir == dir
  {
    if exports != [] {
      ShownAreExports(exports[1..], dir);
      assert exports == [exports[0]] + exports[1..];
    }
  }

  /** An end at a sub-graph given by the index k leads to what the k-th exported port stands for. */
  lemma IndexedEndLeadsInside(sub: Block, dir: Direction, k: nat)
    requires sub.SubGraph? && k < |OfDirection(sub.exports, dir)|
    requires DistinctNames(sub.exports, dir) && OfDirection(sub.exports, dir)[k].exported != ""
    ensures var x := OfDirection(sub.exports, dir)[k];
            ResolveEnd(sub, dir, ByIndex(k, None)) == Inner(x.block, x.internal)
  {
    var x := OfDirection(sub.exports, dir)[k];
    SlotsAreExports(sub.exports, dir);
    ShownAreExports(sub.exports, dir);
    assert x in OfDirection(sub.exports, dir);
    EndAnswers(sub, dir, ByIndex(k, None));
  }

  /** The ports of a list have different names without a '#'. */
  ghost predicate PlainSlots(slots: seq<Slot>) {
    && (forall i :: 0 <= i < |slots| ==> '#' !in slots[i].name)
    && (forall i, j :: 0 <= i < j < |slots| ==> slots[i].name != slots[j].name)
  }

  lemma {:induction false} FindAt(slots: seq<Slot>, i: nat)
    requires PlainSlots(slots) && i < |slots|
    ensures FindSingle(slots, slots[i].name) == if slots[i].Single? then Some(slots[i]) else None
    ensures FindCollection(slots, slots[i].name) == if slots[i].Collection? then Some(slots[i]) else None
  {
    if i > 0 {
      assert slots[0].name != slots[i].name;
      FindAt(slots[1..], i - 1);
    } else {
      NameGone(slots[1..], slots[0].name);
    }
  }

  lemma {:induction false} NameGone(slots: seq<Slot>, name: string)
    requires forall i :: 0 <= i < |slots| ==> slots[i].name != name
    ensures FindSingle(slots, name) == None && FindCollection(slots, name) == None
  {
    if slots != [] { NameGone(slots[1..], name); }
  }

  /** A port given by index is found exactly if it is found by the name that stands for it, and then it is
      the same port. */
  lemma IndexAndNameAgree(slots: seq<Slot>, def: PortDef)
    requires PlainSlots(slots) && def.ByIndex? && def.top < |slots| && (def.sub.Some? ==> def.sub.value < SIZE_LIMIT)
    ensures DefinedPortName(slots, def).Some?
    ensures FindPort(slots, DefinedPortName(slots, def).value) == FindPortByDef(slots, def)
  {
    var name := slots[def.top].name;
    FindAt(slots, def.top);
    if def.sub.None? {
      assert HashPosition(name) == |name|;
    } else {
      var full := name + "#" + Decimal(def.sub.value);
      assert full[|name|] == '#' && forall i :: 0 <= i < |name| ==> full[i] == name[i];
      assert HashPosition(full) == |name|;
      assert full[|name| + 1..] == Decimal(def.sub.value) && full[..|name|] == name;
      ParseDecimal(def.sub.value);
    }
  }

  /** Every entry of the export table says of its port what the inner block says. */
  lemma {:induction false} ExportsDescribePorts(blocks: seq<Block>, planned: seq<Planned>)
    requires ExportAll(blocks, planned).Some?
    ensures forall x :: x in ExportAll(blocks, planned).value ==>
              FindBlock(blocks, x.block).Some?
              && FindPort(Ports(FindBlock(blocks, x.block).value, x.dir), x.internal) == Some(x.arithmetic)
  {
    hide FindBlock, FindPort, IsExported, Ports;
    if planned != [] { ExportsDescribePorts(blocks, planned[..|planned| - 1]); }
  }

  /** An edge without a buffer size gets 64 samples if its source port is found and not arithmetic, and 65536
      else; no other edge is changed. */
  lemma ChosenBufferSize(blocks: seq<Block>, e: Edge)
    ensures Connected(e, SourcePorts(blocks, e.src)).minBufferSize
            == if e.minBufferSize != UNDEFINED_SIZE then e.minBufferSize
               else if FindBlock(blocks, e.src).Some?
                       && FindPortByDef(Ports(FindBlock(blocks, e.src).value, Output), e.srcPort) == Some(false)
               then 64 else 65536
  {
  }
}
