/** What `groupBlocks` keeps: the leaves always, the connections exactly when no internal edge repeats
    another and no crossing edge has an undefined buffer size. */
module GroupingProof {
  import opened Options
  import opened GraphModel
  import opened GraphRegrouping
  import opened GraphMeaning

  // --- the plan ---------------------------------------------------------------------------------

  /** No port is planned twice, and no exported name is given to two ports of one direction. */
  ghost predicate PlanIsBijection(exports: seq<Planned>) {
    forall i, j :: 0 <= i < j < |exports| && exports[i].dir == exports[j].dir ==>
      exports[i].exported != exports[j].exported
      && (exports[i].block != exports[j].block || exports[i].internal != exports[j].internal)
  }

  /** The crossing edge's inner end is the named port, planned under the recorded exported name. */
  ghost predicate CrossingPlanned(targets: seq<Block>, exports: seq<Planned>, c: Crossing) {
    var (id, def, dir) := InsideEnd(targets, c.edge);
    && IsGrouped(targets, c.edge.src) != IsGrouped(targets, c.edge.dst)
    && c.sourceInside == IsGrouped(targets, c.edge.src)
    && DefinedPortName(Ports(FindBlock(targets, id).value, dir), def).Some?
    && Planned(id, dir, DefinedPortName(Ports(FindBlock(targets, id).value, dir), def).value, c.port) in exports
  }

  function CrossingEdges(crossing: seq<Crossing>): (r: seq<Edge>)
    ensures |r| == |crossing|
    ensures forall i :: 0 <= i < |r| ==> r[i] == crossing[i].edge
  {
    seq(|crossing|, i requires 0 <= i < |crossing| => crossing[i].edge)
  }

  lemma FindOrCreateSound(exports: seq<Planned>, block: Block, dir: Direction, internal: string)
    requires PlanIsBijection(exports)
    ensures var (next, name) := FindOrCreateExport(exports, block, dir, internal);
            PlanIsBijection(next) && exports <= next && Planned(block.id, dir, internal, name) in next
  {
    var (next, name) := FindOrCreateExport(exports, block, dir, internal);
    if PlannedName(exports, block.id, dir, internal).None? {
      assert name !in Taken(exports, dir);
      assert next[|exports|] == Planned(block.id, dir, internal, name);
    }
  }

  lemma {:induction false} PlanSound(targets: seq<Block>, edges: seq<Edge>)
    requires PlanEdges(targets, edges).Some?
    ensures var p := PlanEdges(targets, edges).value;
            && PlanIsBijection(p.exports)
            && (forall c :: c in p.crossing ==> CrossingPlanned(targets, p.exports, c))
            && (forall e :: e in p.internal ==> e in edges && IsGrouped(targets, e.src) && IsGrouped(targets, e.dst))
            && (forall c :: c in p.crossing ==> c.edge in edges)
  {
    hide FindOrCreateExport, PlanIsBijection, FindBlock, Ports;
    NothingPlanned();
    if edges != [] {
      var front, e := edges[..|edges| - 1], edges[|edges| - 1];
      PlanSound(targets, front);
      assert edges == front + [e];
      var before, p := PlanEdges(targets, front).value, PlanEdges(targets, edges).value;
      if IsGrouped(targets, e.src) != IsGrouped(targets, e.dst) {
        var (id, def, dir) := InsideEnd(targets, e);
        var block := FindBlock(targets, id).value;
        FindOrCreateSound(before.exports, block, dir, DefinedPortName(Ports(block, dir), def).value);
        assert p.crossing == before.crossing + [p.crossing[|p.crossing| - 1]];
        forall c | c in p.crossing ensures CrossingPlanned(targets, p.exports, c) {
          if c in before.crossing { assert CrossingPlanned(targets, before.exports, c); }
        }
      }
    }
  }

  lemma NothingPlanned()
    ensures PlanIsBijection([])
  {
  }

  /** Every planned export belongs to the inner end of some crossing edge. */
  lemma {:induction false} PlanMinimal(targets: seq<Block>, edges: seq<Edge>, x: Planned) returns (c: Crossing)
    requires PlanEdges(targets, edges).Some? && x in PlanEdges(targets, edges).value.exports
    ensures c in PlanEdges(targets, edges).value.crossing
    ensures var (id, def, dir) := InsideEnd(targets, c.edge);
            CrossingPlanned(targets, PlanEdges(targets, edges).value.exports, c) && x.block == id && x.dir == dir
            && Some(x.internal) == DefinedPortName(Ports(FindBlock(targets, id).value, dir), def)
  {
    PlanSound(targets, edges);
    var front, e := edges[..|edges| - 1], edges[|edges| - 1];
    var before, p := PlanEdges(targets, front).value, PlanEdges(targets, edges).value;
    if x in before.exports {
      c := PlanMinimal(targets, front, x);
    } else {
      c := p.crossing[|p.crossing| - 1];
    }
  }

  lemma PlanEdgeSplits(targets: seq<Block>, before: Plan, e: Edge)
    requires PlanEdge(targets, before, e).Some?
    ensures var p := PlanEdge(targets, before, e).value;
            var source, destination := IsGrouped(targets, e.src), IsGrouped(targets, e.dst);
            && p.internal == (if source && destination then before.internal + [e] else before.internal)
            && CrossingEdges(p.crossing)
               == (if source != destination then CrossingEdges(before.crossing) + [e]
                   else CrossingEdges(before.crossing))
  {
  }

  /** A value per edge, summed over a list of edges. */
  function Tally<T>(f: Edge -> T, edges: seq<Edge>): multiset<T> {
    if edges == [] then multiset{} else Tally(f, edges[..|edges| - 1]) + multiset{f(edges[|edges| - 1])}
  }

  lemma TallyOneMore<T>(f: Edge -> T, edges: seq<Edge>, e: Edge)
    ensures Tally(f, edges + [e]) == Tally(f, edges) + multiset{f(e)}
  {
    assert (edges + [e])[..|edges|] == edges;
  }

  /** One part of a split total, and the total itself, grow by one element. */
  lemma OneMoreInThree<T>(total: multiset<T>, a: multiset<T>, b: multiset<T>, c: multiset<T>,
                          total': multiset<T>, a': multiset<T>, b': multiset<T>, c': multiset<T>, x: T)
    requires total == a + b + c && total' == total + multiset{x}
    requires (a', b', c') in {(a + multiset{x}, b, c), (a, b + multiset{x}, c), (a, b, c + multiset{x})}
    ensures total' == a' + b' + c'
  {
  }

  lemma UntouchedOneMore(targets: seq<Block>, front: seq<Edge>, e: Edge)
    ensures Untouched(targets, front + [e]) ==
            if IsGrouped(targets, e.src) || IsGrouped(targets, e.dst) then Untouched(targets, front)
            else Untouched(targets, front) + [e]
  {
    assert (front + [e])[..|front|] == front;
  }

  /** The plan splits the edges into internal, crossing and untouched ones, losing none. */
  lemma {:induction false} PlanSplits<T>(targets: seq<Block>, edges: seq<Edge>, f: Edge -> T)
    requires PlanEdges(targets, edges).Some?
    ensures var p := PlanEdges(targets, edges).value;
            Tally(f, edges) == Tally(f, Untouched(targets, edges)) + Tally(f, p.internal)
              + Tally(f, CrossingEdges(p.crossing))
  {
    if edges != [] {
      hide Tally, Untouched, CrossingEdges, PlanEdge;
      PlanSplits(targets, edges[..|edges| - 1], f);
      PlanSplitsOneMore(targets, edges, f);
    }
  }

  lemma PlanOneMore(targets: seq<Block>, edges: seq<Edge>)
    requires edges != [] && PlanEdges(targets, edges).Some?
    ensures var before := PlanEdges(targets, edges[..|edges| - 1]);
            before.Some? && PlanEdges(targets, edges) == PlanEdge(targets, before.value, edges[|edges| - 1])
  {
    hide PlanEdge;
  }

  lemma PlanSplitsOneMore<T>(targets: seq<Block>, edges: seq<Edge>, f: Edge -> T)
    requires edges != [] && PlanEdges(targets, edges).Some? && PlanEdges(targets, edges[..|edges| - 1]).Some?
    requires var front, p := edges[..|edges| - 1], PlanEdges(targets, edges[..|edges| - 1]).value;
             Tally(f, front) == Tally(f, Untouched(targets, front)) + Tally(f, p.internal)
               + Tally(f, CrossingEdges(p.crossing))
    ensures var p := PlanEdges(targets, edges).value;
            Tally(f, edges) == Tally(f, Untouched(targets, edges)) + Tally(f, p.internal)
              + Tally(f, CrossingEdges(p.crossing))
  {
    hide PlanEdge, PlanEdges, Tally, IsGrouped, CrossingEdges, Untouched;
    var front, e := edges[..|edges| - 1], edges[|edges| - 1];
    assert edges == front + [e];
    var before, after := PlanEdges(targets, front).value, PlanEdges(targets, edges).value;
    PlanOneMore(targets, edges);
    PlanEdgeSplits(targets, before, e);
    UntouchedOneMore(targets, front, e);
    var u, i, c := Untouched(targets, front), before.internal, CrossingEdges(before.crossing);
    TallyOneMore(f, front, e);
    TallyOneMore(f, u, e);
    TallyOneMore(f, i, e);
    TallyOneMore(f, c, e);
    OneMoreInThree(Tally(f, front), Tally(f, u), Tally(f, i), Tally(f, c), Tally(f, edges),
                   Tally(f, Untouched(targets, edges)), Tally(f, after.internal),
                   Tally(f, CrossingEdges(after.crossing)), f(e));
  }

  lemma {:induction false} LinksAreTally(blocks: seq<Block>, edges: seq<Edge>, f: Edge -> Link)
    requires forall e :: f(e) == LinkOf(blocks, e)
    ensures Links(blocks, edges) == Tally(f, edges)
  {
    if edges != [] { LinksAreTally(blocks, edges[..|edges| - 1], f); }
  }

  lemma PlanSplitsLinks(targets: seq<Block>, edges: seq<Edge>, blocks: seq<Block>)
    requires PlanEdges(targets, edges).Some?
    ensures var p := PlanEdges(targets, edges).value;
            Links(blocks, edges) == Links(blocks, Untouched(targets, edges)) + Links(blocks, p.internal)
              + Links(blocks, CrossingEdges(p.crossing))
  {
    var f := (e: Edge) => LinkOf(blocks, e);
    var p := PlanEdges(targets, edges).value;
    PlanSplits(targets, edges, f);
    LinksAreTally(blocks, edges, f);
    LinksAreTally(blocks, Untouched(targets, edges), f);
    LinksAreTally(blocks, p.internal, f);
    LinksAreTally(blocks, CrossingEdges(p.crossing), f);
  }

  lemma {:induction false} UntouchedSound(targets: seq<Block>, edges: seq<Edge>)
    ensures forall e ::
              e in Untouched(targets, edges) ==> e in edges && !IsGrouped(targets, e.src) && !IsGrouped(targets, e.dst)
  {
    if edges != [] {
      UntouchedSound(targets, edges[..|edges| - 1]);
      assert edges == edges[..|edges| - 1] + [edges[|edges| - 1]];
    }
  }

  // --- the export table -------------------------------------------------------------------------

  /** The inner port an export was planned for exists. */
  predicate PortExists(blocks: seq<Block>, x: Planned) {
    FindBlock(blocks, x.block).Some? && FindPort(Ports(FindBlock(blocks, x.block).value, x.dir), x.internal).Some?
  }

  /** The exported entry is the one that was planned. */
  predicate ExportedAsPlanned(e: Export, x: Planned) {
    e.block == x.block && e.dir == x.dir && e.internal == x.internal && e.exported == x.exported
  }

  lemma {:induction false} ExportAllEntries(blocks: seq<Block>, planned: seq<Planned>)
    requires ExportAll(blocks, planned).Some?
    ensures var exports := ExportAll(blocks, planned).value;
            |exports| == |planned| && forall i :: 0 <= i < |planned| ==> ExportedAsPlanned(exports[i], planned[i])
  {
    hide FindBlock, FindPort, IsExported, Ports;
    if planned != [] { ExportAllEntries(blocks, planned[..|planned| - 1]); }
  }

  lemma ExportPortSome(blocks: seq<Block>, exports: seq<Export>, planned: seq<Planned>, x: Planned)
    requires |exports| == |planned| && forall i :: 0 <= i < |planned| ==> ExportedAsPlanned(exports[i], planned[i])
    requires forall i ::
               0 <= i < |planned| && planned[i].dir == x.dir
               ==> planned[i].block != x.block || planned[i].internal != x.internal
    ensures ExportPort(blocks, exports, x.block, x.dir, x.internal, x.exported).Some? <==> PortExists(blocks, x)
  {
    hide FindBlock, FindPort, Ports;
    assert !IsExported(exports, x.block, x.dir, x.internal);
  }

  lemma PrefixIsBijection(planned: seq<Planned>)
    requires PlanIsBijection(planned) && planned != []
    ensures PlanIsBijection(planned[..|planned| - 1])
  {
  }

  lemma {:induction false} ExportAllSound(blocks: seq<Block>, planned: seq<Planned>)
    requires PlanIsBijection(planned)
    ensures ExportAll(blocks, planned).Some? <==> forall x :: x in planned ==> PortExists(blocks, x)
    ensures ExportAll(blocks, planned).Some? ==>
              var exports := ExportAll(blocks, planned).value;
              |exports| == |planned| && forall i :: 0 <= i < |planned| ==> ExportedAsPlanned(exports[i], planned[i])
  {
    hide PortExists, ExportPort, ExportedAsPlanned;
    if planned != [] {
      var front, x := planned[..|planned| - 1], planned[|planned| - 1];
      PrefixIsBijection(planned);
      ExportAllSound(blocks, front);
      assert planned == front + [x];
      assert forall y :: y in planned <==> y in front || y == x;
      if ExportAll(blocks, front).Some? {
        ExportAllEntries(blocks, front);
        ExportPortSome(blocks, ExportAll(blocks, front).value, front, x);
      }
    }
    if ExportAll(blocks, planned).Some? { ExportAllEntries(blocks, planned); }
  }

  lemma {:induction false} FindExportUnique(exports: seq<Export>, i: nat)
    requires i < |exports|
    requires forall j ::
               0 <= j < |exports| && j != i
               ==> exports[j].dir != exports[i].dir || exports[j].exported != exports[i].exported
    ensures FindExport(exports, exports[i].dir, exports[i].exported) == Some(exports[i])
  {
    if i > 0 {
      FindExportUnique(exports[1..], i - 1);
    }
  }

  /** Every exported name of the new sub-graph leads back to the one inner port it was planned for. */
  lemma ExportedNameResolves(blocks: seq<Block>, planned: seq<Planned>, x: Planned)
    requires PlanIsBijection(planned) && ExportAll(blocks, planned).Some? && x in planned
    ensures var r := FindExport(ExportAll(blocks, planned).value, x.dir, x.exported);
            r.Some? && r.value.block == x.block && r.value.internal == x.internal
  {
    ExportAllSound(blocks, planned);
    var i :| 0 <= i < |planned| && planned[i] == x;
    var exports := ExportAll(blocks, planned).value;
    forall j | 0 <= j < |exports| && j != i
      ensures exports[j].dir != exports[i].dir || exports[j].exported != exports[i].exported
    {
      if j < i { assert planned[j].dir == planned[i].dir ==> planned[j].exported != planned[i].exported; }
      else { assert planned[i].dir == planned[j].dir ==> planned[i].exported != planned[j].exported; }
    }
    FindExportUnique(exports, i);
  }

  lemma {:induction false} SingleIsExport(exports: seq<Export>, dir: Direction, name: string)
    ensures FindSingle(ExportSlots(exports, dir), name).Some? ==> FindExport(exports, dir, name).Some?
    ensures FindCollection(ExportSlots(exports, dir), name).None?
  {
    if exports != [] {
      var front, last := exports[..|exports| - 1], exports[|exports| - 1];
      SingleIsExport(front, dir, name);
      assert exports == front + [last];
      FindExportAppend(front, last, dir, name);
      if last.dir == dir {
        FindSingleAppend(ExportSlots(front, dir), Single(last.exported, last.arithmetic), name);
      }
    }
  }

  lemma {:induction false} FindSingleAppend(slots: seq<Slot>, s: Slot, name: string)
    requires s.Single?
    ensures FindSingle(slots + [s], name).Some? ==> FindSingle(slots, name).Some? || s.name == name
    ensures FindCollection(slots + [s], name) == FindCollection(slots, name)
  {
    if slots == [] {
      assert slots + [s] == [s];
    } else {
      assert (slots + [s])[1..] == slots[1..] + [s];
      FindSingleAppend(slots[1..], s, name);
    }
  }

  /** A port that can be found by name on a sub-graph is one of its exports. */
  lemma PortIsExport(b: Block, dir: Direction, name: string)
    requires b.SubGraph? && FindPort(Ports(b, dir), name).Some?
    ensures FindExport(b.exports, dir, name).Some?
  {
    SingleIsExport(b.exports, dir, name);
    SingleIsExport(b.exports, dir, name[..HashPosition(name)]);
  }

  // --- the move ---------------------------------------------------------------------------------

  ghost predicate AllDistinct(s: seq<Block>) {
    forall i, j :: 0 <= i < j < |s| ==> s[i].id != s[j].id
  }

  /** The targets are distinct blocks of a well-formed graph, the spawned sub-graph's name is new. */
  ghost predicate Groupable(g: Topology, targets: seq<Block>, spawned: Option<(Id, string)>) {
    && WellFormed(g)
    && (forall i :: 0 <= i < |targets| ==> targets[i] in g.blocks)
    && AllDistinct(targets)
    && (spawned.Some? ==> spawned.value.0 !in Ids(g.blocks))
  }

  lemma {:induction false} DistinctMultiset(s: seq<Block>, x: Block)
    requires AllDistinct(s)
    ensures multiset(s)[x] == if x in s then 1 else 0
  {
    if s != [] {
      assert s == [s[0]] + s[1..];
      DistinctMultiset(s[1..], x);
    }
  }

  lemma {:induction false} UngroupedBlocks(targets: seq<Block>, blocks: seq<Block>)
    ensures forall x :: x in Ungrouped(targets, blocks) <==> x in blocks && !IsGrouped(targets, x.id)
  {
    if blocks != [] {
      var front := blocks[..|blocks| - 1];
      UngroupedBlocks(targets, front);
      assert blocks == front + [blocks[|front|]];
    }
  }

  lemma {:induction false} UngroupedDistinct(targets: seq<Block>, blocks: seq<Block>)
    requires AllDistinct(blocks)
    ensures AllDistinct(Ungrouped(targets, blocks))
  {
    if blocks != [] {
      var front := blocks[..|blocks| - 1];
      UngroupedDistinct(targets, front);
      UngroupedBlocks(targets, front);
      forall x | x in front ensures x.id != blocks[|front|].id {
        var i :| 0 <= i < |front| && front[i] == x;
        assert blocks[i] == x;
      }
    }
  }

  /** The blocks that stay and the blocks that move are together the blocks there were. */
  lemma GroupedBlocksSplit(g: Topology, targets: seq<Block>, spawned: Option<(Id, string)>)
    requires Groupable(g, targets, spawned)
    ensures multiset(Ungrouped(targets, g.blocks) + targets) == multiset(g.blocks)
  {
    var u := Ungrouped(targets, g.blocks);
    forall i, j | 0 <= i < j < |g.blocks| ensures g.blocks[i].id != g.blocks[j].id { DistinctIds(g.blocks, i, j); }
    UngroupedBlocks(targets, g.blocks);
    UngroupedDistinct(targets, g.blocks);
    forall x: Block ensures multiset(u + targets)[x] == multiset(g.blocks)[x] {
      DistinctMultiset(u, x);
      DistinctMultiset(targets, x);
      DistinctMultiset(g.blocks, x);
      assert x in targets ==> IsGrouped(targets, x.id);
    }
  }

  lemma GroupedSums(g: Topology, targets: seq<Block>, spawned: Option<(Id, string)>, sub: Block)
    requires Groupable(g, targets, spawned) && spawned.Some?
    requires sub.SubGraph? && sub.id == spawned.value.0 && sub.blocks == targets
    ensures var blocks := Ungrouped(targets, g.blocks) + [sub];
            && Ids(blocks) == Ids(g.blocks) + multiset{sub.id} && Once(Ids(blocks)) && Once(Ids(targets))
               && Once(Ids(g.blocks))
            && Leaves(blocks) == Leaves(g.blocks)
            && InnerLinks(blocks) + InnerLinks(targets) == InnerLinks(g.blocks) + InnerLinksOf(sub)
  {
    hide Leaves, InnerLinks, Ids, InnerLinksOf, Ungrouped, Resolve, Links;
    var u := Ungrouped(targets, g.blocks);
    GroupedBlocksSplit(g, targets, spawned);
    SameBlocks(u + targets, g.blocks);
    Appended(u, targets);
    Appended(u, [sub]);
    OneBlock(sub);
    assert IdsOf(sub) == multiset{sub.id} + Ids(targets) && LeavesOf(sub) == Leaves(targets);
    forall x ensures Ids(u + [sub])[x] <= 1 { assert Ids(g.blocks)[x] <= 1; }
    forall x ensures Ids(targets)[x] <= 1 { assert Ids(g.blocks)[x] <= 1; }
  }

  lemma MovedIsFound(g: Topology, targets: seq<Block>, b: Block)
    requires Once(Ids(g.blocks)) && Once(Ids(targets)) && (forall i :: 0 <= i < |targets| ==> targets[i] in g.blocks)
    requires b in g.blocks && IsGrouped(targets, b.id)
    ensures FindBlock(targets, b.id) == Some(b)
  {
    hide Ids, FindBlock;
    var i :| 0 <= i < |targets| && targets[i].id == b.id;
    FindUnique(g.blocks, targets[i]);
    FindUnique(g.blocks, b);
    FindUnique(targets, b);
  }

  /** Lookups in the regrouped graph: what stayed is found as before, what moved is found inside. */
  lemma GroupedLookups(g: Topology, targets: seq<Block>, spawned: Option<(Id, string)>, sub: Block)
    requires Groupable(g, targets, spawned) && spawned.Some?
    requires sub.SubGraph? && sub.id == spawned.value.0 && sub.blocks == targets
    ensures var blocks := Ungrouped(targets, g.blocks) + [sub];
            && Ids(blocks) == Ids(g.blocks) + multiset{sub.id} && Once(Ids(blocks))
            && Leaves(blocks) == Leaves(g.blocks)
            && InnerLinks(blocks) + InnerLinks(targets) == InnerLinks(g.blocks) + InnerLinksOf(sub)
            && FindBlock(blocks, sub.id) == Some(sub)
            && (forall b :: b in g.blocks && !IsGrouped(targets, b.id) ==> FindBlock(blocks, b.id) == Some(b))
            && (forall b :: b in g.blocks && IsGrouped(targets, b.id) ==> FindBlock(targets, b.id) == Some(b))
            && (forall b :: b in g.blocks ==> FindBlock(g.blocks, b.id) == Some(b))
  {
    GroupedSums(g, targets, spawned, sub);
    UngroupedBlocks(targets, g.blocks);
    hide Leaves, InnerLinks, Ids, LeavesOf, InnerLinksOf, IdsOf, Ungrouped, FindBlock, Once, IsGrouped, Resolve, Links;
    var blocks := Ungrouped(targets, g.blocks) + [sub];
    FindUnique(blocks, sub);
    forall b | b in g.blocks ensures FindBlock(g.blocks, b.id) == Some(b) { FindUnique(g.blocks, b); }
    forall b | b in g.blocks && !IsGrouped(targets, b.id) ensures FindBlock(blocks, b.id) == Some(b) {
      FindUnique(blocks, b);
    }
    forall b | b in g.blocks && IsGrouped(targets, b.id) ensures FindBlock(targets, b.id) == Some(b) {
      MovedIsFound(g, targets, b);
    }
  }

  lemma ResolveNamed(a: seq<Block>, b: seq<Block>, dir: Direction, id: Id, def: PortDef, name: string)
    requires FindBlock(a, id) == FindBlock(b, id) && FindBlock(a, id).Some?
    requires DefinedPortName(Ports(FindBlock(a, id).value, dir), def) == Some(name)
    requires FindPort(Ports(FindBlock(a, id).value, dir), name).Some?
    ensures Resolve(a, dir, id, def) == Resolve(b, dir, id, ByName(name))
  {
    var block := FindBlock(a, id).value;
    if block.SubGraph? { PortIsExport(block, dir, name); }
  }

  lemma ResolveThrough(blocks: seq<Block>, sub: Block, dir: Direction, exported: string, x: Export)
    requires FindBlock(blocks, sub.id) == Some(sub) && sub.SubGraph?
    requires FindExport(sub.exports, dir, exported) == Some(x)
    ensures Resolve(blocks, dir, sub.id, ByName(exported)) == Resolve(sub.blocks, dir, x.block, ByName(x.internal))
  {
  }

  lemma InsideEndResolves(blocks: seq<Block>, outer: seq<Block>, targets: seq<Block>, planned: seq<Planned>, sub: Block,
                          c: Crossing)
    requires PlanIsBijection(planned) && CrossingPlanned(targets, planned, c)
    requires sub.SubGraph? && sub.blocks == targets && ExportAll(targets, planned) == Some(sub.exports)
    requires FindBlock(outer, sub.id) == Some(sub)
    requires FindBlock(blocks, InsideEnd(targets, c.edge).0) == FindBlock(targets, InsideEnd(targets, c.edge).0)
    ensures var (id, def, dir) := InsideEnd(targets, c.edge);
            Resolve(blocks, dir, id, def) == Resolve(outer, dir, sub.id, ByName(c.port))
  {
    var (id, def, dir) := InsideEnd(targets, c.edge);
    var name := DefinedPortName(Ports(FindBlock(targets, id).value, dir), def).value;
    var x := Planned(id, dir, name, c.port);
    ExportedNameResolves(targets, planned, x);
    ExportAllSound(targets, planned);
    assert PortExists(targets, x);
    ResolveNamed(blocks, targets, dir, id, def, name);
    ResolveThrough(outer, sub, dir, c.port, FindExport(sub.exports, dir, c.port).value);
  }

  /** Following the exported port of the sub-graph ends where following the original end did. */
  lemma RedirectedResolves(g: Topology, targets: seq<Block>, spawned: Option<(Id, string)>, planned: seq<Planned>,
                           sub: Block, c: Crossing)
    requires Groupable(g, targets, spawned) && spawned.Some? && PlanIsBijection(planned)
    requires sub.SubGraph? && sub.id == spawned.value.0 && sub.blocks == targets
    requires ExportAll(targets, planned) == Some(sub.exports)
    requires CrossingPlanned(targets, planned, c) && EdgeInside(g.blocks, c.edge)
    ensures var blocks := Ungrouped(targets, g.blocks) + [sub];
            var e, r := LinkOf(g.blocks, c.edge), LinkOf(blocks, Redirected(c, sub.id));
            e.src == r.src && e.dst == r.dst
  {
    GroupedLookups(g, targets, spawned, sub);
    hide Leaves, InnerLinks, Ids, LeavesOf, InnerLinksOf, Ungrouped, Once, Links, ExportAll, DefinedPortName, Resolve,
         FindBlock, PlanIsBijection, WellFormed;
    var blocks := Ungrouped(targets, g.blocks) + [sub];
    var src, dst := FindBlock(g.blocks, c.edge.src).value, FindBlock(g.blocks, c.edge.dst).value;
    FoundInside(g.blocks, c.edge.src);
    FoundInside(g.blocks, c.edge.dst);
    InsideEndResolves(g.blocks, blocks, targets, planned, sub, c);
    if c.sourceInside {
      ResolveSame(g.blocks, blocks, Input, c.edge.dst, c.edge.dstPort);
    } else {
      ResolveSame(g.blocks, blocks, Output, c.edge.src, c.edge.srcPort);
    }
  }

  lemma {:induction false} FoundInside(blocks: seq<Block>, id: Id)
    requires FindBlock(blocks, id).Some?
    ensures FindBlock(blocks, id).value in blocks && FindBlock(blocks, id).value.id == id
  {
    if blocks[0].id != id { FoundInside(blocks[1..], id); }
  }

  lemma ResolveSame(a: seq<Block>, b: seq<Block>, dir: Direction, id: Id, def: PortDef)
    requires FindBlock(a, id) == FindBlock(b, id) && FindBlock(a, id).Some?
    ensures Resolve(a, dir, id, def) == Resolve(b, dir, id, def)
  {
  }

  lemma {:induction false} ReconnectedAt(blocks: seq<Block>, sub: Id, crossing: seq<Crossing>)
    ensures forall i :: 0 <= i < |crossing| ==>
              Reconnected(blocks, sub, crossing)[i]
                == Connected(Redirected(crossing[i], sub), SourcePorts(blocks, Redirected(crossing[i], sub).src))
  {
    if crossing != [] { ReconnectedAt(blocks, sub, crossing[..|crossing| - 1]); }
  }

  // --- when regrouping is exact -------------------------------------------------------------------

  predicate IsInternal(targets: seq<Block>, e: Edge) {
    IsGrouped(targets, e.src) && IsGrouped(targets, e.dst)
  }

  predicate IsCrossing(targets: seq<Block>, e: Edge) {
    IsGrouped(targets, e.src) != IsGrouped(targets, e.dst)
  }

  ghost predicate NoRepeatedInternalEdge(targets: seq<Block>, edges: seq<Edge>) {
    forall i, j :: 0 <= i < j < |edges| && IsInternal(targets, edges[i]) && IsInternal(targets, edges[j])
      ==> !SameConnection(edges[i], edges[j])
  }

  ghost predicate CrossingBuffersDefined(targets: seq<Block>, edges: seq<Edge>) {
    forall e :: e in edges && IsCrossing(targets, e) ==> e.minBufferSize != UNDEFINED_SIZE
  }

  lemma {:induction false} PlanListsAll(targets: seq<Block>, edges: seq<Edge>)
    requires PlanEdges(targets, edges).Some?
    ensures var p := PlanEdges(targets, edges).value;
            && (forall e :: e in p.internal <==> e in edges && IsInternal(targets, e))
            && (forall e :: e in CrossingEdges(p.crossing) <==> e in edges && IsCrossing(targets, e))
  {
    if edges != [] {
      var front, e := edges[..|edges| - 1], edges[|edges| - 1];
      assert edges == front + [e];
      PlanListsAll(targets, front);
      PlanEdgeSplits(targets, PlanEdges(targets, front).value, e);
    }
  }

  lemma InternalContains(targets: seq<Block>, edges: seq<Edge>, internal: seq<Edge>, e: Edge)
    requires forall f :: f in internal <==> f in edges && IsInternal(targets, f)
    ensures ContainsEdge(internal, e)
            <==> exists i :: 0 <= i < |edges| && IsInternal(targets, edges[i]) && SameConnection(edges[i], e)
  {
    if ContainsEdge(internal, e) {
      var k :| 0 <= k < |internal| && SameConnection(internal[k], e);
      assert internal[k] in edges;
    }
    if i :| 0 <= i < |edges| && IsInternal(targets, edges[i]) && SameConnection(edges[i], e) {
      assert edges[i] in internal;
    }
  }

  lemma {:induction false} PlanRepeats(targets: seq<Block>, edges: seq<Edge>)
    requires PlanEdges(targets, edges).Some?
    ensures NoRepeats([], PlanEdges(targets, edges).value.internal) <==> NoRepeatedInternalEdge(targets, edges)
  {
    if edges != [] {
      var front, e := edges[..|edges| - 1], edges[|edges| - 1];
      assert edges == front + [e];
      PlanRepeats(targets, front);
      PlanListsAll(targets, front);
      var internal := PlanEdges(targets, front).value.internal;
      PlanEdgeSplits(targets, PlanEdges(targets, front).value, e);
      RepeatedAppend(targets, front, e);
      if IsInternal(targets, e) {
        NoRepeatsAppend([], internal, e);
        assert [] + internal == internal;
        InternalContains(targets, front, internal, e);
      }
    }
  }

  lemma NoRepeatsAppend(edges: seq<Edge>, more: seq<Edge>, e: Edge)
    ensures NoRepeats(edges, more + [e]) <==> NoRepeats(edges, more) && !ContainsEdge(edges + more, e)
  {
    var all := more + [e];
    assert forall i :: 0 <= i < |more| ==> all[..i] == more[..i] && all[i] == more[i];
    assert all[..|more|] == more && all[|more|] == e;
    if NoRepeats(edges, more) && !ContainsEdge(edges + more, e) {
      forall i | 0 <= i < |all| ensures !ContainsEdge(edges + all[..i], all[i]) {}
    }
    if NoRepeats(edges, all) {
      forall i | 0 <= i < |more| ensures !ContainsEdge(edges + more[..i], more[i]) {
        assert !ContainsEdge(edges + all[..i], all[i]);
      }
      assert !ContainsEdge(edges + all[..|more|], all[|more|]);
    }
  }

  lemma RepeatedAppend(targets: seq<Block>, front: seq<Edge>, e: Edge)
    ensures NoRepeatedInternalEdge(targets, front + [e]) <==>
            NoRepeatedInternalEdge(targets, front)
            && (IsInternal(targets, e) ==> forall i ::
                                             0 <= i < |front| && IsInternal(targets, front[i])
                                             ==> !SameConnection(front[i], e))
  {
    var edges := front + [e];
    assert forall i :: 0 <= i < |front| ==> edges[i] == front[i];
    assert edges[|front|] == e;
  }

  // --- the theorems -------------------------------------------------------------------------------

  /** Grouping moves blocks, it neither loses nor invents any. */
  lemma GroupKeepsLeaves(g: Topology, targets: seq<Block>, spawned: Option<(Id, string)>)
    requires Groupable(g, targets, spawned) && Group(g, targets, spawned).0 == Done
    ensures Leaves(Group(g, targets, spawned).1.blocks) == Leaves(g.blocks)
  {
    var g' := Group(g, targets, spawned).1;
    GroupedLookups(g, targets, spawned, g'.blocks[|g'.blocks| - 1]);
  }

  /** The pieces of a successful grouping. */
  lemma GroupedShape(g: Topology, targets: seq<Block>, spawned: Option<(Id, string)>) returns (p: Plan, sub: Block)
    requires Group(g, targets, spawned).0 == Done
    ensures PlanEdges(targets, g.edges) == Some(p) && spawned.Some?
    ensures sub.SubGraph? && sub.id == spawned.value.0 && sub.blocks == targets && sub.edges == AddEdges([], p.internal)
    ensures ExportAll(targets, p.exports) == Some(sub.exports)
    ensures Group(g, targets, spawned).1 == Topology(Ungrouped(targets, g.blocks) + [sub],
              Untouched(targets, g.edges) + Reconnected(Ungrouped(targets, g.blocks) + [sub], sub.id, p.crossing))
  {
    p := PlanEdges(targets, g.edges).value;
    sub := SubGraph(spawned.value.0, spawned.value.1, targets, AddEdges([], p.internal),
                    ExportAll(targets, p.exports).value);
  }

  /** The connection of f is that of e, but for an undefined buffer size having been replaced. */
  ghost predicate BufferChosen(blocks: seq<Block>, e: Edge, outer: seq<Block>, f: Edge) {
    && LinkOf(outer, f) == LinkOf(blocks, e).(minBufferSize := f.minBufferSize)
    && f.minBufferSize != UNDEFINED_SIZE
    && (e.minBufferSize != UNDEFINED_SIZE ==> f.minBufferSize == e.minBufferSize)
  }

  lemma CrossingLinks(g: Topology, targets: seq<Block>, spawned: Option<(Id, string)>, p: Plan, sub: Block, i: nat)
    requires Groupable(g, targets, spawned) && spawned.Some? && PlanEdges(targets, g.edges) == Some(p)
    requires sub.SubGraph? && sub.id == spawned.value.0 && sub.blocks == targets
    requires ExportAll(targets, p.exports) == Some(sub.exports)
    requires i < |p.crossing|
    ensures var blocks := Ungrouped(targets, g.blocks) + [sub];
            BufferChosen(g.blocks, p.crossing[i].edge, blocks, Reconnected(blocks, sub.id, p.crossing)[i])
  {
    PlanSound(targets, g.edges);
    assert p.crossing[i] in p.crossing && EdgeInside(g.blocks, p.crossing[i].edge);
    hide PlanEdges, ExportAll, PlanIsBijection, CrossingPlanned, WellFormed, Ids, Once, FindBlock, Resolve, SourcePorts,
         Ungrouped, Connected, Redirected, BufferChosen, LinkOf, AllDistinct;
    var blocks := Ungrouped(targets, g.blocks) + [sub];
    ReconnectedAt(blocks, sub.id, p.crossing);
    hide Reconnected;
    var c := p.crossing[i];
    ConnectedChooses(g.blocks, c, blocks, sub.id, SourcePorts(blocks, Redirected(c, sub.id).src)) by {
      RedirectedResolves(g, targets, spawned, p.exports, sub, c);
    }
  }

  lemma ConnectedChooses(outer: seq<Block>, c: Crossing, blocks: seq<Block>, sub: Id, ports: seq<Slot>)
    requires var e, r := LinkOf(outer, c.edge), LinkOf(blocks, Redirected(c, sub)); e.src == r.src && e.dst == r.dst
    ensures BufferChosen(outer, c.edge, blocks, Connected(Redirected(c, sub), ports))
  {
    hide Resolve;
  }

  lemma UntouchedLinks(g: Topology, targets: seq<Block>, spawned: Option<(Id, string)>, sub: Block)
    requires Groupable(g, targets, spawned) && spawned.Some?
    requires sub.SubGraph? && sub.id == spawned.value.0 && sub.blocks == targets
    ensures Links(g.blocks, Untouched(targets, g.edges))
            == Links(Ungrouped(targets, g.blocks) + [sub], Untouched(targets, g.edges))
  {
    var blocks, untouched := Ungrouped(targets, g.blocks) + [sub], Untouched(targets, g.edges);
    UntouchedSound(targets, g.edges);
    forall i | 0 <= i < |untouched| ensures LinkOf(g.blocks, untouched[i]) == LinkOf(blocks, untouched[i]) {
      assert untouched[i] in untouched;
      EdgeFoundAgain(g, targets, spawned, sub, untouched[i]);
    }
    LinksPointwise(g.blocks, untouched, blocks, untouched);
  }

  lemma InternalLinks(g: Topology, targets: seq<Block>, spawned: Option<(Id, string)>, sub: Block, p: Plan)
    requires Groupable(g, targets, spawned) && spawned.Some? && PlanEdges(targets, g.edges) == Some(p)
    requires sub.SubGraph? && sub.id == spawned.value.0 && sub.blocks == targets
    ensures Links(g.blocks, p.internal) == Links(targets, p.internal)
  {
    PlanListsAll(targets, g.edges);
    forall i | 0 <= i < |p.internal| ensures LinkOf(g.blocks, p.internal[i]) == LinkOf(targets, p.internal[i]) {
      assert p.internal[i] in p.internal;
      EdgeFoundAgain(g, targets, spawned, sub, p.internal[i]);
    }
    LinksPointwise(g.blocks, p.internal, targets, p.internal);
  }

  lemma EdgeFoundAgain(g: Topology, targets: seq<Block>, spawned: Option<(Id, string)>, sub: Block, e: Edge)
    requires Groupable(g, targets, spawned) && spawned.Some? && e in g.edges
    requires sub.SubGraph? && sub.id == spawned.value.0 && sub.blocks == targets
    requires IsGrouped(targets, e.src) == IsGrouped(targets, e.dst)
    ensures var b := if IsGrouped(targets, e.src) then targets else Ungrouped(targets, g.blocks) + [sub];
            FindBlock(b, e.src) == FindBlock(g.blocks, e.src) && FindBlock(b, e.dst) == FindBlock(g.blocks, e.dst)
  {
    GroupedLookups(g, targets, spawned, sub);
    assert EdgeInside(g.blocks, e);
    assert FindBlock(g.blocks, e.src).value in g.blocks && FindBlock(g.blocks, e.dst).value in g.blocks;
  }

  lemma Cancel<T>(a: multiset<T>, b: multiset<T>, c: multiset<T>)
    requires a + c == b + c
    ensures a == b
  {
    assert a == (a + c) - c && b == (b + c) - c;
  }

  lemma BothExact<T>(a: multiset<T>, a': multiset<T>, c: multiset<T>, c': multiset<T>)
    requires |a'| <= |a| && |c'| == |c| && (|a'| == |a| ==> a' == a)
    ensures a + c == a' + c' <==> a == a' && c == c'
  {
    if a + c == a' + c' {
      assert |a + c| == |a| + |c| && |a' + c'| == |a'| + |c'|;
      assert |a'| == |a|;
      assert c == (a + c) - a && c' == (a' + c') - a';
    }
  }

  lemma InternalExact(targets: seq<Block>, internal: seq<Edge>)
    ensures var kept := AddEdges([], internal);
            && |Links(targets, kept)| <= |Links(targets, internal)|
            && (|Links(targets, kept)| == |Links(targets, internal)| ==> kept == internal)
            && (Links(targets, kept) == Links(targets, internal) <==> NoRepeats([], internal))
  {
    AddEdgesExact([], internal);
    assert [] + internal == internal;
    LinksSize(targets, internal);
    LinksSize(targets, AddEdges([], internal));
  }

  lemma CrossingExact(blocks: seq<Block>, crossing: seq<Edge>, outer: seq<Block>, joined: seq<Edge>)
    requires |crossing| == |joined|
    requires forall i :: 0 <= i < |crossing| ==> BufferChosen(blocks, crossing[i], outer, joined[i])
    ensures |Links(blocks, crossing)| == |Links(outer, joined)|
    ensures Links(blocks, crossing) == Links(outer, joined)
            <==> forall e :: e in crossing ==> e.minBufferSize != UNDEFINED_SIZE
  {
    LinksSize(blocks, crossing);
    LinksSize(outer, joined);
    if e :| e in crossing && e.minBufferSize == UNDEFINED_SIZE {
      var l := LinkOf(blocks, e);
      assert l in Links(blocks, crossing);
      forall f | f in joined ensures LinkOf(outer, f).minBufferSize != UNDEFINED_SIZE {
        var i :| 0 <= i < |joined| && joined[i] == f;
        assert BufferChosen(blocks, crossing[i], outer, joined[i]);
      }
    } else {
      forall i | 0 <= i < |crossing| ensures LinkOf(blocks, crossing[i]) == LinkOf(outer, joined[i]) {
        assert crossing[i] in crossing && BufferChosen(blocks, crossing[i], outer, joined[i]);
      }
      LinksPointwise(blocks, crossing, outer, joined);
    }
  }

  /** The meaning before and after, as the same part plus what became of the grouped edges. */
  lemma MeaningSplit(g: Topology, targets: seq<Block>, spawned: Option<(Id, string)>, p: Plan, sub: Block)
    requires Groupable(g, targets, spawned) && spawned.Some? && PlanEdges(targets, g.edges) == Some(p)
    requires sub.SubGraph? && sub.id == spawned.value.0 && sub.blocks == targets
    ensures var blocks, untouched := Ungrouped(targets, g.blocks) + [sub], Untouched(targets, g.edges);
            var joined := Reconnected(blocks, sub.id, p.crossing);
            var rest := Links(blocks, untouched) + InnerLinks(g.blocks);
            && Meaning(g) == (Links(targets, p.internal) + Links(g.blocks, CrossingEdges(p.crossing))) + rest
            && Meaning(Topology(blocks, untouched + joined))
               == (Links(targets, sub.edges) + Links(blocks, joined)) + rest
  {
    var blocks, untouched := Ungrouped(targets, g.blocks) + [sub], Untouched(targets, g.edges);
    var joined := Reconnected(blocks, sub.id, p.crossing);
    UntouchedLinks(g, targets, spawned, sub);
    InternalLinks(g, targets, spawned, sub, p);
    PlanSplitsLinks(targets, g.edges, g.blocks);
    LinksAppend(blocks, untouched, joined);
    assert InnerLinks(blocks) + InnerLinks(targets) == InnerLinks(g.blocks) + InnerLinksOf(sub) by {
      GroupedLookups(g, targets, spawned, sub);
    }
    assert InnerLinksOf(sub) == Links(targets, sub.edges) + InnerLinks(targets);
    Shuffle(Links(blocks, untouched), Links(blocks, joined), InnerLinks(blocks), InnerLinks(g.blocks),
            Links(targets, sub.edges), InnerLinks(targets));
  }

  lemma Shuffle<T>(u: multiset<T>, j: multiset<T>, inner: multiset<T>, outer: multiset<T>, s: multiset<T>,
                   t: multiset<T>)
    requires inner + t == outer + (s + t)
    ensures (u + j) + inner == (s + j) + (u + outer)
  {
    assert inner + t == (outer + s) + t;
    Cancel(inner, outer + s, t);
  }

  /** Grouping keeps every resolved connection exactly when no internal edge repeats another and every
      crossing edge has a buffer size. */
  lemma GroupKeepsMeaning(g: Topology, targets: seq<Block>, spawned: Option<(Id, string)>)
    requires Groupable(g, targets, spawned) && Group(g, targets, spawned).0 == Done
    ensures Meaning(Group(g, targets, spawned).1) == Meaning(g)
       <==> NoRepeatedInternalEdge(targets, g.edges) && CrossingBuffersDefined(targets, g.edges)
  {
    var p, sub := GroupedShape(g, targets, spawned);
    var blocks := Ungrouped(targets, g.blocks) + [sub];
    var joined, crossing := Reconnected(blocks, sub.id, p.crossing), CrossingEdges(p.crossing);
    MeaningSplit(g, targets, spawned, p, sub);
    forall i | 0 <= i < |crossing| ensures BufferChosen(g.blocks, crossing[i], blocks, joined[i]) {
      CrossingLinks(g, targets, spawned, p, sub, i);
    }
    CrossingExact(g.blocks, crossing, blocks, joined);
    InternalExact(targets, p.internal);
    BothExact(Links(targets, p.internal), Links(targets, sub.edges), Links(g.blocks, crossing), Links(blocks, joined));
    PlanRepeats(targets, g.edges);
    PlanListsAll(targets, g.edges);
    var rest := Links(blocks, Untouched(targets, g.edges)) + InnerLinks(g.blocks);
    if Meaning(Group(g, targets, spawned).1) == Meaning(g) {
      Cancel(Links(targets, p.internal) + Links(g.blocks, crossing), Links(targets, sub.edges) + Links(blocks, joined),
             rest);
    }
  }

  lemma ReconnectedInside(g: Topology, targets: seq<Block>, spawned: Option<(Id, string)>, p: Plan, sub: Block)
    requires Groupable(g, targets, spawned) && spawned.Some? && PlanEdges(targets, g.edges) == Some(p)
    requires sub.SubGraph? && sub.id == spawned.value.0 && sub.blocks == targets
    ensures var blocks := Ungrouped(targets, g.blocks) + [sub];
            EdgesInside(blocks, Reconnected(blocks, sub.id, p.crossing))
  {
    var blocks := Ungrouped(targets, g.blocks) + [sub];
    GroupedLookups(g, targets, spawned, sub);
    PlanSound(targets, g.edges);
    ReconnectedAt(blocks, sub.id, p.crossing);
    var joined := Reconnected(blocks, sub.id, p.crossing);
    forall i | 0 <= i < |joined| ensures EdgeInside(blocks, joined[i]) {
      var c := p.crossing[i];
      assert c in p.crossing && c.edge in g.edges && EdgeInside(g.blocks, c.edge)
             && CrossingPlanned(targets, p.exports, c);
      var src, dst := FindBlock(g.blocks, c.edge.src).value, FindBlock(g.blocks, c.edge.dst).value;
      assert src in g.blocks && dst in g.blocks;
    }
  }

  lemma StayingInside(g: Topology, targets: seq<Block>, spawned: Option<(Id, string)>, p: Plan, sub: Block)
    requires Groupable(g, targets, spawned) && spawned.Some? && PlanEdges(targets, g.edges) == Some(p)
    requires sub.SubGraph? && sub.id == spawned.value.0 && sub.blocks == targets
    requires sub.edges == AddEdges([], p.internal)
    ensures EdgesInside(targets, sub.edges)
    ensures EdgesInside(Ungrouped(targets, g.blocks) + [sub], Untouched(targets, g.edges))
  {
    hide Ids, Once, Links, Leaves, FindBlock, PlanEdges, Ungrouped, Untouched, IsGrouped, AddEdges, NoRepeats;
    PlanListsAll(targets, g.edges);
    AddEdgesExact([], p.internal);
    UntouchedSound(targets, g.edges);
    assert sub.edges[0..] == sub.edges;
    forall e | e in sub.edges ensures e in g.edges && IsInternal(targets, e) {}
    forall e | e in sub.edges || e in Untouched(targets, g.edges)
      ensures EdgeInside(if IsGrouped(targets, e.src) then targets else Ungrouped(targets, g.blocks) + [sub], e)
    {
      assert e in g.edges && EdgeInside(g.blocks, e);
      EdgeFoundAgain(g, targets, spawned, sub, e);
    }
  }

  lemma GroupKeepsWellFormed(g: Topology, targets: seq<Block>, spawned: Option<(Id, string)>)
    requires Groupable(g, targets, spawned) && Group(g, targets, spawned).0 == Done
    ensures WellFormed(Group(g, targets, spawned).1)
  {
    var p, sub := GroupedShape(g, targets, spawned);
    GroupedLookups(g, targets, spawned, sub);
    UngroupedBlocks(targets, g.blocks);
    StayingInside(g, targets, spawned, p, sub);
    ReconnectedInside(g, targets, spawned, p, sub);
    assert forall b :: b in targets ==> Sound(b);
  }

  // --- the error that comes too late --------------------------------------------------------------

  /** The inner end of an edge names a port its block has. A definition by name is never checked while
      planning, and a definition by index only against the length of the port list. */
  predicate InsidePortExists(targets: seq<Block>, e: Edge)
    requires IsCrossing(targets, e)
  {
    var (id, def, dir) := InsideEnd(targets, e);
    var ports := Ports(FindBlock(targets, id).value, dir);
    DefinedPortName(ports, def).Some? && FindPort(ports, DefinedPortName(ports, def).value).Some?
  }

  lemma GroupRefusedTooLate(g: Topology, targets: seq<Block>, spawned: Option<(Id, string)>)
    requires targets != [] && PlanEdges(targets, g.edges).Some? && spawned.Some?
    ensures Group(g, targets, spawned).0 == ExportRefused
       <==> exists e :: e in g.edges && IsCrossing(targets, e) && !InsidePortExists(targets, e)
  {
    hide PlanEdges, ExportAll, FindBlock, InsidePortExists, PortExists, IsCrossing, PlanIsBijection, CrossingPlanned;
    var p := PlanEdges(targets, g.edges).value;
    PlanSound(targets, g.edges);
    ExportAllSound(targets, p.exports);
    if x :| x in p.exports && !PortExists(targets, x) {
      var e := MissingPortEdge(g, targets, x);
    }
    if e :| e in g.edges && IsCrossing(targets, e) && !InsidePortExists(targets, e) {
      var x := MissingPortExport(g, targets, e);
    }
  }

  lemma MissingPortEdge(g: Topology, targets: seq<Block>, x: Planned) returns (e: Edge)
    requires PlanEdges(targets, g.edges).Some? && x in PlanEdges(targets, g.edges).value.exports
    requires !PortExists(targets, x)
    ensures e in g.edges && IsCrossing(targets, e) && !InsidePortExists(targets, e)
  {
    hide PlanEdges;
    var crossing := PlanEdges(targets, g.edges).value.crossing;
    PlanListsAll(targets, g.edges);
    var c := PlanMinimal(targets, g.edges, x);
    e := c.edge;
    var i :| 0 <= i < |crossing| && crossing[i] == c;
    assert CrossingEdges(crossing)[i] == e;
  }

  lemma MissingPortExport(g: Topology, targets: seq<Block>, e: Edge) returns (x: Planned)
    requires PlanEdges(targets, g.edges).Some? && e in g.edges && IsCrossing(targets, e)
    requires !InsidePortExists(targets, e)
    ensures x in PlanEdges(targets, g.edges).value.exports && !PortExists(targets, x)
  {
    hide PlanEdges;
    var p := PlanEdges(targets, g.edges).value;
    PlanSound(targets, g.edges);
    PlanListsAll(targets, g.edges);
    var i :| 0 <= i < |p.crossing| && CrossingEdges(p.crossing)[i] == e;
    assert CrossingPlanned(targets, p.exports, p.crossing[i]);
    var (id, def, dir) := InsideEnd(targets, e);
    x := Planned(id, dir, DefinedPortName(Ports(FindBlock(targets, id).value, dir), def).value, p.crossing[i].port);
  }

  lemma {:induction false} UntouchedShorter(targets: seq<Block>, edges: seq<Edge>, e: Edge)
    requires e in edges && IsCrossing(targets, e)
    ensures |Untouched(targets, edges)| < |edges|
  {
    var front := edges[..|edges| - 1];
    assert edges == front + [edges[|edges| - 1]];
    if e in front { UntouchedShorter(targets, front, e); } else { UntouchedAtMost(targets, front); }
  }

  lemma {:induction false} UntouchedAtMost(targets: seq<Block>, edges: seq<Edge>)
    ensures |Untouched(targets, edges)| <= |edges|
  {
    if edges != [] { UntouchedAtMost(targets, edges[..|edges| - 1]); }
  }

  /** A grouping that fails leaves the graph as it was unless an export is refused: by then the blocks
      and every edge that touches them are gone. */
  lemma GroupFailureIsCleanUnlessRefused(g: Topology, targets: seq<Block>, spawned: Option<(Id, string)>)
    requires Group(g, targets, spawned).0 != Done
    ensures Group(g, targets, spawned).1 == g <==> Group(g, targets, spawned).0 != ExportRefused
  {
    if Group(g, targets, spawned).0 == ExportRefused {
      GroupRefusedTooLate(g, targets, spawned);
      var e :| e in g.edges && IsCrossing(targets, e) && !InsidePortExists(targets, e);
      UntouchedShorter(targets, g.edges, e);
    }
  }

  /** A source feeding a sink through a port name the source does not have: grouping the source fails,
      and the source and its edge have left the graph. */
  lemma GroupLosesBlocks()
    ensures var source := Leaf("s#0", "s", [], [Single("out", true)]);
            var sink := Leaf("t#1", "t", [Single("in", true)], []);
            var e := Edge("s#0", ByName("ou"), "t#1", ByName("in"), 4096, 0, "e");
            Group(Topology([source, sink], [e]), [source], Some(("g#2", "g"))) == (ExportRefused, Topology([sink], []))
  {
    hide Group, Ungrouped, Untouched, PlanEdges, ExportAll;
    var source := Leaf("s#0", "s", [], [Single("out", true)]);
    var sink := Leaf("t#1", "t", [Single("in", true)], []);
    var e := Edge("s#0", ByName("ou"), "t#1", ByName("in"), 4096, 0, "e");
    var targets, g := [source], Topology([source, sink], [e]);
    assert "s#0" != "t#1" by { assert "s#0"[0] != "t#1"[0]; }
    FirstOfTwo(source, sink, e);
    assert "ou" != "out" by { assert |"ou"| != |"out"|; }
    assert PlanEdges(targets, [e]).Some?;
    assert !InsidePortExists(targets, e) by {
      assert HashPosition("ou") == 2 by { assert "ou"[1..] == "u" && "u"[1..] == ""; }
      assert [Single("out", true)][1..] == [];
    }
    assert e in g.edges;
    GroupRefusedTooLate(g, targets, Some(("g#2", "g")));
    RefusedShape(g, targets, Some(("g#2", "g")));
  }

  /** What is planned, goes and stays when the first of two connected blocks is grouped. */
  lemma FirstOfTwo(a: Block, b: Block, e: Edge)
    requires a.id != b.id && e.src == a.id && e.dst == b.id
    ensures IsGrouped([a], a.id) && !IsGrouped([a], b.id) && FindBlock([a], a.id) == Some(a)
    ensures Ungrouped([a], [a, b]) == [b] && Untouched([a], [e]) == []
    ensures PlanEdges([a], [e]) == PlanEdge([a], Plan([], [], []), e)
  {
    var targets := [a];
    assert targets[0].id == a.id;
    assert [a, b][..1] == [a] && [a][..0] == [] && [e][..0] == [];
    assert Ungrouped(targets, [a]) == [];
    assert [a, b][1] == b;
  }

  /** The blocks and edges taken out before an export is refused stay out. */
  lemma RefusedShape(g: Topology, targets: seq<Block>, spawned: Option<(Id, string)>)
    requires Group(g, targets, spawned).0 == ExportRefused
    ensures Group(g, targets, spawned).1 == Topology(Ungrouped(targets, g.blocks), Untouched(targets, g.edges))
  {
  }

  /** Two equal connections with different weights: grouping both blocks drops the second one. */
  lemma GroupDropsRepeatedEdge()
    ensures var a, b := Leaf("a", "a", [], [Single("out", true)]), Leaf("b", "b", [Single("in", true)], []);
            var e := Edge("a", ByName("out"), "b", ByName("in"), 4096, 0, "e");
            var g := Topology([a, b], [e, e.(weight := 1)]);
            Group(g, [a, b], Some(("g", "g"))).0 == Done && Meaning(Group(g, [a, b], Some(("g", "g"))).1) != Meaning(g)
  {
    var a, b := Leaf("a", "a", [], [Single("out", true)]), Leaf("b", "b", [Single("in", true)], []);
    var e := Edge("a", ByName("out"), "b", ByName("in"), 4096, 0, "e");
    var f := e.(weight := 1);
    var targets, edges := [a, b], [e, f];
    var g := Topology(targets, edges);
    TwoLeaves(a, b);
    assert IsInternal(targets, e) && IsInternal(targets, f) by { assert targets[0].id == "a" && targets[1].id == "b"; }
    assert edges[..1] == [e] && [e][..0] == [];
    assert PlanEdges(targets, [e]) == Some(Plan([], [] + [e], []));
    assert PlanEdges(targets, edges) == Some(Plan([], [] + [e] + [f], []));
    assert ExportAll(targets, []) == Some([]);
    assert EdgesInside(targets, edges);
    assert SameConnection(edges[0], edges[1]);
    GroupKeepsMeaning(g, targets, Some(("g", "g")));
  }

  /** An edge without a buffer size that crosses the group's border gets one. */
  lemma GroupChoosesBufferSize()
    ensures var a, b := Leaf("a", "a", [], [Single("out", true)]), Leaf("b", "b", [Single("in", true)], []);
            var e := Edge("a", ByName("out"), "b", ByName("in"), UNDEFINED_SIZE, 0, "e");
            var g := Topology([a, b], [e]);
            Group(g, [b], Some(("g", "g"))).0 == Done && Meaning(Group(g, [b], Some(("g", "g"))).1) != Meaning(g)
  {
    var a, b := Leaf("a", "a", [], [Single("out", true)]), Leaf("b", "b", [Single("in", true)], []);
    var e := Edge("a", ByName("out"), "b", ByName("in"), UNDEFINED_SIZE, 0, "e");
    var targets, edges := [b], [e];
    var g := Topology([a, b], edges);
    TwoLeaves(a, b);
    EdgeBetween(a, b, e);
    EntryPlanned(b, e);
    hide PlanEdges, FindBlock, Ids, Once, Group, Meaning, InsidePortExists, IsCrossing, IsGrouped;
    UndefinedBufferChanges(g, targets, Some(("g", "g")), e);
  }

  /** Any crossing edge without a buffer size changes the meaning of a grouping that succeeds. */
  lemma UndefinedBufferChanges(g: Topology, targets: seq<Block>, spawned: Option<(Id, string)>, e: Edge)
    requires Groupable(g, targets, spawned) && targets != [] && PlanEdges(targets, g.edges).Some? && spawned.Some?
    requires forall x :: x in g.edges && IsCrossing(targets, x) ==> InsidePortExists(targets, x)
    requires e in g.edges && IsCrossing(targets, e) && e.minBufferSize == UNDEFINED_SIZE
    ensures Group(g, targets, spawned).0 == Done && Meaning(Group(g, targets, spawned).1) != Meaning(g)
  {
    hide PlanEdges, FindBlock, Ids, Once, Group, Meaning, InsidePortExists, IsCrossing, IsGrouped, WellFormed;
    GroupRefusedTooLate(g, targets, spawned);
    GroupDone(g, targets, spawned);
    GroupKeepsMeaning(g, targets, spawned);
  }

  lemma GroupDone(g: Topology, targets: seq<Block>, spawned: Option<(Id, string)>)
    requires targets != [] && PlanEdges(targets, g.edges).Some? && spawned.Some?
    requires Group(g, targets, spawned).0 != ExportRefused
    ensures Group(g, targets, spawned).0 == Done
  {
    hide PlanEdges, ExportAll, Ungrouped, Untouched, Reconnected, AddEdges;
  }

  lemma EdgeBetween(a: Block, b: Block, e: Edge)
    requires a == Leaf("a", "a", [], [Single("out", true)]) && b == Leaf("b", "b", [Single("in", true)], [])
    requires e == Edge("a", ByName("out"), "b", ByName("in"), UNDEFINED_SIZE, 0, "e")
    ensures EdgesInside([a, b], [e])
  {
    TwoLeaves(a, b);
    hide FindBlock;
  }

  lemma EntryPlanned(b: Block, e: Edge)
    requires b == Leaf("b", "b", [Single("in", true)], [])
    requires e == Edge("a", ByName("out"), "b", ByName("in"), UNDEFINED_SIZE, 0, "e")
    ensures IsCrossing([b], e) && PlanEdges([b], [e]).Some? && InsidePortExists([b], e)
    ensures forall x :: x in [e] && IsCrossing([b], x) ==> InsidePortExists([b], x)
  {
    var targets, edges := [b], [e];
    assert IsGrouped(targets, "b") by { assert targets[0].id == "b"; }
    assert !IsGrouped(targets, "a");
    assert edges[..0] == [];
    assert PlanEdges(targets, edges) == PlanEdge(targets, Plan([], [], []), e);
    assert InsidePortExists(targets, e) by {
      assert HashPosition("in") == 2 by { assert "in"[1..] == "n" && "n"[1..] == ""; }
    }
  }

  lemma TwoLeaves(a: Block, b: Block)
    requires a.Leaf? && b.Leaf? && a.id == "a" && b.id == "b"
    ensures Ids([a, b]) == multiset{"a", "b"} && Once(Ids([a, b]))
    ensures FindBlock([a, b], "a") == Some(a) && FindBlock([a, b], "b") == Some(b)
  {
    assert [a, b][1..] == [b] && [b][1..] == [];
    assert Ids([b]) == multiset{"b"} + Ids([]);
    assert Ids([a, b]) == multiset{"a"} + Ids([b]);
    assert "a"[0] != "b"[0];
  }
}
